/**
  The capacity arithmetic (cuotas_service.go, nodo_service.go,
  configuracion_instancias.go), with 64-bit integers where the code has them.
 */
module CapacityMath {
  import opened Int64

  const MIB: int := 1024 * 1024
  const HEADROOM: int := 15

  function Max(a: int, b: int): int {
    if a >= b then a else b
  }

  // ---------- The headroom ----------

  /** porcentajeRedondeadoHaciaArriba, quotient and remainder apart. */
  function PorcentajeArriba(total: int, porcentaje: int): int {
    if total <= 0 || porcentaje <= 0 then 0
    else (total / 100) * porcentaje + (total % 100 * porcentaje + 99) / 100
  }

  /** The least integer not under total * p / 100, and no intermediate result leaves 64 bits. */
  lemma PercentageIsCeiling(total: int, p: int)
    requires 0 <= total <= MAX64 && 0 <= p <= 100
    ensures var r := PorcentajeArriba(total, p);
      && total * p <= 100 * r < total * p + 100
      && 0 <= r <= total
    ensures Fits64(total / 100 * p) && Fits64(total % 100 * p + 99) && Fits64(total / 100 * p + (total % 100 * p + 99) / 100)
  {
    var q, m := total / 100, total % 100;
    assert total * p == 100 * (q * p) + m * p by { assert total == 100 * q + m; Distribute(q, m, p); }
    assert 0 <= m * p <= 99 * 100 by { MulBounds(m, 99, p, 100); }
    assert 0 <= q * p <= q * 100 by { MulBounds(q, q, p, 100); }
    assert total * p <= total * 100 by { MulBounds(total, total, p, 100); }
  }

  lemma Distribute(q: int, m: int, p: int)
    ensures (100 * q + m) * p == 100 * (q * p) + m * p
  {
  }

  lemma MulBounds(a: int, a': int, b: int, b': int)
    requires 0 <= a <= a' && 0 <= b <= b'
    ensures 0 <= a * b <= a' * b'
  {
  }

  // ---------- Sizes ----------

  /** cantidadEnBytes */
  function CantidadEnBytes(cantidad: int, unidad: int): (int, bool) {
    if cantidad < 0 || unidad <= 0 then (0, false)
    else if cantidad > MAX64 / unidad then (0, false)
    else (cantidad * unidad, true)
  }

  /** A size is accepted exactly when it is not negative and fits, and then it is exact. */
  lemma SizesAreExact(cantidad: int, unidad: int)
    requires unidad > 0
    ensures var (bytes, ok) := CantidadEnBytes(cantidad, unidad);
      && (ok <==> cantidad >= 0 && cantidad * unidad <= MAX64)
      && (ok ==> bytes == cantidad * unidad)
  {
    var q := MAX64 / unidad;
    assert q * unidad <= MAX64 < (q + 1) * unidad;
    if 0 <= cantidad <= q {
      MulBounds(cantidad, q, unidad, unidad);
    } else if cantidad > q {
      MulBounds(q + 1, cantidad, unidad, unidad);
    }
  }

  // ---------- The increment of a reconfiguration ----------

  /** int64(memoriaMB) * bytesPorMiB - inst.MaxMem */
  function DeltaMemoria(memoriaMB: int, maxMem: int): int {
    Wrap64(Wrap64(memoriaMB * MIB) - maxMem)
  }

  /** The increment is the real one exactly when the real one fits in 64 bits. */
  lemma DeltaIsExactIff(memoriaMB: int, maxMem: int)
    requires 0 < memoriaMB && 0 <= maxMem <= MAX64
    ensures DeltaMemoria(memoriaMB, maxMem) == memoriaMB * MIB - maxMem <==> memoriaMB * MIB - maxMem <= MAX64
    ensures memoriaMB < 0x800_0000_0000 ==> DeltaMemoria(memoriaMB, maxMem) == memoriaMB * MIB - maxMem
  {
    var x := memoriaMB * MIB;
    var k := (x - Wrap64(x)) / TWO64;
    assert x == Wrap64(x) + k * TWO64;
    assert Wrap64(Wrap64(x) - maxMem) == Wrap64(x - maxMem);
    WrapIsExactIff(x - maxMem);
  }

  /** From 2^43 MiB on, a request can look like a reduction, which is applied without looking at the capacity. */
  lemma HugeRequestLooksLikeReduction()
    ensures DeltaMemoria(0x800_0000_0000, 0) < 0
  {
  }
}
