/**
  The RAM that may still be assigned on a node (margenRAMNodo): what the node
  reports, what the inventory assigns, a headroom of 15%, and the reservations of
  creations the inventory does not show yet.
 */
module Capacity {
  import opened Int64
  import opened CapacityMath

  datatype Instancia = Instancia(vmid: int, nodo: string, maxMem: int)
  datatype Reserva = Reserva(id: nat, vmid: int, nodo: string, storage: string, memoria: int, disco: int)
  datatype Nodo = Nodo(memTotal: int, memUsada: int)

  function Asignada(insts: seq<Instancia>, nodo: string): int {
    if insts == [] then 0
    else
      var i := insts[|insts| - 1];
      Asignada(insts[..|insts| - 1], nodo) + if i.nodo == nodo then i.maxMem else 0
  }

  /** The RAM of the first instance of the inventory that is the reserved one. */
  function Visible(insts: seq<Instancia>, r: Reserva): int {
    if insts == [] then 0
    else if r.vmid != 0 && insts[0].vmid == r.vmid && insts[0].nodo == r.nodo then insts[0].maxMem
    else Visible(insts[1..], r)
  }

  function Descubierta(insts: seq<Instancia>, r: Reserva): int {
    Max(0, r.memoria - Visible(insts, r))
  }

  function Reservada(insts: seq<Instancia>, reservas: seq<Reserva>, nodo: string): int {
    if reservas == [] then 0
    else
      var r := reservas[|reservas| - 1];
      Reservada(insts, reservas[..|reservas| - 1], nodo) + if r.nodo == nodo then Descubierta(insts, r) else 0
  }

  function Headroom(n: Nodo): int {
    PorcentajeArriba(Max(0, n.memTotal), HEADROOM)
  }

  /** 15 per cent of the node's memory, rounded up; nothing of a node that reports none. */
  lemma HeadroomIs15Percent(n: Nodo)
    requires n.memTotal <= MAX64
    ensures n.memTotal <= 0 ==> Headroom(n) == 0
    ensures n.memTotal > 0 ==> 15 * n.memTotal <= 100 * Headroom(n) < 15 * n.memTotal + 100
  {
    PercentageIsCeiling(Max(0, n.memTotal), 15);
  }

  /** Everything that is already spoken for. */
  function Comprometida(n: Nodo, insts: seq<Instancia>, reservas: seq<Reserva>, nodo: string): int {
    Max(Asignada(insts, nodo), n.memUsada) + Headroom(n) + Reservada(insts, reservas, nodo)
  }

  function Margen(n: Nodo, insts: seq<Instancia>, reservas: seq<Reserva>, nodo: string): int {
    Max(0, n.memTotal - Comprometida(n, insts, reservas, nodo))
  }

  predicate Sane(insts: seq<Instancia>, reservas: seq<Reserva>) {
    && (forall i :: 0 <= i < |insts| ==> 0 <= insts[i].maxMem)
    && (forall i :: 0 <= i < |reservas| ==> 0 <= reservas[i].memoria)
  }

  lemma {:induction false} SumsAreMonotone(insts: seq<Instancia>, reservas: seq<Reserva>, nodo: string, i: nat, j: nat)
    requires Sane(insts, reservas)
    ensures i <= |insts| ==> 0 <= Asignada(insts[..i], nodo) <= Asignada(insts, nodo)
    ensures j <= |reservas| ==> 0 <= Reservada(insts, reservas[..j], nodo) <= Reservada(insts, reservas, nodo)
    decreases |insts| + |reservas| - i - j
  {
    AssignedMonotone(insts, nodo, i);
    ReservedMonotone(insts, reservas, nodo, j);
  }

  lemma {:induction false} AssignedMonotone(insts: seq<Instancia>, nodo: string, i: nat)
    requires Sane(insts, [])
    ensures i <= |insts| ==> 0 <= Asignada(insts[..i], nodo) <= Asignada(insts, nodo)
    decreases |insts|
  {
    if insts != [] {
      var init := insts[..|insts| - 1];
      AssignedMonotone(init, nodo, if i < |insts| then i else |init|);
      assert i < |insts| ==> insts[..i] == init[..i];
      assert init[..|init|] == init && insts[..|insts|] == insts;
    }
  }

  lemma {:induction false} ReservedMonotone(insts: seq<Instancia>, reservas: seq<Reserva>, nodo: string, j: nat)
    ensures j <= |reservas| ==> 0 <= Reservada(insts, reservas[..j], nodo) <= Reservada(insts, reservas, nodo)
    decreases |reservas|
  {
    if reservas != [] {
      var init := reservas[..|reservas| - 1];
      ReservedMonotone(insts, init, nodo, if j < |reservas| then j else |init|);
      assert j < |reservas| ==> reservas[..j] == init[..j];
      assert init[..|init|] == init && reservas[..|reservas|] == reservas;
    }
  }

  /** The inner loop: it stops at the first match. */
  method MemoriaVisible(insts: seq<Instancia>, r: Reserva) returns (visible: int)
    ensures visible == Visible(insts, r)
  {
    visible := 0;
    var k := 0;
    while k < |insts|
      invariant k <= |insts| && visible == 0 && Visible(insts, r) == Visible(insts[k..], r)
    {
      if r.vmid != 0 && insts[k].vmid == r.vmid && insts[k].nodo == r.nodo {
        return insts[k].maxMem;
      }
      assert insts[k..][1..] == insts[k + 1..];
      k := k + 1;
    }
  }

  // ---------- In 64 bits ----------

  /** What the second loop adds up: the differences wrap one by one. */
  function Reservada64(insts: seq<Instancia>, reservas: seq<Reserva>, nodo: string): int {
    if reservas == [] then 0
    else
      var r := reservas[|reservas| - 1];
      Reservada64(insts, reservas[..|reservas| - 1], nodo) + if r.nodo == nodo then Max(0, Wrap64(r.memoria - Visible(insts, r))) else 0
  }

  /** margenRAMNodo, for any 64-bit readings. */
  function Margen64(n: Nodo, insts: seq<Instancia>, reservas: seq<Reserva>, nodo: string): int {
    Max(0, Wrap64(n.memTotal - Max(Wrap64(Asignada(insts, nodo)), n.memUsada) - Headroom(n) - Reservada64(insts, reservas, nodo)))
  }

  predicate Fits(n: Nodo, insts: seq<Instancia>, reservas: seq<Reserva>) {
    && Fits64(n.memTotal) && Fits64(n.memUsada)
    && (forall i :: 0 <= i < |insts| ==> Fits64(insts[i].maxMem))
    && (forall i :: 0 <= i < |reservas| ==> Fits64(reservas[i].memoria))
  }

  method SumaAsignada(insts: seq<Instancia>, nodo: string) returns (asignada: int)
    ensures asignada == Wrap64(Asignada(insts, nodo))
  {
    asignada := 0;
    var k := 0;
    while k < |insts|
      invariant k <= |insts| && asignada == Wrap64(Asignada(insts[..k], nodo))
    {
      assert insts[..k + 1][..k] == insts[..k];
      WrapAbsorbs(Asignada(insts[..k], nodo), insts[k].maxMem);
      if insts[k].nodo == nodo { asignada := Wrap64(asignada + insts[k].maxMem); }
      k := k + 1;
    }
    assert insts[..k] == insts;
  }

  method SumaReservada(insts: seq<Instancia>, reservas: seq<Reserva>, nodo: string) returns (reservada: int)
    ensures reservada == Wrap64(Reservada64(insts, reservas, nodo))
  {
    reservada := 0;
    var k := 0;
    while k < |reservas|
      invariant k <= |reservas| && reservada == Wrap64(Reservada64(insts, reservas[..k], nodo))
    {
      assert reservas[..k + 1][..k] == reservas[..k];
      if reservas[k].nodo == nodo {
        var visible := MemoriaVisible(insts, reservas[k]);
        WrapAbsorbs(Reservada64(insts, reservas[..k], nodo), Max(0, Wrap64(reservas[k].memoria - visible)));
        reservada := Wrap64(reservada + Max(0, Wrap64(reservas[k].memoria - visible)));
      }
      k := k + 1;
    }
    assert reservas[..k] == reservas;
  }

  /** margenRAMNodo: the two loops, the greater of assigned and used, and three wrapping subtractions. */
  method MargenRAMNodo(n: Nodo, insts: seq<Instancia>, reservas: seq<Reserva>, nodo: string) returns (margen: int)
    ensures margen == Margen64(n, insts, reservas, nodo)
  {
    hide PorcentajeArriba, Wrap64;
    var comprometida := SumaAsignada(insts, nodo);
    var reservada := SumaReservada(insts, reservas, nodo);
    if n.memUsada > comprometida { comprometida := n.memUsada; }
    var host := PorcentajeArriba(Max(0, n.memTotal), HEADROOM);
    WrapAbsorbs(n.memTotal - comprometida, -host);
    WrapAbsorbs(n.memTotal - comprometida - host, -reservada);
    WrapAbsorbs(Reservada64(insts, reservas, nodo), n.memTotal - comprometida - host);
    margen := Max(0, Wrap64(Wrap64(Wrap64(n.memTotal - comprometida) - host) - reservada));
  }

  lemma {:induction false} VisibleFits(insts: seq<Instancia>, r: Reserva)
    requires forall i :: 0 <= i < |insts| ==> 0 <= insts[i].maxMem <= MAX64
    ensures 0 <= Visible(insts, r) <= MAX64
  {
    if insts != [] { VisibleFits(insts[1..], r); }
  }

  lemma {:induction false} ReservedIsExact(insts: seq<Instancia>, reservas: seq<Reserva>, nodo: string)
    requires Sane(insts, reservas)
    requires forall i :: 0 <= i < |reservas| ==> reservas[i].memoria <= MAX64
    requires forall i :: 0 <= i < |insts| ==> insts[i].maxMem <= MAX64
    ensures Reservada64(insts, reservas, nodo) == Reservada(insts, reservas, nodo)
  {
    if reservas != [] {
      var r := reservas[|reservas| - 1];
      ReservedIsExact(insts, reservas[..|reservas| - 1], nodo);
      VisibleFits(insts, r);
      WrapIsExactIff(r.memoria - Visible(insts, r));
    }
  }

  /** By how much what the code adds up exceeds the node, before its subtractions wrap. */
  function Exceso(n: Nodo, insts: seq<Instancia>, reservas: seq<Reserva>, nodo: string): int {
    Max(Wrap64(Asignada(insts, nodo)), n.memUsada) + Headroom(n) + Reservada(insts, reservas, nodo) - n.memTotal
  }

  /** Nothing is exceeded and the assigned memory does not wrap, or what is exceeded is in the lower half of a turn of 2^64. */
  predicate MargenExacto(n: Nodo, insts: seq<Instancia>, reservas: seq<Reserva>, nodo: string) {
    var d := Exceso(n, insts, reservas, nodo);
    (d <= 0 && Asignada(insts, nodo) <= MAX64) || d % TWO64 <= TWO63
  }

  /**
    For every 64-bit reading the code's margin is never under the real one, and
    this is exactly when it is the real one.
   */
  lemma MarginIsExactIff(n: Nodo, insts: seq<Instancia>, reservas: seq<Reserva>, nodo: string)
    requires Sane(insts, reservas) && Fits(n, insts, reservas)
    ensures Margen64(n, insts, reservas, nodo) == Margen(n, insts, reservas, nodo) <==> MargenExacto(n, insts, reservas, nodo)
    ensures Margen(n, insts, reservas, nodo) <= Margen64(n, insts, reservas, nodo)
  {
    var d := Exceso(n, insts, reservas, nodo);
    SumsAreMonotone(insts, reservas, nodo, 0, 0);
    ReservedIsExact(insts, reservas, nodo);
    PercentageIsCeiling(Max(0, n.memTotal), HEADROOM);
    OppositeWraps(d);
    hide PorcentajeArriba, Wrap64;
    WrapIsExactIff(Asignada(insts, nodo));
    WrapIsExactIff(-d);
  }

  /** While the assigned memory does not wrap and less than 2^64 is exceeded, the margin is wrong from 2^63 on. */
  lemma MarginIsExact(n: Nodo, insts: seq<Instancia>, reservas: seq<Reserva>, nodo: string)
    requires Sane(insts, reservas) && Fits(n, insts, reservas)
    requires Asignada(insts, nodo) <= MAX64 && Comprometida(n, insts, reservas, nodo) < n.memTotal + TWO64
    ensures Margen64(n, insts, reservas, nodo) == Margen(n, insts, reservas, nodo)
      <==> Comprometida(n, insts, reservas, nodo) <= n.memTotal + TWO63
  {
    hide Margen, Margen64, Headroom, Reservada;
    MarginIsExactIff(n, insts, reservas, nodo);
    AssignedMonotone(insts, nodo, 0);
    WrapIsExactIff(Asignada(insts, nodo));
  }

  /** A node with no room at all can look empty, or almost all that 64 bits can say. */
  lemma WrappedMarginIsTooLarge()
    ensures var n, insts := Nodo(1000, 0), [Instancia(1, "pve", MAX64), Instancia(2, "pve", MAX64)];
      Margen64(n, insts, [], "pve") == 850 && Margen(n, insts, [], "pve") == 0
    ensures var n, insts, reservas := Nodo(1000, 0), [Instancia(1, "pve", MAX64)], [Reserva(1, 0, "pve", "local", 1000, 0)];
      && Asignada(insts, "pve") == MAX64 && Comprometida(n, insts, reservas, "pve") < n.memTotal + TWO64
      && Margen64(n, insts, reservas, "pve") == TWO63 - 149 && Margen(n, insts, reservas, "pve") == 0
  {
    var insts := [Instancia(1, "pve", MAX64), Instancia(2, "pve", MAX64)];
    assert insts[..1] == [insts[0]] && insts[..1][..0] == [];
    assert Asignada(insts[..1], "pve") == MAX64;
    OneAgainstOne();
  }

  lemma OneAgainstOne()
    ensures var insts, reservas := [Instancia(1, "pve", MAX64)], [Reserva(1, 0, "pve", "local", 1000, 0)];
      && Asignada(insts, "pve") == MAX64
      && Reservada64(insts, reservas, "pve") == 1000 && Reservada(insts, reservas, "pve") == 1000
  {
    var insts, reservas := [Instancia(1, "pve", MAX64)], [Reserva(1, 0, "pve", "local", 1000, 0)];
    assert insts[..0] == [] && reservas[..0] == [];
    NoVmidNotVisible(insts, reservas[0]);
  }

  // ---------- What an admission promises ----------

  lemma {:induction false} NoVmidNotVisible(insts: seq<Instancia>, r: Reserva)
    requires r.vmid == 0
    ensures Visible(insts, r) == 0
  {
    if insts != [] { NoVmidNotVisible(insts[1..], r); }
  }

  /** With the new reservation in, the node is still within its memory. */
  lemma AdmissionFits(n: Nodo, insts: seq<Instancia>, reservas: seq<Reserva>, r: Reserva)
    requires 0 < r.memoria <= Margen(n, insts, reservas, r.nodo) && r.vmid == 0
    ensures Comprometida(n, insts, reservas + [r], r.nodo) <= n.memTotal
  {
    NoVmidNotVisible(insts, r);
  }

  /** A larger instance hides at least as much of a reservation. */
  lemma {:induction false} VisibleGrows(insts: seq<Instancia>, i: nat, mas: nat, r: Reserva)
    requires i < |insts|
    ensures Visible(insts, r) <= Visible(insts[i := insts[i].(maxMem := insts[i].maxMem + mas)], r)
  {
    var x := insts[i].(maxMem := insts[i].maxMem + mas);
    if i == 0 {
      assert insts[i := x][1..] == insts[1..];
    } else {
      assert insts[i := x][1..] == insts[1..][i - 1 := x];
      VisibleGrows(insts[1..], i - 1, mas, r);
    }
  }

  lemma {:induction false} ReservedGrowsLess(insts: seq<Instancia>, i: nat, mas: nat, reservas: seq<Reserva>, nodo: string)
    requires i < |insts|
    ensures Reservada(insts[i := insts[i].(maxMem := insts[i].maxMem + mas)], reservas, nodo) <= Reservada(insts, reservas, nodo)
  {
    if reservas != [] {
      VisibleGrows(insts, i, mas, reservas[|reservas| - 1]);
      ReservedGrowsLess(insts, i, mas, reservas[..|reservas| - 1], nodo);
    }
  }

  lemma {:induction false} AssignedGrows(insts: seq<Instancia>, i: nat, mas: nat, nodo: string)
    requires i < |insts|
    ensures Asignada(insts[i := insts[i].(maxMem := insts[i].maxMem + mas)], nodo) ==
      Asignada(insts, nodo) + if insts[i].nodo == nodo then mas else 0
  {
    var x, last := insts[i].(maxMem := insts[i].maxMem + mas), |insts| - 1;
    if i == last {
      assert insts[i := x][..last] == insts[..last];
    } else {
      assert insts[i := x][..last] == insts[..last][i := x];
      AssignedGrows(insts[..last], i, mas, nodo);
    }
  }

  /** With an increment in, the node is still within its memory: the same sum as for an admission. */
  lemma EnlargementFits(n: Nodo, insts: seq<Instancia>, reservas: seq<Reserva>, i: nat, mas: int)
    requires i < |insts| && 0 < mas <= Margen(n, insts, reservas, insts[i].nodo)
    ensures Comprometida(n, insts[i := insts[i].(maxMem := insts[i].maxMem + mas)], reservas, insts[i].nodo) <= n.memTotal
  {
    AssignedGrows(insts, i, mas, insts[i].nodo);
    ReservedGrowsLess(insts, i, mas, reservas, insts[i].nodo);
  }

  function Cuota(n: Nodo): int {
    Max(0, Max(0, n.memTotal) - Max(0, n.memUsada) - Headroom(n))
  }

  /** calcularCuotaAsignable, for RAM. */
  function FreeRamMB(n: Nodo): int {
    Cuota(n) / MIB
  }

  /** No request is admitted that the same reading would not have advertised. */
  lemma AdmittedWasAdvertised(n: Nodo, insts: seq<Instancia>, reservas: seq<Reserva>, nodo: string, memoriaMB: int)
    requires Sane(insts, reservas) && 0 <= memoriaMB
    requires memoriaMB * MIB <= Margen(n, insts, reservas, nodo)
    ensures memoriaMB <= FreeRamMB(n)
  {
    SumsAreMonotone(insts, reservas, nodo, 0, 0);
    assert memoriaMB * MIB <= Cuota(n);
  }

  /** Without reservations, and with the usage not under what is assigned, all that is advertised is admitted. */
  lemma AdvertisedIsAdmitted(n: Nodo, insts: seq<Instancia>, nodo: string, memoriaMB: int)
    requires Sane(insts, []) && n.memTotal >= 0 && Asignada(insts, nodo) <= n.memUsada
    ensures memoriaMB * MIB <= Margen(n, insts, [], nodo) <==> memoriaMB <= FreeRamMB(n)
  {
    AssignedMonotone(insts, nodo, 0);
    assert Margen(n, insts, [], nodo) == Cuota(n);
  }

  // ---------- What does not raise the commitment ----------

  ghost predicate Absent(insts: seq<Instancia>, r: Reserva) {
    forall k :: 0 <= k < |insts| ==> !(insts[k].vmid == r.vmid && insts[k].nodo == r.nodo)
  }

  lemma {:induction false} AbsentNotVisible(insts: seq<Instancia>, r: Reserva)
    requires Absent(insts, r)
    ensures Visible(insts, r) == 0
  {
    if insts != [] { AbsentNotVisible(insts[1..], r); }
  }

  /** A new instance hides no memory of the ones before it. */
  lemma {:induction false} VisibleSnoc(insts: seq<Instancia>, i: Instancia, r: Reserva)
    requires Sane(insts + [i], [])
    ensures 0 <= Visible(insts, r) <= Visible(insts + [i], r)
    ensures r.vmid != 0 && i.vmid == r.vmid && i.nodo == r.nodo && Absent(insts, r) ==> Visible(insts + [i], r) == i.maxMem
  {
    var all := insts + [i];
    assert all[|insts|] == i;
    if insts != [] {
      assert all[1..] == insts[1..] + [i] && all[0] == insts[0];
      assert forall k :: 0 <= k < |all[1..]| ==> all[1..][k] == all[k + 1];
      VisibleSnoc(insts[1..], i, r);
    }
  }

  lemma {:induction false} ReservedSplit(insts: seq<Instancia>, a: seq<Reserva>, b: seq<Reserva>, nodo: string)
    ensures Reservada(insts, a + b, nodo) == Reservada(insts, a, nodo) + Reservada(insts, b, nodo)
  {
    if b == [] {
      assert a + b == a;
    } else {
      ReservedSplit(insts, a, b[..|b| - 1], nodo);
      assert (a + b)[..|a + b| - 1] == a + b[..|b| - 1];
    }
  }

  lemma {:induction false} ReservedShrinks(insts: seq<Instancia>, i: Instancia, reservas: seq<Reserva>, nodo: string)
    requires Sane(insts + [i], [])
    ensures Reservada(insts + [i], reservas, nodo) <= Reservada(insts, reservas, nodo)
  {
    if reservas != [] {
      VisibleSnoc(insts, i, reservas[|reservas| - 1]);
      ReservedShrinks(insts, i, reservas[..|reservas| - 1], nodo);
    }
  }

  /** A reserved instance shows up at its reserved size. */
  lemma AppearingDoesNotRaise(n: Nodo, insts: seq<Instancia>, antes: seq<Reserva>, r: Reserva, despues: seq<Reserva>, i: Instancia)
    requires r.vmid != 0 && i == Instancia(r.vmid, r.nodo, r.memoria) && Sane(insts + [i], []) && Absent(insts, r)
    ensures Comprometida(n, insts + [i], antes + ([r] + despues), r.nodo) <= Comprometida(n, insts, antes + ([r] + despues), r.nodo)
  {
    var more := insts + [i];
    assert more[..|insts|] == insts && more[|insts|] == i;
    AbsentNotVisible(insts, r);
    VisibleSnoc(insts, i, r);
    Parts(more, antes, r, despues);
    Parts(insts, antes, r, despues);
    ReservedShrinks(insts, i, antes, r.nodo);
    ReservedShrinks(insts, i, despues, r.nodo);
  }

  lemma Parts(insts: seq<Instancia>, antes: seq<Reserva>, r: Reserva, despues: seq<Reserva>)
    ensures Reservada(insts, antes + ([r] + despues), r.nodo)
         == Reservada(insts, antes, r.nodo) + Descubierta(insts, r) + Reservada(insts, despues, r.nodo)
  {
    ReservedSplit(insts, antes, [r] + despues, r.nodo);
    ReservedSplit(insts, [r], despues, r.nodo);
  }

  /** Releasing a reservation frees what the inventory does not show of it: nothing, if it shows all. */
  lemma ReleaseFreesTheUncovered(n: Nodo, insts: seq<Instancia>, antes: seq<Reserva>, r: Reserva, despues: seq<Reserva>)
    ensures Comprometida(n, insts, antes + despues, r.nodo)
         == Comprometida(n, insts, antes + ([r] + despues), r.nodo) - Descubierta(insts, r)
  {
    Parts(insts, antes, r, despues);
    ReservedSplit(insts, antes, despues, r.nodo);
  }

  // ---------- Only the node's own entries count ----------

  function OfNode(insts: seq<Instancia>, nodo: string): seq<Instancia> {
    if insts == [] then []
    else if insts[0].nodo == nodo then [insts[0]] + OfNode(insts[1..], nodo)
    else OfNode(insts[1..], nodo)
  }

  lemma {:induction false} AssignedFront(insts: seq<Instancia>, nodo: string)
    requires insts != []
    ensures Asignada(insts, nodo) == Asignada(insts[1..], nodo) + if insts[0].nodo == nodo then insts[0].maxMem else 0
  {
    if |insts| > 1 {
      AssignedFront(insts[..|insts| - 1], nodo);
      assert insts[1..][..|insts| - 2] == insts[..|insts| - 1][1..];
    } else {
      assert insts[..0] == [] && insts[1..] == [];
    }
  }

  lemma {:induction false} OtherNodesDoNotAssign(insts: seq<Instancia>, nodo: string)
    ensures Asignada(insts, nodo) == Asignada(OfNode(insts, nodo), nodo)
  {
    if insts != [] {
      AssignedFront(insts, nodo);
      OtherNodesDoNotAssign(insts[1..], nodo);
      var own := OfNode(insts, nodo);
      if insts[0].nodo == nodo {
        AssignedFront(own, nodo);
        assert own[1..] == OfNode(insts[1..], nodo);
      }
    }
  }

  lemma {:induction false} OtherNodesAreNotVisible(insts: seq<Instancia>, r: Reserva)
    ensures Visible(insts, r) == Visible(OfNode(insts, r.nodo), r)
  {
    if insts != [] {
      OtherNodesAreNotVisible(insts[1..], r);
      if insts[0].nodo == r.nodo {
        assert OfNode(insts, r.nodo)[1..] == OfNode(insts[1..], r.nodo);
      }
    }
  }

  lemma {:induction false} OtherNodesDoNotReserve(insts: seq<Instancia>, reservas: seq<Reserva>, nodo: string)
    ensures Reservada(insts, reservas, nodo) == Reservada(OfNode(insts, nodo), reservas, nodo)
  {
    if reservas != [] {
      OtherNodesDoNotReserve(insts, reservas[..|reservas| - 1], nodo);
      OtherNodesAreNotVisible(insts, reservas[|reservas| - 1]);
    }
  }

  /** The margin of a node does not depend on the instances of other nodes. */
  lemma OtherNodesDoNotCount(n: Nodo, insts: seq<Instancia>, reservas: seq<Reserva>, nodo: string)
    ensures Margen(n, insts, reservas, nodo) == Margen(n, OfNode(insts, nodo), reservas, nodo)
  {
    OtherNodesDoNotAssign(insts, nodo);
    OtherNodesDoNotReserve(insts, reservas, nodo);
  }
}
