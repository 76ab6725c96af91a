/**
  Saturation alerts: the pending counter with its expiry against the history of
  readings, the hysteresis band, and the turn that spaces the readings of many
  replicas.
 */
module AlertStreak {
  import opened Int64
  import opened KeyStore
  import opened AlertKey

  datatype Config = Config(umbral: real, recuperacion: real, ciclos: int, intervalo: int) {
    function Ttl(): int { ciclos * intervalo }
  }

  /** What Validar asks of one threshold and of the times (NaN and infinities are no real numbers). */
  predicate Valida(c: Config) {
    && 0.0 < c.umbral <= 100.0 && 0.0 <= c.recuperacion < c.umbral
    && c.ciclos > 0
    && 0 < c.intervalo <= MAX64 / 3
    && c.ciclos <= MAX64 / c.intervalo
  }

  /** The last check is exactly that the persistence fits in 64 bits. */
  lemma PersistenceFits(c: Config)
    requires c.ciclos > 0 && 0 < c.intervalo
    ensures c.ciclos <= MAX64 / c.intervalo <==> Fits64(c.Ttl())
  {
    var q := MAX64 / c.intervalo;
    assert q * c.intervalo <= MAX64 < (q + 1) * c.intervalo;
  }

  /** Validar: every threshold is a percentage over the recovery value, and the times are positive and fit in 64 bits. */
  method Validar(umbrales: seq<real>, recuperacion: real, ciclos: int, ventana: int, intervalo: int) returns (ok: bool)
    ensures ok <==>
      (forall i :: 0 <= i < |umbrales| ==> 0.0 < umbrales[i] <= 100.0 && 0.0 <= recuperacion < umbrales[i])
      && 1 <= ciclos && 1 <= ventana && 1 <= intervalo && 3 * intervalo <= 9_223_372_036_854_775_807
      && ciclos * intervalo <= 9_223_372_036_854_775_807
    ensures ok ==> forall i :: 0 <= i < |umbrales| ==> Valida(Config(umbrales[i], recuperacion, ciclos, intervalo))
    ensures !ok && umbrales != [] && ventana > 0 ==>
      exists i :: 0 <= i < |umbrales| && !Valida(Config(umbrales[i], recuperacion, ciclos, intervalo))
  {
    if 1 <= ciclos && 1 <= intervalo { PersistenceFits(Config(1.0, 0.0, ciclos, intervalo)); }
    var k := 0;
    while k < |umbrales|
      invariant k <= |umbrales|
      invariant forall i :: 0 <= i < k ==> 0.0 < umbrales[i] <= 100.0 && 0.0 <= recuperacion < umbrales[i]
    {
      if umbrales[k] <= 0.0 || umbrales[k] > 100.0 || recuperacion < 0.0 || recuperacion >= umbrales[k] {
        assert !Valida(Config(umbrales[k], recuperacion, ciclos, intervalo));
        return false;
      }
      k := k + 1;
    }
    ok := ciclos > 0 && ventana > 0 && intervalo > 0 && intervalo <= MAX64 / 3 && ciclos <= MAX64 / intervalo;
    if !ok && umbrales != [] && ventana > 0 {
      assert !Valida(Config(umbrales[0], recuperacion, ciclos, intervalo));
    }
  }

  // ---------- One reading ----------

  datatype Lectura = Lectura(valor: real, t: int, id: nat)

  /** Incrementar: an expired counter starts again. */
  function Contado(pendiente: Slot<int>, t: int): int {
    if pendiente.Viva(t) then pendiente.valor + 1 else 1
  }

  function Pendiente(c: Config, pendiente: Slot<int>, l: Lectura): Slot<int> {
    if l.valor >= c.umbral then Guardado(Contado(pendiente, l.t), l.t + c.Ttl()) else Vacia
  }

  /** The call on the alert key that evaluarMedicion makes, if any. */
  function Orden(c: Config, pendiente: Slot<int>, l: Lectura): seq<Op> {
    if l.valor >= c.umbral then (if Contado(pendiente, l.t) < c.ciclos then [] else [Dispara(l.id, l.t)])
    else if l.valor < c.recuperacion then [Resuelve(l.t)]
    else []
  }

  function PendienteTras(c: Config, h: seq<Lectura>): Slot<int> {
    if h == [] then Vacia else Pendiente(c, PendienteTras(c, h[..|h| - 1]), h[|h| - 1])
  }

  function Ordenes(c: Config, h: seq<Lectura>): seq<Op> {
    if h == [] then []
    else Ordenes(c, h[..|h| - 1]) + Orden(c, PendienteTras(c, h[..|h| - 1]), h[|h| - 1])
  }

  // ---------- The history ----------

  predicate Alta(c: Config, l: Lectura) { l.valor >= c.umbral }

  /** The last `n` readings are all at or over the threshold, each less than the TTL after the one before. */
  ghost predicate Seguidas(c: Config, h: seq<Lectura>, n: nat) {
    && n <= |h|
    && (forall i :: |h| - n <= i < |h| ==> Alta(c, h[i]))
    && (forall i :: |h| - n < i < |h| ==> h[i].t - h[i - 1].t < c.Ttl())
  }

  /** The length of the streak that ends in the last reading. */
  function Racha(c: Config, h: seq<Lectura>): nat {
    if h == [] || !Alta(c, h[|h| - 1]) then 0
    else if |h| > 1 && h[|h| - 1].t - h[|h| - 2].t < c.Ttl() then Racha(c, h[..|h| - 1]) + 1
    else 1
  }

  /** `Racha` is the greatest such number. */
  lemma {:induction false} StreakIsLongest(c: Config, h: seq<Lectura>, n: nat)
    ensures Seguidas(c, h, n) <==> n <= Racha(c, h)
  {
    if h != [] && n > 0 {
      var init := h[..|h| - 1];
      StreakIsLongest(c, init, n - 1);
      assert forall i :: 0 <= i < |init| ==> init[i] == h[i];
      if Seguidas(c, h, n) {
        assert Alta(c, h[|h| - 1]);
        assert Seguidas(c, init, n - 1);
        if n > 1 {
          assert Alta(c, h[|h| - 2]) && h[|h| - 1].t - h[|h| - 2].t < c.Ttl();
        }
      }
      if n <= Racha(c, h) {
        assert n > 1 ==> h[|h| - 1].t - h[|h| - 2].t < c.Ttl();
        forall i | |h| - n <= i < |h| ensures Alta(c, h[i]) {
          assert i < |init| ==> Alta(c, init[i]);
        }
        forall i | |h| - n < i < |h| ensures h[i].t - h[i - 1].t < c.Ttl() {
          assert i < |init| ==> init[i].t - init[i - 1].t < c.Ttl();
        }
      }
    }
  }

  /** The counter is the streak, and it expires when the streak can no longer go on. */
  lemma {:induction false} CounterIsStreak(c: Config, h: seq<Lectura>)
    ensures PendienteTras(c, h) == if Racha(c, h) == 0 then Vacia else Guardado(Racha(c, h), h[|h| - 1].t + c.Ttl())
  {
    if h != [] {
      CounterIsStreak(c, h[..|h| - 1]);
    }
  }

  function EventosDe(c: Config, h: seq<Lectura>): seq<Evento> {
    Registro(Ordenes(c, h))
  }

  function Emite(c: Config, h: seq<Lectura>, l: Lectura): seq<Evento> {
    var orden := Orden(c, PendienteTras(c, h), l);
    if orden == [] then [] else Tras(Activa(Ordenes(c, h)), orden[0]).1
  }

  lemma EventsOfLast(c: Config, h: seq<Lectura>, l: Lectura)
    ensures EventosDe(c, h + [l]) == EventosDe(c, h) + Emite(c, h, l)
  {
    var antes, orden := Ordenes(c, h), Orden(c, PendienteTras(c, h), l);
    assert (h + [l])[..|h|] == h;
    assert Ordenes(c, h + [l]) == antes + orden;
    if orden == [] {
      assert antes + orden == antes;
    } else {
      assert (antes + orden)[..|antes + orden| - 1] == antes;
    }
  }

  /**
    A reading triggers exactly when it completes `ciclos` high readings in a row,
    with gaps under the TTL, and no alert is active.
   */
  lemma TriggersIff(c: Config, h: seq<Lectura>, l: Lectura)
    requires c.ciclos > 0
    ensures Emite(c, h, l) == [Disparada(l.id, l.t)] <==>
      Seguidas(c, h + [l], c.ciclos) && !Activa(Ordenes(c, h)).Viva(l.t)
  {
    var all := h + [l];
    assert all[..|all| - 1] == h;
    CounterIsStreak(c, h);
    assert Alta(c, l) ==> Contado(PendienteTras(c, h), l.t) == Racha(c, all);
    StreakIsLongest(c, all, c.ciclos);
  }

  /** It resolves exactly when it is under the recovery value and an alert is active. */
  lemma ResolvesIff(c: Config, h: seq<Lectura>, l: Lectura)
    requires c.recuperacion < c.umbral
    ensures (exists id :: Emite(c, h, l) == [Resuelta(id, l.t)]) <==> l.valor < c.recuperacion && Activa(Ordenes(c, h)).Viva(l.t)
  {
    if l.valor < c.recuperacion && Activa(Ordenes(c, h)).Viva(l.t) {
      assert Emite(c, h, l) == [Resuelta(Activa(Ordenes(c, h)).valor, l.t)];
    }
  }

  /** In the band between recovery and threshold nothing is emitted. */
  lemma BandIsSilent(c: Config, h: seq<Lectura>, l: Lectura)
    requires c.recuperacion <= l.valor < c.umbral
    ensures EventosDe(c, h + [l]) == EventosDe(c, h)
  {
    EventsOfLast(c, h, l);
    assert EventosDe(c, h) + [] == EventosDe(c, h);
  }

  /** The reading behind an event. */
  predicate Explains(c: Config, l: Lectura, e: Evento) {
    && l.t == e.t
    && (e.Disparada? ==> l.id == e.id && Alta(c, l))
    && (e.Resuelta? ==> l.valor < c.recuperacion)
  }

  /**
    The events of a resource, for any history of readings: between two triggers a
    resolution or a day, every trigger from a high reading, and every resolution,
    of the trigger before it, from a reading under the recovery value.
   */
  lemma {:induction false} EventsHaveReadings(c: Config, h: seq<Lectura>)
    ensures LogOk(EventosDe(c, h))
    ensures forall e :: e in EventosDe(c, h) ==> exists i :: 0 <= i < |h| && Explains(c, h[i], e)
  {
    hide Ordenes, PendienteTras, LogOk;
    EveryLogIsOk(Ordenes(c, h));
    if h == [] {
      NoReadingsNoEvents(c);
    } else {
      var init, l := h[..|h| - 1], h[|h| - 1];
      assert h == init + [l];
      EventsHaveReadings(c, init);
      forall e | e in EventosDe(c, h) ensures exists i :: 0 <= i < |h| && Explains(c, h[i], e) {
        if e in EventosDe(c, init) {
          var i :| 0 <= i < |init| && Explains(c, init[i], e);
          assert Explains(c, h[i], e);
        } else {
          NewEventExplained(c, init, l, e);
          assert Explains(c, h[|h| - 1], e);
        }
      }
    }
  }

  lemma NoReadingsNoEvents(c: Config)
    ensures EventosDe(c, []) == []
  {
  }

  lemma NewEventExplained(c: Config, h: seq<Lectura>, l: Lectura, e: Evento)
    requires e in EventosDe(c, h + [l]) && e !in EventosDe(c, h)
    ensures Explains(c, l, e)
  {
    hide Ordenes, PendienteTras, Registro, Activa;
    EventsOfLast(c, h, l);
    assert e in Emite(c, h, l);
  }

  // ---------- Turns ----------

  /** Intervalo - Intervalo/10, with Go's division. */
  function Turno(intervalo: int): int {
    intervalo - intervalo / 10
  }

  /** The instants at which some replica took the turn, out of those at which one tried. */
  function Tomados(intervalo: int, intentos: seq<int>): seq<int> {
    if intentos == [] then []
    else
      var antes, t := Tomados(intervalo, intentos[..|intentos| - 1]), intentos[|intentos| - 1];
      if antes != [] && t < antes[|antes| - 1] + Turno(intervalo) then antes else antes + [t]
  }

  /** Nine tenths of an interval, rounded up. */
  lemma TurnIsNineTenths(intervalo: int)
    ensures 9 * intervalo <= 10 * Turno(intervalo) < 9 * intervalo + 10
  {
  }

  /** However many replicas try, turns are apart: nine tenths of an interval at least. */
  lemma {:induction false} TurnsAreApart(intervalo: int, intentos: seq<int>)
    ensures forall i :: 0 < i < |Tomados(intervalo, intentos)| ==>
      && Tomados(intervalo, intentos)[i] - Tomados(intervalo, intentos)[i - 1] >= Turno(intervalo)
      && 10 * (Tomados(intervalo, intentos)[i] - Tomados(intervalo, intentos)[i - 1]) >= 9 * intervalo
  {
    TurnIsNineTenths(intervalo);
    if intentos != [] {
      TurnsAreApart(intervalo, intentos[..|intentos| - 1]);
    }
  }

  lemma {:induction false} TurnsSpan(intervalo: int, intentos: seq<int>, i: nat, j: nat)
    requires 0 < intervalo && i <= j < |Tomados(intervalo, intentos)|
    ensures Tomados(intervalo, intentos)[j] - Tomados(intervalo, intentos)[i] >= (j - i) * Turno(intervalo)
    decreases j
  {
    TurnsAreApart(intervalo, intentos);
    if i < j {
      TurnsSpan(intervalo, intentos, i, j - 1);
      assert (j - i) * Turno(intervalo) == (j - 1 - i) * Turno(intervalo) + Turno(intervalo);
    }
  }

  /** Each reading is made in a turn of its own (some turns read nothing of this resource), at most `demora` after its start. */
  ghost predicate EnTurnos(h: seq<Lectura>, turnos: seq<int>, cual: seq<nat>, demora: nat) {
    && |cual| == |h|
    && (forall i :: 0 <= i < |h| ==> cual[i] < |turnos| && turnos[cual[i]] <= h[i].t <= turnos[cual[i]] + demora)
    && (forall i, j :: 0 <= i < j < |h| ==> cual[i] < cual[j])
  }

  lemma {:induction false} IndicesGrow(cual: seq<nat>, i: nat, j: nat)
    requires (forall a, b :: 0 <= a < b < |cual| ==> cual[a] < cual[b]) && i <= j < |cual|
    ensures cual[j] - cual[i] >= j - i
    decreases j
  {
    if i < j { IndicesGrow(cual, i, j - 1); }
  }

  /** An alert has behind it `ciclos` high readings that span at least `ciclos - 1` turns, less what one evaluation may take. */
  lemma AlertNeedsTime(c: Config, intentos: seq<int>, h: seq<Lectura>, l: Lectura, cual: seq<nat>, demora: nat)
    requires Valida(c) && EnTurnos(h + [l], Tomados(c.intervalo, intentos), cual, demora)
    requires Emite(c, h, l) == [Disparada(l.id, l.t)]
    ensures c.ciclos <= |h| + 1
    ensures l.t - (h + [l])[|h| + 1 - c.ciclos].t >= (c.ciclos - 1) * Turno(c.intervalo) - demora
    ensures 10 * (l.t - (h + [l])[|h| + 1 - c.ciclos].t + demora) >= 9 * ((c.ciclos - 1) * c.intervalo)
  {
    hide Tomados, Emite, Turno, Ordenes, Activa, Registro, PendienteTras;
    TriggersIff(c, h, l);
    var all, i := h + [l], |h| + 1 - c.ciclos;
    IndicesGrow(cual, i, |h|);
    TurnsSpan(c.intervalo, intentos, cual[i], cual[|h|]);
    assert all[|h|] == l;
    TimesTurn(c.ciclos - 1, cual[|h|] - cual[i], c.intervalo);
    TimesNineTenths(c.ciclos - 1, c.intervalo);
  }

  lemma TimesTurn(a: int, b: int, intervalo: int)
    requires 0 <= a <= b && 0 < intervalo
    ensures a * Turno(intervalo) <= b * Turno(intervalo)
  {
  }

  lemma TimesNineTenths(a: int, intervalo: int)
    requires 0 <= a
    ensures 10 * (a * Turno(intervalo)) >= 9 * (a * intervalo)
  {
    hide Turno;
    TurnIsNineTenths(intervalo);
    assert 10 * (a * Turno(intervalo)) == a * (10 * Turno(intervalo));
    assert 9 * (a * intervalo) == a * (9 * intervalo);
  }
}
