/**
  From the closure of a creation to the release of its reservation: the pool of
  tasks announces the end, and the announcement calls FinalizarReserva.  A run
  mixes the steps of the pool with creations; `de` says which reservation the row
  of a task carries.
 */
module ReservationRelease {
  import opened Wrappers
  import opened TaskPool
  import opened TaskPoolEvents
  import opened ReservationLedger
  import Capacity

  datatype Mundo = Mundo(pool: State, llamadas: seq<Llamada>)

  /** `g`: how the save of the release ends, if the step of the pool announces a completed creation. */
  datatype Paso =
    | DelPool(step: Step, g: Escritura)
    | Creacion(r: Capacity.Reserva, admitida: bool, g1: Escritura, salida: Salida, g2: Escritura)

  type Metadatos = map<TaskId, nat>

  ghost predicate Inyectiva(de: Metadatos) {
    forall a, b :: a in de && b in de && a != b ==> de[a] != de[b]
  }

  /** Every creation has a reservation id of its own. */
  ghost predicate Puede(c: Config, m: Mundo, p: Paso) {
    match p
    case DelPool(step, _) => Enabled(c, m.pool, step)
    case Creacion(r, _, _, _, _) => Nueva(m.llamadas, r.id)
  }

  /** OnTaskFinished: the announcement of a task that carries a reservation. */
  function AlAnunciar(de: Metadatos, s: State, p: Paso): seq<Llamada> {
    if p.DelPool? && p.step.Anunciar? && p.step.g in s.flows && s.flows[p.step.g].PorAnunciar? && s.flows[p.step.g].id in de
    then [Finalizar(de[s.flows[p.step.g].id], s.flows[p.step.g].outcome.Completed?, p.g)]
    else []
  }

  ghost function Siguiente(c: Config, de: Metadatos, m: Mundo, p: Paso): Mundo
    requires FlowsKnown(m.pool) && Puede(c, m, p)
  {
    match p
    case DelPool(step, _) => Mundo(Apply(c, m.pool, step), m.llamadas + AlAnunciar(de, m.pool, p))
    case Creacion(r, admitida, g1, salida, g2) => m.(llamadas := m.llamadas + [Aprovisionar(r, admitida, g1, salida, g2)])
  }

  ghost predicate Corre(c: Config, de: Metadatos, m: Mundo, ps: seq<Paso>)
    decreases |ps|
  {
    FlowsKnown(m.pool) && (ps != [] ==> Puede(c, m, ps[0]) && Corre(c, de, Siguiente(c, de, m, ps[0]), ps[1..]))
  }

  ghost function Final(c: Config, de: Metadatos, m: Mundo, ps: seq<Paso>): Mundo
    requires Corre(c, de, m, ps)
    decreases |ps|
  {
    if ps == [] then m else Final(c, de, Siguiente(c, de, m, ps[0]), ps[1..])
  }

  /** The steps of the pool in a run. */
  function DelPoolSolo(ps: seq<Paso>): seq<Step> {
    if ps == [] then [] else (if ps[0].DelPool? then [ps[0].step] else []) + DelPoolSolo(ps[1..])
  }

  /** The reservation is in the list of the store. */
  ghost predicate Retenida(m: Mundo, reserva: nat) {
    reserva in Ids(TrasTodas(m.llamadas))
  }

  /** A creation with this reservation was or may have been dispatched, and it has not been taken out. */
  ghost predicate Viva(m: Mundo, reserva: nat) {
    Historia(m.llamadas) && AlgunaVez(m.llamadas, reserva) && !YaQuitada(m.llamadas, reserva)
  }

  lemma AliveIsHeld(m: Mundo, reserva: nat)
    requires Viva(m, reserva)
    ensures Retenida(m, reserva)
  {
    LedgerIsHistory(m.llamadas);
  }

  /** A call about another reservation, or none, leaves this one as it was. */
  lemma OtherCall(cs: seq<Llamada>, c: Llamada, reserva: nat)
    requires Historia(cs) && AlgunaVez(cs, reserva)
    requires match c case Aprovisionar(r, _, _, _, _) => Nueva(cs, r.id) case Finalizar(id, completada, g) => id != reserva || !completada
    ensures Historia(cs + [c]) && AlgunaVez(cs + [c], reserva) && (YaQuitada(cs + [c], reserva) <==> YaQuitada(cs, reserva))
  {
    NewIsHistory(cs, c);
    assert (cs + [c])[..|cs|] == cs;
    Snoc(cs + [c], reserva);
  }

  /** What is taken out stays out: its id is never used again. */
  lemma {:induction false} GoneForever(c: Config, de: Metadatos, m: Mundo, ps: seq<Paso>, reserva: nat)
    requires Corre(c, de, m, ps) && Historia(m.llamadas) && YaQuitada(m.llamadas, reserva)
    ensures !Retenida(Final(c, de, m, ps), reserva)
    decreases |ps|
  {
    LedgerIsHistory(m.llamadas);
    if ps != [] {
      var m1 := Siguiente(c, de, m, ps[0]);
      if |m1.llamadas| > |m.llamadas| {
        var call := m1.llamadas[|m.llamadas|];
        assert m1.llamadas == m.llamadas + [call];
        NewIsHistory(m.llamadas, call);
        assert m1.llamadas[..|m.llamadas|] == m.llamadas;
        Snoc(m1.llamadas, reserva);
      } else {
        assert m1.llamadas == m.llamadas;
      }
      GoneForever(c, de, m1, ps[1..], reserva);
    }
  }

  /** One step that does not announce the task leaves its reservation as it was. */
  lemma UnannouncedStep(c: Config, de: Metadatos, m: Mundo, p: Paso, id: TaskId)
    requires FlowsKnown(m.pool) && Puede(c, m, p) && Inyectiva(de) && id in de && Viva(m, de[id])
    requires p.DelPool? && p.step.Anunciar? ==> m.pool.flows[p.step.g].id != id
    ensures Viva(Siguiente(c, de, m, p), de[id])
  {
    var calls := if p.DelPool? then AlAnunciar(de, m.pool, p) else [Aprovisionar(p.r, p.admitida, p.g1, p.salida, p.g2)];
    hide Historia, AlgunaVez, YaQuitada, Apply;
    if calls == [] {
      assert m.llamadas + [] == m.llamadas;
    } else {
      OtherCall(m.llamadas, calls[0], de[id]);
      assert calls == [calls[0]];
    }
  }

  /** A closed task that nobody in the process has keeps its reservation in the list for ever. */
  lemma {:induction false} SilentIsHeld(c: Config, de: Metadatos, m: Mundo, ps: seq<Paso>, id: TaskId)
    requires Corre(c, de, m, ps) && Inyectiva(de) && id in de && Viva(m, de[id]) && Gone(m.pool, id)
    ensures Retenida(Final(c, de, m, ps), de[id])
    decreases |ps|
  {
    if ps == [] {
      AliveIsHeld(m, de[id]);
    } else {
      var p := ps[0];
      assert p.DelPool? && p.step.Anunciar? ==> m.pool.flows[p.step.g].id in Mentions(m.pool.flows[p.step.g]);
      UnannouncedStep(c, de, m, p, id);
      if p.DelPool? { StepKeepsGone(c, m.pool, p.step, id); }
      SilentIsHeld(c, de, Siguiente(c, de, m, p), ps[1..], id);
    }
  }

  // ---------- One closure ----------

  /** Routine `g` has committed the closure of a completed creation, and nobody else has the task. */
  ghost predicate Unica(s: State, g: Routine, id: TaskId) {
    Committed(s, g, id, Completed) && Alone(s, g, id)
  }

  /** Every release in the run that is of this reservation reaches the store. */
  ghost predicate Surten(ps: seq<Paso>) {
    forall i :: 0 <= i < |ps| && ps[i].DelPool? ==> ps[i].g.Surte()
  }

  /**
    A completed creation whose closure is committed, in every run that goes on until
    the closure is announced or the process restarts: the reservation stays for ever
    if and only if the restart comes first.
   */
  lemma {:induction false} ReleasedIffAnnounced(c: Config, de: Metadatos, m: Mundo, ps: seq<Paso>, g: Routine, id: TaskId)
    requires Corre(c, de, m, ps) && Inyectiva(de) && id in de && Viva(m, de[id]) && Unica(m.pool, g, id) && Surten(ps)
    requires Reiniciar in DelPoolSolo(ps) || Anunciar(g) in DelPoolSolo(ps)
    ensures Retenida(Final(c, de, m, ps), de[id]) <==> Cut(DelPoolSolo(ps), g)
    decreases |ps|
  {
    var p, rest := ps[0], ps[1..];
    var m1 := Siguiente(c, de, m, p);
    var steps := DelPoolSolo(rest);
    assert DelPoolSolo(ps) == if p.DelPool? then [p.step] + steps else steps;
    assert p.DelPool? ==> DelPoolSolo(ps)[0] == p.step && DelPoolSolo(ps)[1..] == steps;
    if p.DelPool? && p.step == Reiniciar {
      UnannouncedStep(c, de, m, p, id);
      SilentIsHeld(c, de, m1, rest, id);
    } else if p.DelPool? && p.step == Anunciar(g) {
      Announcing(c, de, m, p, g, id);
      GoneForever(c, de, m1, rest, de[id]);
    } else {
      assert p.DelPool? && p.step.Anunciar? ==> m.pool.flows[p.step.g].id in Mentions(m.pool.flows[p.step.g]);
      UnannouncedStep(c, de, m, p, id);
      if p.DelPool? { StepKeepsPending(c, m.pool, p.step, g, id, Completed); }
      assert Surten(rest) by { assert forall i :: 0 <= i < |rest| ==> rest[i] == ps[i + 1]; }
      ReleasedIffAnnounced(c, de, m1, rest, g, id);
    }
  }

  lemma Announcing(c: Config, de: Metadatos, m: Mundo, p: Paso, g: Routine, id: TaskId)
    requires FlowsKnown(m.pool) && Puede(c, m, p) && id in de && Viva(m, de[id]) && Unica(m.pool, g, id)
    requires p.DelPool? && p.step == Anunciar(g) && p.g.Surte()
    ensures var m1 := Siguiente(c, de, m, p); Historia(m1.llamadas) && YaQuitada(m1.llamadas, de[id])
  {
    var call := Finalizar(de[id], true, p.g);
    assert AlAnunciar(de, m.pool, p) == [call];
    NewIsHistory(m.llamadas, call);
    assert (m.llamadas + [call])[|m.llamadas|] == call && Quitada(call, de[id]);
  }

  // ---------- From the beginning ----------

  /** Taken out exactly when the completion has been announced. */
  ghost predicate Acorde(m: Mundo, de: Metadatos, id: TaskId)
    requires id in de
  {
    Historia(m.llamadas) && (YaQuitada(m.llamadas, de[id]) <==> TaskFinished(id, Completed) in m.pool.events)
  }

  lemma CallTakesOut(cs: seq<Llamada>, c: Llamada, reserva: nat)
    ensures YaQuitada(cs + [c], reserva) <==> YaQuitada(cs, reserva) || Quitada(c, reserva)
  {
    assert (cs + [c])[..|cs|] == cs;
    Snoc(cs + [c], reserva);
  }

  lemma StepKeepsAccord(c: Config, de: Metadatos, m: Mundo, p: Paso, id: TaskId)
    requires FlowsKnown(m.pool) && Puede(c, m, p) && Inyectiva(de) && id in de && Acorde(m, de, id) && (p.DelPool? ==> p.g.Surte())
    ensures Acorde(Siguiente(c, de, m, p), de, id)
  {
    if p.DelPool? && p.step.Anunciar? {
      var f := m.pool.flows[p.step.g];
      var calls := AlAnunciar(de, m.pool, p);
      hide YaQuitada;
      if f.id in de {
        NewIsHistory(m.llamadas, calls[0]);
        CallTakesOut(m.llamadas, calls[0], de[id]);
      } else {
        assert m.llamadas + calls == m.llamadas;
      }
    } else if p.Creacion? {
      var call := Aprovisionar(p.r, p.admitida, p.g1, p.salida, p.g2);
      NewIsHistory(m.llamadas, call);
      CallTakesOut(m.llamadas, call, de[id]);
    } else {
      assert m.llamadas + [] == m.llamadas;
      QuietStep(c, m.pool, p.step);
    }
  }

  lemma QuietStep(c: Config, s: State, step: Step)
    requires FlowsKnown(s) && Enabled(c, s, step) && !step.Anunciar?
    ensures Apply(c, s, step).events == s.events
  {
  }

  lemma {:induction false} RunKeepsAccord(c: Config, de: Metadatos, m: Mundo, ps: seq<Paso>, id: TaskId)
    requires Corre(c, de, m, ps) && Inyectiva(de) && id in de && Acorde(m, de, id) && Surten(ps)
    ensures Acorde(Final(c, de, m, ps), de, id)
    decreases |ps|
  {
    if ps != [] {
      StepKeepsAccord(c, de, m, ps[0], id);
      assert Surten(ps[1..]) by { assert forall i :: 0 <= i < |ps[1..]| ==> ps[1..][i] == ps[i + 1]; }
      RunKeepsAccord(c, de, Siguiente(c, de, m, ps[0]), ps[1..], id);
    }
  }

  /**
    Over every run of both components, from any table: the reservation of a creation
    that was or may have been dispatched is in the list exactly while its task has
    not been announced as completed.
   */
  lemma HeldIffNotAnnounced(c: Config, de: Metadatos, rows: map<TaskId, Row>, ps: seq<Paso>, id: TaskId)
    requires Corre(c, de, Mundo(Init(rows), []), ps) && Inyectiva(de) && id in de && Surten(ps)
    requires AlgunaVez(Final(c, de, Mundo(Init(rows), []), ps).llamadas, de[id])
    ensures var m := Final(c, de, Mundo(Init(rows), []), ps);
      Retenida(m, de[id]) <==> TaskFinished(id, Completed) !in m.pool.events
  {
    RunKeepsAccord(c, de, Mundo(Init(rows), []), ps, id);
    LedgerIsHistory(Final(c, de, Mundo(Init(rows), []), ps).llamadas);
  }

  // ---------- A reservation that is never released ----------

  const CREACION: Paso := Creacion(Capacity.Reserva(1, 0, "pve", "local", 1024, 0), true, Hecha, Creada(100), Hecha)

  function PoolAlone(steps: seq<Step>): seq<Paso> {
    if steps == [] then [] else [DelPool(steps[0], Hecha)] + PoolAlone(steps[1..])
  }

  lemma {:induction false} PoolRuns(c: Config, de: Metadatos, m: Mundo, steps: seq<Step>)
    requires Runs(c, m.pool, steps) && forall i :: 0 <= i < |steps| ==> !steps[i].Anunciar?
    ensures Corre(c, de, m, PoolAlone(steps)) && Final(c, de, m, PoolAlone(steps)) == m.(pool := Exec(c, m.pool, steps))
    decreases |steps|
  {
    if steps != [] {
      var p := DelPool(steps[0], Hecha);
      assert m.llamadas + [] == m.llamadas;
      PoolRuns(c, de, Siguiente(c, de, m, p), steps[1..]);
      assert PoolAlone(steps)[0] == p && PoolAlone(steps)[1..] == PoolAlone(steps[1..]);
    }
  }

  /**
    A creation is dispatched and completes, its closure is committed, and a restart
    comes before the announcement: whatever happens later the memory stays reserved.
   */
  lemma LostReservationIsReachable(c: Config) returns (de: Metadatos, ps: seq<Paso>)
    requires c.Valid()
    ensures var m0 := Mundo(Init(map[]), []);
      && Inyectiva(de) && 7 in de && Corre(c, de, m0, ps)
      && var m := Final(c, de, m0, ps);
        && 7 in m.pool.rows && m.pool.rows[7].state == Closed(Completed)
        && (forall future :: Corre(c, de, m, future) ==> Retenida(Final(c, de, m, future), de[7]))
  {
    de := map[7 := 1];
    var m0 := Mundo(Init(map[]), []);
    var call := Aprovisionar(CREACION.r, true, Hecha, Creada(100), Hecha);
    var m1 := Mundo(Init(map[]), [] + [call]);
    LostAnnouncementIsReachable(c);
    var steps := DiesBeforeSaying(c);
    PoolRuns(c, de, m1, steps);
    ps := [CREACION] + PoolAlone(steps);
    assert ps[1..] == PoolAlone(steps) && Siguiente(c, de, m0, CREACION) == m1;
    var m := Final(c, de, m0, ps);
    assert m == m1.(pool := Exec(c, Init(map[]), steps));
    assert Viva(m, 1) by { assert QuizasDespachada(m1.llamadas[0], 1); }
    forall future | Corre(c, de, m, future) ensures Retenida(Final(c, de, m, future), de[7]) {
      SilentIsHeld(c, de, m, future, 7);
    }
  }

  // ---------- What a reservation that stays takes from the node ----------

  /** An entry of the list has the sizes of the call that put it there. */
  lemma {:induction false} EntryIsOfCall(cs: seq<Llamada>, i: nat, k: nat)
    requires Historia(cs) && i < |cs| && cs[i].Aprovisionar? && k < |TrasTodas(cs)| && TrasTodas(cs)[k].id == cs[i].r.id
    ensures TrasTodas(cs)[k] == cs[i].r.(vmid := TrasTodas(cs)[k].vmid)
    ensures TrasTodas(cs)[k].vmid == cs[i].r.vmid || (cs[i].salida.Creada? && TrasTodas(cs)[k].vmid == cs[i].salida.vmid)
  {
    var init, last := cs[..|cs| - 1], cs[|cs| - 1];
    var antes, e := TrasTodas(init), TrasTodas(cs)[k];
    if e in antes {
      var j :| 0 <= j < |antes| && antes[j] == e;
      if i < |init| {
        EntryIsOfCall(init, i, j);
      } else {
        LedgerIsHistory(init);
        FreshAtFirst(cs);
        IdsOf(antes, e.id);
      }
    } else {
      NewEntries(antes, last, e);
      if i < |init| { assert false; }
    }
  }

  /** What a call leaves in the list was there, or is its own reservation. */
  lemma NewEntries(antes: seq<Capacity.Reserva>, c: Llamada, e: Capacity.Reserva)
    requires e in Tras(antes, c)
    ensures e in antes || (c.Aprovisionar? && e.id == c.r.id && (e == c.r || (c.salida.Creada? && e == c.r.(vmid := c.salida.vmid))))
  {
    match c {
      case Aprovisionar(r, _, _, _, _) =>
        if e in Sin(antes + [r], r.id) { RemovalKeepsEntries(antes + [r], r.id, e); }
      case Finalizar(id, _, _) =>
        if e in Sin(antes, id) { RemovalKeepsEntries(antes, id, e); }
    }
  }

  lemma {:induction false} RemovalKeepsEntries(reservas: seq<Capacity.Reserva>, id: nat, e: Capacity.Reserva)
    requires e in Sin(reservas, id)
    ensures e in reservas
  {
    if reservas != [] && e in Sin(reservas[..|reservas| - 1], id) {
      RemovalKeepsEntries(reservas[..|reservas| - 1], id, e);
    }
  }

  lemma {:induction false} EntryCounts(insts: seq<Capacity.Instancia>, reservas: seq<Capacity.Reserva>, k: nat)
    requires k < |reservas|
    ensures Capacity.Reservada(insts, reservas, reservas[k].nodo) >= Capacity.Descubierta(insts, reservas[k])
  {
    Capacity.ReservedMonotone(insts, reservas, reservas[k].nodo, k);
    Capacity.ReservedMonotone(insts, reservas, reservas[k].nodo, k + 1);
    assert reservas[..k + 1][..k] == reservas[..k];
  }

  /** While it is in the list, and its instance is not in the inventory, the node is short of all its memory. */
  lemma HeldTakesMemory(cs: seq<Llamada>, i: nat, insts: seq<Capacity.Instancia>)
    requires Historia(cs) && i < |cs| && cs[i].Aprovisionar? && cs[i].r.vmid == 0 && cs[i].salida.Creada?
    requires cs[i].r.id in Ids(TrasTodas(cs)) && Capacity.Absent(insts, cs[i].r.(vmid := cs[i].salida.vmid))
    ensures Capacity.Reservada(insts, TrasTodas(cs), cs[i].r.nodo) >= cs[i].r.memoria
  {
    var reservas := TrasTodas(cs);
    IdsOf(reservas, cs[i].r.id);
    var k :| 0 <= k < |reservas| && reservas[k].id == cs[i].r.id;
    EntryIsOfCall(cs, i, k);
    EntryCounts(insts, reservas, k);
    if reservas[k].vmid == 0 {
      Capacity.NoVmidNotVisible(insts, reservas[k]);
    } else {
      Capacity.AbsentNotVisible(insts, reservas[k]);
    }
  }
}
