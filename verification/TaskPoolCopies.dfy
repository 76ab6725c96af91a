/**
  When is a task in the pool at most once?  encolar never tests the marker, so
  duplicates are reachable; this module finds the exact condition under which
  the marker set says what its comment promises.
 */
module TaskPoolCopies {
  import opened Wrappers
  import opened TaskPool

  ghost predicate ListOk(f: Flow) {
    (f.Recuperando? || f.Lanzando?) ==> NoDuplicates(f.vencidas)
  }

  /** Every task of the pool is in exactly one place, and the marked tasks are the ones in the pool. */
  ghost predicate Exclusive(s: State) {
    && NoDuplicates(s.core.cola)
    && (forall id :: id in s.core.cola ==> id in s.core.enCurso)
    && (forall g :: g in s.flows ==> ListOk(s.flows[g]))
    && (forall g, id :: g in s.flows && id in Holds(s.flows[g]) ==> id in s.core.enCurso && id !in s.core.cola)
    && (forall g, h, id :: g in s.flows && h in s.flows && id in Holds(s.flows[g]) && id in Holds(s.flows[h]) ==> g == h)
  }

  /** An entry into the pool from outside finds its task unmarked. */
  ghost predicate Guarded(s: State, step: Step)
  {
    match step
    case EncolarNueva(g) => g in s.flows && s.flows[g].Registrada? ==> s.flows[g].id !in s.core.enCurso
    case EncolarRevisada(g) => g in s.flows && s.flows[g].PorEncolar? ==> s.flows[g].id !in s.core.enCurso
    case EncolarReanudada(g) =>
      g in s.flows && s.flows[g].Lanzando? && s.flows[g].reanudadas != [] ==> s.flows[g].reanudadas[0] !in s.core.enCurso
    case MarcarVencidas(g) =>
      g in s.flows && s.flows[g].Recuperando? ==> forall id :: id in s.flows[g].vencidas ==> id !in s.core.enCurso
    case _ => true
  }

  predicate IsEntry(step: Step) {
    step.EncolarNueva? || step.EncolarRevisada? || step.EncolarReanudada? || step.MarcarVencidas?
  }

  /** No routine gains a task. */
  ghost predicate NoGain(s: State, s': State) {
    forall g :: g in s'.flows ==>
      && ListOk(s'.flows[g])
      && (Holds(s'.flows[g]) == {} || (g in s.flows && Holds(s'.flows[g]) <= Holds(s.flows[g])))
  }

  lemma PushKeepsExclusive(s: State, s': State, id: TaskId)
    requires Exclusive(s) && NoGain(s, s') && id !in s.core.enCurso
    requires s'.core.cola == s.core.cola + [id] && s'.core.enCurso == s.core.enCurso + {id}
    ensures Exclusive(s')
  {
  }

  lemma TakeKeepsExclusive(c: Config, s: State, g: Routine)
    requires FlowsKnown(s) && Exclusive(s) && Enabled(c, s, Tomar(g))
    ensures Exclusive(Apply(c, s, Tomar(g)))
  {
    HeadPasses(s, Apply(c, s, Tomar(g)), g);
  }

  /** The head of the queue goes to a routine that had nothing. */
  lemma HeadPasses(s: State, s': State, g: Routine)
    requires Exclusive(s) && s.core.cola != [] && g !in s.flows
    requires s'.core == s.core.(cola := s.core.cola[1..]) && s'.flows == s.flows[g := Consultando(s.core.cola[0])]
    ensures Exclusive(s')
  {
    assert s.core.cola[0] !in s'.core.cola;
    assert forall id :: id in s'.core.cola ==> id in s.core.cola;
  }

  lemma MarkingKeepsExclusive(c: Config, s: State, g: Routine)
    requires FlowsKnown(s) && Exclusive(s) && Enabled(c, s, MarcarVencidas(g)) && Guarded(s, MarcarVencidas(g))
    ensures Exclusive(Apply(c, s, MarcarVencidas(g)))
  {
    hide EnTurno, FlowsKnown;
  }

  lemma EntryKeepsExclusive(c: Config, s: State, step: Step)
    requires FlowsKnown(s) && Exclusive(s) && Enabled(c, s, step) && Guarded(s, step)
    requires IsEntry(step)
    ensures Exclusive(Apply(c, s, step))
  {
    if step.MarcarVencidas? {
      MarkingKeepsExclusive(c, s, step.g);
    } else {
      var s' := Apply(c, s, step);
      EnteringGivesToQueueOnly(c, s, step);
      if s'.core.cola != s.core.cola {
        var id :| id !in s.core.enCurso && s'.core == Enqueue(s.core, c.buffer, id);
        PushKeepsExclusive(s, s', id);
      }
    }
  }

  lemma EnteringGivesToQueueOnly(c: Config, s: State, step: Step)
    requires FlowsKnown(s) && ListsOk(s) && Enabled(c, s, step) && Guarded(s, step)
    requires step.EncolarNueva? || step.EncolarRevisada? || step.EncolarReanudada?
    ensures NoGain(s, Apply(c, s, step))
    ensures var s' := Apply(c, s, step);
      s'.core == s.core || exists id :: id !in s.core.enCurso && s'.core == Enqueue(s.core, c.buffer, id)
  {
    hide EnTurno, FlowsKnown, Enqueue;
  }

  /** A timer fires: its task leaves the routine and goes to the queue, or out of the pool. */
  lemma TimerKeepsExclusive(c: Config, s: State, g: Routine)
    requires FlowsKnown(s) && Exclusive(s) && Enabled(c, s, Disparar(g))
    ensures Exclusive(Apply(c, s, Disparar(g)))
  {
    var s' := Apply(c, s, Disparar(g));
    var id := s.flows[g].id;
    assert id in Holds(s.flows[g]);
    var out := s.(core := Unmark(s.core, id), flows := Drop(s.flows, g));
    if s' != out {
      assert s'.core.enCurso == out.core.enCurso + {id};
      PushKeepsExclusive(out, s', id);
    }
  }

  /** One routine hands part of what it holds to a new routine. */
  lemma SplitKeepsExclusive(s: State, s': State, g: Routine, heir: Routine)
    requires Exclusive(s) && s'.core == s.core && g in s.flows && heir !in s.flows && heir in s'.flows
    requires forall h :: h in s'.flows ==> ListOk(s'.flows[h])
    requires forall h :: h in s'.flows && h != heir ==> h in s.flows && Holds(s'.flows[h]) <= Holds(s.flows[h])
    requires Holds(s'.flows[heir]) <= Holds(s.flows[g])
    requires g in s'.flows ==> Holds(s'.flows[g]) !! Holds(s'.flows[heir])
    ensures Exclusive(s')
  {
  }

  lemma LaunchKeepsExclusive(c: Config, s: State, g: Routine, verifier: Routine)
    requires FlowsKnown(s) && Exclusive(s) && Enabled(c, s, Lanzar(g, verifier))
    ensures Exclusive(Apply(c, s, Lanzar(g, verifier)))
  {
    hide EnTurno, FlowsKnown;
    var s' := Apply(c, s, Lanzar(g, verifier));
    var f := s.flows[g];
    assert f.vencidas[0] !in f.vencidas[1..];
    assert forall id :: id in f.vencidas[1..] ==> id in f.vencidas;
    SplitKeepsExclusive(s, s', g, verifier);
  }

  lemma RecoveryListKeepsExclusive(c: Config, s: State, step: Step)
    requires FlowsKnown(s) && Exclusive(s) && Enabled(c, s, step) && step.Recuperar?
    ensures Exclusive(Apply(c, s, step))
  {
    assert (step.vencidas + step.reanudadas)[..|step.vencidas|] == step.vencidas;
  }

  predicate IsQuiet(step: Step) {
    || step.Crear? || step.Resolver? || step.ActualizarEstado? || step.Anunciar? || step.EntrarTurno? || step.Listar?
    || step.Revisar? || step.Apagar? || step.Reiniciar?
  }

  ghost predicate MovesNothing(s: State, s': State) {
    s'.core.cola == s.core.cola && s'.core.enCurso == s.core.enCurso && NoGain(s, s')
  }

  ghost predicate ListsOk(s: State) {
    forall g :: g in s.flows ==> ListOk(s.flows[g])
  }

  lemma ClosingMovesNothing(c: Config, s: State, step: Step)
    requires FlowsKnown(s) && ListsOk(s) && Enabled(c, s, step)
    requires step.Resolver? || step.ActualizarEstado? || step.Anunciar? || step.EntrarTurno?
    ensures MovesNothing(s, Apply(c, s, step))
  {
    hide EnTurno, FlowsKnown;
  }

  lemma LookingMovesNothing(c: Config, s: State, step: Step)
    requires FlowsKnown(s) && ListsOk(s) && Enabled(c, s, step)
    requires step.Crear? || step.Listar? || step.Revisar? || step.Apagar?
    ensures MovesNothing(s, Apply(c, s, step))
  {
    hide EnTurno;
  }

  lemma QuietKeepsExclusive(c: Config, s: State, step: Step)
    requires FlowsKnown(s) && Exclusive(s) && Enabled(c, s, step) && IsQuiet(step)
    ensures Exclusive(Apply(c, s, step))
  {
    if !step.Reiniciar? {
      if step.Crear? || step.Listar? || step.Revisar? || step.Apagar? {
        LookingMovesNothing(c, s, step);
      } else {
        ClosingMovesNothing(c, s, step);
      }
      hide Apply, Enabled, NoGain;
    }
  }

  lemma InnerStepKeepsExclusive(c: Config, s: State, step: Step)
    requires FlowsKnown(s) && Exclusive(s) && Enabled(c, s, step) && !IsEntry(step)
    ensures Exclusive(Apply(c, s, step))
  {
    if IsQuiet(step) {
      QuietKeepsExclusive(c, s, step);
    } else {
      match step {
        case Tomar(g) => TakeKeepsExclusive(c, s, g);
        case Disparar(g) => TimerKeepsExclusive(c, s, g);
        case Lanzar(g, verifier) => LaunchKeepsExclusive(c, s, g, verifier);
        case Recuperar(_, _, _) => RecoveryListKeepsExclusive(c, s, step);
        case _ =>
      }
    }
  }

  /** A task already in the pool is held; letting it in again, or failing to, breaks the correspondence. */
  lemma UnguardedBreaksExclusive(c: Config, s: State, step: Step)
    requires Inv(c, s) && Enabled(c, s, step) && !Guarded(s, step)
    ensures !Exclusive(Apply(c, s, step))
  {
    var f := s.flows[Actor(c, step)];
    if step.MarcarVencidas? {
      var id :| id in f.vencidas && id in s.core.enCurso;
      RemarkedIsShared(c, s, step.g, id);
    } else {
      ReentryBreaks(c, s, step, if step.EncolarReanudada? then f.reanudadas[0] else f.id);
    }
  }

  lemma RemarkedIsShared(c: Config, s: State, g: Routine, id: TaskId)
    requires Inv(c, s) && Enabled(c, s, MarcarVencidas(g)) && id in s.flows[g].vencidas && id in s.core.enCurso
    ensures !Exclusive(Apply(c, s, MarcarVencidas(g)))
  {
    var s' := Apply(c, s, MarcarVencidas(g));
    assert id in Holds(s'.flows[g]);
    assert Held(s, id);
    if id !in s.core.cola {
      var h :| h in s.flows && id in Holds(s.flows[h]);
      assert h != g && s'.flows[h] == s.flows[h];
    }
  }

  lemma ReentryBreaks(c: Config, s: State, step: Step, id: TaskId)
    requires Inv(c, s) && Enabled(c, s, step) && id in s.core.enCurso
    requires step.EncolarNueva? || step.EncolarRevisada? || step.EncolarReanudada?
    requires Apply(c, s, step).core == Enqueue(s.core, c.buffer, id)
    ensures !Exclusive(Apply(c, s, step))
  {
    hide EnTurno, FlowsKnown, RoleOk;
    var s' := Apply(c, s, step);
    assert Held(s, id);
    if id in s.core.cola {
      var i :| 0 <= i < |s.core.cola| && s.core.cola[i] == id;
      if Admits(s.core, c.buffer) {
        assert s'.core.cola[i] == id && s'.core.cola[|s.core.cola|] == id;
      } else {
        assert id in s'.core.cola && id !in s'.core.enCurso;
      }
    } else {
      var h :| h in s.flows && id in Holds(s.flows[h]);
      assert h in s'.flows && id in Holds(s'.flows[h]);
    }
  }

  /** Testing the marker inside the entering critical section is exactly what is missing. */
  lemma MarkerTestIsExact(c: Config, s: State, step: Step)
    requires Inv(c, s) && Exclusive(s) && Enabled(c, s, step)
    ensures Exclusive(Apply(c, s, step)) <==> Guarded(s, step)
  {
    if !Guarded(s, step) {
      UnguardedBreaksExclusive(c, s, step);
    } else if IsEntry(step) {
      EntryKeepsExclusive(c, s, step);
    } else {
      InnerStepKeepsExclusive(c, s, step);
    }
  }

  ghost predicate AlwaysExclusive(c: Config, s: State, steps: seq<Step>)
    requires Runs(c, s, steps)
    decreases |steps|
  {
    Exclusive(s) && (steps != [] ==> AlwaysExclusive(c, Apply(c, s, steps[0]), steps[1..]))
  }

  ghost predicate AlwaysGuarded(c: Config, s: State, steps: seq<Step>)
    requires Runs(c, s, steps)
    decreases |steps|
  {
    steps != [] ==> Guarded(s, steps[0]) && AlwaysGuarded(c, Apply(c, s, steps[0]), steps[1..])
  }

  lemma {:induction false} RunExclusiveIffGuarded(c: Config, s: State, steps: seq<Step>)
    requires Inv(c, s) && Exclusive(s) && Runs(c, s, steps)
    ensures AlwaysExclusive(c, s, steps) <==> AlwaysGuarded(c, s, steps)
    decreases |steps|
  {
    if steps != [] {
      var s' := Apply(c, s, steps[0]);
      MarkerTestIsExact(c, s, steps[0]);
      StepKeepsInv(c, s, steps[0]);
      if Exclusive(s') {
        RunExclusiveIffGuarded(c, s', steps[1..]);
      } else if steps[1..] == [] {
        assert !AlwaysExclusive(c, s', steps[1..]);
      }
    }
  }

  /**
    From a fresh process on any table: each task stays in one place, marked
    exactly while in the pool, if and only if every entry from outside finds its
    task unmarked.
   */
  lemma AtMostOnceIffGuarded(c: Config, rows: map<TaskId, Row>, steps: seq<Step>)
    requires Runs(c, Init(rows), steps)
    ensures AlwaysExclusive(c, Init(rows), steps) <==> AlwaysGuarded(c, Init(rows), steps)
  {
    RunExclusiveIffGuarded(c, Init(rows), steps);
  }

  // ---------- Two witnesses ----------

  lemma Prepend(c: Config, s: State, step: Step, rest: seq<Step>)
    requires FlowsKnown(s) && Enabled(c, s, step) && Runs(c, Apply(c, s, step), rest)
    ensures Runs(c, s, [step] + rest) && Exec(c, s, [step] + rest) == Exec(c, Apply(c, s, step), rest)
    ensures AlwaysGuarded(c, s, [step] + rest) <==> Guarded(s, step) && AlwaysGuarded(c, Apply(c, s, step), rest)
  {
    assert ([step] + rest)[1..] == rest;
  }

  lemma {:induction false} GuardedConcat(c: Config, s: State, a: seq<Step>, b: seq<Step>)
    requires Runs(c, s, a) && Runs(c, Exec(c, s, a), b)
    requires AlwaysGuarded(c, s, a) && AlwaysGuarded(c, Exec(c, s, a), b)
    ensures Runs(c, s, a + b) && AlwaysGuarded(c, s, a + b)
    ensures Exec(c, s, a + b) == Exec(c, Exec(c, s, a), b)
    decreases |a|
  {
    RunsConcat(c, s, a, b);
    if a == [] {
      assert a + b == b;
    } else {
      GuardedConcat(c, Apply(c, s, a[0]), a[1..], b);
      assert (a + b)[1..] == a[1..] + b;
    }
  }

  /** The reconciler lists task 7 right after Crear, before its creator queues it. */
  function ListedEarly(c: Config): State {
    State(Core(true, [], {}), map[7 := Row(Running, true)],
          map[c.workers + 1 := Registrada(7), c.workers := Revisando([7])], [], false)
  }

  lemma ListedEarlyIsReachable(c: Config, rest: seq<Step>)
    requires Runs(c, ListedEarly(c), rest)
    ensures var all := [Crear(c.workers + 1, 7)] + ([Listar(c.workers, [7])] + rest);
      && Runs(c, Init(map[]), all) && Exec(c, Init(map[]), all) == Exec(c, ListedEarly(c), rest)
      && (AlwaysGuarded(c, ListedEarly(c), rest) ==> AlwaysGuarded(c, Init(map[]), all))
  {
    var s1 := Apply(c, Init(map[]), Crear(c.workers + 1, 7));
    assert Lists(s1, [7]);
    assert Apply(c, s1, Listar(c.workers, [7])) == ListedEarly(c);
    Prepend(c, s1, Listar(c.workers, [7]), rest);
    Prepend(c, Init(map[]), Crear(c.workers + 1, 7), [Listar(c.workers, [7])] + rest);
  }

  /** The reconciler looks at an unmarked legible row ... */
  lemma Looking(c: Config, s: State, id: TaskId)
    requires FlowsKnown(s) && c.workers in s.flows && s.flows[c.workers] == Revisando([id])
    requires id !in s.core.enCurso && id in s.rows && s.rows[id].legible
    ensures Enabled(c, s, Revisar(c.workers)) && FlowsKnown(Apply(c, s, Revisar(c.workers)))
    ensures Apply(c, s, Revisar(c.workers)) == s.(flows := s.flows[c.workers := PorEncolar(id, [])])
  {
    assert [id][1..] == [];
    StepKeepsKnown(c, s, Revisar(c.workers));
  }

  /** Creator and reconciler both queue the task: it is in the queue twice. */
  lemma DuplicateIsReachable(c: Config) returns (steps: seq<Step>)
    requires c.Valid() && c.buffer >= 2
    ensures Runs(c, Init(map[]), steps) && Exec(c, Init(map[]), steps).core.cola == [7, 7]
  {
    var w := c.workers;
    var s2 := ListedEarly(c);
    assert FlowsKnown(s2);
    hide Apply, Enabled, FlowsKnown;
    Looking(c, s2, 7);
    var s3 := Apply(c, s2, Revisar(w));
    var s4 := Apply(c, s3, EncolarRevisada(w));
    assert Apply(c, s4, EncolarNueva(w + 1)).core.cola == [7, 7];
    Prepend(c, s4, EncolarNueva(w + 1), []);
    Prepend(c, s3, EncolarRevisada(w), [EncolarNueva(w + 1)] + []);
    Prepend(c, s2, Revisar(w), [EncolarRevisada(w)] + ([EncolarNueva(w + 1)] + []));
    ListedEarlyIsReachable(c, [Revisar(w)] + ([EncolarRevisada(w)] + ([EncolarNueva(w + 1)] + [])));
    steps := [Crear(w + 1, 7)] + ([Listar(w, [7])] + ([Revisar(w)] + ([EncolarRevisada(w)] + ([EncolarNueva(w + 1)] + []))));
  }

  /** A worker takes the head of the queue and closes it for good. */
  function CloseHead(outcome: Outcome): seq<Step> {
    [Tomar(0)] + ([Resolver(0, outcome)] + ([ActualizarEstado(0, Hecha)] + ([Anunciar(0)] + ([Desmarcar(0)] + []))))
  }

  // The five steps of a worker that closes a task.

  lemma Taking(c: Config, s: State, g: Routine)
    requires FlowsKnown(s) && s.core.cola != [] && g < c.workers && g !in s.flows
    ensures Enabled(c, s, Tomar(g))
    ensures Apply(c, s, Tomar(g)) == s.(core := s.core.(cola := s.core.cola[1..]), flows := s.flows[g := Consultando(s.core.cola[0])])
    ensures FlowsKnown(Apply(c, s, Tomar(g)))
  {
    StepKeepsKnown(c, s, Tomar(g));
  }

  lemma Resolving(c: Config, s: State, g: Routine, outcome: Outcome)
    requires FlowsKnown(s) && g in s.flows && (s.flows[g].Consultando? || s.flows[g].Verificando?)
    ensures Enabled(c, s, Resolver(g, outcome))
    ensures Apply(c, s, Resolver(g, outcome)) == s.(flows := s.flows[g := Cerrando(s.flows[g].id, outcome)])
    ensures FlowsKnown(Apply(c, s, Resolver(g, outcome)))
  {
    StepKeepsKnown(c, s, Resolver(g, outcome));
  }

  lemma Committing(c: Config, s: State, g: Routine)
    requires FlowsKnown(s) && g in s.flows && s.flows[g].Cerrando?
    ensures s.flows[g].id in s.rows && Enabled(c, s, ActualizarEstado(g, Hecha))
    ensures var f := s.flows[g];
      Apply(c, s, ActualizarEstado(g, Hecha)) ==
        s.(rows := CloseRow(s.rows, f.id, f.outcome), flows := s.flows[g := PorAnunciar(f.id, f.outcome)])
    ensures FlowsKnown(Apply(c, s, ActualizarEstado(g, Hecha)))
  {
    assert s.flows[g].id in Mentions(s.flows[g]);
    StepKeepsKnown(c, s, ActualizarEstado(g, Hecha));
  }

  lemma Announcing(c: Config, s: State, g: Routine)
    requires FlowsKnown(s) && g in s.flows && s.flows[g].PorAnunciar?
    ensures Enabled(c, s, Anunciar(g))
    ensures var f := s.flows[g];
      Apply(c, s, Anunciar(g)) == s.(flows := s.flows[g := Cerrada(f.id)], events := s.events + [TaskFinished(f.id, f.outcome)])
    ensures FlowsKnown(Apply(c, s, Anunciar(g)))
  {
    StepKeepsKnown(c, s, Anunciar(g));
  }

  lemma Unmarking(c: Config, s: State, g: Routine)
    requires FlowsKnown(s) && g in s.flows && s.flows[g].Cerrada?
    ensures Enabled(c, s, Desmarcar(g))
    ensures Apply(c, s, Desmarcar(g)) == s.(core := Unmark(s.core, s.flows[g].id), flows := Drop(s.flows, g))
    ensures FlowsKnown(Apply(c, s, Desmarcar(g)))
  {
    StepKeepsKnown(c, s, Desmarcar(g));
  }

  lemma HeadIsClosed(c: Config, s: State, outcome: Outcome)
    requires c.Valid() && Inv(c, s) && s.core.cola != [] && 0 !in s.flows
    ensures Runs(c, s, CloseHead(outcome)) && AlwaysGuarded(c, s, CloseHead(outcome))
    ensures var id := s.core.cola[0];
      Exec(c, s, CloseHead(outcome)) ==
        s.(core := s.core.(cola := s.core.cola[1..], enCurso := s.core.enCurso - {id}),
           rows := CloseRow(s.rows, id, outcome), events := s.events + [TaskFinished(id, outcome)])
  {
    hide Apply, Enabled, FlowsKnown, Runs, Exec, AlwaysGuarded;
    Taking(c, s, 0);
    var s1 := Apply(c, s, Tomar(0));
    Resolving(c, s1, 0, outcome);
    var s2 := Apply(c, s1, Resolver(0, outcome));
    Committing(c, s2, 0);
    var s3 := Apply(c, s2, ActualizarEstado(0, Hecha));
    Announcing(c, s3, 0);
    var s4 := Apply(c, s3, Anunciar(0));
    Unmarking(c, s4, 0);
    var s5 := Apply(c, s4, Desmarcar(0));
    HeadSteps(c, s, s1, s2, s3, s4, s5, outcome);
    assert s5.flows == s.flows;
  }

  lemma HeadSteps(c: Config, s: State, s1: State, s2: State, s3: State, s4: State, s5: State, outcome: Outcome)
    requires FlowsKnown(s) && FlowsKnown(s1) && FlowsKnown(s2) && FlowsKnown(s3) && FlowsKnown(s4) && FlowsKnown(s5)
    requires Enabled(c, s, Tomar(0)) && Apply(c, s, Tomar(0)) == s1
    requires Enabled(c, s1, Resolver(0, outcome)) && Apply(c, s1, Resolver(0, outcome)) == s2
    requires Enabled(c, s2, ActualizarEstado(0, Hecha)) && Apply(c, s2, ActualizarEstado(0, Hecha)) == s3
    requires Enabled(c, s3, Anunciar(0)) && Apply(c, s3, Anunciar(0)) == s4
    requires Enabled(c, s4, Desmarcar(0)) && Apply(c, s4, Desmarcar(0)) == s5
    ensures Runs(c, s, CloseHead(outcome)) && AlwaysGuarded(c, s, CloseHead(outcome))
    ensures Exec(c, s, CloseHead(outcome)) == s5
  {
    assert Runs(c, s5, []) && AlwaysGuarded(c, s5, []) && Exec(c, s5, []) == s5;
    hide Apply, Enabled, FlowsKnown, Runs, Exec, AlwaysGuarded;
    Prepend(c, s4, Desmarcar(0), []);
    Prepend(c, s3, Anunciar(0), [Desmarcar(0)] + []);
    Prepend(c, s2, ActualizarEstado(0, Hecha), [Anunciar(0)] + ([Desmarcar(0)] + []));
    Prepend(c, s1, Resolver(0, outcome), [ActualizarEstado(0, Hecha)] + ([Anunciar(0)] + ([Desmarcar(0)] + [])));
    Prepend(c, s, Tomar(0), [Resolver(0, outcome)] + ([ActualizarEstado(0, Hecha)] + ([Anunciar(0)] + ([Desmarcar(0)] + []))));
  }

  /** Task 7 is closed, and the reconciler still has it on a list read before. */
  function StaleList(c: Config): State {
    State(Core(true, [], {}), map[7 := Row(Closed(Completed), true)],
          map[c.workers := Revisando([7])], [TaskFinished(7, Completed)], false)
  }

  function StaleSteps(c: Config): seq<Step> {
    [Revisar(c.workers)] + ([EncolarRevisada(c.workers)] + CloseHead(Failed))
  }

  lemma StaleListClosesAgain(c: Config)
    requires c.Valid()
    ensures Runs(c, StaleList(c), StaleSteps(c)) && AlwaysGuarded(c, StaleList(c), StaleSteps(c))
    ensures var s := Exec(c, StaleList(c), StaleSteps(c));
      && s.events == [TaskFinished(7, Completed), TaskFinished(7, Failed)]
      && s.rows == map[7 := Row(Closed(Completed), true)]
  {
    var w := c.workers;
    var s4 := StaleList(c);
    StaleListIsGood(c);
    hide Apply, Enabled, FlowsKnown, Runs, Exec, AlwaysGuarded, Inv;
    Looking(c, s4, 7);
    var s5 := Apply(c, s4, Revisar(w));
    StepKeepsInv(c, s4, Revisar(w));
    var s6 := Apply(c, s5, EncolarRevisada(w));
    StepKeepsInv(c, s5, EncolarRevisada(w));
    assert s6.core.cola == [7];
    HeadIsClosed(c, s6, Failed);
    Prepend(c, s5, EncolarRevisada(w), CloseHead(Failed));
    Prepend(c, s4, Revisar(w), [EncolarRevisada(w)] + CloseHead(Failed));
  }

  lemma StaleListIsGood(c: Config)
    requires c.Valid()
    ensures Inv(c, StaleList(c)) && FlowsKnown(StaleList(c))
  {
    assert EnTurno(c, StaleList(c)) == {};
  }

  /** The creator queued task 7; the reconciler listed it and has not looked yet. */
  function QueuedAndListed(c: Config): State {
    State(Core(true, [7], {7}), map[7 := Row(Running, true)], map[c.workers := Revisando([7])], [], false)
  }

  function TwoClosures(c: Config): seq<Step> {
    CloseHead(Completed) + StaleSteps(c)
  }

  lemma TwoClosuresRun(c: Config)
    requires c.Valid()
    ensures Runs(c, QueuedAndListed(c), TwoClosures(c)) && AlwaysGuarded(c, QueuedAndListed(c), TwoClosures(c))
    ensures var s := Exec(c, QueuedAndListed(c), TwoClosures(c));
      && s.events == [TaskFinished(7, Completed), TaskFinished(7, Failed)]
      && s.rows == map[7 := Row(Closed(Completed), true)]
  {
    FirstClosureRuns(c);
    StaleListClosesAgain(c);
    hide Apply, Enabled, FlowsKnown, Runs, Exec, AlwaysGuarded, CloseHead, StaleSteps;
    GuardedConcat(c, QueuedAndListed(c), CloseHead(Completed), StaleSteps(c));
  }

  lemma FirstClosureRuns(c: Config)
    requires c.Valid()
    ensures Runs(c, QueuedAndListed(c), CloseHead(Completed)) && AlwaysGuarded(c, QueuedAndListed(c), CloseHead(Completed))
    ensures Exec(c, QueuedAndListed(c), CloseHead(Completed)) == StaleList(c)
  {
    QueuedAndListedIsGood(c);
    hide Apply, Enabled, FlowsKnown, Runs, Exec, AlwaysGuarded, Inv, CloseHead;
    HeadIsClosed(c, QueuedAndListed(c), Completed);
    var core := QueuedAndListed(c).core;
    assert core.(cola := core.cola[1..], enCurso := core.enCurso - {7}) == StaleList(c).core;
    assert CloseRow(QueuedAndListed(c).rows, 7, Completed) == StaleList(c).rows;
    assert [] + [TaskFinished(7, Completed)] == StaleList(c).events;
  }

  lemma QueuedAndListedIsGood(c: Config)
    requires c.Valid()
    ensures Inv(c, QueuedAndListed(c))
  {
    assert Held(QueuedAndListed(c), 7);
    assert EnTurno(c, QueuedAndListed(c)) == {};
  }

  /**
    Even when every entry finds its task unmarked, TASK_FINISHED can fire twice
    with different outcomes: the reconciler works from a list read before the
    first closure.  The row keeps the first outcome.
   */
  lemma FinishedTwiceIsReachable(c: Config) returns (steps: seq<Step>)
    requires c.Valid()
    ensures Runs(c, Init(map[]), steps) && AlwaysGuarded(c, Init(map[]), steps)
    ensures var s := Exec(c, Init(map[]), steps);
      && s.events == [TaskFinished(7, Completed), TaskFinished(7, Failed)]
      && s.rows == map[7 := Row(Closed(Completed), true)]
  {
    var w := c.workers;
    var entry := EncolarNueva(w + 1);
    var tail := TwoClosures(c);
    TwoClosuresRun(c);
    EarlyEntry(c);
    Prepend(c, ListedEarly(c), entry, tail);
    ListedEarlyIsReachable(c, [entry] + tail);
    steps := [Crear(w + 1, 7)] + ([Listar(w, [7])] + ([entry] + tail));
  }

  lemma EarlyEntry(c: Config)
    requires c.Valid()
    ensures FlowsKnown(ListedEarly(c)) && Enabled(c, ListedEarly(c), EncolarNueva(c.workers + 1))
    ensures Guarded(ListedEarly(c), EncolarNueva(c.workers + 1))
    ensures Apply(c, ListedEarly(c), EncolarNueva(c.workers + 1)) == QueuedAndListed(c)
  {
    var s3 := Apply(c, ListedEarly(c), EncolarNueva(c.workers + 1));
    assert s3.core == Core(true, [7], {7});
    assert s3.flows == map[c.workers := Revisando([7])];
  }
}
