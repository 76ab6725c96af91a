/**
  When is the end of a task announced once?  One task at a time: its copies in
  the pool are counted, an entry is sound when it finds the task unmarked and its
  row still RUNNING, and a second announcement is traced to a closure of a row
  already closed and to the entry that let the extra copy in.
 */
module TaskPoolOnce {
  import opened Wrappers
  import opened TaskPool
  import opened TaskPoolCopies
  import opened TaskPoolEvents

  // ---------- The copies of one task ----------

  function Queued(cola: seq<TaskId>, id: TaskId): nat {
    if cola == [] then 0 else (if cola[0] == id then 1 else 0) + Queued(cola[1..], id)
  }

  function Holders(s: State, id: TaskId): set<Routine> {
    set g | g in s.flows && id in Holds(s.flows[g])
  }

  function Copies(s: State, id: TaskId): nat {
    Queued(s.core.cola, id) + |Holders(s, id)|
  }

  /** The routine has the task and has not committed its closure, nor failed to. */
  predicate Unclosed(f: Flow, id: TaskId) {
    id in Holds(f) && !f.PorAnunciar? && !f.Cerrada?
  }

  /** One copy at most, marked while it is there, and of a RUNNING row until it is closed. */
  ghost predicate Single(s: State, id: TaskId) {
    && Copies(s, id) <= 1
    && (Copies(s, id) == 1 ==> id in s.core.enCurso)
    && (Queued(s.core.cola, id) > 0 ==> IsRunning(s, id))
    && (forall g :: g in s.flows && Unclosed(s.flows[g], id) ==> IsRunning(s, id))
    && ListsOk(s)
  }

  lemma {:induction false} QueuedSnoc(cola: seq<TaskId>, x: TaskId, id: TaskId)
    ensures Queued(cola + [x], id) == Queued(cola, id) + if x == id then 1 else 0
  {
    if cola == [] {
      assert cola + [x] == [x];
    } else {
      QueuedSnoc(cola[1..], x, id);
      assert (cola + [x])[1..] == cola[1..] + [x];
    }
  }

  lemma {:induction false} QueuedIffIn(cola: seq<TaskId>, id: TaskId)
    ensures Queued(cola, id) > 0 <==> id in cola
  {
    if cola != [] {
      QueuedIffIn(cola[1..], id);
      assert cola == [cola[0]] + cola[1..];
    }
  }

  /** A marked task has a copy. */
  lemma MarkedHasCopy(c: Config, s: State, id: TaskId)
    requires Inv(c, s) && id in s.core.enCurso
    ensures Copies(s, id) >= 1
  {
    QueuedIffIn(s.core.cola, id);
    assert Held(s, id);
    if id !in s.core.cola {
      var g :| g in s.flows && id in Holds(s.flows[g]);
      assert g in Holders(s, id);
    }
  }

  // ---------- Entries ----------

  /** The task that an entry into the queue brings. */
  function Entering(s: State, step: Step): TaskId
    requires IsQueueEntry(s, step)
  {
    match step
    case EncolarNueva(g) => s.flows[g].id
    case EncolarRevisada(g) => s.flows[g].id
    case EncolarReanudada(g) => s.flows[g].reanudadas[0]
  }

  predicate IsQueueEntry(s: State, step: Step) {
    match step
    case EncolarNueva(g) => g in s.flows && s.flows[g].Registrada?
    case EncolarRevisada(g) => g in s.flows && s.flows[g].PorEncolar?
    case EncolarReanudada(g) => g in s.flows && s.flows[g].Lanzando? && s.flows[g].vencidas == [] && s.flows[g].reanudadas != []
    case _ => false
  }

  predicate IsMarking(s: State, step: Step, id: TaskId) {
    step.MarcarVencidas? && step.g in s.flows && s.flows[step.g].Recuperando? && id in s.flows[step.g].vencidas
  }

  /** An entry of the task finds it unmarked and, if it is let in, its row RUNNING. */
  predicate Sound(c: Config, s: State, step: Step, id: TaskId) {
    if IsQueueEntry(s, step) && Entering(s, step) == id then id !in s.core.enCurso && (Admits(s.core, c.buffer) ==> IsRunning(s, id))
    else if IsMarking(s, step, id) then id !in s.core.enCurso && IsRunning(s, id)
    else true
  }

  // ---------- What each step does to the copies ----------

  lemma EntryEffect(c: Config, s: State, step: Step, id: TaskId)
    requires FlowsKnown(s) && Enabled(c, s, step) && IsQueueEntry(s, step)
    ensures var s', x := Apply(c, s, step), Entering(s, step);
      && s'.core == Enqueue(s.core, c.buffer, x) && s'.rows == s.rows
      && (ListsOk(s) ==> ListsOk(s'))
      && (forall g :: g in s'.flows && id in Holds(s'.flows[g]) <==> g in s.flows && id in Holds(s.flows[g]))
      && (forall g :: g in s'.flows && Unclosed(s'.flows[g], id) ==> g in s.flows && Unclosed(s.flows[g], id))
  {
    hide EnTurno, Enqueue;
  }

  lemma EntryKeepsSingleIff(c: Config, s: State, step: Step, id: TaskId)
    requires Inv(c, s) && Single(s, id) && Enabled(c, s, step) && IsQueueEntry(s, step)
    ensures Single(Apply(c, s, step), id) <==> Sound(c, s, step, id)
  {
    var s', x := Apply(c, s, step), Entering(s, step);
    EntryEffect(c, s, step, id);
    assert Holders(s', id) == Holders(s, id);
    QueuedSnoc(s.core.cola, x, id);
    if id in s.core.enCurso { MarkedHasCopy(c, s, id); }
  }

  lemma MarkingEffect(c: Config, s: State, g: Routine, id: TaskId)
    requires FlowsKnown(s) && ListsOk(s) && Enabled(c, s, MarcarVencidas(g))
    ensures var s', due := Apply(c, s, MarcarVencidas(g)), id in s.flows[g].vencidas;
      && s'.core.cola == s.core.cola && (id in s'.core.enCurso <==> id in s.core.enCurso || due) && s'.rows == s.rows
      && ListsOk(s') && g !in Holders(s, id) && Holders(s', id) == Holders(s, id) + (if due then {g} else {})
      && (forall h :: h in s'.flows && h != g ==> h in s.flows && s'.flows[h] == s.flows[h])
      && (forall h :: h in s.flows && h != g ==> h in s'.flows && s'.flows[h] == s.flows[h])
      && g in s'.flows && (Unclosed(s'.flows[g], id) <==> due) && !Unclosed(s.flows[g], id)
  {
    hide EnTurno, FlowsKnown;
    var s' := Apply(c, s, MarcarVencidas(g));
    assert s'.flows[g] == Lanzando(s.flows[g].vencidas, s.flows[g].reanudadas);
    assert ListOk(s.flows[g]);
  }

  lemma MarkingKeepsSingleIff(c: Config, s: State, g: Routine, id: TaskId)
    requires Inv(c, s) && Single(s, id) && Enabled(c, s, MarcarVencidas(g))
    ensures Single(Apply(c, s, MarcarVencidas(g)), id) <==> Sound(c, s, MarcarVencidas(g), id)
  {
    hide Holders, Unclosed, Apply;
    var s', due := Apply(c, s, MarcarVencidas(g)), id in s.flows[g].vencidas;
    MarkingEffect(c, s, g, id);
    if id in s.core.enCurso { MarkedHasCopy(c, s, id); }
    if !due {
      FewerCopiesKeepSingle(s, s', id);
    }
  }

  /** A step after which no routine and no queue has the task that had it not, and nothing of it is unmarked. */
  lemma FewerCopiesKeepSingle(s: State, s': State, id: TaskId)
    requires Single(s, id) && ListsOk(s')
    requires Queued(s'.core.cola, id) <= Queued(s.core.cola, id) && Holders(s', id) <= Holders(s, id)
    requires Copies(s', id) > 0 && id in s.core.enCurso ==> id in s'.core.enCurso
    requires forall g :: g in s'.flows && Unclosed(s'.flows[g], id) ==> g in s.flows && Unclosed(s.flows[g], id)
    requires IsRunning(s, id) ==> IsRunning(s', id) || (Queued(s'.core.cola, id) == 0 && forall g :: g in s'.flows ==> !Unclosed(s'.flows[g], id))
    ensures Single(s', id)
  {
    Fewer(Holders(s', id), Holders(s, id));
  }

  lemma TakingEffect(c: Config, s: State, g: Routine, id: TaskId)
    requires FlowsKnown(s) && ListsOk(s) && Enabled(c, s, Tomar(g))
    ensures var s', x := Apply(c, s, Tomar(g)), s.core.cola[0];
      && s'.core == s.core.(cola := s.core.cola[1..]) && s'.rows == s.rows && ListsOk(s') && g !in Holders(s, id)
      && Holders(s', id) == Holders(s, id) + (if x == id then {g} else {})
      && (forall h :: h in s'.flows && h != g ==> h in s.flows && s'.flows[h] == s.flows[h])
      && g in s'.flows && s'.flows[g] == Consultando(x)
  {
    hide EnTurno, FlowsKnown;
  }

  lemma TakingKeepsSingle(c: Config, s: State, g: Routine, id: TaskId)
    requires FlowsKnown(s) && Single(s, id) && Enabled(c, s, Tomar(g))
    ensures Single(Apply(c, s, Tomar(g)), id)
  {
    TakingEffect(c, s, g, id);
    var s' := Apply(c, s, Tomar(g));
    hide Apply, Enabled, Holders, FlowsKnown, ListsOk;
  }

  lemma ReschedulingEffect(c: Config, s: State, g: Routine, timer: Routine, id: TaskId)
    requires FlowsKnown(s) && ListsOk(s) && Enabled(c, s, Reprogramar(g, timer))
    ensures var s', x := Apply(c, s, Reprogramar(g, timer)), s.flows[g].id;
      && s'.core == s.core && s'.rows == s.rows && ListsOk(s') && timer !in Holders(s, id)
      && Holders(s', id) == (if x == id then Holders(s, id) - {g} + {timer} else Holders(s, id))
      && (x == id ==> g in Holders(s, id) && Unclosed(s.flows[g], id))
      && (forall h :: h in s'.flows && h != timer ==> h in s.flows && s'.flows[h] == s.flows[h])
      && timer in s'.flows && (Unclosed(s'.flows[timer], id) <==> x == id)
  {
    hide EnTurno, FlowsKnown;
  }

  lemma ReschedulingKeepsSingle(c: Config, s: State, g: Routine, timer: Routine, id: TaskId)
    requires FlowsKnown(s) && Single(s, id) && Enabled(c, s, Reprogramar(g, timer))
    ensures Single(Apply(c, s, Reprogramar(g, timer)), id)
  {
    ReschedulingEffect(c, s, g, timer, id);
    var s' := Apply(c, s, Reprogramar(g, timer));
    assert s.flows[g].id == id ==> IsRunning(s, id);
    hide Apply, Enabled, Holders, FlowsKnown, ListsOk, Unclosed;
  }

  lemma LaunchingEffect(c: Config, s: State, g: Routine, verifier: Routine, id: TaskId)
    requires FlowsKnown(s) && ListsOk(s) && Enabled(c, s, Lanzar(g, verifier))
    ensures var s', x := Apply(c, s, Lanzar(g, verifier)), s.flows[g].vencidas[0];
      && s'.core == s.core && s'.rows == s.rows && ListsOk(s') && verifier !in Holders(s, id)
      && Holders(s', id) == (if x == id then Holders(s, id) - {g} + {verifier} else Holders(s, id))
      && (x == id ==> g in Holders(s, id))
  {
    hide EnTurno, FlowsKnown, Unclosed;
    var v := s.flows[g].vencidas;
    assert ListOk(s.flows[g]) && v == [v[0]] + v[1..] && v[0] !in v[1..];
  }

  lemma LaunchingUnclosed(c: Config, s: State, g: Routine, verifier: Routine, id: TaskId)
    requires FlowsKnown(s) && Enabled(c, s, Lanzar(g, verifier))
    ensures var s', x := Apply(c, s, Lanzar(g, verifier)), s.flows[g].vencidas[0];
      && (x == id ==> Unclosed(s.flows[g], id))
      && (forall h :: h in s'.flows && h != verifier && Unclosed(s'.flows[h], id) ==> h in s.flows && Unclosed(s.flows[h], id))
      && verifier in s'.flows && (Unclosed(s'.flows[verifier], id) <==> x == id)
  {
    hide EnTurno, FlowsKnown;
    var v := s.flows[g].vencidas;
    assert v == [v[0]] + v[1..];
  }

  lemma LaunchingKeepsSingle(c: Config, s: State, g: Routine, verifier: Routine, id: TaskId)
    requires FlowsKnown(s) && Single(s, id) && Enabled(c, s, Lanzar(g, verifier))
    ensures Single(Apply(c, s, Lanzar(g, verifier)), id)
  {
    hide Apply, Holders, FlowsKnown, ListsOk, Unclosed, EnTurno;
    LaunchingEffect(c, s, g, verifier, id);
    LaunchingUnclosed(c, s, g, verifier, id);
    assert s.flows[g].vencidas[0] == id ==> IsRunning(s, id);
  }

  /** A timer fires: its copy goes to the queue, or out of the pool. */
  lemma FiringKeepsSingle(c: Config, s: State, g: Routine, id: TaskId)
    requires FlowsKnown(s) && Single(s, id) && Enabled(c, s, Disparar(g))
    ensures Single(Apply(c, s, Disparar(g)), id)
  {
    hide EnTurno, FlowsKnown;
    var s', x := Apply(c, s, Disparar(g)), s.flows[g].id;
    assert Holders(s', id) == if x == id then Holders(s, id) - {g} else Holders(s, id);
    assert x == id ==> g in Holders(s, id) && Unclosed(s.flows[g], id);
    QueuedSnoc(s.core.cola, x, id);
  }

  lemma UnmarkingKeepsSingle(c: Config, s: State, g: Routine, id: TaskId)
    requires FlowsKnown(s) && Single(s, id) && Enabled(c, s, Desmarcar(g))
    ensures Single(Apply(c, s, Desmarcar(g)), id)
  {
    hide EnTurno, FlowsKnown;
    var s', x := Apply(c, s, Desmarcar(g)), s.flows[g].id;
    assert Holders(s', id) == if x == id then Holders(s, id) - {g} else Holders(s, id);
    assert x == id ==> g in Holders(s, id);
    FewerCopiesKeepSingle(s, s', id);
  }

  /** A commit closes the row of the only copy. */
  lemma CommittingKeepsSingle(c: Config, s: State, g: Routine, fin: Escritura, id: TaskId)
    requires FlowsKnown(s) && Single(s, id) && Enabled(c, s, ActualizarEstado(g, fin))
    ensures Single(Apply(c, s, ActualizarEstado(g, fin)), id)
  {
    hide EnTurno, FlowsKnown;
    var s', x := Apply(c, s, ActualizarEstado(g, fin)), s.flows[g].id;
    assert Holders(s', id) == Holders(s, id);
    if x == id {
      assert g in Holders(s, id);
      OnlyHolder(s, id, g);
      forall h | h in s'.flows ensures !Unclosed(s'.flows[h], id) {
        assert h != g && id in Holds(s'.flows[h]) ==> h in Holders(s, id);
      }
    }
    FewerCopiesKeepSingle(s, s', id);
  }

  lemma OnlyHolder(s: State, id: TaskId, g: Routine)
    requires Copies(s, id) <= 1 && g in Holders(s, id)
    ensures Queued(s.core.cola, id) == 0 && Holders(s, id) == {g}
  {
    Fewer({g}, Holders(s, id));
    if h :| h in Holders(s, id) && h != g {
      Fewer({g, h}, Holders(s, id));
    }
  }

  /** Steps that move no copy. */
  lemma StillKeepsSingle(c: Config, s: State, step: Step, id: TaskId)
    requires FlowsKnown(s) && Single(s, id) && Enabled(c, s, step)
    requires step.Crear? || step.Resolver? || step.Anunciar? || step.EntrarTurno? || step.Listar? || step.Revisar? || step.Recuperar? || step.Apagar?
    ensures Single(Apply(c, s, step), id)
  {
    SameHolders(c, s, step, id);
    FewerCopiesKeepSingle(s, Apply(c, s, step), id);
  }

  ghost predicate CopiesStay(s: State, s': State, id: TaskId) {
    && s'.core.cola == s.core.cola && s'.core.enCurso == s.core.enCurso
    && Holders(s', id) == Holders(s, id) && ListsOk(s')
    && forall g :: g in s'.flows && Unclosed(s'.flows[g], id) ==> g in s.flows && Unclosed(s.flows[g], id)
  }

  lemma SameHolders(c: Config, s: State, step: Step, id: TaskId)
    requires FlowsKnown(s) && ListsOk(s) && Enabled(c, s, step)
    requires step.Crear? || step.Resolver? || step.Anunciar? || step.EntrarTurno? || step.Listar? || step.Revisar? || step.Recuperar? || step.Apagar?
    ensures CopiesStay(s, Apply(c, s, step), id)
  {
    if step.Recuperar? {
      ClassifyingMovesNoCopy(c, s, step, id);
    } else if step.Listar? || step.Revisar? {
      LookingMovesNoCopy(c, s, step, id);
    }
  }

  lemma LookingMovesNoCopy(c: Config, s: State, step: Step, id: TaskId)
    requires FlowsKnown(s) && ListsOk(s) && Enabled(c, s, step) && (step.Listar? || step.Revisar?)
    ensures CopiesStay(s, Apply(c, s, step), id)
  {
    hide EnTurno, Enqueue, NoDuplicates, Lists;
  }

  lemma ClassifyingMovesNoCopy(c: Config, s: State, step: Step, id: TaskId)
    requires FlowsKnown(s) && ListsOk(s) && Enabled(c, s, step) && step.Recuperar?
    ensures CopiesStay(s, Apply(c, s, step), id)
  {
    hide EnTurno, Enqueue, FlowsKnown;
    assert (step.vencidas + step.reanudadas)[..|step.vencidas|] == step.vencidas;
  }

  // ---------- The exact condition, step by step and over runs ----------

  /** One step leaves one copy, marked and of a RUNNING row, if and only if it is no unsound entry of the task. */
  lemma SoundIsExact(c: Config, s: State, step: Step, id: TaskId)
    requires Inv(c, s) && Single(s, id) && Enabled(c, s, step)
    ensures Single(Apply(c, s, step), id) <==> Sound(c, s, step, id)
  {
    if IsQueueEntry(s, step) {
      EntryKeepsSingleIff(c, s, step, id);
    } else {
      match step {
        case MarcarVencidas(g) => MarkingKeepsSingleIff(c, s, g, id);
        case Tomar(g) => TakingKeepsSingle(c, s, g, id);
        case Reprogramar(g, timer) => ReschedulingKeepsSingle(c, s, g, timer, id);
        case Lanzar(g, verifier) => LaunchingKeepsSingle(c, s, g, verifier, id);
        case Disparar(g) => FiringKeepsSingle(c, s, g, id);
        case Desmarcar(g) => UnmarkingKeepsSingle(c, s, g, id);
        case ActualizarEstado(g, fin) => CommittingKeepsSingle(c, s, g, fin, id);
        case EncolarReanudada(g) => RecoveryEnds(c, s, g, id);
        case _ => if !step.Reiniciar? { StillKeepsSingle(c, s, step, id); }
      }
    }
  }

  lemma RecoveryEnds(c: Config, s: State, g: Routine, id: TaskId)
    requires FlowsKnown(s) && Single(s, id) && Enabled(c, s, EncolarReanudada(g)) && s.flows[g].reanudadas == []
    ensures Single(Apply(c, s, EncolarReanudada(g)), id)
  {
    hide EnTurno, FlowsKnown;
    var s' := Apply(c, s, EncolarReanudada(g));
    assert Holders(s', id) == Holders(s, id);
    FewerCopiesKeepSingle(s, s', id);
  }

  ghost predicate AlwaysSingle(c: Config, s: State, steps: seq<Step>, id: TaskId)
    requires Runs(c, s, steps)
    decreases |steps|
  {
    Single(s, id) && (steps != [] ==> AlwaysSingle(c, Apply(c, s, steps[0]), steps[1..], id))
  }

  ghost predicate AlwaysSound(c: Config, s: State, steps: seq<Step>, id: TaskId)
    requires Runs(c, s, steps)
    decreases |steps|
  {
    steps != [] ==> Sound(c, s, steps[0], id) && AlwaysSound(c, Apply(c, s, steps[0]), steps[1..], id)
  }

  lemma {:induction false} RunSingleIffSound(c: Config, s: State, steps: seq<Step>, id: TaskId)
    requires Inv(c, s) && Single(s, id) && Runs(c, s, steps)
    ensures AlwaysSingle(c, s, steps, id) <==> AlwaysSound(c, s, steps, id)
    decreases |steps|
  {
    if steps != [] {
      var s' := Apply(c, s, steps[0]);
      SoundIsExact(c, s, steps[0], id);
      StepKeepsInv(c, s, steps[0]);
      hide Apply, Inv, Single, Sound;
      if AlwaysSingle(c, s', steps[1..], id) || AlwaysSound(c, s, steps, id) {
        RunSingleIffSound(c, s', steps[1..], id);
      }
    }
  }

  // ---------- Announcements ----------

  predicate IsClosed(s: State, id: TaskId) {
    id in s.rows && s.rows[id].state.Closed?
  }

  /** Before its row is closed the task has not been announced, and afterwards once at most. */
  ghost predicate SaidOnce(s: State, id: TaskId) {
    Announced(s.events, id) + |Unsaid(s, id)| <= if IsClosed(s, id) then 1 else 0
  }

  lemma CommitEffect(c: Config, s: State, step: Step, id: TaskId)
    requires FlowsKnown(s) && Enabled(c, s, step) && step.ActualizarEstado?
    ensures var s', mine := Apply(c, s, step), step.fin.Hecha? && s.flows[step.g].id == id;
      && s'.events == s.events && step.g !in Unsaid(s, id)
      && Unsaid(s', id) == Unsaid(s, id) + (if mine then {step.g} else {})
  {
    hide EnTurno, FlowsKnown, CloseRow;
  }

  lemma CommitSaysOnce(c: Config, s: State, step: Step, id: TaskId)
    requires Inv(c, s) && Single(s, id) && SaidOnce(s, id) && Enabled(c, s, step) && step.ActualizarEstado?
    ensures SaidOnce(Apply(c, s, step), id)
  {
    var s' := Apply(c, s, step);
    CommitEffect(c, s, step, id);
    SingleCommitsInTime(s, step, id);
    hide Apply, Enabled, Unsaid, Announced, Inv, Single, CommitsLate;
  }

  lemma SayingEffect(c: Config, s: State, g: Routine, id: TaskId)
    requires FlowsKnown(s) && Enabled(c, s, Anunciar(g))
    ensures var s', f := Apply(c, s, Anunciar(g)), s.flows[g];
      && s'.rows == s.rows && s'.events == s.events + [TaskFinished(f.id, f.outcome)]
      && Unsaid(s', id) == Unsaid(s, id) - {g} && (f.id == id <==> g in Unsaid(s, id))
  {
    hide EnTurno, FlowsKnown;
  }

  lemma AnnouncingSaysOnce(c: Config, s: State, g: Routine, id: TaskId)
    requires FlowsKnown(s) && SaidOnce(s, id) && Enabled(c, s, Anunciar(g))
    ensures SaidOnce(Apply(c, s, Anunciar(g)), id)
  {
    SayingEffect(c, s, g, id);
    hide Apply, Enabled, Unsaid, Announced, FlowsKnown;
  }

  lemma OtherStepsSayNothing(c: Config, s: State, step: Step, id: TaskId)
    requires FlowsKnown(s) && SaidOnce(s, id) && Enabled(c, s, step) && !step.ActualizarEstado? && !step.Anunciar?
    ensures SaidOnce(Apply(c, s, step), id)
  {
    var s' := Apply(c, s, step);
    if id in s.rows { StepKeepsClosed(c, s, step, id); }
    Fewer(Unsaid(s', id), Unsaid(s, id));
  }

  lemma {:induction false} SoundRunsSayOnce(c: Config, s: State, steps: seq<Step>, id: TaskId)
    requires Inv(c, s) && Single(s, id) && SaidOnce(s, id) && Runs(c, s, steps) && AlwaysSound(c, s, steps, id)
    ensures SaidOnce(Exec(c, s, steps), id)
    decreases |steps|
  {
    if steps != [] {
      StepKeepsInv(c, s, steps[0]);
      SoundIsExact(c, s, steps[0], id);
      if steps[0].ActualizarEstado? {
        CommitSaysOnce(c, s, steps[0], id);
      } else if steps[0].Anunciar? {
        AnnouncingSaysOnce(c, s, steps[0].g, id);
      } else {
        OtherStepsSayNothing(c, s, steps[0], id);
      }
      hide Apply, Inv, Single, SaidOnce, Sound;
      SoundRunsSayOnce(c, Apply(c, s, steps[0]), steps[1..], id);
    }
  }

  /** In every run in which each entry of a task is sound, TASK_FINISHED fires at most once for it. */
  lemma SoundEntriesAnnounceOnce(c: Config, rows: map<TaskId, Row>, steps: seq<Step>, id: TaskId)
    requires Runs(c, Init(rows), steps) && AlwaysSound(c, Init(rows), steps, id)
    ensures Announced(Exec(c, Init(rows), steps).events, id) <= 1
  {
    assert Unsaid(Init(rows), id) == {};
    SoundRunsSayOnce(c, Init(rows), steps, id);
  }

  // ---------- Twice exactly after a late commit ----------

  /** A successful closure of a row that is closed already. */
  predicate CommitsLate(s: State, step: Step, id: TaskId) {
    Commits(s, step, id) && !IsRunning(s, id)
  }

  ghost function Late(c: Config, s: State, steps: seq<Step>, id: TaskId): nat
    requires Runs(c, s, steps)
    decreases |steps|
  {
    if steps == [] then 0
    else (if CommitsLate(s, steps[0], id) then 1 else 0) + Late(c, Apply(c, s, steps[0]), steps[1..], id)
  }

  /** The closure of the row took effect, and was reported as failed. */
  predicate ClosesUnreported(s: State, step: Step, id: TaskId) {
    && step.ActualizarEstado? && step.fin.Dudosa? && step.g in s.flows && s.flows[step.g].Cerrando? && s.flows[step.g].id == id
    && IsRunning(s, id)
  }

  /** One, if that is how the run closes the row. */
  ghost function Unreported(c: Config, s: State, steps: seq<Step>, id: TaskId): nat
    requires Runs(c, s, steps)
    decreases |steps|
  {
    if steps == [] then 0
    else (if ClosesUnreported(s, steps[0], id) then 1 else 0) + Unreported(c, Apply(c, s, steps[0]), steps[1..], id)
  }

  ghost function AllCommits(c: Config, s: State, steps: seq<Step>, id: TaskId): nat
    requires Runs(c, s, steps)
    decreases |steps|
  {
    if steps == [] then 0
    else (if Commits(s, steps[0], id) then 1 else 0) + AllCommits(c, Apply(c, s, steps[0]), steps[1..], id)
  }

  /** Of all the reported commits of a task, one closes its row, unless an unreported one did, and the others come late. */
  lemma {:induction false} CommitsAreFirstOrLate(c: Config, s: State, steps: seq<Step>, id: TaskId)
    requires Runs(c, s, steps)
    ensures AllCommits(c, s, steps, id) + Unreported(c, s, steps, id) ==
      Late(c, s, steps, id) + if IsClosed(Exec(c, s, steps), id) && !IsClosed(s, id) then 1 else 0
    decreases |steps|
  {
    if steps != [] {
      var s1 := Apply(c, s, steps[0]);
      CommitsAreFirstOrLate(c, s1, steps[1..], id);
      ClosesInOneWay(c, s, steps[0], id);
      if id in s1.rows { FirstClosureIsFinal(c, s1, steps[1..], id); }
      hide Apply, Enabled, Commits, CommitsLate, ClosesUnreported;
    }
  }

  lemma ClosesInOneWay(c: Config, s: State, step: Step, id: TaskId)
    requires FlowsKnown(s) && Enabled(c, s, step)
    ensures IsClosed(s, id) ==> IsClosed(Apply(c, s, step), id)
    ensures (if Commits(s, step, id) then 1 else 0) + (if ClosesUnreported(s, step, id) then 1 else 0) ==
      (if CommitsLate(s, step, id) then 1 else 0) + if IsClosed(Apply(c, s, step), id) && !IsClosed(s, id) then 1 else 0
  {
    hide EnTurno, Enqueue;
    if step.ActualizarEstado? { assert s.flows[step.g].id in Mentions(s.flows[step.g]); }
  }

  lemma {:induction false} NothingIsCut(steps: seq<Step>, g: Routine)
    requires Reiniciar !in steps
    ensures !Cut(steps, g)
  {
    if steps != [] { NothingIsCut(steps[1..], g); }
  }

  lemma {:induction false} UncutBounds(c: Config, s: State, steps: seq<Step>, id: TaskId)
    requires Runs(c, s, steps)
    ensures Uncut(c, s, steps, id) <= AllCommits(c, s, steps, id) && Late(c, s, steps, id) <= AllCommits(c, s, steps, id)
    ensures Reiniciar !in steps ==> Uncut(c, s, steps, id) == AllCommits(c, s, steps, id)
    decreases |steps|
  {
    if steps != [] {
      UncutBounds(c, Apply(c, s, steps[0]), steps[1..], id);
      if Reiniciar !in steps && steps[0].ActualizarEstado? { NothingIsCut(steps[1..], steps[0].g); }
    }
  }

  /** A row closed before the process started is never committed in it. */
  lemma {:induction false} OldClosuresAreLeftAlone(c: Config, s: State, steps: seq<Step>, id: TaskId)
    requires Runs(c, s, steps) && Gone(s, id)
    ensures AllCommits(c, s, steps, id) == 0
    decreases |steps|
  {
    if steps != [] {
      StepKeepsGone(c, s, steps[0], id);
      assert steps[0].ActualizarEstado? && steps[0].g in s.flows ==> id !in Mentions(s.flows[steps[0].g]);
      OldClosuresAreLeftAlone(c, Apply(c, s, steps[0]), steps[1..], id);
    }
  }

  /** In every run, announcements beyond the first are paid for by late commits. */
  lemma AnnouncedAtMostOncePlusLate(c: Config, rows: map<TaskId, Row>, steps: seq<Step>, id: TaskId)
    requires Runs(c, Init(rows), steps)
    ensures Announced(Exec(c, Init(rows), steps).events, id) <= 1 + Late(c, Init(rows), steps, id)
  {
    AnnouncementsAreUncutCommits(c, Init(rows), steps, id);
    assert Surviving(Init(rows), steps, id) == {};
    UncutBounds(c, Init(rows), steps, id);
    CommitsAreFirstOrLate(c, Init(rows), steps, id);
  }

  /**
    In every run without restart that has said all it had to say: each closure
    committed on a row already closed is one announcement more, and makes the
    second, unless the first closure was reported as failed and so not announced.
   */
  lemma TwiceIffLateCommit(c: Config, rows: map<TaskId, Row>, steps: seq<Step>, id: TaskId)
    requires Runs(c, Init(rows), steps) && Reiniciar !in steps && Unsaid(Exec(c, Init(rows), steps), id) == {}
    ensures Announced(Exec(c, Init(rows), steps).events, id) >= 2 <==>
      Late(c, Init(rows), steps, id) >= 1 + Unreported(c, Init(rows), steps, id)
    ensures Late(c, Init(rows), steps, id) >= 1 ==>
      Announced(Exec(c, Init(rows), steps).events, id) == 1 + Late(c, Init(rows), steps, id) - Unreported(c, Init(rows), steps, id)
  {
    var s := Init(rows);
    AnnouncedOncePerUncutCommit(c, rows, steps, id);
    UncutBounds(c, s, steps, id);
    CommitsAreFirstOrLate(c, s, steps, id);
    if IsClosed(s, id) {
      assert Gone(s, id);
      OldClosuresAreLeftAlone(c, s, steps, id);
    } else {
      LateNeedsClosed(c, s, steps, id);
    }
  }

  lemma {:induction false} LateNeedsClosed(c: Config, s: State, steps: seq<Step>, id: TaskId)
    requires Runs(c, s, steps)
    ensures Late(c, s, steps, id) >= 1 ==> IsClosed(Exec(c, s, steps), id)
    decreases |steps|
  {
    if steps != [] {
      var s1 := Apply(c, s, steps[0]);
      LateNeedsClosed(c, s1, steps[1..], id);
      if id in s1.rows { FirstClosureIsFinal(c, s1, steps[1..], id); }
    }
  }

  /** Before the first late commit of a run there is an entry that found the task marked, or its row closed. */
  lemma {:induction false} LateCommitHasUnsoundEntry(c: Config, s: State, steps: seq<Step>, id: TaskId) returns (k: nat)
    requires Inv(c, s) && Single(s, id) && Runs(c, s, steps) && Late(c, s, steps, id) >= 1
    ensures k < |steps| && Runs(c, s, steps[..k]) && !Sound(c, Exec(c, s, steps[..k]), steps[k], id)
    ensures Late(c, s, steps[..k], id) == 0
    decreases |steps|
  {
    hide Apply, Inv, Single, Sound, Enabled, CommitsLate;
    if !Sound(c, s, steps[0], id) {
      k := 0;
      assert steps[..0] == [];
    } else {
      var s1 := Apply(c, s, steps[0]);
      StepKeepsInv(c, s, steps[0]);
      SoundIsExact(c, s, steps[0], id);
      SingleCommitsInTime(s, steps[0], id);
      var j := LateCommitHasUnsoundEntry(c, s1, steps[1..], id);
      k := j + 1;
      assert steps[..k] == [steps[0]] + steps[1..][..j];
      Cons(c, s, steps[0], steps[1..][..j]);
      assert steps[..k][0] == steps[0] && steps[..k][1..] == steps[1..][..j];
    }
  }

  /** The only copy of a task closes a RUNNING row. */
  lemma SingleCommitsInTime(s: State, step: Step, id: TaskId)
    requires Single(s, id)
    ensures !CommitsLate(s, step, id)
  {
    if Commits(s, step, id) { assert Unclosed(s.flows[step.g], id); }
  }

  /** From a fresh process: the late commit that TwiceIffLateCommit speaks of, traced to its entry. */
  lemma TwiceHasUnsoundEntry(c: Config, rows: map<TaskId, Row>, steps: seq<Step>, id: TaskId) returns (k: nat)
    requires Runs(c, Init(rows), steps) && Announced(Exec(c, Init(rows), steps).events, id) >= 2
    ensures k < |steps| && Runs(c, Init(rows), steps[..k]) && !Sound(c, Exec(c, Init(rows), steps[..k]), steps[k], id)
    ensures Late(c, Init(rows), steps[..k], id) == 0
  {
    AnnouncedAtMostOncePlusLate(c, rows, steps, id);
    k := LateCommitHasUnsoundEntry(c, Init(rows), steps, id);
  }
}
