/**
  When is the end of a task announced?  The commit of a closure and the call of
  OnTaskFinished are two steps, and a process that dies between them announces
  nothing.  This module counts announcements against commits, over every run.
 */
module TaskPoolEvents {
  import opened Wrappers
  import opened TaskPool

  function Announced(events: seq<Event>, id: TaskId): nat {
    if events == [] then 0
    else Announced(events[..|events| - 1], id) + if events[|events| - 1].id == id then 1 else 0
  }

  /** The goroutines that have committed a closure of the task and not announced it. */
  function Unsaid(s: State, id: TaskId): set<Routine> {
    set g | g in s.flows && s.flows[g].PorAnunciar? && s.flows[g].id == id
  }

  /** The step commits a closure of the task, effective or repeated, and is told so. */
  predicate Commits(s: State, step: Step, id: TaskId) {
    step.ActualizarEstado? && step.fin.Hecha? && step.g in s.flows && s.flows[step.g].Cerrando? && s.flows[step.g].id == id
  }

  /** A restart comes before the announcement of routine `g`. */
  predicate Cut(steps: seq<Step>, g: Routine) {
    steps != [] && (steps[0] == Reiniciar || (steps[0] != Anunciar(g) && Cut(steps[1..], g)))
  }

  /** The commits of the task in a run that no restart cuts from their announcement. */
  ghost function Uncut(c: Config, s: State, steps: seq<Step>, id: TaskId): nat
    requires Runs(c, s, steps)
    decreases |steps|
  {
    if steps == [] then 0
    else
      (if Commits(s, steps[0], id) && !Cut(steps[1..], steps[0].g) then 1 else 0)
      + Uncut(c, Apply(c, s, steps[0]), steps[1..], id)
  }

  /** Of the closures already committed, those whose announcement the run does not cut. */
  function Surviving(s: State, steps: seq<Step>, id: TaskId): set<Routine> {
    set g | g in Unsaid(s, id) && !Cut(steps, g)
  }

  /** One step moves a closure from committed to announced, or loses it. */
  lemma StepConserves(c: Config, s: State, steps: seq<Step>, id: TaskId)
    requires FlowsKnown(s) && steps != [] && Enabled(c, s, steps[0])
    ensures var s' := Apply(c, s, steps[0]);
      Announced(s.events, id) + |Surviving(s, steps, id)| + (if Commits(s, steps[0], id) && !Cut(steps[1..], steps[0].g) then 1 else 0)
      == Announced(s'.events, id) + |Surviving(s', steps[1..], id)|
  {
    hide Surviving, Announced;
    match steps[0] {
      case ActualizarEstado(_, _) => CommitConserves(c, s, steps, id);
      case Anunciar(_) => AnnouncingConserves(c, s, steps, id);
      case Reiniciar => RestartConserves(c, s, steps, id);
      case _ => QuietConserves(c, s, steps, id);
    }
  }

  lemma RestartConserves(c: Config, s: State, steps: seq<Step>, id: TaskId)
    requires steps != [] && steps[0] == Reiniciar && FlowsKnown(s)
    ensures Surviving(s, steps, id) == {} && Surviving(Apply(c, s, Reiniciar), steps[1..], id) == {}
  {
  }

  lemma AnnouncingConserves(c: Config, s: State, steps: seq<Step>, id: TaskId)
    requires FlowsKnown(s) && steps != [] && Enabled(c, s, steps[0]) && steps[0].Anunciar?
    ensures var s' := Apply(c, s, steps[0]);
      Announced(s.events, id) + |Surviving(s, steps, id)| == Announced(s'.events, id) + |Surviving(s', steps[1..], id)|
  {
    var g := steps[0].g;
    AnnouncingEffect(c, s, steps, id);
    hide Apply, Enabled, Surviving, Announced, FlowsKnown;
  }

  lemma AnnouncingEffect(c: Config, s: State, steps: seq<Step>, id: TaskId)
    requires FlowsKnown(s) && steps != [] && Enabled(c, s, steps[0]) && steps[0].Anunciar?
    ensures var g, s' := steps[0].g, Apply(c, s, steps[0]);
      && s'.events == s.events + [TaskFinished(s.flows[g].id, s.flows[g].outcome)]
      && Surviving(s', steps[1..], id) == Surviving(s, steps, id) - {g}
      && (s.flows[g].id == id <==> g in Surviving(s, steps, id))
  {
    hide EnTurno, FlowsKnown;
  }

  lemma CommitConserves(c: Config, s: State, steps: seq<Step>, id: TaskId)
    requires FlowsKnown(s) && steps != [] && Enabled(c, s, steps[0]) && steps[0].ActualizarEstado?
    ensures var s', g := Apply(c, s, steps[0]), steps[0].g;
      && s'.events == s.events
      && |Surviving(s', steps[1..], id)| == |Surviving(s, steps, id)| + if Commits(s, steps[0], id) && !Cut(steps[1..], g) then 1 else 0
  {
    SurvivingAfterCommit(c, s, steps, id);
  }

  lemma SurvivingAfterCommit(c: Config, s: State, steps: seq<Step>, id: TaskId)
    requires FlowsKnown(s) && steps != [] && Enabled(c, s, steps[0]) && steps[0].ActualizarEstado?
    ensures var s', g := Apply(c, s, steps[0]), steps[0].g;
      && g !in Surviving(s, steps, id)
      && Surviving(s', steps[1..], id) ==
           Surviving(s, steps, id) + if Commits(s, steps[0], id) && !Cut(steps[1..], g) then {g} else {}
  {
    var s' := Apply(c, s, steps[0]);
    assert forall h :: h != steps[0].g ==> (h in s.flows <==> h in s'.flows) && (h in s.flows ==> s'.flows[h] == s.flows[h]);
  }

  lemma QuietConserves(c: Config, s: State, steps: seq<Step>, id: TaskId)
    requires FlowsKnown(s) && steps != [] && Enabled(c, s, steps[0])
    requires !steps[0].ActualizarEstado? && !steps[0].Anunciar? && !steps[0].Reiniciar?
    ensures Apply(c, s, steps[0]).events == s.events
    ensures Surviving(Apply(c, s, steps[0]), steps[1..], id) == Surviving(s, steps, id)
  {
    var s', g := Apply(c, s, steps[0]), Actor(c, steps[0]);
    forall h ensures h in Unsaid(s', id) <==> h in Unsaid(s, id) {
      if h in s.flows && h != g {
        assert h in s'.flows && s'.flows[h] == s.flows[h];
      }
    }
  }

  /**
    Over every run, announcements of a task plus closures still to be announced
    are the commits that no restart cut from their announcement.
   */
  lemma {:induction false} AnnouncementsAreUncutCommits(c: Config, s: State, steps: seq<Step>, id: TaskId)
    requires Runs(c, s, steps)
    ensures var s' := Exec(c, s, steps);
      Announced(s'.events, id) + |Unsaid(s', id)| == Announced(s.events, id) + |Surviving(s, steps, id)| + Uncut(c, s, steps, id)
    decreases |steps|
  {
    if steps == [] {
      assert Surviving(s, [], id) == Unsaid(s, id);
    } else {
      StepConserves(c, s, steps, id);
      AnnouncementsAreUncutCommits(c, Apply(c, s, steps[0]), steps[1..], id);
    }
  }
  /** From a fresh process, with nothing left to say: a task is announced exactly once per commit that was not cut. */
  lemma AnnouncedOncePerUncutCommit(c: Config, rows: map<TaskId, Row>, steps: seq<Step>, id: TaskId)
    requires Runs(c, Init(rows), steps) && Unsaid(Exec(c, Init(rows), steps), id) == {}
    ensures Announced(Exec(c, Init(rows), steps).events, id) == Uncut(c, Init(rows), steps, id)
  {
    AnnouncementsAreUncutCommits(c, Init(rows), steps, id);
    assert Surviving(Init(rows), steps, id) == {};
  }

  // ---------- One closure ----------

  lemma {:induction false} EventsGrow(c: Config, s: State, steps: seq<Step>)
    requires Runs(c, s, steps)
    ensures s.events <= Exec(c, s, steps).events
    decreases |steps|
  {
    if steps != [] {
      EventsGrow(c, Apply(c, s, steps[0]), steps[1..]);
    }
  }

  /** The task is closed, and nobody in the process has it any more but to unmark it. */
  ghost predicate Gone(s: State, id: TaskId) {
    && id in s.rows && s.rows[id].state.Closed? && id !in s.core.cola
    && forall g :: g in s.flows && id in Mentions(s.flows[g]) ==> s.flows[g].Cerrada?
  }

  lemma StepKeepsGone(c: Config, s: State, step: Step, id: TaskId)
    requires FlowsKnown(s) && Enabled(c, s, step) && Gone(s, id)
    ensures Gone(Apply(c, s, step), id) && Announced(Apply(c, s, step).events, id) == Announced(s.events, id)
  {
    var s' := Apply(c, s, step);
    StepKeepsClosed(c, s, step, id);
    StepKeepsUnqueued(c, s, step, id);
    forall g | g in s'.flows && id in Mentions(s'.flows[g]) ensures s'.flows[g].Cerrada? {
      MentionsCome(c, s, step, g, id);
      OnlyToUnmark(c, s, step, g, id);
    }
    SaysNothing(c, s, step, id);
  }

  lemma StepKeepsUnqueued(c: Config, s: State, step: Step, id: TaskId)
    requires FlowsKnown(s) && Enabled(c, s, step) && Gone(s, id)
    ensures id !in Apply(c, s, step).core.cola
  {
    hide EnTurno, FlowsKnown, CloseRow;
  }

  lemma OnlyToUnmark(c: Config, s: State, step: Step, g: Routine, id: TaskId)
    requires FlowsKnown(s) && Enabled(c, s, step) && Gone(s, id) && Source(c, s, step, g, id)
    requires g in Apply(c, s, step).flows && id in Mentions(Apply(c, s, step).flows[g])
    ensures Apply(c, s, step).flows[g].Cerrada?
  {
    hide EnTurno, FlowsKnown, CloseRow, Enqueue;
  }

  lemma SaysNothing(c: Config, s: State, step: Step, id: TaskId)
    requires FlowsKnown(s) && Enabled(c, s, step) && Gone(s, id)
    ensures Announced(Apply(c, s, step).events, id) == Announced(s.events, id)
  {
    hide EnTurno, FlowsKnown, CloseRow, Enqueue;
    if step.Anunciar? { assert s.flows[step.g].id in Mentions(s.flows[step.g]); }
  }

  /** A closed task that nobody has is never announced again. */
  lemma {:induction false} SilentForever(c: Config, s: State, steps: seq<Step>, id: TaskId)
    requires Runs(c, s, steps) && Gone(s, id)
    ensures Announced(Exec(c, s, steps).events, id) == Announced(s.events, id)
    decreases |steps|
  {
    if steps != [] {
      StepKeepsGone(c, s, steps[0], id);
      SilentForever(c, Apply(c, s, steps[0]), steps[1..], id);
    }
  }

  /** The closure that routine `g` has just committed. */
  ghost predicate Committed(s: State, g: Routine, id: TaskId, outcome: Outcome) {
    g in s.flows && s.flows[g] == PorAnunciar(id, outcome) && id in s.rows && s.rows[id].state.Closed?
  }

  ghost predicate AnnouncedIn(c: Config, s: State, steps: seq<Step>, e: Event)
    requires Runs(c, s, steps)
  {
    |s.events| <= |Exec(c, s, steps).events| && e in Exec(c, s, steps).events[|s.events|..]
  }

  /** After a restart the task is never announced: what was said of it was said before. */
  ghost predicate LostIn(c: Config, s: State, steps: seq<Step>, g: Routine, id: TaskId, outcome: Outcome)
    requires Runs(c, s, steps)
    decreases |steps|
  {
    && steps != []
    && (if steps[0] == Reiniciar
        then Committed(s, g, id, outcome) && Announced(Exec(c, s, steps).events, id) == Announced(s.events, id)
        else LostIn(c, Apply(c, s, steps[0]), steps[1..], g, id, outcome))
  }

  /**
    A committed closure, in every run that goes on until it is announced or the
    process restarts: if no restart comes first it is announced with its outcome;
    if one does, the task is never announced after it.
   */
  lemma {:induction false} ClosureIsAnnouncedIff(c: Config, s: State, steps: seq<Step>, g: Routine, id: TaskId, outcome: Outcome)
    requires Runs(c, s, steps) && Committed(s, g, id, outcome) && (Reiniciar in steps || Anunciar(g) in steps)
    ensures !Cut(steps, g) ==> AnnouncedIn(c, s, steps, TaskFinished(id, outcome))
    ensures Cut(steps, g) ==> LostIn(c, s, steps, g, id, outcome)
    decreases |steps|
  {
    var s1, rest := Apply(c, s, steps[0]), steps[1..];
    EventsGrow(c, s, steps);
    EventsGrow(c, s1, rest);
    if steps[0] == Reiniciar {
      SilentForever(c, s1, rest, id);
    } else if steps[0] == Anunciar(g) {
      assert s1.events[|s.events|] == TaskFinished(id, outcome);
      assert Exec(c, s, steps).events[|s.events|..][0] == TaskFinished(id, outcome);
    } else {
      StepKeepsCommitted(c, s, steps[0], g, id, outcome);
      ClosureIsAnnouncedIff(c, s1, rest, g, id, outcome);
      EventsGrow(c, s, [steps[0]]);
    }
  }

  lemma StepKeepsCommitted(c: Config, s: State, step: Step, g: Routine, id: TaskId, outcome: Outcome)
    requires FlowsKnown(s) && Enabled(c, s, step) && Committed(s, g, id, outcome) && step != Anunciar(g) && step != Reiniciar
    ensures Committed(Apply(c, s, step), g, id, outcome)
  {
    StepKeepsClosed(c, s, step, id);
  }

  // ---------- One closure, with everything that can become of it ----------

  /** Nobody but `g` has the task. */
  ghost predicate Alone(s: State, g: Routine, id: TaskId) {
    id !in s.core.cola && forall h :: h in s.flows && h != g ==> id !in Mentions(s.flows[h])
  }

  lemma StepKeepsPending(c: Config, s: State, step: Step, g: Routine, id: TaskId, outcome: Outcome)
    requires FlowsKnown(s) && Enabled(c, s, step) && step != Anunciar(g) && step != Reiniciar
    requires Committed(s, g, id, outcome) && Alone(s, g, id)
    ensures Committed(Apply(c, s, step), g, id, outcome) && Alone(Apply(c, s, step), g, id)
    ensures Announced(Apply(c, s, step).events, id) == Announced(s.events, id)
  {
    var s' := Apply(c, s, step);
    StepKeepsCommitted(c, s, step, g, id, outcome);
    forall h | h in s'.flows && h != g ensures id !in Mentions(s'.flows[h]) {
      if id in Mentions(s'.flows[h]) { FromElsewhere(c, s, step, g, h, id, outcome); }
    }
    PendingStaysOut(c, s, step, g, id, outcome);
  }

  /** What another routine mentions after the step was not the task of `g`. */
  lemma FromElsewhere(c: Config, s: State, step: Step, g: Routine, h: Routine, id: TaskId, outcome: Outcome)
    requires FlowsKnown(s) && Enabled(c, s, step) && Committed(s, g, id, outcome) && Alone(s, g, id) && step != Anunciar(g) && h != g
    requires h in Apply(c, s, step).flows && id in Mentions(Apply(c, s, step).flows[h])
    ensures false
  {
    MentionsCome(c, s, step, h, id);
  }

  lemma PendingStaysOut(c: Config, s: State, step: Step, g: Routine, id: TaskId, outcome: Outcome)
    requires FlowsKnown(s) && Enabled(c, s, step) && Committed(s, g, id, outcome) && Alone(s, g, id) && step != Anunciar(g)
    ensures id !in Apply(c, s, step).core.cola && Announced(Apply(c, s, step).events, id) == Announced(s.events, id)
  {
    hide EnTurno, FlowsKnown, CloseRow;
    if step.Anunciar? { assert s.flows[step.g].id in Mentions(s.flows[step.g]); }
  }

  lemma {:induction false} PendingIsAnnouncedIff(c: Config, s: State, steps: seq<Step>, g: Routine, id: TaskId, outcome: Outcome)
    requires Runs(c, s, steps) && Committed(s, g, id, outcome) && Alone(s, g, id) && (Reiniciar in steps || Anunciar(g) in steps)
    ensures Announced(Exec(c, s, steps).events, id) == Announced(s.events, id) + if Cut(steps, g) then 0 else 1
    decreases |steps|
  {
    var s1, rest := Apply(c, s, steps[0]), steps[1..];
    if steps[0] == Reiniciar || steps[0] == Anunciar(g) {
      SilentForever(c, s1, rest, id);
    } else {
      StepKeepsPending(c, s, steps[0], g, id, outcome);
      PendingIsAnnouncedIff(c, s1, rest, g, id, outcome);
    }
  }

  /**
    A closure that takes effect, of a task that no other routine has, in every run
    that goes on until it is announced or the process restarts, or for ever if it
    was reported as failed: it is announced, once, if and only if it was reported as
    done and no restart comes before its announcement.
   */
  lemma ClosingIsAnnouncedIff(c: Config, s: State, steps: seq<Step>, g: Routine, fin: Escritura)
    requires Runs(c, s, steps) && steps != [] && steps[0] == ActualizarEstado(g, fin) && fin.Surte() && Alone(s, g, s.flows[g].id)
    requires fin.Hecha? ==> Reiniciar in steps[1..] || Anunciar(g) in steps[1..]
    ensures var id := s.flows[g].id;
      Announced(Exec(c, s, steps).events, id) == Announced(s.events, id) + if fin.Hecha? && !Cut(steps[1..], g) then 1 else 0
  {
    var s1, f := Apply(c, s, steps[0]), s.flows[g];
    assert f.id in Mentions(f);
    if fin.Hecha? {
      PendingIsAnnouncedIff(c, s1, steps[1..], g, f.id, f.outcome);
    } else {
      SilentForever(c, s1, steps[1..], f.id);
    }
  }

  // ---------- A lost announcement ----------

  function DiesBeforeSaying(c: Config): seq<Step> {
    [Crear(c.workers + 1, 7)] + ([EncolarNueva(c.workers + 1)] + ([Tomar(0)] + ([Resolver(0, Completed)]
      + ([ActualizarEstado(0, Hecha)] + ([Reiniciar] + [])))))
  }

  /** The row is closed, and whatever happens later its end is never announced. */
  lemma LostAnnouncementIsReachable(c: Config)
    requires c.Valid()
    ensures Runs(c, Init(map[]), DiesBeforeSaying(c))
    ensures var s := Exec(c, Init(map[]), DiesBeforeSaying(c));
      && 7 in s.rows && s.rows[7].state == Closed(Completed) && Gone(s, 7)
      && forall future :: Runs(c, s, future) ==> Announced(Exec(c, s, future).events, 7) == 0
  {
    ReachesTheCommit(c, Hecha, [Reiniciar] + []);
    var s5 := JustCommitted(c);
    var s6 := s5.(core := Core(true, [], {}), flows := map[]);
    Cons(c, s5, Reiniciar, []);
    assert Gone(s6, 7);
    forall future | Runs(c, s6, future) ensures Announced(Exec(c, s6, future).events, 7) == 0 {
      SilentForever(c, s6, future, 7);
    }
  }

  /** The same without a restart: the closure takes effect and is reported as failed. */
  lemma UnreportedClosureIsReachable(c: Config) returns (steps: seq<Step>)
    requires c.Valid()
    ensures Runs(c, Init(map[]), steps) && Reiniciar !in steps
    ensures var s := Exec(c, Init(map[]), steps);
      && 7 in s.rows && s.rows[7].state == Closed(Completed) && Gone(s, 7)
      && forall future :: Runs(c, s, future) ==> Announced(Exec(c, s, future).events, 7) == 0
  {
    var s5 := JustCommitted(c).(flows := map[0 := Cerrada(7)]);
    ReachesTheCommit(c, Dudosa, []);
    steps := [Crear(c.workers + 1, 7)] + ([EncolarNueva(c.workers + 1)] + ([Tomar(0)] + ([Resolver(0, Completed)] + ([ActualizarEstado(0, Dudosa)] + []))));
    assert Exec(c, Init(map[]), steps) == s5;
    forall future | Runs(c, s5, future) ensures Announced(Exec(c, s5, future).events, 7) == 0 {
      SilentForever(c, s5, future, 7);
    }
  }

  /** Task 7 has just been closed by worker 0, and not announced. */
  function JustCommitted(c: Config): State {
    State(Core(true, [], {7}), map[7 := Row(Closed(Completed), true)], map[0 := PorAnunciar(7, Completed)], [], false)
  }

  /** Task 7 is the only row. */
  function Fresh(c: Config, flows: map<Routine, Flow>): State {
    State(Core(true, [], {}), map[7 := Row(Running, true)], flows, [], false)
  }

  lemma CreatedAndQueued(c: Config)
    requires c.Valid()
    ensures var s0, s1, w := Init(map[]), Fresh(c, map[c.workers + 1 := Registrada(7)]), c.workers;
      && FlowsKnown(s0) && Enabled(c, s0, Crear(w + 1, 7)) && Apply(c, s0, Crear(w + 1, 7)) == s1
      && FlowsKnown(s1) && Enabled(c, s1, EncolarNueva(w + 1))
      && Apply(c, s1, EncolarNueva(w + 1)) == Fresh(c, map[]).(core := Core(true, [7], {7}))
  {
    hide EnTurno;
    assert Drop(map[c.workers + 1 := Registrada(7)], c.workers + 1) == map[];
  }

  /** What worker 0 leaves when the closure takes effect. */
  function AfterWriting(c: Config, fin: Escritura): State {
    if fin.Hecha? then JustCommitted(c) else JustCommitted(c).(flows := map[0 := Cerrada(7)])
  }

  lemma TakenAndEnded(c: Config)
    requires c.Valid()
    ensures var s2, s3, s4 := Fresh(c, map[]).(core := Core(true, [7], {7})),
        Fresh(c, map[0 := Consultando(7)]).(core := Core(true, [], {7})), Fresh(c, map[0 := Cerrando(7, Completed)]).(core := Core(true, [], {7}));
      && FlowsKnown(s2) && Enabled(c, s2, Tomar(0)) && Apply(c, s2, Tomar(0)) == s3
      && FlowsKnown(s3) && Enabled(c, s3, Resolver(0, Completed)) && Apply(c, s3, Resolver(0, Completed)) == s4
      && FlowsKnown(s4)
  {
    hide EnTurno;
  }

  lemma Written(c: Config, fin: Escritura)
    requires c.Valid() && fin.Surte()
    ensures var s4 := Fresh(c, map[0 := Cerrando(7, Completed)]).(core := Core(true, [], {7}));
      && Enabled(c, s4, ActualizarEstado(0, fin))
      && FlowsKnown(s4) && Apply(c, s4, ActualizarEstado(0, fin)) == AfterWriting(c, fin)
  {
    hide EnTurno, Enqueue;
  }

  lemma ReachesTheCommit(c: Config, fin: Escritura, rest: seq<Step>)
    requires c.Valid() && fin.Surte() && Runs(c, AfterWriting(c, fin), rest)
    ensures var all := [Crear(c.workers + 1, 7)] + ([EncolarNueva(c.workers + 1)] + ([Tomar(0)] + ([Resolver(0, Completed)]
        + ([ActualizarEstado(0, fin)] + rest))));
      Runs(c, Init(map[]), all) && Exec(c, Init(map[]), all) == Exec(c, AfterWriting(c, fin), rest)
  {
    var w := c.workers;
    var s1, s2, s3, s4 := Fresh(c, map[w + 1 := Registrada(7)]), Fresh(c, map[]).(core := Core(true, [7], {7})),
      Fresh(c, map[0 := Consultando(7)]).(core := Core(true, [], {7})), Fresh(c, map[0 := Cerrando(7, Completed)]).(core := Core(true, [], {7}));
    CreatedAndQueued(c);
    TakenAndEnded(c);
    Written(c, fin);
    hide Apply, Runs, Exec, Enabled, FlowsKnown;
    Cons(c, s4, ActualizarEstado(0, fin), rest);
    Cons(c, s3, Resolver(0, Completed), [ActualizarEstado(0, fin)] + rest);
    Cons(c, s2, Tomar(0), [Resolver(0, Completed)] + ([ActualizarEstado(0, fin)] + rest));
    Cons(c, s1, EncolarNueva(w + 1), [Tomar(0)] + ([Resolver(0, Completed)] + ([ActualizarEstado(0, fin)] + rest)));
    Cons(c, Init(map[]), Crear(w + 1, 7),
         [EncolarNueva(w + 1)] + ([Tomar(0)] + ([Resolver(0, Completed)] + ([ActualizarEstado(0, fin)] + rest))));
  }
}
