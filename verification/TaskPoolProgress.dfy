/**
  No reachable state of a running pool strands a task: whatever the workers,
  timers, verifiers and the reconciler are doing, ordinary steps of the same
  process lead to the closure of any RUNNING row whose instance id is legible.
 */
module TaskPoolProgress {
  import opened Wrappers
  import opened TaskPool
  import opened TaskPoolCopies

  /** No shutdown, restart, recovery or new request: only tracking that goes on. */
  predicate Ordinary(step: Step) {
    !step.Apagar? && !step.Reiniciar? && !step.Crear? && !step.Recuperar?
  }

  ghost predicate Reaches(c: Config, s: State, steps: seq<Step>, s': State) {
    Runs(c, s, steps) && Exec(c, s, steps) == s' && forall i :: 0 <= i < |steps| ==> Ordinary(steps[i])
  }

  ghost predicate Live(c: Config, s: State) {
    c.Valid() && Inv(c, s) && s.core.activo
  }

  lemma OneStep(c: Config, s: State, step: Step)
    requires Inv(c, s) && Enabled(c, s, step) && Ordinary(step)
    ensures Reaches(c, s, [step], Apply(c, s, step)) && Inv(c, Apply(c, s, step))
  {
    StepKeepsInv(c, s, step);
    Prepend(c, s, step, []);
    assert [step] + [] == [step];
  }

  lemma Then(c: Config, s: State, a: seq<Step>, s1: State, b: seq<Step>, s2: State)
    requires Inv(c, s) && Reaches(c, s, a, s1) && Reaches(c, s1, b, s2)
    ensures Reaches(c, s, a + b, s2) && Inv(c, s2)
  {
    RunsConcat(c, s, a, b);
    EveryRunKeepsInv(c, s, a + b);
  }

  /** What a retiring routine leaves alone. */
  ghost predicate OnlyRetired(s: State, s': State, g: Routine, id: TaskId) {
    && s'.core == Unmark(s.core, id)
    && s'.flows == Drop(s.flows, g)
    && s'.rows.Keys == s.rows.Keys
    && (forall x :: x in s.rows ==> s'.rows[x].legible == s.rows[x].legible && (s.rows[x].state.Closed? ==> s'.rows[x].state.Closed?))
  }

  /** How far a closing routine is from leaving. */
  function Stage(f: Flow): nat {
    match f
    case Cerrando(_, _) => 2
    case PorAnunciar(_, _) => 1
    case Cerrada(_) => 0
    case _ => 3
  }

  function NextOf(g: Routine, f: Flow): Step
    requires Closing(f)
  {
    match f
    case Cerrando(_, _) => ActualizarEstado(g, Hecha)
    case PorAnunciar(_, _) => Anunciar(g)
    case Cerrada(_) => Desmarcar(g)
    case _ => Resolver(g, Completed)
  }

  lemma NextStage(c: Config, s: State, g: Routine)
    requires Inv(c, s) && g in s.flows && Closing(s.flows[g]) && !s.flows[g].Cerrada?
    ensures Enabled(c, s, NextOf(g, s.flows[g])) && s.flows[g].id in s.rows
    ensures var s1 := Apply(c, s, NextOf(g, s.flows[g]));
      && s1.core == s.core && g in s1.flows && s1.flows == s.flows[g := s1.flows[g]]
      && Closing(s1.flows[g]) && s1.flows[g].id == s.flows[g].id && Stage(s1.flows[g]) == Stage(s.flows[g]) - 1
      && s1.rows.Keys == s.rows.Keys
      && (forall x :: x in s.rows ==> s1.rows[x].legible == s.rows[x].legible && (s.rows[x].state.Closed? ==> s1.rows[x].state.Closed?))
      && (s1.flows[g].Cerrada? ==> s1.rows[s.flows[g].id].state.Closed?)
  {
    assert s.flows[g].id in Mentions(s.flows[g]);
    hide Apply, Enabled, EnTurno, Held, RoleOk;
    match s.flows[g] {
      case Cerrando(_, _) => Committing(c, s, g);
      case PorAnunciar(_, _) => Announcing(c, s, g);
      case _ => Resolving(c, s, g, Completed);
    }
  }

  /** A routine that queries or closes a task can finish, closing it if it had not done so. */
  lemma {:induction false} Retire(c: Config, s: State, g: Routine) returns (steps: seq<Step>, s': State)
    requires Live(c, s) && g in s.flows && Closing(s.flows[g])
    ensures Reaches(c, s, steps, s') && Live(c, s') && OnlyRetired(s, s', g, s.flows[g].id)
    ensures !s.flows[g].Cerrada? ==> !IsRunning(s', s.flows[g].id)
    decreases Stage(s.flows[g])
  {
    var id := s.flows[g].id;
    if s.flows[g].Cerrada? {
      Unmarking(c, s, g);
      hide Apply, Enabled, Inv, Runs, Exec;
      steps, s' := [Desmarcar(g)], Apply(c, s, Desmarcar(g));
      OneStep(c, s, Desmarcar(g));
    } else {
      NextStage(c, s, g);
      var step := NextOf(g, s.flows[g]);
      hide Apply, Enabled, Inv, Runs, Exec;
      OneStep(c, s, step);
      var s1 := Apply(c, s, step);
      var rest;
      rest, s' := Retire(c, s1, g);
      steps := [step] + rest;
      Then(c, s, [step], s1, rest, s');
    }
  }

  /** Everything that was queued has been closed, and nothing else happened to the pool. */
  ghost predicate Drained(s: State, s': State) {
    && s'.core == Core(s.core.activo, [], s.core.enCurso - Elems(s.core.cola)) && s'.flows == s.flows
    && s'.rows.Keys == s.rows.Keys
    && (forall x :: x in s.rows ==> s'.rows[x].legible == s.rows[x].legible)
    && (forall x :: x in s.core.cola ==> !IsRunning(s', x))
    && (forall x :: x in s.rows && s.rows[x].state.Closed? ==> s'.rows[x].state.Closed?)
  }

  lemma DrainedThen(s: State, s1: State, s': State)
    requires s.core.cola != [] && s.core.cola[0] in s.rows && Drained(s1, s')
    requires var id := s.core.cola[0];
      && s1.core == s.core.(cola := s.core.cola[1..], enCurso := s.core.enCurso - {id})
      && s1.flows == s.flows && exists outcome :: s1.rows == CloseRow(s.rows, id, outcome)
    ensures Drained(s, s')
  {
    assert s.core.cola == [s.core.cola[0]] + s.core.cola[1..];
    assert s1.rows[s.core.cola[0]].state.Closed?;
  }

  ghost predicate HeadGone(s: State, s1: State) {
    && s.core.cola != [] && s.core.cola[0] in s.rows
    && s1.core == s.core.(cola := s.core.cola[1..], enCurso := s.core.enCurso - {s.core.cola[0]})
    && s1.flows == s.flows && s1.rows == CloseRow(s.rows, s.core.cola[0], Completed)
  }

  lemma CloseFirst(c: Config, s: State) returns (s1: State)
    requires Live(c, s) && 0 !in s.flows && s.core.cola != []
    ensures Reaches(c, s, CloseHead(Completed), s1) && Live(c, s1) && HeadGone(s, s1)
  {
    assert s.core.cola[0] in s.rows;
    HeadIsClosed(c, s, Completed);
    EveryRunKeepsInv(c, s, CloseHead(Completed));
    hide Apply, Enabled, Inv, Runs, Exec;
    s1 := Exec(c, s, CloseHead(Completed));
  }

  /** Worker 0 can close everything that is queued. */
  lemma {:induction false} Drain(c: Config, s: State) returns (steps: seq<Step>, s': State)
    requires Live(c, s) && 0 !in s.flows
    ensures Reaches(c, s, steps, s') && Live(c, s') && Drained(s, s')
    decreases |s.core.cola|
  {
    if s.core.cola == [] {
      steps, s' := [], s;
      assert s.core.enCurso - Elems([]) == s.core.enCurso;
    } else {
      hide Inv, Reaches, Drained;
      var s1 := CloseFirst(c, s);
      var rest;
      rest, s' := Drain(c, s1);
      steps := CloseHead(Completed) + rest;
      Then(c, s, CloseHead(Completed), s1, rest, s');
      DrainedThen(s, s1, s');
    }
  }

  /** What the lemmas below never undo: the row stays legible, a closed row stays closed. */
  ghost predicate Kept(s: State, s': State, id: TaskId)
  {
    id in s.rows && id in s'.rows && s'.rows[id].legible == s.rows[id].legible && (s.rows[id].state.Closed? ==> s'.rows[id].state.Closed?)
  }

  /** A reconciler in the middle of a pass can finish it. */
  lemma {:induction false} FinishPass(c: Config, s: State, id: TaskId) returns (steps: seq<Step>, s': State)
    requires Live(c, s) && c.workers in s.flows && id in s.rows
    ensures Reaches(c, s, steps, s') && Live(c, s') && Kept(s, s', id)
    ensures s'.flows == Drop(s.flows, c.workers)
    decreases match s.flows[c.workers] case Revisando(p) => 2 * |p| case PorEncolar(_, p) => 2 * |p| + 1 case _ => 0
  {
    var w := c.workers;
    assert RoleOk(c, w, s.flows[w]);
    var step := if s.flows[w].Revisando? then Revisar(w) else EncolarRevisada(w);
    OneStep(c, s, step);
    var s1 := Apply(c, s, step);
    if w in s1.flows {
      var rest;
      rest, s' := FinishPass(c, s1, id);
      steps := [step] + rest;
      Then(c, s, [step], s1, rest, s');
      assert s'.flows == Drop(s.flows, w);
    } else {
      steps, s' := [step], s1;
    }
  }

  /** Worker 0 and the reconciler idle, nothing queued. */
  ghost predicate Quiet(c: Config, s: State) {
    Live(c, s) && 0 !in s.flows && c.workers !in s.flows && s.core.cola == []
  }

  lemma Quiesce(c: Config, s: State, id: TaskId) returns (steps: seq<Step>, s': State)
    requires Live(c, s) && id in s.rows
    ensures Reaches(c, s, steps, s') && Quiet(c, s') && Kept(s, s', id)
  {
    steps, s' := [], s;
    if 0 in s.flows {
      assert RoleOk(c, 0, s.flows[0]);
      steps, s' := Retire(c, s, 0);
    }
    if c.workers in s'.flows {
      var more, s2 := FinishPass(c, s', id);
      Then(c, s, steps, s', more, s2);
      steps, s' := steps + more, s2;
    }
    var more, s3 := Drain(c, s');
    Then(c, s, steps, s', more, s3);
    steps, s' := steps + more, s3;
  }

  /** The reconciler's pass over a list reaches the task: it is queued and worker 0 closes it. */
  lemma {:induction false} PassReaches(c: Config, s: State, id: TaskId) returns (steps: seq<Step>, s': State)
    requires Live(c, s) && 0 !in s.flows && s.core.cola == []
    requires c.workers in s.flows && s.flows[c.workers].Revisando? && id in s.flows[c.workers].pendientes
    requires s.rows[id].legible && id !in s.core.enCurso
    ensures Reaches(c, s, steps, s') && id in s'.rows && !IsRunning(s', id)
    decreases |s.flows[c.workers].pendientes|
  {
    var w := c.workers;
    var p := s.flows[w].pendientes;
    OneStep(c, s, Revisar(w));
    var s1 := Apply(c, s, Revisar(w));
    if s1.flows[w].Revisando? {
      var rest;
      rest, s' := PassReaches(c, s1, id);
      steps := [Revisar(w)] + rest;
      Then(c, s, [Revisar(w)], s1, rest, s');
    } else {
      OneStep(c, s1, EncolarRevisada(w));
      var s2 := Apply(c, s1, EncolarRevisada(w));
      assert s2.core.cola == [p[0]];
      Then(c, s, [Revisar(w)], s1, [EncolarRevisada(w)], s2);
      var rest, s3 := Drain(c, s2);
      steps := [Revisar(w)] + [EncolarRevisada(w)] + rest;
      Then(c, s, [Revisar(w)] + [EncolarRevisada(w)], s2, rest, s3);
      s' := s3;
      if p[0] != id {
        var last;
        last, s' := PassReaches(c, s3, id);
        Then(c, s, steps, s3, last, s');
        steps := steps + last;
      }
    }
  }

  /** ListarEnCurso has an answer in every state. */
  lemma {:induction false} SomeList(ids: set<TaskId>) returns (list: seq<TaskId>)
    ensures NoDuplicates(list) && forall id :: id in list <==> id in ids
    decreases |ids|
  {
    if ids == {} {
      list := [];
    } else {
      var id :| id in ids;
      var rest := SomeList(ids - {id});
      list := [id] + rest;
    }
  }

  lemma ReconcileUnmarked(c: Config, s: State, id: TaskId) returns (steps: seq<Step>, s': State)
    requires Quiet(c, s) && IsRunning(s, id) && s.rows[id].legible && id !in s.core.enCurso
    ensures Reaches(c, s, steps, s') && id in s'.rows && !IsRunning(s', id)
  {
    var list := SomeList(set x | x in s.rows && IsRunning(s, x));
    assert Lists(s, list);
    OneStep(c, s, Listar(c.workers, list));
    var s1 := Apply(c, s, Listar(c.workers, list));
    var rest;
    rest, s' := PassReaches(c, s1, id);
    steps := [Listar(c.workers, list)] + rest;
    Then(c, s, [Listar(c.workers, list)], s1, rest, s');
  }

  /** A timer that holds the task fires into the empty queue, and worker 0 closes the task. */
  lemma FireTimer(c: Config, s: State, g: Routine) returns (steps: seq<Step>, s': State)
    requires Quiet(c, s) && g in s.flows && s.flows[g].EnEspera?
    ensures Reaches(c, s, steps, s') && s.flows[g].id in s'.rows && !IsRunning(s', s.flows[g].id)
  {
    var id := s.flows[g].id;
    OneStep(c, s, Disparar(g));
    var s1 := Apply(c, s, Disparar(g));
    assert s1.core.cola == [id];
    var rest;
    rest, s' := Drain(c, s1);
    steps := [Disparar(g)] + rest;
    Then(c, s, [Disparar(g)], s1, rest, s');
  }

  /** Some routine id not in use and not reserved for a worker or the reconciler. */
  lemma FreshRoutine(c: Config, s: State) returns (g: Routine)
    ensures g > c.workers && g !in s.flows
  {
    g := Above(s.flows.Keys + {c.workers});
  }

  lemma {:induction false} Above(gs: set<Routine>) returns (g: Routine)
    ensures forall h :: h in gs ==> h < g
    decreases |gs|
  {
    if gs == {} {
      g := 0;
    } else {
      var h :| h in gs;
      var rest := Above(gs - {h});
      g := if rest > h then rest else h + 1;
      assert forall x :: x in gs && x != h ==> x in gs - {h};
    }
  }

  /** A verifier that waits for its turn gets it, once some other verifier has finished, and closes its task. */
  lemma Verify(c: Config, s: State, v: Routine) returns (steps: seq<Step>, s': State)
    requires Live(c, s) && v in s.flows && s.flows[v].PorTurno?
    ensures Reaches(c, s, steps, s') && s.flows[v].id in s'.rows && !IsRunning(s', s.flows[v].id)
  {
    var id := s.flows[v].id;
    var s1 := s;
    steps := [];
    if |EnTurno(c, s)| == c.workers {
      var h :| h in EnTurno(c, s);
      steps, s1 := Retire(c, s, h);
      assert EnTurno(c, s1) == EnTurno(c, s) - {h};
    }
    var rest;
    rest, s' := TakeTurn(c, s1, v);
    Then(c, s, steps, s1, rest, s');
    steps := steps + rest;
  }

  lemma TakeTurn(c: Config, s: State, v: Routine) returns (steps: seq<Step>, s': State)
    requires Live(c, s) && v in s.flows && s.flows[v].PorTurno? && |EnTurno(c, s)| < c.workers
    ensures Reaches(c, s, steps, s') && s.flows[v].id in s'.rows && !IsRunning(s', s.flows[v].id)
  {
    OneStep(c, s, EntrarTurno(v));
    var s1 := Apply(c, s, EntrarTurno(v));
    assert s1.flows[v] == Verificando(s.flows[v].id) && s1.core == s.core;
    hide Apply, Enabled, Runs, Exec;
    var rest;
    rest, s' := Retire(c, s1, v);
    assert s.flows[v].id in Mentions(s1.flows[v]);
    steps := [EntrarTurno(v)] + rest;
    Then(c, s, [EntrarTurno(v)], s1, rest, s');
  }

  /** Recovery launches the verifiers of its list one by one, down to the one of the task. */
  lemma {:induction false} Launch(c: Config, s: State, g: Routine, id: TaskId) returns (steps: seq<Step>, s': State)
    requires Live(c, s) && g in s.flows && s.flows[g].Lanzando? && id in s.flows[g].vencidas
    ensures Reaches(c, s, steps, s') && id in s'.rows && !IsRunning(s', id)
    decreases |s.flows[g].vencidas|
  {
    var v := FreshRoutine(c, s);
    var step := Lanzar(g, v);
    OneStep(c, s, step);
    var s1 := Apply(c, s, step);
    assert s1.core == s.core && s1.flows[v] == PorTurno(s.flows[g].vencidas[0]);
    assert s1.flows[g] == Lanzando(s.flows[g].vencidas[1..], s.flows[g].reanudadas);
    hide Apply, Enabled, Runs, Exec;
    var rest;
    if s.flows[g].vencidas[0] == id {
      rest, s' := Verify(c, s1, v);
    } else {
      rest, s' := Launch(c, s1, g, id);
    }
    steps := [step] + rest;
    Then(c, s, [step], s1, rest, s');
  }

  lemma CloseFromQuiet(c: Config, s: State, id: TaskId) returns (steps: seq<Step>, s': State)
    requires Quiet(c, s) && IsRunning(s, id) && s.rows[id].legible
    ensures Reaches(c, s, steps, s') && id in s'.rows && !IsRunning(s', id)
  {
    if id !in s.core.enCurso {
      steps, s' := ReconcileUnmarked(c, s, id);
    } else {
      assert Held(s, id);
      var g :| g in s.flows && id in Holds(s.flows[g]);
      assert RoleOk(c, g, s.flows[g]);
      if s.flows[g].EnEspera? {
        steps, s' := FireTimer(c, s, g);
      } else if s.flows[g].Lanzando? {
        steps, s' := Launch(c, s, g, id);
      } else if s.flows[g].PorTurno? {
        steps, s' := Verify(c, s, g);
      } else {
        steps, s' := Retire(c, s, g);
        if IsRunning(s', id) {
          var rest, s2 := ReconcileUnmarked(c, s', id);
          Then(c, s, steps, s', rest, s2);
          steps, s' := steps + rest, s2;
        }
      }
    }
  }

  /**
    From every state that a run of the pool can reach, in whatever order things
    happened before, the same process can still close every RUNNING row.
   */
  lemma EveryRunningRowCanBeClosed(c: Config, rows: map<TaskId, Row>, past: seq<Step>, id: TaskId)
    returns (future: seq<Step>)
    requires c.Valid() && Runs(c, Init(rows), past)
    requires var s := Exec(c, Init(rows), past); s.core.activo && IsRunning(s, id) && s.rows[id].legible
    ensures Runs(c, Exec(c, Init(rows), past), future)
    ensures forall i :: 0 <= i < |future| ==> Ordinary(future[i])
    ensures var s := Exec(c, Exec(c, Init(rows), past), future); id in s.rows && s.rows[id].state.Closed?
  {
    EveryRunKeepsInv(c, Init(rows), past);
    var s := Exec(c, Init(rows), past);
    var steps, s1 := Quiesce(c, s, id);
    future := steps;
    if IsRunning(s1, id) {
      var rest, s2 := CloseFromQuiet(c, s1, id);
      Then(c, s, steps, s1, rest, s2);
      future := steps + rest;
    }
  }

  // ---------- Legibility is the exact condition ----------

  /** Nobody carries the task, except for lists of the reconciler. */
  ghost predicate Ignored(s: State, id: TaskId) {
    && id in s.rows && s.rows[id] == Row(Running, false) && id !in s.core.cola
    && forall g :: g in s.flows ==> Ignores(s.flows[g], id)
  }

  predicate Ignores(f: Flow, id: TaskId) {
    f.Revisando? || (f.PorEncolar? && f.id != id) || (!f.PorEncolar? && id !in Mentions(f))
  }

  lemma StepIgnores(c: Config, s: State, step: Step, id: TaskId)
    requires FlowsKnown(s) && Enabled(c, s, step) && Ignored(s, id)
    ensures Ignored(Apply(c, s, step), id)
  {
    var s' := Apply(c, s, step);
    forall g | g in s'.flows ensures Ignores(s'.flows[g], id) {
      if !(g in s.flows && s'.flows[g] == s.flows[g]) {
        NewFlowIgnores(c, s, step, id, g);
      }
    }
  }

  lemma NewFlowIgnores(c: Config, s: State, step: Step, id: TaskId, g: Routine)
    requires FlowsKnown(s) && Enabled(c, s, step) && Ignored(s, id)
    requires g in Apply(c, s, step).flows && !(g in s.flows && Apply(c, s, step).flows[g] == s.flows[g])
    ensures Ignores(Apply(c, s, step).flows[g], id)
  {
    if Actor(c, step) in s.flows { assert Ignores(s.flows[Actor(c, step)], id); }
    if step.Recuperar? {
      assert id !in step.vencidas + step.reanudadas;
    }
    hide EnTurno, Enqueue, FlowsKnown;
  }

  /** A RUNNING row whose instance id is not a number is never closed, in any run of any number of processes. */
  lemma {:induction false} IllegibleIsNeverClosed(c: Config, s: State, steps: seq<Step>, id: TaskId)
    requires Runs(c, s, steps) && Ignored(s, id)
    ensures Ignored(Exec(c, s, steps), id)
    decreases |steps|
  {
    if steps != [] {
      StepIgnores(c, s, steps[0], id);
      IllegibleIsNeverClosed(c, Apply(c, s, steps[0]), steps[1..], id);
    }
  }

  /** On a table found at start-up, a RUNNING row can ever be closed if and only if it is legible. */
  lemma ClosableIffLegible(c: Config, rows: map<TaskId, Row>, id: TaskId)
    requires c.Valid() && id in rows && rows[id].state.Running?
    ensures rows[id].legible <==>
      exists steps :: Runs(c, Init(rows), steps) && id in Exec(c, Init(rows), steps).rows && !IsRunning(Exec(c, Init(rows), steps), id)
  {
    assert Runs(c, Init(rows), []);
    if rows[id].legible {
      var steps := EveryRunningRowCanBeClosed(c, rows, [], id);
    } else {
      assert Ignored(Init(rows), id);
      forall steps | Runs(c, Init(rows), steps)
        ensures IsRunning(Exec(c, Init(rows), steps), id)
      {
        IllegibleIsNeverClosed(c, Init(rows), steps, id);
      }
    }
  }
}
