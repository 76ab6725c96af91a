/**
  What one pass of the reconciler does while requests, workers, timers,
  verifiers and a shutdown interleave with it at will.
 */
module TaskPoolPass {
  import opened TaskPool

  /** The rows the pass has still to look at or to queue. */
  function Pending(c: Config, s: State): seq<TaskId> {
    if c.workers !in s.flows then []
    else match s.flows[c.workers]
      case Revisando(p) => p
      case PorEncolar(id, p) => [id] + p
      case _ => []
  }

  ghost predicate Refuses(c: Config, s: State, step: Step) {
    step.EncolarRevisada? && !Admits(s.core, c.buffer)
  }

  /** The pass, at this step, finds the task marked and held, or puts it in the queue. */
  ghost predicate Attends(c: Config, s: State, step: Step, id: TaskId) {
    && c.workers in s.flows
    && var f := s.flows[c.workers];
      || (step == Revisar(c.workers) && f.Revisando? && f.pendientes != [] && f.pendientes[0] == id && id in s.core.enCurso && Held(s, id))
      || (step == EncolarRevisada(c.workers) && f.PorEncolar? && f.id == id && Admits(s.core, c.buffer))
  }

  ghost predicate Attended(c: Config, s: State, steps: seq<Step>, id: TaskId)
    requires Runs(c, s, steps)
    decreases |steps|
  {
    steps != [] && (Attends(c, s, steps[0], id) || Attended(c, Apply(c, s, steps[0]), steps[1..], id))
  }

  ghost predicate Refused(c: Config, s: State, steps: seq<Step>)
    requires Runs(c, s, steps)
    decreases |steps|
  {
    steps != [] && (Refuses(c, s, steps[0]) || Refused(c, Apply(c, s, steps[0]), steps[1..]))
  }

  ghost predicate HasListing(steps: seq<Step>) {
    exists i :: 0 <= i < |steps| && steps[i].Listar?
  }

  /** What the pass queues is in the queue, and marked, when the step ends. */
  lemma AttendedIsHeld(c: Config, s: State, step: Step, id: TaskId)
    requires FlowsKnown(s) && Enabled(c, s, step) && Attends(c, s, step, id)
    ensures Held(Apply(c, s, step), id) && id in Apply(c, s, step).core.enCurso
  {
    if step.Revisar? {
      HeldElsewhere(s, Apply(c, s, step), c.workers, id);
    }
  }

  /** One step of anybody: a pending row stays pending, is attended to, has no VMID, or the pass is refused. */
  lemma StepAttends(c: Config, s: State, step: Step, id: TaskId)
    requires Inv(c, s) && Enabled(c, s, step) && id in Pending(c, s) && step != Reiniciar
    ensures || id in Pending(c, Apply(c, s, step)) || Attends(c, s, step, id) || !s.rows[id].legible || Refuses(c, s, step)
  {
    assert RoleOk(c, c.workers, s.flows[c.workers]);
    if !Moves(c, step) {
      OthersLeavePending(c, s, step);
    }
  }

  predicate Moves(c: Config, step: Step) {
    step == Revisar(c.workers) || step == EncolarRevisada(c.workers)
  }

  lemma OthersLeavePending(c: Config, s: State, step: Step)
    requires Inv(c, s) && Enabled(c, s, step) && !Moves(c, step) && step != Reiniciar && !step.Listar?
    ensures Pending(c, Apply(c, s, step)) == Pending(c, s)
  {
    OthersLeaveReconciler(c, s, step);
    hide Apply, Enabled, Inv;
  }

  /**
    Whatever the others do between the listing and the end of the pass, every
    legible row it still had to look at was found marked and held at that
    moment, or was put in the queue, unless encolar refused and cut the pass.
   */
  lemma {:induction false} PassAttendsUnlessRefused(c: Config, s: State, steps: seq<Step>, id: TaskId)
    requires Inv(c, s) && Runs(c, s, steps) && Reiniciar !in steps
    requires id in Pending(c, s) && id in s.rows && s.rows[id].legible
    requires c.workers !in Exec(c, s, steps).flows
    ensures Attended(c, s, steps, id) || Refused(c, s, steps)
    decreases |steps|
  {
    if steps != [] {
      var s' := Apply(c, s, steps[0]);
      StepKeepsInv(c, s, steps[0]);
      StepKeepsClosed(c, s, steps[0], id);
      StepAttends(c, s, steps[0], id);
      hide Apply, Enabled, Attends, Refuses, Inv, Pending;
      if id in Pending(c, s') {
        PassAttendsUnlessRefused(c, s', steps[1..], id);
      }
    }
  }

  // ---------- A refused pass misses something ----------

  /** A row is on its way to the queue only if it names a VMID. */
  ghost predicate Fit(c: Config, s: State) {
    c.workers in s.flows && s.flows[c.workers].PorEncolar? ==> var id := s.flows[c.workers].id; id in s.rows && s.rows[id].legible
  }

  /** A pass works through its list from the front; a refusal ends it with its first row unattended. */
  lemma MoveTrims(c: Config, s: State, step: Step)
    requires Inv(c, s) && Enabled(c, s, step) && Moves(c, step) && Fit(c, s)
    ensures Fit(c, Apply(c, s, step))
    ensures Refuses(c, s, step) ==> Pending(c, s) != [] && c.workers !in Apply(c, s, step).flows && s.rows[Pending(c, s)[0]].legible
    ensures !Refuses(c, s, step) ==> Pending(c, Apply(c, s, step)) == Pending(c, s) || (Pending(c, s) != [] && Pending(c, Apply(c, s, step)) == Pending(c, s)[1..])
    ensures forall id :: Attends(c, s, step, id) ==> !Refuses(c, s, step) && Pending(c, s) != [] && id == Pending(c, s)[0] && Pending(c, Apply(c, s, step)) == Pending(c, s)[1..]
  {
    hide EnTurno, RoleOk, Held, Enqueue;
  }

  lemma OthersKeepFit(c: Config, s: State, step: Step)
    requires Inv(c, s) && Enabled(c, s, step) && !Moves(c, step) && step != Reiniciar && !step.Listar? && Fit(c, s)
    ensures Fit(c, Apply(c, s, step))
    ensures c.workers in s.flows <==> c.workers in Apply(c, s, step).flows
    ensures !Refuses(c, s, step) && forall id :: !Attends(c, s, step, id)
  {
    OthersLeaveReconciler(c, s, step);
    if c.workers in s.flows && s.flows[c.workers].PorEncolar? {
      StepKeepsClosed(c, s, step, s.flows[c.workers].id);
    }
    hide Apply, Held, Inv;
  }

  /** Nobody else moves the reconciler. */
  lemma OthersLeaveReconciler(c: Config, s: State, step: Step)
    requires Inv(c, s) && Enabled(c, s, step) && !Moves(c, step) && step != Reiniciar && !step.Listar?
    ensures c.workers in s.flows <==> c.workers in Apply(c, s, step).flows
    ensures c.workers in s.flows ==> Apply(c, s, step).flows[c.workers] == s.flows[c.workers]
    ensures step.EncolarRevisada? ==> false
  {
    if Actor(c, step) in s.flows {
      assert RoleOk(c, Actor(c, step), s.flows[Actor(c, step)]);
    }
    hide EnTurno, RoleOk, FlowsKnown, Enqueue, CloseRow, Held;
  }

  /** No pass, no listing: nothing is attended to and nothing is refused. */
  lemma {:induction false} NoPassAttendsNothing(c: Config, s: State, steps: seq<Step>, id: TaskId)
    requires Inv(c, s) && Runs(c, s, steps) && Reiniciar !in steps && !HasListing(steps) && c.workers !in s.flows
    ensures !Attended(c, s, steps, id) && !Refused(c, s, steps)
    decreases |steps|
  {
    if steps != [] {
      assert !steps[0].Listar?;
      StepKeepsInv(c, s, steps[0]);
      OthersKeepFit(c, s, steps[0]);
      assert forall i :: 0 <= i < |steps[1..]| ==> steps[1..][i] == steps[i + 1];
      NoPassAttendsNothing(c, Apply(c, s, steps[0]), steps[1..], id);
    }
  }

  lemma {:induction false} RefusedMisses(c: Config, s: State, steps: seq<Step>) returns (id: TaskId)
    requires Inv(c, s) && Runs(c, s, steps) && Reiniciar !in steps && !HasListing(steps)
    requires Fit(c, s) && NoDuplicates(Pending(c, s)) && Refused(c, s, steps)
    ensures id in Pending(c, s) && id in s.rows && s.rows[id].legible && !Attended(c, s, steps, id)
    decreases |steps|
  {
    assert !steps[0].Listar?;
    var s' := Apply(c, s, steps[0]);
    StepKeepsInv(c, s, steps[0]);
    assert forall i :: 0 <= i < |steps[1..]| ==> steps[1..][i] == steps[i + 1];
    if Moves(c, steps[0]) {
      MoveTrims(c, s, steps[0]);
    } else {
      OthersLeavePending(c, s, steps[0]);
      OthersKeepFit(c, s, steps[0]);
    }
    if Refuses(c, s, steps[0]) {
      id := Pending(c, s)[0];
      NoPassAttendsNothing(c, s', steps[1..], id);
    } else {
      id := RefusedMisses(c, s', steps[1..]);
      StepKeepsClosed(c, s, steps[0], id);
    }
  }

  // ---------- One whole pass ----------

  /** From the listing to the end of that pass, with no restart in between. */
  ghost predicate IsPass(c: Config, s: State, ids: seq<TaskId>, pass: seq<Step>) {
    && FlowsKnown(s) && Enabled(c, s, Listar(c.workers, ids))
    && var s1 := Apply(c, s, Listar(c.workers, ids));
      && Runs(c, s1, pass) && Reiniciar !in pass && !HasListing(pass) && c.workers !in Exec(c, s1, pass).flows
  }

  /**
    A pass begun in any reachable state, interleaved in any way with everything
    else: every RUNNING row of the table with a VMID is found marked and held or
    is queued by the pass, if and only if encolar never refuses it a place.
   */
  lemma PassIsCompleteIffAdmitted(c: Config, rows: map<TaskId, Row>, past: seq<Step>, ids: seq<TaskId>, pass: seq<Step>)
    requires Runs(c, Init(rows), past)
    requires IsPass(c, Exec(c, Init(rows), past), ids, pass)
    ensures var s := Exec(c, Init(rows), past);
      var s1 := Apply(c, s, Listar(c.workers, ids));
      (forall id :: IsRunning(s, id) && s.rows[id].legible ==> Attended(c, s1, pass, id)) <==> !Refused(c, s1, pass)
  {
    EveryRunKeepsInv(c, Init(rows), past);
    PassFromInv(c, Exec(c, Init(rows), past), ids, pass);
  }

  lemma PassFromInv(c: Config, s: State, ids: seq<TaskId>, pass: seq<Step>)
    requires Inv(c, s) && IsPass(c, s, ids, pass)
    ensures var s1 := Apply(c, s, Listar(c.workers, ids));
      (forall id :: IsRunning(s, id) && s.rows[id].legible ==> Attended(c, s1, pass, id)) <==> !Refused(c, s1, pass)
  {
    var s1 := Apply(c, s, Listar(c.workers, ids));
    StepKeepsInv(c, s, Listar(c.workers, ids));
    assert Pending(c, s1) == ids && s1.rows == s.rows && Fit(c, s1);
    hide Apply, Enabled, Inv, Pending, Runs;
    if Refused(c, s1, pass) {
      var id := RefusedMisses(c, s1, pass);
      assert IsRunning(s, id);
    } else {
      forall id | IsRunning(s, id) && s.rows[id].legible ensures Attended(c, s1, pass, id) {
        PassAttendsUnlessRefused(c, s1, pass, id);
      }
    }
  }
}
