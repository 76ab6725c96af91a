/** Shutdown and restart of the pool: what neither lets in, and what a new process finds again. */
module TaskPoolLifecycle {
  import opened TaskPool

  lemma StepAfterShutdown(c: Config, s: State, step: Step)
    requires FlowsKnown(s) && Enabled(c, s, step) && !s.core.activo && step != Reiniciar
    ensures var s' := Apply(c, s, step); !s'.core.activo && |s'.core.cola| <= |s.core.cola| && s'.core.enCurso <= s.core.enCurso + Apartadas(s, step)
    ensures forall id :: id in Apply(c, s, step).core.cola ==> id in s.core.cola
  {
    hide EnTurno, FlowsKnown, CloseRow;
  }

  /** The rows that a recovery still under way sets apart for their only query. */
  function Apartadas(s: State, step: Step): set<TaskId> {
    if step.MarcarVencidas? && step.g in s.flows && s.flows[step.g].Recuperando? then Elems(s.flows[step.g].vencidas) else {}
  }

  /** After a shutdown, over every run of the process, the queue only gives out what it had. */
  lemma {:induction false} NothingEntersAfterShutdown(c: Config, s: State, steps: seq<Step>)
    requires Runs(c, s, steps) && !s.core.activo && Reiniciar !in steps
    ensures !Exec(c, s, steps).core.activo && |Exec(c, s, steps).core.cola| <= |s.core.cola|
    ensures forall id :: id in Exec(c, s, steps).core.cola ==> id in s.core.cola
    decreases |steps|
  {
    if steps != [] {
      StepAfterShutdown(c, s, steps[0]);
      hide Apply, Enabled, FlowsKnown;
      NothingEntersAfterShutdown(c, Apply(c, s, steps[0]), steps[1..]);
    }
  }

  /** The cancelled context is such a shutdown. */
  lemma ShutdownStops(c: Config, s: State, steps: seq<Step>)
    requires FlowsKnown(s) && Enabled(c, s, Apagar) && Runs(c, Apply(c, s, Apagar), steps) && Reiniciar !in steps
    ensures forall id :: id in Exec(c, Apply(c, s, Apagar), steps).core.cola ==> id in s.core.cola
    ensures !Exec(c, Apply(c, s, Apagar), steps).core.activo
  {
    NothingEntersAfterShutdown(c, Apply(c, s, Apagar), steps);
  }

  /** A new process has an empty queue, no marks and no routines, and recovers every legible RUNNING row, in whatever two classes. */
  lemma RestartRecovers(c: Config, s: State, g: Routine, vencidas: seq<TaskId>, reanudadas: seq<TaskId>)
    requires FlowsKnown(s) && g > c.workers
    ensures var s' := Apply(c, s, Reiniciar);
      && s'.core == Core(true, [], {}) && s'.flows == map[] && s'.rows == s.rows && s'.events == s.events
      && (Enabled(c, s', Recuperar(g, vencidas, reanudadas)) <==>
            NoDuplicates(vencidas + reanudadas) && forall id :: id in vencidas + reanudadas <==> IsRunning(s, id) && s.rows[id].legible)
  {
  }
}
