/**
  What a power action leaves, over runs: an accepted stop or shutdown of a running
  instance ends with it off, and it stays off until a start of it ends; an accepted
  start, reboot or resume ends with it on.
 */
module SimPower {
  import opened Wrappers
  import opened SnapshotTree
  import opened SimModel
  import opened SimInvariant

  /** The step ends a start, a reboot or a resume of the instance. */
  ghost predicate Enciende1(w: World, p: Paso, v: Vmid) {
    && p.Finalizar? && p.id in w.sim.tareas && w.sim.tareas[p.id].vmid == v && w.sim.tareas[p.id].efecto.Energia?
    && w.sim.tareas[p.id].efecto.accion in {Start, Reboot, Resume}
  }

  ghost predicate NadieEnciende(c: Config, w: World, pasos: seq<Paso>, v: Vmid)
    requires Runs(c, w, pasos)
    decreases |pasos|
  {
    pasos != [] ==> !Enciende1(w, pasos[0], v) && NadieEnciende(c, Step(c, w, pasos[0]), pasos[1..], v)
  }

  /** Off, if it is there at all: an instance that is removed and created again is off too. */
  ghost predicate Fuera(s: Sim, v: Vmid) {
    v in s.instancias ==> s.instancias[v].estado == Stopped
  }

  lemma InstanceAfterEnd(c: Config, s: Sim, id: TaskId, v: Vmid)
    requires Inv(s) && Unfinished(s, id)
    ensures var s1, t := Terminar(c, s, id), s.tareas[id];
      && (v in s1.instancias ==> v in s.instancias)
      && (v in s.instancias && (t.vmid != v || !t.efecto.Destruir?) ==> v in s1.instancias)
    ensures var s1, t := Terminar(c, s, id), s.tareas[id];
      v in s1.instancias && t.vmid != v ==> s1.instancias[v] == s.instancias[v]
    ensures var s1, t := Terminar(c, s, id), s.tareas[id];
      v in s1.instancias && t.vmid == v ==>
        s1.instancias[v] == Efectuar(c, s.instancias[v], t.efecto, s.proximoPID + 13).0.(lock := "")
  {
    hide Efectuar, Inv;
    TerminarFrees(c, s, id);
  }

  /** Requests change no instance's state; those they create are off. */
  lemma RequestKeepsPower(c: Config, s: Sim, ahora: int, q: Pedido, v: Vmid)
    ensures var s1 := Atender(c, s, ahora, q).0;
      && (v in s.instancias ==> v in s1.instancias && s1.instancias[v].estado == s.instancias[v].estado && s1.instancias[v].pid == s.instancias[v].pid)
      && (v !in s.instancias && v in s1.instancias ==> s1.instancias[v].estado == Stopped)
  {
    hide EdicionValida, NombreValido, FindSnap, Impedimento;
  }

  lemma StepKeepsOff(c: Config, w: World, p: Paso, v: Vmid)
    requires Inv(w.sim) && Enabled(w, p) && Fuera(w.sim, v) && !Enciende1(w, p, v)
    ensures Fuera(Step(c, w, p).sim, v)
  {
    match p {
      case Finalizar(id) =>
        InstanceAfterEnd(c, w.sim, id, v);
        hide Inv, Terminar;
      case Pedir(q) =>
        RequestKeepsPower(c, w.sim, w.reloj, q, v);
        hide Inv, Atender;
      case Avanzar(_) =>
    }
  }

  /** What is off stays off over every run, until a start, reboot or resume of it ends. */
  lemma {:induction false} OffUntilStarted(c: Config, w: World, pasos: seq<Paso>, v: Vmid)
    requires Inv(w.sim) && Runs(c, w, pasos) && Fuera(w.sim, v) && NadieEnciende(c, w, pasos, v)
    ensures Fuera(Exec(c, w, pasos).sim, v)
    decreases |pasos|
  {
    if pasos != [] {
      StepKeepsInv(c, w, pasos[0]);
      StepKeepsOff(c, w, pasos[0], v);
      OffUntilStarted(c, Step(c, w, pasos[0]), pasos[1..], v);
    }
  }

  /** While its task runs, nothing else touches the power of an instance. */
  ghost predicate EnEspera(s: Sim, id: TaskId, v: Vmid, accion: Accion, estado: Estado) {
    && Unfinished(s, id) && s.tareas[id].vmid == v && s.tareas[id].efecto == Energia(accion)
    && v in s.instancias && s.instancias[v].estado == estado
  }

  lemma StepKeepsWaiting(c: Config, w: World, p: Paso, id: TaskId, v: Vmid, accion: Accion, estado: Estado)
    requires Inv(w.sim) && Enabled(w, p) && EnEspera(w.sim, id, v, accion, estado) && p != Finalizar(id)
    ensures EnEspera(Step(c, w, p).sim, id, v, accion, estado)
  {
    match p {
      case Finalizar(x) =>
        assert Unfinished(w.sim, x) && w.sim.tareas[x].vmid != v;
        TerminarFrees(c, w.sim, x);
      case Pedir(q) =>
        RequestKeepsPower(c, w.sim, w.reloj, q, v);
        TaskStays(c, w.sim, w.reloj, q, id);
        hide Inv, Atender;
      case Avanzar(_) =>
    }
  }

  lemma TaskStays(c: Config, s: Sim, ahora: int, q: Pedido, id: TaskId)
    requires Inv(s) && id in s.tareas
    ensures var s1 := Atender(c, s, ahora, q).0; id in s1.tareas && s1.tareas[id] == s.tareas[id]
  {
    hide EdicionValida, NombreValido, FindSnap, Impedimento, Editada;
  }

  lemma {:induction false} RunKeepsWaiting(c: Config, w: World, pasos: seq<Paso>, id: TaskId, v: Vmid, accion: Accion, estado: Estado)
    requires Inv(w.sim) && Runs(c, w, pasos) && EnEspera(w.sim, id, v, accion, estado) && Finalizar(id) !in pasos
    ensures Inv(Exec(c, w, pasos).sim) && EnEspera(Exec(c, w, pasos).sim, id, v, accion, estado)
    decreases |pasos|
  {
    if pasos != [] {
      StepKeepsInv(c, w, pasos[0]);
      StepKeepsWaiting(c, w, pasos[0], id, v, accion, estado);
      RunKeepsWaiting(c, Step(c, w, pasos[0]), pasos[1..], id, v, accion, estado);
    }
  }

  lemma AcceptedWaits(c: Config, w: World, v: Vmid, tipo: Tipo, accion: Accion)
    requires Inv(w.sim) && Enabled(w, Pedir(Accionar(v, tipo, accion))) && Atender(c, w.sim, w.reloj, Accionar(v, tipo, accion)).1.Aceptada?
    ensures v in w.sim.instancias
    ensures var (s1, r) := Atender(c, w.sim, w.reloj, Accionar(v, tipo, accion)); EnEspera(s1, r.tarea, v, accion, w.sim.instancias[v].estado)
  {
  }

  /** The world when the task of an accepted action is about to end. */
  ghost predicate AlTerminar(c: Config, w: World, v: Vmid, tipo: Tipo, accion: Accion, antes: seq<Paso>, id: TaskId) {
    && Inv(w.sim) && Enabled(w, Pedir(Accionar(v, tipo, accion)))
    && Atender(c, w.sim, w.reloj, Accionar(v, tipo, accion)).1 == Aceptada(id)
    && var w1 := Step(c, w, Pedir(Accionar(v, tipo, accion)));
      Runs(c, w1, antes) && Finalizar(id) !in antes && Enabled(Exec(c, w1, antes), Finalizar(id))
  }

  lemma AboutToEnd(c: Config, w: World, v: Vmid, tipo: Tipo, accion: Accion, antes: seq<Paso>, id: TaskId)
    requires AlTerminar(c, w, v, tipo, accion, antes, id)
    ensures v in w.sim.instancias
    ensures var w2 := Exec(c, Step(c, w, Pedir(Accionar(v, tipo, accion))), antes);
      Inv(w2.sim) && EnEspera(w2.sim, id, v, accion, w.sim.instancias[v].estado)
  {
    AcceptedWaits(c, w, v, tipo, accion);
    StepKeepsInv(c, w, Pedir(Accionar(v, tipo, accion)));
    hide Inv, Atender, EnEspera;
    RunKeepsWaiting(c, Step(c, w, Pedir(Accionar(v, tipo, accion))), antes, id, v, accion, w.sim.instancias[v].estado);
  }

  /**
    An accepted stop, or shutdown of a running instance, ends well with the
    instance off and without PID, and in every run from then on it is off until a
    start, reboot or resume of it ends.
   */
  lemma StopHolds(c: Config, w: World, v: Vmid, tipo: Tipo, accion: Accion, antes: seq<Paso>, id: TaskId, despues: seq<Paso>)
    requires AlTerminar(c, w, v, tipo, accion, antes, id) && w.sim.instancias[v].estado == Running && accion in {Stop, Shutdown}
    requires var w3 := Step(c, Exec(c, Step(c, w, Pedir(Accionar(v, tipo, accion))), antes), Finalizar(id));
      Runs(c, w3, despues) && NadieEnciende(c, w3, despues, v)
    ensures var w3 := Step(c, Exec(c, Step(c, w, Pedir(Accionar(v, tipo, accion))), antes), Finalizar(id));
      && w3.sim.tareas[id].resultado == OK
      && v in w3.sim.instancias && w3.sim.instancias[v].estado == Stopped && w3.sim.instancias[v].pid == 0
      && Fuera(Exec(c, w3, despues).sim, v)
  {
    AboutToEnd(c, w, v, tipo, accion, antes, id);
    var w2 := Exec(c, Step(c, w, Pedir(Accionar(v, tipo, accion))), antes);
    var w3 := Step(c, w2, Finalizar(id));
    InstanceAfterEnd(c, w2.sim, id, v);
    EndedOff(c, w2.sim, id, v);
    StepKeepsInv(c, w2, Finalizar(id));
    hide Inv, Terminar, Atender, NadieEnciende, Runs, Exec;
    OffUntilStarted(c, w3, despues, v);
  }

  lemma EndedOff(c: Config, s: Sim, id: TaskId, v: Vmid)
    requires Inv(s) && Unfinished(s, id) && s.tareas[id].vmid == v && v in s.instancias && s.instancias[v].estado == Running
    requires s.tareas[id].efecto == Energia(Stop) || s.tareas[id].efecto == Energia(Shutdown)
    ensures var s1 := Terminar(c, s, id);
      s1.tareas[id].resultado == OK && v in s1.instancias && s1.instancias[v].estado == Stopped && s1.instancias[v].pid == 0
  {
  }

  /** A start of an instance that is off, a reboot of a running one or a resume of a paused one ends well with it on and a new PID. */
  lemma StartEndsOn(c: Config, w: World, v: Vmid, tipo: Tipo, accion: Accion, antes: seq<Paso>, id: TaskId)
    requires AlTerminar(c, w, v, tipo, accion, antes, id)
    requires match w.sim.instancias[v].estado case Running => accion == Reboot case Stopped => accion == Start case Paused => accion in {Start, Resume}
    ensures var w2 := Exec(c, Step(c, w, Pedir(Accionar(v, tipo, accion))), antes);
      var s3 := Step(c, w2, Finalizar(id)).sim;
      && s3.tareas[id].resultado == OK && v in s3.instancias && s3.instancias[v].estado == Running
      && s3.instancias[v].pid == w2.sim.proximoPID + 13 == s3.proximoPID && s3.instancias[v].pendiente == map[]
  {
    AboutToEnd(c, w, v, tipo, accion, antes, id);
  }
}
