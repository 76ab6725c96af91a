/**
  What becomes of a size that an edit asks for.  On a running VM it is deferred to
  the next start; on a stopped one it is in use at once, but a value deferred before
  is still pending, and the next start puts it back.
 */
module SimPending {
  import opened Wrappers
  import opened SnapshotTree
  import opened SimModel
  import opened SimInvariant

  const SIZES := {"cores", "memory"}

  /** The size in use. */
  function EnUso(i: Inst, clave: string): int {
    if clave == "cores" then i.cores else i.memoriaMB
  }

  /** The size that the instance will have once nothing is pending. */
  function Proxima(c: Config, i: Inst, clave: string): int {
    Number(c, i.pendiente, clave, EnUso(i, clave))
  }

  /** The size that a parameter asks for. */
  predicate Pide(c: Config, params: map<string, string>, clave: string, n: int) {
    clave in SIZES && clave in params && c.sscan(params[clave]) == Some(n)
  }

  /** No value deferred before will undo the edit. */
  predicate Prevalece(c: Config, i: Inst, clave: string, n: int) {
    || (i.tipo.Qemu? && i.estado.Running?)
    || clave !in i.pendiente || c.sscan(i.pendiente[clave]).None? || c.sscan(i.pendiente[clave]) == Some(n)
  }

  lemma EditSetsNextIff(c: Config, i: Inst, params: map<string, string>, nombre: string, clave: string, n: int)
    requires Pide(c, params, clave, n)
    ensures Proxima(c, Editada(c, i, params, nombre), clave) == n <==> Prevalece(c, i, clave, n)
  {
    var m := params - {"digest"};
    assert clave in m && m[clave] == params[clave];
    assert clave in DEFERRED && clave !in m - DEFERRED;
  }

  /** Nothing but a rollback touches the coming size when a task ends. */
  lemma EffectKeepsNext(c: Config, i: Inst, e: Efecto, pid: nat, clave: string)
    requires clave in SIZES && !e.Revertir?
    ensures Proxima(c, Efectuar(c, i, e, pid).0, clave) == Proxima(c, i, clave)
  {
  }

  /** The step neither edits the instance, nor rolls it back, nor removes it. */
  ghost predicate Deja(w: World, p: Paso, v: Vmid) {
    match p
    case Avanzar(_) => true
    case Finalizar(id) => id in w.sim.tareas && w.sim.tareas[id].vmid == v ==>
      !w.sim.tareas[id].efecto.Revertir? && !w.sim.tareas[id].efecto.Destruir?
    case Pedir(q) => q.Editar? ==> q.vmid != v
  }

  ghost predicate SiempreDeja(c: Config, w: World, pasos: seq<Paso>, v: Vmid)
    requires Runs(c, w, pasos)
    decreases |pasos|
  {
    pasos != [] ==> Deja(w, pasos[0], v) && SiempreDeja(c, Step(c, w, pasos[0]), pasos[1..], v)
  }

  /** The instance after the end of a task: its effect if it is the task's, and perhaps no lock. */
  lemma InstanceAfter(c: Config, s: Sim, id: TaskId, v: Vmid)
    requires id in s.tareas && v in s.instancias && (s.tareas[id].vmid == v ==> !s.tareas[id].efecto.Destruir?)
    ensures var s1, t := Terminar(c, s, id), s.tareas[id];
      var j := if t.vmid == v then Efectuar(c, s.instancias[v], t.efecto, s.proximoPID + 13).0 else s.instancias[v];
      v in s1.instancias && (s1.instancias[v] == j || s1.instancias[v] == j.(lock := ""))
  {
    hide Efectuar, Enciende, Activa;
  }

  lemma EndKeepsNext(c: Config, w: World, id: TaskId, v: Vmid, clave: string)
    requires Enabled(w, Finalizar(id)) && Deja(w, Finalizar(id), v) && v in w.sim.instancias && clave in SIZES
    ensures var s := Terminar(c, w.sim, id); v in s.instancias && Proxima(c, s.instancias[v], clave) == Proxima(c, w.sim.instancias[v], clave)
  {
    hide Efectuar, Terminar, Number;
    InstanceAfter(c, w.sim, id, v);
    var t := w.sim.tareas[id];
    if t.vmid == v { EffectKeepsNext(c, w.sim.instancias[v], t.efecto, w.sim.proximoPID + 13, clave); }
  }

  lemma RequestKeepsNext(c: Config, w: World, q: Pedido, v: Vmid, clave: string)
    requires Deja(w, Pedir(q), v) && v in w.sim.instancias && clave in SIZES
    ensures var s := Atender(c, w.sim, w.reloj, q).0; v in s.instancias && Proxima(c, s.instancias[v], clave) == Proxima(c, w.sim.instancias[v], clave)
  {
    hide Editada, EdicionValida, NombreValido, FindSnap, Impedimento;
  }

  lemma {:induction false} RunKeepsNext(c: Config, w: World, pasos: seq<Paso>, v: Vmid, clave: string)
    requires Runs(c, w, pasos) && SiempreDeja(c, w, pasos, v) && v in w.sim.instancias && clave in SIZES
    ensures var s := Exec(c, w, pasos).sim; v in s.instancias && Proxima(c, s.instancias[v], clave) == Proxima(c, w.sim.instancias[v], clave)
    decreases |pasos|
  {
    if pasos != [] {
      match pasos[0] {
        case Finalizar(id) => EndKeepsNext(c, w, id, v, clave);
        case Pedir(q) => RequestKeepsNext(c, w, q, v, clave);
        case Avanzar(_) =>
      }
      hide Proxima;
      RunKeepsNext(c, Step(c, w, pasos[0]), pasos[1..], v, clave);
    }
  }

  /**
    The last edit of a size.  In every run after it that does not edit the instance
    again, roll it back or remove it, whenever nothing is pending, the size in use is
    the one that was asked for, if and only if the edit was deferred itself or no
    other value was pending.
   */
  lemma LastEditWinsIff(c: Config, w: World, v: Vmid, tipo: Tipo, params: map<string, string>, nombre: string, clave: string, n: int, pasos: seq<Paso>)
    requires Pide(c, params, clave, n) && Enabled(w, Pedir(Editar(v, tipo, params, nombre)))
    requires Atender(c, w.sim, w.reloj, Editar(v, tipo, params, nombre)).1.Hecho?
    requires var w1 := Step(c, w, Pedir(Editar(v, tipo, params, nombre))); Runs(c, w1, pasos) && SiempreDeja(c, w1, pasos, v)
    ensures var w1 := Step(c, w, Pedir(Editar(v, tipo, params, nombre)));
      var s := Exec(c, w1, pasos).sim;
      && v in w.sim.instancias && v in s.instancias
      && (s.instancias[v].pendiente == map[] ==> (EnUso(s.instancias[v], clave) == n <==> Prevalece(c, w.sim.instancias[v], clave, n)))
  {
    var p := Pedir(Editar(v, tipo, params, nombre));
    EditSetsNextIff(c, w.sim.instancias[v], params, nombre, clave, n);
    RunKeepsNext(c, Step(c, w, p), pasos, v, clave);
  }

  /** A start leaves nothing pending, so the theorem speaks of every start. */
  lemma StartLeavesNothingPending(c: Config, i: Inst, accion: Accion, pid: nat)
    requires Enciende(i, accion)
    ensures AplicarAccion(c, i, accion, pid).0.pendiente == map[] && AplicarAccion(c, i, accion, pid).0.estado.Running?
  {
  }

  /** A VM of 2048 is edited to 4096 while it runs, stopped, edited to 1024, and started: it has 4096. */
  lemma EditIsUndoneByStart(c: Config, i: Inst, pid: nat)
    requires i.tipo.Qemu? && i.estado.Running? && i.pendiente == map[] && i.memoriaMB == 2048
    requires c.sscan("4096") == Some(4096) && c.sscan("1024") == Some(1024)
    ensures var apagada := Apagada(Editada(c, i, map["memory" := "4096"], i.nombre));
      var editada := Editada(c, apagada, map["memory" := "1024"], i.nombre);
      editada.memoriaMB == 1024 && AplicarAccion(c, editada, Start, pid).0.memoriaMB == 4096
  {
    assert "memory" in DEFERRED;
  }
}
