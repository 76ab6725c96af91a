/**
  The simulator object (simulador.go, tareas.go): the maps of instances and
  tasks, and the PID counter, which its methods update.  Go walks its maps in
  any order, and so do the loops here.  The methods are proved against
  `SimModel`, where the invariants live.
 */
module SimuladorClass {
  import opened Wrappers
  import opened SnapshotTree
  import opened SimModel
  import opened SimInvariant
  import opened SimOrder
  import opened SimInstanceClass

  class Simulador {
    var instancias: map<Vmid, Inst>
    var tareas: map<TaskId, Tarea>
    var proximoPID: nat

    function View(): Sim
      reads this
    {
      Sim(instancias, tareas, proximoPID)
    }

    /** NuevoSimulador */
    constructor (inventario: map<Vmid, Inst>)
      requires forall v :: v in inventario ==> InstOk(inventario[v]) && inventario[v].lock == ""
      ensures Initial(View()) && View().instancias == inventario
    {
      instancias, tareas, proximoPID := inventario, map[], 540000;
    }

    /** tareaActiva */
    method TareaActiva(vmid: Vmid) returns (activa: bool)
      ensures activa <==> exists id :: Unfinished(View(), id) && tareas[id].vmid == vmid
    {
      var porVer := tareas.Keys;
      while porVer != {}
        invariant porVer <= tareas.Keys
        invariant forall id :: id in tareas.Keys - porVer ==> tareas[id].vmid != vmid || tareas[id].Terminada()
        decreases porVer
      {
        var id :| id in porVer;
        if tareas[id].vmid == vmid && !tareas[id].Terminada() {
          assert Unfinished(View(), id);
          return true;
        }
        porVer := porVer - {id};
      }
      activa := false;
    }

    /** verificarLibre: nothing when the instance is free, the refusal otherwise. */
    method VerificarLibre(vmid: Vmid) returns (r: Option<Respuesta>)
      requires vmid in instancias
      ensures r == Impedimento(View(), vmid)
    {
      if instancias[vmid].lock != "" { return Some(Bloqueada); }
      var activa := TareaActiva(vmid);
      r := if activa then Some(Ocupada) else None;
    }

    /** siguienteID: the least free VMID from 100 on. */
    method SiguienteID() returns (vmid: Vmid)
      ensures vmid >= 100 && vmid !in instancias
      ensures forall v :: 100 <= v < vmid ==> v in instancias
    {
      vmid := 100;
      ghost var vistos: set<Vmid> := {};
      while vmid in instancias
        invariant vmid >= 100 && (forall v :: 100 <= v < vmid ==> v in instancias)
        invariant vistos <= instancias.Keys && forall v :: v in vistos ==> v < vmid
        decreases instancias.Keys - vistos
      {
        vistos := vistos + {vmid};
        vmid := vmid + 1;
      }
    }

    /** crearTarea: the task is registered, and a pass follows at once when tasks take no time. */
    method CrearTarea(c: Config, ahora: int, vmid: Vmid, lock: string, efecto: Efecto) returns (id: TaskId, ghost despues: seq<TaskId>)
      requires vmid in instancias && Inv(SimModel.CrearTarea(c, View(), ahora, vmid, lock, efecto))
      modifies this
      ensures Enseguida(c, SimModel.CrearTarea(c, old(View()), ahora, vmid, lock, efecto), ahora, despues, View())
      ensures id == old(proximoPID) + 17
    {
      hide Inv, Pass, PassOver;
      ghost var s1 := SimModel.CrearTarea(c, View(), ahora, vmid, lock, efecto);
      id := RegistrarTarea(c, ahora, vmid, lock, efecto);
      assert View() == s1;
      despues := [];
      if c.duracion == 0 { despues := FinalizarTareas(c, ahora); }
    }

    method RegistrarTarea(c: Config, ahora: int, vmid: Vmid, lock: string, efecto: Efecto) returns (id: TaskId)
      requires vmid in instancias
      modifies this
      ensures View() == SimModel.CrearTarea(c, old(View()), ahora, vmid, lock, efecto) && id == old(proximoPID) + 17
    {
      proximoPID := proximoPID + 17;
      id := proximoPID;
      tareas := tareas[id := Tarea(vmid, ahora + c.duracion, efecto, EnCurso)];
      if lock != "" {
        instancias := instancias[vmid := instancias[vmid].(lock := lock)];
      }
    }

    /** One iteration of finalizarTareas: run the effect, keep its result, and drop the lock if nothing else runs. */
    method TerminarTarea(c: Config, id: TaskId)
      requires id in tareas && tareas[id].vmid in instancias
      modifies this
      ensures View() == Terminar(c, old(View()), id)
    {
      hide Efectuar, Enciende;
      var t := tareas[id];
      var pid := proximoPID + 13;
      var i := instancias[t.vmid];
      var (j, r) := Efectuar(c, i, t.efecto, pid);
      if t.efecto.Energia? && Enciende(i, t.efecto.accion) { proximoPID := pid; }
      if t.efecto.Destruir? {
        instancias := instancias - {t.vmid};
      } else {
        instancias := instancias[t.vmid := j];
      }
      tareas := tareas[id := t.(resultado := r)];
      if t.vmid in instancias {
        var activa := TareaActiva(t.vmid);
        if !activa { instancias := instancias[t.vmid := j.(lock := "")]; }
      }
    }

    /** finalizarTareas: one pass over the tasks, in any order, that ends the due ones. */
    method FinalizarTareas(c: Config, ahora: int) returns (ghost orden: seq<TaskId>)
      requires Inv(View())
      modifies this
      ensures PassOver(old(View()), ahora, orden) && View() == Pass(c, old(View()), orden)
      ensures Inv(View()) && forall id :: !Due(World(View(), ahora), id)
      ensures tareas.Keys == old(tareas).Keys
      ensures forall id :: id in tareas && old(tareas)[id].resultado == EnCurso ==> (tareas[id].resultado == EnCurso <==> ahora < old(tareas)[id].fin)
    {
      ghost var antes := View();
      orden := [];
      var porVer := tareas.Keys;
      while porVer != {}
        invariant porVer <= tareas.Keys == antes.tareas.Keys
        invariant PassSoFar(antes, ahora, orden, porVer) && View() == Pass(c, antes, orden) && Inv(View())
        decreases porVer
      {
        var id :| id in porVer;
        PassKeepsTasks(c, antes, orden);
        PassEndsItsTasks(c, antes, orden);
        if !tareas[id].Terminada() && ahora >= tareas[id].fin {
          PassSnoc(c, antes, orden, id);
          TerminarKeepsInv(c, View(), id);
          TerminarTarea(c, id);
          orden := orden + [id];
        }
        porVer := porVer - {id};
      }
      PassKeepsTasks(c, antes, orden);
      PassEndsItsTasks(c, antes, orden);
      forall id | id in tareas && antes.tareas[id].resultado == EnCurso
        ensures tareas[id].resultado == EnCurso <==> ahora < antes.tareas[id].fin
      {
        PassOnTasks(c, antes, ahora, orden, id);
      }
    }

    // ---------- Requests ----------

    /** buscarInstancia, which ends the due tasks first, and verificarLibre. */
    method BuscarLibre(c: Config, ahora: int, vmid: Vmid, tipo: Tipo) returns (rechazo: Option<Respuesta>, ghost orden: seq<TaskId>)
      requires Inv(View())
      modifies this
      ensures PassOver(old(View()), ahora, orden) && Order(old(View()), orden) && View() == Pass(c, old(View()), orden)
      ensures Inv(View())
      ensures rechazo == if Existe(View(), vmid, tipo) then Impedimento(View(), vmid) else Some(NoExiste)
    {
      orden := FinalizarTareas(c, ahora);
      if vmid !in instancias || instancias[vmid].tipo != tipo { return Some(NoExiste), orden; }
      rechazo := VerificarLibre(vmid);
    }

    method AccionEstado(c: Config, ahora: int, vmid: Vmid, tipo: Tipo, accion: Accion)
      returns (r: Respuesta, ghost orden: seq<TaskId>, ghost despues: seq<TaskId>)
      requires Inv(View())
      modifies this
      ensures Attended(c, old(View()), ahora, Accionar(vmid, tipo, accion), orden, despues, View(), r)
    {
      hide Pass, PassOver, Order, Inv, Activa, SimModel.CrearTarea;
      orden, despues := [], [];
      NothingPasses(c, View());
      if tipo.Lxc? && accion.Reset? { return NoImplementado, orden, despues; }
      var rechazo;
      rechazo, orden := BuscarLibre(c, ahora, vmid, tipo);
      if rechazo.Some? { return rechazo.value, orden, despues; }
      RequestKeepsInv(c, View(), ahora, Accionar(vmid, tipo, accion));
      var id;
      id, despues := CrearTarea(c, ahora, vmid, "", Energia(accion));
      r := Aceptada(id);
    }

    method CrearInstancia(c: Config, ahora: int, p: Pedido) returns (r: Respuesta, ghost orden: seq<TaskId>, ghost despues: seq<TaskId>)
      requires Inv(View()) && p.Crear?
      modifies this
      ensures Attended(c, old(View()), ahora, p, orden, despues, View(), r)
    {
      orden, despues := [], [];
      if !p.valido { return ParametrosInvalidos, orden, despues; }
      orden := FinalizarTareas(c, ahora);
      if p.vmid in instancias { return YaExiste, orden, despues; }
      RequestKeepsInv(c, View(), ahora, p);
      instancias := instancias[p.vmid := NuevaInst(p)];
      var id;
      id, despues := CrearTarea(c, ahora, p.vmid, "create", Creacion);
      r := Aceptada(id);
    }

    /** editarConfig: what Proxmox does not let change is refused, the rest is set or deferred. */
    method EditarConfig(c: Config, ahora: int, vmid: Vmid, tipo: Tipo, params: map<string, string>)
      returns (r: Respuesta, ghost orden: seq<TaskId>, ghost elegido: string)
      requires Inv(View())
      modifies this
      ensures Attended(c, old(View()), ahora, Pedido.Editar(vmid, tipo, params, elegido), orden, [], View(), r)
      ensures r.Hecho? ==> NombreElegido(Pass(c, old(View()), orden), Pedido.Editar(vmid, tipo, params, elegido))
    {
      elegido := "";
      orden := FinalizarTareas(c, ahora);
      hide Pass, PassOver, Inv, Editada, EdicionValida;
      if vmid !in instancias || instancias[vmid].tipo != tipo { return NoExiste, orden, elegido; }
      var i := instancias[vmid];
      if i.lock != "" { return Bloqueada, orden, elegido; }
      if "digest" in params && params["digest"] != "" && params["digest"] != c.huella(i) { return ConfigCambiada, orden, elegido; }
      if !EdicionValida(c, tipo, params) { return ParametrosInvalidos, orden, elegido; }
      var j;
      j, elegido := EditarValores(c, i, params);
      instancias := instancias[vmid := j];
      r := Hecho;
    }

    method CrearSnapshot(c: Config, ahora: int, vmid: Vmid, tipo: Tipo, nombre: string)
      returns (r: Respuesta, ghost orden: seq<TaskId>, ghost despues: seq<TaskId>)
      requires Inv(View())
      modifies this
      ensures Attended(c, old(View()), ahora, Pedido.CrearSnapshot(vmid, tipo, nombre), orden, despues, View(), r)
    {
      orden, despues := [], [];
      if nombre == "current" || !NombreValido(nombre) { return ParametrosInvalidos, orden, despues; }
      hide Pass, PassOver, Order, Inv, Activa;
      var rechazo;
      rechazo, orden := BuscarLibre(c, ahora, vmid, tipo);
      if rechazo.Some? { return rechazo.value, orden, despues; }
      var i := instancias[vmid];
      if FindSnap(i.snaps, nombre).Some? { return NombreUsado, orden, despues; }
      RequestKeepsInv(c, View(), ahora, Pedido.CrearSnapshot(vmid, tipo, nombre));
      var id;
      id, despues := CrearTarea(c, ahora, vmid, "snapshot", Tomar(Snap(nombre, i.actual, i.cores, i.memoriaMB)));
      r := Aceptada(id);
    }

    method RollbackSnapshot(c: Config, ahora: int, vmid: Vmid, tipo: Tipo, nombre: string)
      returns (r: Respuesta, ghost orden: seq<TaskId>, ghost despues: seq<TaskId>)
      requires Inv(View())
      modifies this
      ensures Attended(c, old(View()), ahora, RevertirSnapshot(vmid, tipo, nombre), orden, despues, View(), r)
    {
      despues := [];
      hide Pass, PassOver, Order, Inv, Activa;
      var rechazo;
      rechazo, orden := BuscarLibre(c, ahora, vmid, tipo);
      if rechazo.Some? { return rechazo.value, orden, despues; }
      var snap := FindSnap(instancias[vmid].snaps, nombre);
      if snap.None? { return SnapshotInexistente, orden, despues; }
      RequestKeepsInv(c, View(), ahora, RevertirSnapshot(vmid, tipo, nombre));
      var id;
      id, despues := CrearTarea(c, ahora, vmid, "rollback", Revertir(snap.value));
      r := Aceptada(id);
    }

    method BorrarSnapshot(c: Config, ahora: int, vmid: Vmid, tipo: Tipo, nombre: string)
      returns (r: Respuesta, ghost orden: seq<TaskId>, ghost despues: seq<TaskId>)
      requires Inv(View())
      modifies this
      ensures Attended(c, old(View()), ahora, Pedido.BorrarSnapshot(vmid, tipo, nombre), orden, despues, View(), r)
    {
      despues := [];
      hide Pass, PassOver, Order, Inv, Activa;
      var rechazo;
      rechazo, orden := BuscarLibre(c, ahora, vmid, tipo);
      if rechazo.Some? { return rechazo.value, orden, despues; }
      if FindSnap(instancias[vmid].snaps, nombre).None? { return SnapshotInexistente, orden, despues; }
      RequestKeepsInv(c, View(), ahora, Pedido.BorrarSnapshot(vmid, tipo, nombre));
      var id;
      id, despues := CrearTarea(c, ahora, vmid, "snapshot-delete", BorrarSnap(nombre));
      r := Aceptada(id);
    }

    method BorrarInstancia(c: Config, ahora: int, vmid: Vmid, tipo: Tipo, purge: bool)
      returns (r: Respuesta, ghost orden: seq<TaskId>, ghost despues: seq<TaskId>)
      requires Inv(View())
      modifies this
      ensures Attended(c, old(View()), ahora, Borrar(vmid, tipo, purge), orden, despues, View(), r)
    {
      despues := [];
      hide Pass, PassOver, Order, Inv, Activa;
      var rechazo;
      rechazo, orden := BuscarLibre(c, ahora, vmid, tipo);
      if rechazo.Some? { return rechazo.value, orden, despues; }
      if instancias[vmid].estado.Running? { return Encendida, orden, despues; }
      if c.purgaHA && instancias[vmid].ha && !purge { return EnHA, orden, despues; }
      RequestKeepsInv(c, View(), ahora, Borrar(vmid, tipo, purge));
      var id;
      id, despues := CrearTarea(c, ahora, vmid, "destroyed", Destruir);
      r := Aceptada(id);
    }
  }

  /** The loop of editarConfig on an instance kept as a value. */
  method EditarValores(c: Config, i: Inst, params: map<string, string>) returns (j: Inst, elegido: string)
    ensures NameAfter(params - {"digest"}, i.nombre, elegido)
    ensures j == Editada(c, i, params, elegido)
  {
    ghost var m := params - {"digest"};
    ghost var hecho: map<string, string> := map[];
    var porAplicar := params.Keys - {"digest"};
    EditNothing(c, i);
    j, elegido := i, i.nombre;
    while porAplicar != {}
      invariant Partial(m, hecho, porAplicar) && NameAfter(hecho, i.nombre, elegido)
      invariant j == Editada(c, i, hecho, elegido)
      decreases porAplicar
    {
      var key :| key in porAplicar;
      EditStep(c, i, m, hecho, porAplicar, elegido, key);
      j := EditOne(c, j, key, params[key]);
      hecho := hecho[key := m[key]];
      if key in NAMES { elegido := params[key]; }
      porAplicar := porAplicar - {key};
    }
    PartialEnd(m, hecho);
    assert m - {"digest"} == m;
  }

  lemma NothingPasses(c: Config, s: Sim)
    ensures Order(s, []) && Pass(c, s, []) == s
  {
  }

  /** The order covers exactly the tasks that were due. */
  ghost predicate PassOver(s: Sim, ahora: int, orden: seq<TaskId>) {
    Order(s, orden) && forall id :: id in orden <==> Due(World(s, ahora), id)
  }

  /** The end of its tasks is all that a pass does to the map of tasks. */
  lemma PassOnTasks(c: Config, s: Sim, ahora: int, orden: seq<TaskId>, id: TaskId)
    requires Inv(s) && PassOver(s, ahora, orden) && id in s.tareas && s.tareas[id].resultado == EnCurso
    requires Pass(c, s, orden).tareas.Keys == s.tareas.Keys
    ensures Pass(c, s, orden).tareas[id].resultado == EnCurso <==> ahora < s.tareas[id].fin
  {
    hide Pass, Inv;
    PassEndsItsTasks(c, s, orden);
    assert Unfinished(s, id);
    assert Unfinished(Pass(c, s, orden), id) <==> id !in orden;
  }

  /** The due tasks end first, then the request is attended; a malformed request is refused before that. */
  ghost predicate Attended(c: Config, s: Sim, ahora: int, p: Pedido, orden: seq<TaskId>, despues: seq<TaskId>, s': Sim, r: Respuesta) {
    && Order(s, orden)
    && (PassOver(s, ahora, orden) || (orden == [] && r in {NoImplementado, ParametrosInvalidos}))
    && var (s1, r1) := Atender(c, Pass(c, s, orden), ahora, p);
      r == r1 && if r.Aceptada? then Enseguida(c, s1, ahora, despues, s') else despues == [] && s' == s1
  }

  /** What follows a new task at once: a pass over the due tasks, if tasks take no time. */
  ghost predicate Enseguida(c: Config, s: Sim, ahora: int, despues: seq<TaskId>, s': Sim) {
    if c.duracion == 0 then PassOver(s, ahora, despues) && s' == Pass(c, s, despues) else despues == [] && s' == s
  }

  ghost predicate PassSoFar(s: Sim, ahora: int, orden: seq<TaskId>, porVer: set<TaskId>) {
    Order(s, orden) && forall id :: id in orden <==> Due(World(s, ahora), id) && id !in porVer
  }

  /** Finishing a task changes nothing of any task but its result. */
  lemma {:induction false} PassKeepsTasks(c: Config, s: Sim, orden: seq<TaskId>)
    requires Inv(s) && Order(s, orden)
    ensures Pass(c, s, orden).tareas.Keys == s.tareas.Keys
    ensures forall id :: id in s.tareas ==> Pass(c, s, orden).tareas[id].(resultado := OK) == s.tareas[id].(resultado := OK)
    decreases |orden|
  {
    if orden != [] {
      OrderTail(c, s, orden);
      TerminarFrees(c, s, orden[0]);
      PassKeepsTasks(c, Terminar(c, s, orden[0]), orden[1..]);
    }
  }

  lemma {:induction false} PassSnoc(c: Config, s: Sim, orden: seq<TaskId>, id: TaskId)
    requires Inv(s) && Order(s, orden) && Unfinished(s, id) && id !in orden
    ensures Order(s, orden + [id]) && Unfinished(Pass(c, s, orden), id)
    ensures Pass(c, s, orden + [id]) == Terminar(c, Pass(c, s, orden), id)
    decreases |orden|
  {
    var mas := orden + [id];
    PassEndsItsTasks(c, s, orden);
    if orden != [] {
      OrderTail(c, s, orden);
      PassSnoc(c, Terminar(c, s, orden[0]), orden[1..], id);
      assert mas[1..] == orden[1..] + [id];
    }
  }
}
