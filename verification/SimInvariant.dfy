/**
  What every reachable state of the simulator satisfies: one unfinished task per
  VMID, locks only while such a task runs, well-formed snapshot trees, and
  pending effects that still fit their instance.
 */
module SimInvariant {
  import opened Wrappers
  import opened SnapshotTree
  import opened SimModel

  ghost predicate InstOk(i: Inst) {
    && TreeOk(i.snaps, i.actual)
    && i.pendiente.Keys <= DEFERRED
    && !i.estado.Paused?
  }

  /** The effect of an unfinished task still makes sense for its instance. */
  ghost predicate Fits(i: Inst, e: Efecto) {
    match e
    case Tomar(snap) => snap.nombre != "" && !Names(i.snaps, snap.nombre) && snap.padre == i.actual
    case Revertir(snap) => snap.nombre != "" && exists k :: 0 <= k < |i.snaps| && SameSaved(i.snaps[k], snap)
    case BorrarSnap(n) => n != "" && Names(i.snaps, n)
    case _ => true
  }

  /** A snapshot may be re-parented, but its name and saved configuration are fixed. */
  predicate SameSaved(a: Snap, b: Snap) {
    a.nombre == b.nombre && a.cores == b.cores && a.memoriaMB == b.memoriaMB
  }

  ghost predicate Unfinished(s: Sim, id: TaskId) {
    id in s.tareas && !s.tareas[id].Terminada()
  }

  ghost predicate Inv(s: Sim) {
    && (forall a, b :: Unfinished(s, a) && Unfinished(s, b) && s.tareas[a].vmid == s.tareas[b].vmid ==> a == b)
    && (forall a :: Unfinished(s, a) ==> s.tareas[a].vmid in s.instancias && Fits(s.instancias[s.tareas[a].vmid], s.tareas[a].efecto))
    && (forall v :: v in s.instancias && s.instancias[v].lock != "" ==> Activa(s, v))
    && (forall v :: v in s.instancias ==> InstOk(s.instancias[v]))
    && (forall id :: id in s.tareas ==> id <= s.proximoPID)
  }

  /** The inventory a simulator starts with: no task, no lock, nothing pending. */
  ghost predicate Initial(s: Sim) {
    && s.tareas == map[]
    && forall v :: v in s.instancias ==> InstOk(s.instancias[v]) && s.instancias[v].lock == ""
  }

  // ---------- Finishing a task ----------

  lemma EffectKeepsInstOk(c: Config, i: Inst, e: Efecto, pid: nat)
    requires InstOk(i) && Fits(i, e)
    ensures InstOk(Efectuar(c, i, e, pid).0)
  {
    match e {
      case Tomar(snap) => TakeKeepsTree(i.snaps, i.actual, snap);
      case BorrarSnap(n) => DeleteKeepsTree(i.snaps, i.actual, n);
      case _ =>
    }
  }

  /** Finishing a task ends that task only, and frees its VMID. */
  lemma TerminarFrees(c: Config, s: Sim, id: TaskId)
    requires Inv(s) && Unfinished(s, id)
    ensures var s' := Terminar(c, s, id);
      && s'.tareas.Keys == s.tareas.Keys && s'.proximoPID >= s.proximoPID
      && (forall a :: a in s.tareas && a != id ==> s'.tareas[a] == s.tareas[a])
      && s'.tareas[id].Terminada() && s'.tareas[id].vmid == s.tareas[id].vmid
      && !Activa(s', s.tareas[id].vmid)
      && s'.instancias == TrasEfecto(s.instancias, s.tareas[id],
           Efectuar(c, s.instancias[s.tareas[id].vmid], s.tareas[id].efecto, s.proximoPID + 13).0, false)
  {
    var t, s' := s.tareas[id], Terminar(c, s, id);
    assert !Activa(s.(tareas := s'.tareas), t.vmid);
  }

  lemma TerminarKeepsInv(c: Config, s: Sim, id: TaskId)
    requires Inv(s) && Unfinished(s, id)
    ensures Inv(Terminar(c, s, id))
    ensures forall a :: Unfinished(Terminar(c, s, id), a) <==> Unfinished(s, a) && a != id
  {
    hide Terminar, Efectuar, TreeOk, Fits, Activa;
    var t, s' := s.tareas[id], Terminar(c, s, id);
    TerminarFrees(c, s, id);
    EffectKeepsInstOk(c, s.instancias[t.vmid], t.efecto, s.proximoPID + 13);
    forall a | Unfinished(s', a)
      ensures s'.tareas[a].vmid in s'.instancias && s'.tareas[a].vmid != t.vmid
    {
      assert Unfinished(s, a);
    }
    forall v | v in s'.instancias && s'.instancias[v].lock != ""
      ensures Activa(s', v)
    {
      OtherLocksStay(c, s, id, v);
    }
  }

  lemma OtherLocksStay(c: Config, s: Sim, id: TaskId, v: Vmid)
    requires Inv(s) && Unfinished(s, id) && v in Terminar(c, s, id).instancias && Terminar(c, s, id).instancias[v].lock != ""
    ensures Activa(Terminar(c, s, id), v)
  {
    var t, s' := s.tareas[id], Terminar(c, s, id);
    TerminarFrees(c, s, id);
    assert v != t.vmid && s'.instancias[v] == s.instancias[v];
    var a :| a in s.tareas && s.tareas[a].vmid == v && !s.tareas[a].Terminada();
    assert s'.tareas[a] == s.tareas[a];
  }

  // ---------- Requests ----------

  lemma {:induction false} FindSnapNames(snaps: seq<Snap>, nombre: string)
    ensures FindSnap(snaps, nombre).Some? <==> Names(snaps, nombre)
    ensures FindSnap(snaps, nombre).Some? ==>
      FindSnap(snaps, nombre).value in snaps && FindSnap(snaps, nombre).value.nombre == nombre
  {
    if snaps != [] && snaps[0].nombre != nombre {
      FindSnapNames(snaps[1..], nombre);
      if i :| 0 <= i < |snaps| && snaps[i].nombre == nombre {
        assert snaps[1..][i - 1] == snaps[i];
      }
      if i :| 0 <= i < |snaps[1..]| && snaps[1..][i].nombre == nombre {
        assert snaps[i + 1] == snaps[1..][i];
      }
    }
  }

  /** A task may be started on any free instance, with an effect that fits it. */
  lemma CrearTareaKeepsInv(c: Config, s: Sim, ahora: int, vmid: Vmid, lock: string, e: Efecto)
    requires Inv(s) && vmid in s.instancias && !Activa(s, vmid) && Fits(s.instancias[vmid], e)
    ensures Inv(CrearTarea(c, s, ahora, vmid, lock, e))
  {
    var s' := CrearTarea(c, s, ahora, vmid, lock, e);
    var pid := s'.proximoPID;
    forall a | Unfinished(s', a)
      ensures a == pid || (Unfinished(s, a) && s.tareas[a].vmid != vmid)
    {
    }
    forall v | v in s'.instancias && s'.instancias[v].lock != ""
      ensures Activa(s', v)
    {
      if v == vmid {
        assert s'.tareas[pid].vmid == v;
      } else {
        var a :| a in s.tareas && s.tareas[a].vmid == v && !s.tareas[a].Terminada();
        assert s'.tareas[a] == s.tareas[a];
      }
    }
  }

  /** Changing an instance that keeps its tree, or adding one, disturbs no task of others. */
  lemma UpdateKeepsInv(s: Sim, vmid: Vmid, i: Inst)
    requires Inv(s) && InstOk(i) && i.lock == ""
    requires vmid in s.instancias ==> s.instancias[vmid].snaps == i.snaps && s.instancias[vmid].actual == i.actual
    ensures Inv(s.(instancias := s.instancias[vmid := i]))
  {
    var s' := s.(instancias := s.instancias[vmid := i]);
    forall v | v in s'.instancias && s'.instancias[v].lock != ""
      ensures Activa(s', v)
    {
      var a :| a in s.tareas && s.tareas[a].vmid == v && !s.tareas[a].Terminada();
      assert s'.tareas[a] == s.tareas[a];
    }
    forall a | Unfinished(s', a) && s.tareas[a].vmid == vmid
      ensures Fits(i, s.tareas[a].efecto)
    {
      assert Unfinished(s, a);
    }
  }

  ghost predicate NombreElegido(s: Sim, p: Pedido) {
    p.Editar? && p.vmid in s.instancias ==> NameAfter(p.params - {"digest"}, s.instancias[p.vmid].nombre, p.nombre)
  }

  lemma CreateKeepsInv(c: Config, s: Sim, ahora: int, p: Pedido)
    requires Inv(s) && p.Crear?
    ensures Inv(Atender(c, s, ahora, p).0)
  {
    if p.valido && p.vmid !in s.instancias {
      var i := NuevaInst(p);
      var s1 := s.(instancias := s.instancias[p.vmid := i]);
      UpdateKeepsInv(s, p.vmid, i);
      assert !Activa(s1, p.vmid);
      CrearTareaKeepsInv(c, s1, ahora, p.vmid, "create", Creacion);
    }
  }

  lemma RequestKeepsInv(c: Config, s: Sim, ahora: int, p: Pedido)
    requires Inv(s)
    ensures Inv(Atender(c, s, ahora, p).0)
  {
    if p.Crear? {
      CreateKeepsInv(c, s, ahora, p);
    } else if Existe(s, p.vmid, p.tipo) {
      match p {
        case Editar(v, _, params, nombre) =>
          if Atender(c, s, ahora, p).1.Hecho? {
            UpdateKeepsInv(s, v, Editada(c, s.instancias[v], params, nombre));
          }
        case _ =>
          if Atender(c, s, ahora, p).1.Aceptada? {
            DispatchFits(c, s, p);
            CrearTareaKeepsInv(c, s, ahora, p.vmid, LockDe(p), EfectoDe(s, p));
          }
      }
    }
  }

  /** The lock and the effect of the task that a request starts. */
  function LockDe(p: Pedido): string {
    match p
    case Crear(_, _, _, _, _, _, _, _) => "create"
    case Accionar(_, _, _) => ""
    case CrearSnapshot(_, _, _) => "snapshot"
    case RevertirSnapshot(_, _, _) => "rollback"
    case BorrarSnapshot(_, _, _) => "snapshot-delete"
    case Borrar(_, _, _) => "destroyed"
    case Editar(_, _, _, _) => ""
  }

  function EfectoDe(s: Sim, p: Pedido): Efecto {
    match p
    case Accionar(_, _, accion) => Energia(accion)
    case CrearSnapshot(v, _, nombre) =>
      if v in s.instancias then Tomar(Snap(nombre, s.instancias[v].actual, s.instancias[v].cores, s.instancias[v].memoriaMB)) else Creacion
    case RevertirSnapshot(v, _, nombre) =>
      if v in s.instancias && FindSnap(s.instancias[v].snaps, nombre).Some? then Revertir(FindSnap(s.instancias[v].snaps, nombre).value)
      else Creacion
    case BorrarSnapshot(_, _, nombre) => BorrarSnap(nombre)
    case Borrar(_, _, _) => Destruir
    case _ => Creacion
  }

  lemma DispatchFits(c: Config, s: Sim, p: Pedido)
    requires Inv(s) && !p.Crear? && !p.Editar? && Atender(c, s, 0, p).1.Aceptada?
    ensures p.vmid in s.instancias && Fits(s.instancias[p.vmid], EfectoDe(s, p))
  {
    var i := s.instancias[p.vmid];
    match p {
      case CrearSnapshot(_, _, nombre) => FindSnapNames(i.snaps, nombre);
      case RevertirSnapshot(_, _, nombre) =>
        FindSnapNames(i.snaps, nombre);
        var snap := FindSnap(i.snaps, nombre).value;
        var k :| 0 <= k < |i.snaps| && i.snaps[k] == snap;
        assert SameSaved(i.snaps[k], snap) && snap.nombre != "";
      case BorrarSnapshot(_, _, nombre) =>
        FindSnapNames(i.snaps, nombre);
        var k :| 0 <= k < |i.snaps| && i.snaps[k].nombre == nombre;
      case _ =>
    }
  }

  /** A request that is refused leaves everything as it was. */
  lemma RefusalChangesNothing(c: Config, s: Sim, ahora: int, p: Pedido)
    requires !Atender(c, s, ahora, p).1.Aceptada? && !Atender(c, s, ahora, p).1.Hecho?
    ensures Atender(c, s, ahora, p).0 == s
  {
  }

  /** A task is accepted only for a VMID without one, and then it is the only one of that VMID. */
  lemma AcceptedOnlyWhenIdle(c: Config, s: Sim, ahora: int, p: Pedido)
    requires Inv(s) && Atender(c, s, ahora, p).1.Aceptada?
    ensures !Activa(s, p.vmid)
    ensures var (s', r) := Atender(c, s, ahora, p);
      forall id :: Unfinished(s', id) && s'.tareas[id].vmid == p.vmid <==> id == r.tarea
  {
    var (s', r) := Atender(c, s, ahora, p);
    forall id | Unfinished(s', id) && s'.tareas[id].vmid == p.vmid
      ensures id == r.tarea
    {
      assert id == r.tarea || Unfinished(s, id);
    }
  }

  // ---------- Runs ----------

  datatype World = World(sim: Sim, reloj: int)

  datatype Paso = Avanzar(dt: nat) | Finalizar(id: TaskId) | Pedir(p: Pedido)

  predicate Due(w: World, id: TaskId) {
    id in w.sim.tareas && !w.sim.tareas[id].Terminada() && w.sim.tareas[id].fin <= w.reloj
  }

  /** Every request finishes the due tasks first. */
  ghost predicate Enabled(w: World, p: Paso) {
    match p
    case Avanzar(_) => true
    case Finalizar(id) => Due(w, id)
    case Pedir(q) => (forall id :: !Due(w, id)) && NombreElegido(w.sim, q)
  }

  ghost function Step(c: Config, w: World, p: Paso): World
    requires Enabled(w, p)
  {
    match p
    case Avanzar(dt) => w.(reloj := w.reloj + dt)
    case Finalizar(id) => w.(sim := Terminar(c, w.sim, id))
    case Pedir(q) => w.(sim := Atender(c, w.sim, w.reloj, q).0)
  }

  lemma StepKeepsInv(c: Config, w: World, p: Paso)
    requires Inv(w.sim) && Enabled(w, p)
    ensures Inv(Step(c, w, p).sim)
  {
    match p {
      case Avanzar(_) =>
      case Finalizar(id) =>
        assert Unfinished(w.sim, id);
        TerminarKeepsInv(c, w.sim, id);
      case Pedir(q) => RequestKeepsInv(c, w.sim, w.reloj, q);
    }
  }

  ghost predicate Runs(c: Config, w: World, pasos: seq<Paso>)
    decreases |pasos|
  {
    pasos != [] ==> Enabled(w, pasos[0]) && Runs(c, Step(c, w, pasos[0]), pasos[1..])
  }

  ghost function Exec(c: Config, w: World, pasos: seq<Paso>): World
    requires Runs(c, w, pasos)
    decreases |pasos|
  {
    if pasos == [] then w else Exec(c, Step(c, w, pasos[0]), pasos[1..])
  }

  /**
    Every state the simulator reaches from an initial inventory: at most one
    unfinished task per VMID, its instance present, locks only with such a task,
    and every snapshot list a tree.
   */
  lemma {:induction false} EveryRunKeepsInv(c: Config, w: World, pasos: seq<Paso>)
    requires Inv(w.sim) && Runs(c, w, pasos)
    ensures Inv(Exec(c, w, pasos).sim)
    decreases |pasos|
  {
    if pasos != [] {
      StepKeepsInv(c, w, pasos[0]);
      EveryRunKeepsInv(c, Step(c, w, pasos[0]), pasos[1..]);
    }
  }

  lemma InitialIsGood(s: Sim)
    requires Initial(s)
    ensures Inv(s)
  {
  }

  /** From any initial inventory, however the requests, the passes and the clock go. */
  lemma ReachableIsGood(c: Config, s: Sim, reloj: int, pasos: seq<Paso>)
    requires Initial(s) && Runs(c, World(s, reloj), pasos)
    ensures Inv(Exec(c, World(s, reloj), pasos).sim)
  {
    InitialIsGood(s);
    EveryRunKeepsInv(c, World(s, reloj), pasos);
  }

  /** Once the clock has passed every end and the pass is over, nothing runs and nothing is locked. */
  lemma NothingLeftLocked(w: World)
    requires Inv(w.sim) && (forall id :: !Due(w, id))
    requires forall id :: id in w.sim.tareas ==> w.sim.tareas[id].fin <= w.reloj
    ensures forall id :: !Unfinished(w.sim, id)
    ensures forall v :: v in w.sim.instancias ==> w.sim.instancias[v].lock == ""
  {
    forall id ensures !Unfinished(w.sim, id) {
      assert !Due(w, id);
    }
    forall v | v in w.sim.instancias ensures w.sim.instancias[v].lock == "" {
      if w.sim.instancias[v].lock != "" {
        var a :| a in w.sim.tareas && w.sim.tareas[a].vmid == v && !w.sim.tareas[a].Terminada();
        assert Unfinished(w.sim, a);
      }
    }
  }
}
