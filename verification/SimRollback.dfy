/** What a rollback restores, whatever happened since the snapshot was requested. */
module SimRollback {
  import opened Wrappers
  import opened SnapshotTree
  import opened SimModel
  import opened SimInvariant

  predicate Saves(snap: Snap, nombre: string, cores: int, memoriaMB: int) {
    snap.nombre == nombre && snap.cores == cores && snap.memoriaMB == memoriaMB
  }

  ghost predicate Stored(i: Inst, nombre: string, cores: int, memoriaMB: int) {
    exists k :: 0 <= k < |i.snaps| && Saves(i.snaps[k], nombre, cores, memoriaMB)
  }

  ghost predicate BeingTaken(s: Sim, v: Vmid, nombre: string, cores: int, memoriaMB: int) {
    exists id :: Unfinished(s, id) && s.tareas[id].vmid == v && s.tareas[id].efecto.Tomar?
      && Saves(s.tareas[id].efecto.snap, nombre, cores, memoriaMB)
  }

  /** The snapshot exists, or the task that takes it is still running. */
  ghost predicate Remembers(s: Sim, v: Vmid, nombre: string, cores: int, memoriaMB: int) {
    v in s.instancias && (Stored(s.instancias[v], nombre, cores, memoriaMB) || BeingTaken(s, v, nombre, cores, memoriaMB))
  }

  /** The step deletes neither the instance nor this snapshot of it. */
  ghost predicate Spares(w: World, p: Paso, v: Vmid, nombre: string) {
    p.Finalizar? && p.id in w.sim.tareas && w.sim.tareas[p.id].vmid == v ==>
      !w.sim.tareas[p.id].efecto.Destruir? && w.sim.tareas[p.id].efecto != BorrarSnap(nombre)
  }

  ghost predicate AllSpare(c: Config, w: World, pasos: seq<Paso>, v: Vmid, nombre: string)
    requires Runs(c, w, pasos)
    decreases |pasos|
  {
    pasos != [] ==> Spares(w, pasos[0], v, nombre) && AllSpare(c, Step(c, w, pasos[0]), pasos[1..], v, nombre)
  }

  lemma {:induction false} DeleteKeepsOthers(snaps: seq<Snap>, n: string, p: string, k: nat)
    requires k < |snaps| && snaps[k].nombre != n
    ensures exists j :: 0 <= j < |Delete(snaps, n, p)| && SameSaved(Delete(snaps, n, p)[j], snaps[k])
  {
    var s, init := snaps[|snaps| - 1], snaps[..|snaps| - 1];
    var d0, d := Delete(init, n, p), Delete(snaps, n, p);
    if k == |snaps| - 1 {
      assert SameSaved(d[|d0|], snaps[k]);
    } else {
      DeleteKeepsOthers(init, n, p, k);
      var j :| 0 <= j < |d0| && SameSaved(d0[j], init[k]);
      assert d[j] == d0[j];
    }
  }

  lemma EffectRemembers(c: Config, i: Inst, e: Efecto, pid: nat, nombre: string, cores: int, memoriaMB: int)
    requires Stored(i, nombre, cores, memoriaMB) || (e.Tomar? && Saves(e.snap, nombre, cores, memoriaMB))
    requires e != BorrarSnap(nombre)
    ensures Stored(Efectuar(c, i, e, pid).0, nombre, cores, memoriaMB)
  {
    var j := Efectuar(c, i, e, pid).0;
    if e.Tomar? && Saves(e.snap, nombre, cores, memoriaMB) {
      assert j.snaps[|i.snaps|] == e.snap;
    } else {
      var k :| 0 <= k < |i.snaps| && Saves(i.snaps[k], nombre, cores, memoriaMB);
      if e.BorrarSnap? {
        DeleteKeepsOthers(i.snaps, e.nombre, ParentOf(i.snaps, e.nombre), k);
        var m :| 0 <= m < |j.snaps| && SameSaved(j.snaps[m], i.snaps[k]);
        assert Saves(j.snaps[m], nombre, cores, memoriaMB);
      } else {
        assert j.snaps[k] == i.snaps[k];
      }
    }
  }

  lemma OwnFinishRemembers(c: Config, s: Sim, id: TaskId, nombre: string, cores: int, memoriaMB: int)
    requires Inv(s) && Unfinished(s, id) && !s.tareas[id].efecto.Destruir? && s.tareas[id].efecto != BorrarSnap(nombre)
    requires Remembers(s, s.tareas[id].vmid, nombre, cores, memoriaMB)
    ensures Remembers(Terminar(c, s, id), s.tareas[id].vmid, nombre, cores, memoriaMB)
  {
    var t := s.tareas[id];
    if !Stored(s.instancias[t.vmid], nombre, cores, memoriaMB) {
      var a :| Unfinished(s, a) && s.tareas[a].vmid == t.vmid && s.tareas[a].efecto.Tomar?
        && Saves(s.tareas[a].efecto.snap, nombre, cores, memoriaMB);
      assert a == id;
    }
    TerminarFrees(c, s, id);
    EffectRemembers(c, s.instancias[t.vmid], t.efecto, s.proximoPID + 13, nombre, cores, memoriaMB);
  }

  lemma OtherFinishRemembers(c: Config, s: Sim, id: TaskId, v: Vmid, nombre: string, cores: int, memoriaMB: int)
    requires Inv(s) && Unfinished(s, id) && s.tareas[id].vmid != v
    requires Remembers(s, v, nombre, cores, memoriaMB)
    ensures Remembers(Terminar(c, s, id), v, nombre, cores, memoriaMB)
  {
    var s' := Terminar(c, s, id);
    TerminarFrees(c, s, id);
    assert s'.instancias[v] == s.instancias[v];
    if !Stored(s.instancias[v], nombre, cores, memoriaMB) {
      var a :| Unfinished(s, a) && s.tareas[a].vmid == v && s.tareas[a].efecto.Tomar?
        && Saves(s.tareas[a].efecto.snap, nombre, cores, memoriaMB);
      assert Unfinished(s', a) && s'.tareas[a] == s.tareas[a];
    }
  }

  lemma RequestRemembers(c: Config, s: Sim, ahora: int, p: Pedido, v: Vmid, nombre: string, cores: int, memoriaMB: int)
    requires Inv(s) && Remembers(s, v, nombre, cores, memoriaMB)
    ensures Remembers(Atender(c, s, ahora, p).0, v, nombre, cores, memoriaMB)
  {
    var s' := Atender(c, s, ahora, p).0;
    if !Stored(s.instancias[v], nombre, cores, memoriaMB) {
      var a :| Unfinished(s, a) && s.tareas[a].vmid == v && s.tareas[a].efecto.Tomar?
        && Saves(s.tareas[a].efecto.snap, nombre, cores, memoriaMB);
      RequestKeepsTasks(c, s, ahora, p, a);
    }
    hide Atender, Inv;
  }

  lemma RequestKeepsTasks(c: Config, s: Sim, ahora: int, p: Pedido, a: TaskId)
    requires Inv(s) && a in s.tareas
    ensures a in Atender(c, s, ahora, p).0.tareas && Atender(c, s, ahora, p).0.tareas[a] == s.tareas[a]
  {
  }

  lemma {:induction false} RunRemembers(c: Config, w: World, pasos: seq<Paso>, v: Vmid, nombre: string, cores: int, memoriaMB: int)
    requires Inv(w.sim) && Runs(c, w, pasos) && AllSpare(c, w, pasos, v, nombre)
    requires Remembers(w.sim, v, nombre, cores, memoriaMB)
    ensures Inv(Exec(c, w, pasos).sim) && Remembers(Exec(c, w, pasos).sim, v, nombre, cores, memoriaMB)
    decreases |pasos|
  {
    if pasos != [] {
      var p := pasos[0];
      StepKeepsInv(c, w, p);
      match p {
        case Finalizar(id) =>
          assert Unfinished(w.sim, id);
          if w.sim.tareas[id].vmid == v {
            OwnFinishRemembers(c, w.sim, id, nombre, cores, memoriaMB);
          } else {
            OtherFinishRemembers(c, w.sim, id, v, nombre, cores, memoriaMB);
          }
        case Pedir(q) => RequestRemembers(c, w.sim, w.reloj, q, v, nombre, cores, memoriaMB);
        case Avanzar(_) => assert Step(c, w, p).sim == w.sim;
      }
      RunRemembers(c, Step(c, w, p), pasos[1..], v, nombre, cores, memoriaMB);
    }
  }

  lemma RequestIsRemembered(c: Config, w: World, tipo: Tipo, v: Vmid, nombre: string)
    requires var p := CrearSnapshot(v, tipo, nombre); Enabled(w, Pedir(p)) && Atender(c, w.sim, w.reloj, p).1.Aceptada?
    ensures v in w.sim.instancias
    ensures var i := w.sim.instancias[v];
      Remembers(Step(c, w, Pedir(CrearSnapshot(v, tipo, nombre))).sim, v, nombre, i.cores, i.memoriaMB)
  {
    var i, s := w.sim.instancias[v], Step(c, w, Pedir(CrearSnapshot(v, tipo, nombre))).sim;
    var t := w.sim.proximoPID + 17;
    assert Unfinished(s, t) && s.tareas[t].efecto == Tomar(Snap(nombre, i.actual, i.cores, i.memoriaMB));
  }

  lemma RollbackEnds(c: Config, w: World, v: Vmid, nombre: string, cores: int, memoriaMB: int, id: TaskId)
    requires Inv(w.sim) && Remembers(w.sim, v, nombre, cores, memoriaMB)
    requires Enabled(w, Finalizar(id)) && w.sim.tareas[id].vmid == v
    requires w.sim.tareas[id].efecto.Revertir? && w.sim.tareas[id].efecto.snap.nombre == nombre
    ensures var s := Step(c, w, Finalizar(id)).sim;
      && v in s.instancias
      && s.instancias[v].cores == cores && s.instancias[v].memoriaMB == memoriaMB
      && s.instancias[v].pendiente == map[] && s.instancias[v].estado == Stopped
      && s.instancias[v].actual == nombre && s.instancias[v].lock == ""
  {
    assert Unfinished(w.sim, id);
    TerminarFrees(c, w.sim, id);
  }

  /**
    The instance gets back the cores and memory in use when the snapshot was
    requested, is stopped and unlocked, has nothing pending, and its current
    state descends from that snapshot; only the deletion of the instance or of
    the snapshot is excluded in between.
   */
  lemma RollbackRestores(c: Config, w0: World, tipo: Tipo, v: Vmid, nombre: string, pasos: seq<Paso>, id: TaskId)
    requires Inv(w0.sim) && Atender(c, w0.sim, w0.reloj, CrearSnapshot(v, tipo, nombre)).1.Aceptada?
    requires Enabled(w0, Pedir(CrearSnapshot(v, tipo, nombre)))
    requires var w1 := Step(c, w0, Pedir(CrearSnapshot(v, tipo, nombre)));
      Runs(c, w1, pasos) && AllSpare(c, w1, pasos, v, nombre)
    requires var w2 := Exec(c, Step(c, w0, Pedir(CrearSnapshot(v, tipo, nombre))), pasos);
      && Enabled(w2, Finalizar(id)) && w2.sim.tareas[id].vmid == v
      && w2.sim.tareas[id].efecto.Revertir? && w2.sim.tareas[id].efecto.snap.nombre == nombre
    ensures var before := w0.sim.instancias[v];
      var w2 := Exec(c, Step(c, w0, Pedir(CrearSnapshot(v, tipo, nombre))), pasos);
      var s := Step(c, w2, Finalizar(id)).sim;
      && v in s.instancias
      && s.instancias[v].cores == before.cores && s.instancias[v].memoriaMB == before.memoriaMB
      && s.instancias[v].pendiente == map[] && s.instancias[v].estado == Stopped
      && s.instancias[v].actual == nombre && s.instancias[v].lock == ""
  {
    var p := CrearSnapshot(v, tipo, nombre);
    var w1 := Step(c, w0, Pedir(p));
    var i := w0.sim.instancias[v];
    StepKeepsInv(c, w0, Pedir(p));
    RequestIsRemembered(c, w0, tipo, v, nombre);
    RunRemembers(c, w1, pasos, v, nombre, i.cores, i.memoriaMB);
    hide Atender, Remembers, TreeOk, Runs, AllSpare, Exec;
    RollbackEnds(c, Exec(c, w1, pasos), v, nombre, i.cores, i.memoriaMB, id);
  }
}
