/**
  A pass of finalizarTareas walks a Go map, in any order.  The result is the
  same for every order, except for the PID numbers handed out.
 */
module SimOrder {
  import opened Wrappers
  import opened SnapshotTree
  import opened SimModel
  import opened SimInvariant

  ghost predicate NoDuplicates(ids: seq<TaskId>) {
    forall i, j :: 0 <= i < j < |ids| ==> ids[i] != ids[j]
  }

  /** The order of one pass over some unfinished tasks. */
  ghost predicate Order(s: Sim, orden: seq<TaskId>) {
    NoDuplicates(orden) && forall id :: id in orden ==> Unfinished(s, id)
  }

  ghost function Pass(c: Config, s: Sim, orden: seq<TaskId>): Sim
    requires forall id :: id in orden ==> id in s.tareas
    decreases |orden|
  {
    if orden == [] then s
    else
      assert forall id :: id in orden[1..] ==> id in orden;
      Pass(c, Terminar(c, s, orden[0]), orden[1..])
  }

  // ---------- Everything but the PIDs ----------

  function NoPid(i: Inst): Inst {
    i.(pid := 0)
  }

  function Erased(s: Sim): Sim {
    Sim(map v | v in s.instancias :: NoPid(s.instancias[v]), s.tareas, 0)
  }

  /** The one task of a VMID among `ids`, if there is one. */
  ghost predicate TaskOf(s: Sim, ids: set<TaskId>, v: Vmid, id: TaskId) {
    id in ids && id in s.tareas && s.tareas[id].vmid == v
  }

  ghost function InstAfter(c: Config, s: Sim, ids: set<TaskId>, v: Vmid): Inst
    requires v in s.instancias
  {
    if id :| TaskOf(s, ids, v, id) then NoPid(Efectuar(c, s.instancias[v], s.tareas[id].efecto, 0).0.(lock := ""))
    else NoPid(s.instancias[v])
  }

  ghost predicate Survives(s: Sim, ids: set<TaskId>, v: Vmid) {
    forall id :: TaskOf(s, ids, v, id) ==> !s.tareas[id].efecto.Destruir?
  }

  /** What finishing a set of tasks amounts to, whatever the order. */
  ghost function Finished(c: Config, s: Sim, ids: set<TaskId>): Sim {
    Sim(map v | v in s.instancias && Survives(s, ids, v) :: InstAfter(c, s, ids, v),
        map id | id in s.tareas :: if id in ids && s.tareas[id].vmid in s.instancias
          then s.tareas[id].(resultado := Efectuar(c, s.instancias[s.tareas[id].vmid], s.tareas[id].efecto, 0).1)
          else s.tareas[id],
        0)
  }

  lemma PidOnlyMattersInPid(c: Config, i: Inst, e: Efecto, p: nat, q: nat)
    ensures NoPid(Efectuar(c, i, e, p).0) == NoPid(Efectuar(c, i, e, q).0)
    ensures NoPid(Efectuar(c, i, e, p).0.(lock := "")) == NoPid(Efectuar(c, i, e, q).0.(lock := ""))
    ensures Efectuar(c, i, e, p).1 == Efectuar(c, i, e, q).1
  {
    if e.Energia? {
      assert NoPid(Encender(c, i, p)) == NoPid(Encender(c, i, q));
      match e.accion {
        case Start =>
        case _ =>
      }
    }
  }

  /** In a good state a VMID has one task at most, so the choice in `InstAfter` is no choice. */
  lemma InstAfterTask(c: Config, s: Sim, ids: set<TaskId>, id: TaskId)
    requires Inv(s) && id in ids && forall a :: a in ids ==> Unfinished(s, a)
    ensures var v := s.tareas[id].vmid;
      && v in s.instancias
      && InstAfter(c, s, ids, v) == NoPid(Efectuar(c, s.instancias[v], s.tareas[id].efecto, 0).0.(lock := ""))
      && (Survives(s, ids, v) <==> !s.tareas[id].efecto.Destruir?)
  {
    var v := s.tareas[id].vmid;
    assert TaskOf(s, ids, v, id);
    forall a | TaskOf(s, ids, v, a) ensures a == id {
      assert Unfinished(s, a) && Unfinished(s, id);
    }
  }

  lemma InstAfterNone(c: Config, s: Sim, ids: set<TaskId>, v: Vmid)
    requires v in s.instancias && forall a :: a in ids && a in s.tareas ==> s.tareas[a].vmid != v
    ensures InstAfter(c, s, ids, v) == NoPid(s.instancias[v]) && Survives(s, ids, v)
  {
  }

  /** The instances after finishing one task first and the rest afterwards. */
  ghost predicate SameAfter(c: Config, s: Sim, id: TaskId, rest: set<TaskId>, v: Vmid)
    requires id in s.tareas
  {
    var s1 := Terminar(c, s, id);
    && (v in s1.instancias && Survives(s1, rest, v) <==> v in s.instancias && Survives(s, {id} + rest, v))
    && (v in s1.instancias && v in s.instancias && Survives(s1, rest, v) ==>
          InstAfter(c, s1, rest, v) == InstAfter(c, s, {id} + rest, v))
  }

  lemma OwnInstance(c: Config, s: Sim, id: TaskId, rest: set<TaskId>)
    requires Inv(s) && Unfinished(s, id) && id !in rest && forall a :: a in rest ==> Unfinished(s, a)
    ensures SameAfter(c, s, id, rest, s.tareas[id].vmid)
  {
    var v, s1 := s.tareas[id].vmid, Terminar(c, s, id);
    InstAfterTask(c, s, {id} + rest, id);
    TerminarFrees(c, s, id);
    if v in s1.instancias {
      InstAfterNone(c, s1, rest, v);
      OwnResult(c, s, id);
    }
  }

  lemma OwnResult(c: Config, s: Sim, id: TaskId)
    requires Inv(s) && Unfinished(s, id) && !s.tareas[id].efecto.Destruir?
    ensures var t := s.tareas[id];
      && t.vmid in Terminar(c, s, id).instancias && t.vmid in s.instancias
      && NoPid(Terminar(c, s, id).instancias[t.vmid]) == NoPid(Efectuar(c, s.instancias[t.vmid], t.efecto, 0).0.(lock := ""))
  {
    var t := s.tareas[id];
    TerminarFrees(c, s, id);
    PidOnlyMattersInPid(c, s.instancias[t.vmid], t.efecto, s.proximoPID + 13, 0);
  }

  lemma OtherInstance(c: Config, s: Sim, id: TaskId, rest: set<TaskId>, v: Vmid)
    requires Inv(s) && Unfinished(s, id) && id !in rest && forall a :: a in rest ==> Unfinished(s, a)
    requires v != s.tareas[id].vmid
    ensures SameAfter(c, s, id, rest, v)
  {
    var s1, all := Terminar(c, s, id), {id} + rest;
    TerminarFrees(c, s, id);
    TerminarKeepsInv(c, s, id);
    if v in s.instancias {
      assert s1.instancias[v] == s.instancias[v];
      if a :| TaskOf(s, rest, v, a) {
        InstAfterTask(c, s, all, a);
        assert Unfinished(s1, a);
        InstAfterTask(c, s1, rest, a);
      } else {
        assert forall a :: a in rest ==> !TaskOf(s, rest, v, a);
        InstAfterNone(c, s, all, v);
        InstAfterNone(c, s1, rest, v);
      }
    }
  }

  lemma TasksFirstThenRest(c: Config, s: Sim, id: TaskId, rest: set<TaskId>)
    requires Inv(s) && Unfinished(s, id) && id !in rest && forall a :: a in rest ==> Unfinished(s, a)
    ensures Finished(c, Terminar(c, s, id), rest).tareas == Finished(c, s, {id} + rest).tareas
  {
    var f1, f := Finished(c, Terminar(c, s, id), rest).tareas, Finished(c, s, {id} + rest).tareas;
    forall a | a in s.tareas ensures a in f1 && a in f && f1[a] == f[a] {
      if a == id { } else { LaterTask(c, s, id, rest, a); }
    }
    assert f1.Keys == f.Keys by { hide Efectuar, InstAfter, Survives, Activa; }
    hide Finished, Terminar, Inv;
  }

  lemma LaterTask(c: Config, s: Sim, id: TaskId, rest: set<TaskId>, a: TaskId)
    requires Inv(s) && Unfinished(s, id) && id !in rest && (forall x :: x in rest ==> Unfinished(s, x)) && a in s.tareas && a != id
    ensures a in Finished(c, Terminar(c, s, id), rest).tareas && a in Finished(c, s, {id} + rest).tareas
    ensures Finished(c, Terminar(c, s, id), rest).tareas[a] == Finished(c, s, {id} + rest).tareas[a]
  {
    hide Efectuar, InstAfter, Survives, Activa;
    if a in rest {
      var s1 := Terminar(c, s, id);
      TerminarFrees(c, s, id);
      TerminarKeepsInv(c, s, id);
      assert Unfinished(s1, a) && Unfinished(s, a);
      assert s1.instancias[s.tareas[a].vmid] == s.instancias[s.tareas[a].vmid];
    }
  }

  lemma FirstThenRest(c: Config, s: Sim, id: TaskId, rest: set<TaskId>)
    requires Inv(s) && Unfinished(s, id) && id !in rest && forall a :: a in rest ==> Unfinished(s, a)
    ensures Finished(c, Terminar(c, s, id), rest) == Finished(c, s, {id} + rest)
  {
    var s1 := Terminar(c, s, id);
    hide Terminar, InstAfter, Survives, Inv;
    TasksFirstThenRest(c, s, id, rest);
    forall v ensures SameAfter(c, s, id, rest, v) {
      if v == s.tareas[id].vmid { OwnInstance(c, s, id, rest); } else { OtherInstance(c, s, id, rest, v); }
    }
    var m1, m := Finished(c, s1, rest).instancias, Finished(c, s, {id} + rest).instancias;
    forall v ensures v in m1 <==> v in m
      ensures v in m1 ==> m1[v] == m[v]
    {
      assert SameAfter(c, s, id, rest, v);
    }
    assert m1 == m;
  }

  lemma OrderTail(c: Config, s: Sim, orden: seq<TaskId>)
    requires Inv(s) && Order(s, orden) && orden != []
    ensures Unfinished(s, orden[0]) && orden[0] !in orden[1..]
    ensures Inv(Terminar(c, s, orden[0])) && Order(Terminar(c, s, orden[0]), orden[1..])
    ensures forall a :: Unfinished(Terminar(c, s, orden[0]), a) <==> Unfinished(s, a) && a != orden[0]
  {
    assert orden[0] in orden;
    TerminarKeepsInv(c, s, orden[0]);
    assert orden == [orden[0]] + orden[1..];
    forall a | a in orden[1..] ensures Unfinished(s, a) && a != orden[0] {
      assert a in orden;
    }
  }

  function Covered(orden: seq<TaskId>): set<TaskId> {
    set id | id in orden
  }

  lemma CoveredTail(orden: seq<TaskId>)
    requires orden != []
    ensures Covered(orden) == {orden[0]} + Covered(orden[1..])
  {
    assert orden == [orden[0]] + orden[1..];
  }

  /** A pass, whatever its order, yields what `Finished` says of the tasks it covers. */
  lemma {:induction false} PassIsFinished(c: Config, s: Sim, orden: seq<TaskId>)
    requires Inv(s) && Order(s, orden)
    ensures Erased(Pass(c, s, orden)) == Finished(c, s, Covered(orden))
    decreases |orden|
  {
    if orden == [] {
      assert Covered(orden) == {};
    } else {
      var id, rest := orden[0], orden[1..];
      OrderTail(c, s, orden);
      CoveredTail(orden);
      PassIsFinished(c, Terminar(c, s, id), rest);
      FirstThenRest(c, s, id, Covered(rest));
    }
  }

  /** Whatever its order, a pass ends exactly the tasks it covers and keeps the invariant. */
  lemma {:induction false} PassEndsItsTasks(c: Config, s: Sim, orden: seq<TaskId>)
    requires Inv(s) && Order(s, orden)
    ensures Inv(Pass(c, s, orden))
    ensures forall a :: Unfinished(Pass(c, s, orden), a) <==> Unfinished(s, a) && a !in orden
    decreases |orden|
  {
    hide Terminar, Inv, Order, Unfinished;
    if orden != [] {
      OrderTail(c, s, orden);
      PassEndsItsTasks(c, Terminar(c, s, orden[0]), orden[1..]);
      assert orden == [orden[0]] + orden[1..];
    }
  }

  /** Same instances, snapshots, locks and results for any two orders of the same tasks. */
  lemma OrderDoesNotMatter(c: Config, s: Sim, a: seq<TaskId>, b: seq<TaskId>)
    requires Inv(s) && Order(s, a) && Order(s, b) && forall id :: id in a <==> id in b
    ensures Erased(Pass(c, s, a)) == Erased(Pass(c, s, b))
  {
    PassIsFinished(c, s, a);
    PassIsFinished(c, s, b);
    assert Covered(a) == Covered(b);
  }
}
