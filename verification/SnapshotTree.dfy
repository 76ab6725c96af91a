/**
  The snapshot tree of one simulated instance (snapshots.go): a list in creation
  order in which each snapshot names its parent, and the name of the parent of
  the current state.
 */
module SnapshotTree {

  datatype Snap = Snap(nombre: string, padre: string, cores: int, memoriaMB: int)

  ghost predicate Names(snaps: seq<Snap>, nombre: string) {
    exists i :: 0 <= i < |snaps| && snaps[i].nombre == nombre
  }

  /** Names are unique, a parent is an earlier snapshot or none, and so is the parent of the current state. */
  ghost predicate TreeOk(snaps: seq<Snap>, actual: string) {
    && (forall i, j :: 0 <= i < j < |snaps| ==> snaps[i].nombre != snaps[j].nombre)
    && (forall i :: 0 <= i < |snaps| ==> snaps[i].nombre != "")
    && (forall i :: 0 <= i < |snaps| && snaps[i].padre != "" ==> Names(snaps[..i], snaps[i].padre))
    && (actual != "" ==> Names(snaps, actual))
  }

  // ---------- The three edits ----------

  function Take(snaps: seq<Snap>, snap: Snap): seq<Snap> {
    snaps + [snap]
  }

  function ParentOf(snaps: seq<Snap>, nombre: string): string {
    if snaps == [] then ""
    else if snaps[|snaps| - 1].nombre == nombre then snaps[|snaps| - 1].padre
    else ParentOf(snaps[..|snaps| - 1], nombre)
  }

  /** What the in-place filter leaves: the children of the deleted snapshot pass to its parent. */
  function Delete(snaps: seq<Snap>, nombre: string, padre: string): seq<Snap> {
    if snaps == [] then []
    else
      var s := snaps[|snaps| - 1];
      Delete(snaps[..|snaps| - 1], nombre, padre) + (if s.nombre == nombre then [] else [Reparented(s, nombre, padre)])
  }

  function Reparented(s: Snap, nombre: string, padre: string): Snap {
    if s.padre == nombre then s.(padre := padre) else s
  }

  function Redirected(actual: string, nombre: string, padre: string): string {
    if actual == nombre then padre else actual
  }

  // ---------- Ancestry ----------

  /** The snapshot, its parent, its grandparent, ... */
  function Chain(snaps: seq<Snap>, nombre: string): seq<string> {
    if snaps == [] || nombre == "" then []
    else
      var s, earlier := snaps[|snaps| - 1], snaps[..|snaps| - 1];
      if s.nombre == nombre then [nombre] + Chain(earlier, s.padre) else Chain(earlier, nombre)
  }

  function Without(names: seq<string>, nombre: string): seq<string> {
    if names == [] then []
    else (if names[0] == nombre then [] else [names[0]]) + Without(names[1..], nombre)
  }

  lemma TreeOkPrefix(snaps: seq<Snap>, actual: string)
    requires TreeOk(snaps, actual) && snaps != []
    ensures TreeOk(snaps[..|snaps| - 1], "")
    ensures snaps[|snaps| - 1].padre != "" ==> Names(snaps[..|snaps| - 1], snaps[|snaps| - 1].padre)
    ensures !Names(snaps[..|snaps| - 1], snaps[|snaps| - 1].nombre)
  {
    var init := snaps[..|snaps| - 1];
    forall i | 0 <= i < |init| && init[i].padre != ""
      ensures Names(init[..i], init[i].padre)
    {
      assert init[..i] == snaps[..i] && init[i] == snaps[i];
    }
  }

  lemma {:induction false} ChainIsNamed(snaps: seq<Snap>, nombre: string, x: string)
    requires x in Chain(snaps, nombre)
    ensures Names(snaps, x)
  {
    var s, init := snaps[|snaps| - 1], snaps[..|snaps| - 1];
    if s.nombre == nombre && x == nombre {
    } else {
      ChainIsNamed(init, if s.nombre == nombre then s.padre else nombre, x);
      var i :| 0 <= i < |init| && init[i].nombre == x;
      assert snaps[i].nombre == x;
    }
  }

  /** Walking up from a snapshot visits it and then its parent's chain: the chain is the ancestry. */
  lemma {:induction false} ChainFollowsParents(snaps: seq<Snap>, nombre: string)
    requires TreeOk(snaps, "") && nombre != "" && Names(snaps, nombre)
    ensures Chain(snaps, nombre) == [nombre] + Chain(snaps, ParentOf(snaps, nombre))
    ensures nombre !in Chain(snaps, ParentOf(snaps, nombre))
    ensures ParentOf(snaps, nombre) != nombre
    ensures ParentOf(snaps, nombre) != "" ==> Names(snaps, ParentOf(snaps, nombre))
  {
    var s, init := snaps[|snaps| - 1], snaps[..|snaps| - 1];
    TreeOkPrefix(snaps, "");
    if s.nombre == nombre {
      if nombre in Chain(init, s.padre) {
        ChainIsNamed(init, s.padre, nombre);
      }
      if s.padre != "" {
        var i :| 0 <= i < |init| && init[i].nombre == s.padre;
        assert snaps[i].nombre == s.padre;
      }
    } else {
      var k :| 0 <= k < |snaps| && snaps[k].nombre == nombre;
      assert init[k].nombre == nombre;
      ChainFollowsParents(init, nombre);
      var p := ParentOf(init, nombre);
      if p != "" {
        var i :| 0 <= i < |init| && init[i].nombre == p;
        assert snaps[i].nombre == p;
      }
    }
  }

  lemma {:induction false} AbsentParent(snaps: seq<Snap>, nombre: string, padre: string)
    requires TreeOk(snaps, "") && !Names(snaps, nombre) && nombre != ""
    ensures Delete(snaps, nombre, padre) == snaps
  {
    if snaps != [] {
      var s, init := snaps[|snaps| - 1], snaps[..|snaps| - 1];
      TreeOkPrefix(snaps, "");
      assert snaps == init + [s];
      NamesSnoc(init, s, nombre);
      AbsentParent(init, nombre, padre);
    }
  }

  lemma {:induction false} WithoutAbsent(names: seq<string>, nombre: string)
    requires nombre !in names
    ensures Without(names, nombre) == names
  {
    if names != [] {
      WithoutAbsent(names[1..], nombre);
      assert names == [names[0]] + names[1..];
    }
  }

  /** Deleting a snapshot takes it out of every surviving ancestry and changes nothing else in it. */
  lemma {:induction false} DeleteKeepsAncestry(snaps: seq<Snap>, nombre: string, x: string)
    requires TreeOk(snaps, "") && nombre != "" && Names(snaps, nombre) && x != nombre
    ensures Chain(Delete(snaps, nombre, ParentOf(snaps, nombre)), x) == Without(Chain(snaps, x), nombre)
    decreases |snaps|, 0
  {
    var s, init := snaps[|snaps| - 1], snaps[..|snaps| - 1];
    var p := ParentOf(snaps, nombre);
    TreeOkPrefix(snaps, "");
    if s.nombre == nombre {
      AbsentParent(init, nombre, p);
      assert Delete(snaps, nombre, p) == init;
      if nombre in Chain(init, x) {
        ChainIsNamed(init, x, nombre);
      }
      WithoutAbsent(Chain(init, x), nombre);
    } else {
      var k :| 0 <= k < |snaps| && snaps[k].nombre == nombre;
      assert init[k].nombre == nombre;
      if s.nombre != x || x == "" {
        DeleteKeepsAncestry(init, nombre, x);
      } else {
        ParentSurvives(init, s, nombre);
      }
    }
  }

  lemma ParentSurvives(init: seq<Snap>, s: Snap, nombre: string)
    requires TreeOk(init, "") && nombre != "" && Names(init, nombre)
    ensures var p := ParentOf(init, nombre);
      Chain(Delete(init, nombre, p), Reparented(s, nombre, p).padre) == Without(Chain(init, s.padre), nombre)
    decreases |init|, 1
  {
    ChainFollowsParents(init, nombre);
    if s.padre == nombre {
      var p := ParentOf(init, nombre);
      DeleteKeepsAncestry(init, nombre, p);
      assert Chain(init, nombre)[1..] == Chain(init, p);
    } else {
      DeleteKeepsAncestry(init, nombre, s.padre);
    }
  }

  // ---------- Every edit keeps the tree a tree ----------

  lemma TakeKeepsTree(snaps: seq<Snap>, actual: string, snap: Snap)
    requires TreeOk(snaps, actual) && snap.nombre != "" && !Names(snaps, snap.nombre)
    requires snap.padre == actual
    ensures TreeOk(Take(snaps, snap), snap.nombre)
  {
    var all := Take(snaps, snap);
    forall i | 0 <= i < |all| && all[i].padre != ""
      ensures Names(all[..i], all[i].padre)
    {
      if i < |snaps| {
        assert all[..i] == snaps[..i];
      } else {
        assert all[..i] == snaps;
      }
    }
    assert all[|snaps|].nombre == snap.nombre;
  }

  lemma {:induction false} DeleteNames(snaps: seq<Snap>, nombre: string, padre: string, x: string)
    ensures Names(Delete(snaps, nombre, padre), x) <==> Names(snaps, x) && x != nombre
  {
    if snaps != [] {
      var s, init := snaps[|snaps| - 1], snaps[..|snaps| - 1];
      var d0, d := Delete(init, nombre, padre), Delete(snaps, nombre, padre);
      DeleteNames(init, nombre, padre, x);
      NamesSnoc(init, s, x);
      assert init + [s] == snaps;
      if s.nombre == nombre {
        assert d == d0;
      } else {
        NamesSnoc(d0, Reparented(s, nombre, padre), x);
      }
    }
  }

  lemma NamesSnoc(init: seq<Snap>, s: Snap, x: string)
    ensures Names(init + [s], x) <==> Names(init, x) || s.nombre == x
  {
    var all := init + [s];
    assert all[|init|] == s;
    if i :| 0 <= i < |init| && init[i].nombre == x {
      assert all[i].nombre == x;
    }
  }

  lemma TreeOkSnoc(init: seq<Snap>, s: Snap)
    requires TreeOk(init, "") && s.nombre != "" && !Names(init, s.nombre) && (s.padre != "" ==> Names(init, s.padre))
    ensures TreeOk(init + [s], "")
  {
    var all := init + [s];
    forall i | 0 <= i < |all| && all[i].padre != ""
      ensures Names(all[..i], all[i].padre)
    {
      assert all[..i] == if i < |init| then init[..i] else init;
    }
  }

  lemma {:induction false} DeleteKeepsOrder(snaps: seq<Snap>, nombre: string, padre: string)
    requires TreeOk(snaps, "") && nombre != "" && padre != nombre
    requires Names(snaps, nombre) ==> padre == ParentOf(snaps, nombre)
    ensures TreeOk(Delete(snaps, nombre, padre), "")
  {
    if snaps != [] {
      var s, init := snaps[|snaps| - 1], snaps[..|snaps| - 1];
      TreeOkPrefix(snaps, "");
      NamesSnoc(init, s, nombre);
      assert init + [s] == snaps;
      DeleteKeepsOrder(init, nombre, padre);
      var d := Delete(init, nombre, padre);
      if s.nombre == nombre {
        assert Delete(snaps, nombre, padre) == d;
      } else {
        DeleteNames(init, nombre, padre, s.nombre);
        DeleteNames(init, nombre, padre, Reparented(s, nombre, padre).padre);
        if s.padre == nombre {
          ChainFollowsParents(init, nombre);
        }
        TreeOkSnoc(d, Reparented(s, nombre, padre));
      }
    }
  }

  lemma DeleteKeepsTree(snaps: seq<Snap>, actual: string, nombre: string)
    requires TreeOk(snaps, actual) && nombre != "" && Names(snaps, nombre)
    ensures var p := ParentOf(snaps, nombre);
      TreeOk(Delete(snaps, nombre, p), Redirected(actual, nombre, p))
  {
    var p := ParentOf(snaps, nombre);
    ChainFollowsParents(snaps, nombre);
    DeleteKeepsOrder(snaps, nombre, p);
    DeleteNames(snaps, nombre, p, Redirected(actual, nombre, p));
  }

  /** The current state keeps its remaining ancestors too. */
  lemma DeleteKeepsCurrentAncestry(snaps: seq<Snap>, actual: string, nombre: string)
    requires TreeOk(snaps, actual) && nombre != "" && Names(snaps, nombre)
    ensures var p := ParentOf(snaps, nombre);
      Chain(Delete(snaps, nombre, p), Redirected(actual, nombre, p)) == Without(Chain(snaps, actual), nombre)
  {
    var p := ParentOf(snaps, nombre);
    ChainFollowsParents(snaps, nombre);
    DeleteKeepsAncestry(snaps, nombre, if actual == nombre then p else actual);
    if actual == nombre {
      assert Chain(snaps, nombre)[1..] == Chain(snaps, p);
    }
  }
}
