/**
  One simulated instance as the simulator keeps it: an object whose fields the
  task effects and the configuration requests update in place, and whose
  snapshots are objects in a growing array that the deletion filters in place.
  Every method is proved against the value functions of `SimModel`.
 */
module SimInstanceClass {
  import opened Wrappers
  import opened SnapshotTree
  import opened SimModel
  import opened SimInvariant

  class Snapshot {
    const nombre: string
    const cores: int
    const memoriaMB: int
    var padre: string

    constructor (snap: Snap)
      ensures Value() == snap
    {
      nombre, padre, cores, memoriaMB := snap.nombre, snap.padre, snap.cores, snap.memoriaMB;
    }

    function Value(): Snap
      reads this
    {
      Snap(nombre, padre, cores, memoriaMB)
    }
  }

  ghost function Values(s: seq<Snapshot>): (v: seq<Snap>)
    reads s
    ensures |v| == |s| && forall i :: 0 <= i < |s| ==> v[i] == s[i].Value()
  {
    seq(|s|, i requires 0 <= i < |s| reads s => s[i].Value())
  }

  twostate lemma SameValues(s: seq<Snapshot>)
    requires forall x :: x in s ==> x.padre == old(x.padre)
    ensures Values(s) == old(Values(s))
  {
    assert forall i :: 0 <= i < |s| ==> s[i] in s;
  }

  ghost predicate Distinct(s: seq<Snapshot>) {
    forall i, j :: 0 <= i < j < |s| ==> s[i] != s[j]
  }

  // ---------- Setting several values, one at a time ----------

  lemma SetOneMore(c: Config, i: Inst, m: map<string, string>, nombre: string, key: string, value: string)
    requires key !in m
    ensures SetOne(c, SetAll(c, i, m, nombre), key, value)
         == SetAll(c, i, m[key := value], if key in NAMES then value else nombre)
  {
    SameRest(i, m, key, value);
  }

  lemma SameRest(i: Inst, m: map<string, string>, key: string, value: string)
    requires key !in m
    ensures key in NUMERIC + NAMES ==> m[key := value] - NUMERIC - NAMES == m - NUMERIC - NAMES
    ensures key !in NUMERIC + NAMES ==>
      i.config + (m[key := value] - NUMERIC - NAMES) == (i.config + (m - NUMERIC - NAMES))[key := value]
  {
    if key !in NUMERIC + NAMES {
      assert m[key := value] - NUMERIC - NAMES == (m - NUMERIC - NAMES)[key := value];
    }
  }

  lemma SetNothing(c: Config, i: Inst)
    ensures SetAll(c, i, map[], i.nombre) == i
  {
    var none: map<string, string> := map[];
    assert none - NUMERIC - NAMES == map[];
    assert i.config + map[] == i.config;
  }

  /** `hecho` is the part of `m` already set, `falta` the keys still to be set. */
  ghost predicate Partial(m: map<string, string>, hecho: map<string, string>, falta: set<string>) {
    && falta <= m.Keys && hecho.Keys == m.Keys - falta
    && forall k :: k in hecho ==> hecho[k] == m[k]
  }

  lemma PartialStep(c: Config, i: Inst, m: map<string, string>, hecho: map<string, string>, falta: set<string>, nombre: string, key: string)
    requires Partial(m, hecho, falta) && key in falta
    ensures Partial(m, hecho[key := m[key]], falta - {key})
    ensures SetOne(c, SetAll(c, i, hecho, nombre), key, m[key])
         == SetAll(c, i, hecho[key := m[key]], if key in NAMES then m[key] else nombre)
  {
    SetOneMore(c, i, hecho, nombre, key, m[key]);
  }

  lemma PartialEnd(m: map<string, string>, hecho: map<string, string>)
    requires Partial(m, hecho, {})
    ensures hecho == m
  {
  }

  // ---------- Editing, one parameter at a time ----------

  predicate Aplazado(i: Inst, key: string) {
    i.tipo.Qemu? && i.estado.Running? && key in DEFERRED
  }

  function EditOne(c: Config, i: Inst, key: string, value: string): Inst {
    if Aplazado(i, key) then i.(pendiente := i.pendiente[key := value]) else SetOne(c, i, key, value)
  }

  lemma EditOneMore(c: Config, i: Inst, m: map<string, string>, nombre: string, key: string, value: string)
    requires key !in m && key != "digest" && "digest" !in m
    ensures EditOne(c, Editada(c, i, m, nombre), key, value)
         == Editada(c, i, m[key := value], if key in NAMES then value else nombre)
  {
    var n := m[key := value];
    assert n - {"digest"} == n && m - {"digest"} == m;
    if i.tipo.Qemu? && i.estado.Running? {
      DeferredSplit(m, i.pendiente, key, value);
      if key !in DEFERRED {
        SetOneMore(c, i, m - DEFERRED, nombre, key, value);
      }
    } else {
      SetOneMore(c, i, m, nombre, key, value);
    }
  }

  /** One more key goes to the deferred part or to the rest. */
  lemma DeferredSplit(m: map<string, string>, antes: map<string, string>, key: string, value: string)
    requires key !in m
    ensures var n := m[key := value];
      var q, p := n - (n.Keys - DEFERRED), m - (m.Keys - DEFERRED);
      if key in DEFERRED then n - DEFERRED == m - DEFERRED && antes + q == (antes + p)[key := value]
      else n - DEFERRED == (m - DEFERRED)[key := value] && q == p
  {
    var n := m[key := value];
    var q, p := n - (n.Keys - DEFERRED), m - (m.Keys - DEFERRED);
    if key in DEFERRED {
      assert q == p[key := value];
    }
  }

  lemma EditNothing(c: Config, i: Inst)
    ensures Editada(c, i, map[], i.nombre) == i
  {
    var none: map<string, string> := map[];
    SetNothing(c, i);
    assert none - {"digest"} == none && none - DEFERRED == none && none - (none.Keys - DEFERRED) == none;
    assert i.pendiente + none == i.pendiente;
  }

  lemma EditStep(c: Config, i: Inst, m: map<string, string>, hecho: map<string, string>, falta: set<string>, nombre: string, key: string)
    requires Partial(m, hecho, falta) && key in falta && "digest" !in m && NameAfter(hecho, i.nombre, nombre)
    ensures var nombre' := if key in NAMES then m[key] else nombre;
      && EditOne(c, Editada(c, i, hecho, nombre), key, m[key]) == Editada(c, i, hecho[key := m[key]], nombre')
      && NameAfter(hecho[key := m[key]], i.nombre, nombre')
  {
    EditOneMore(c, i, hecho, nombre, key, m[key]);
    NameStep(hecho, i.nombre, nombre, key, m[key]);
  }

  lemma NameStep(hecho: map<string, string>, before: string, nombre: string, key: string, value: string)
    requires NameAfter(hecho, before, nombre) && key !in hecho
    ensures NameAfter(hecho[key := value], before, if key in NAMES then value else nombre)
  {
    var h := hecho[key := value];
    if key in NAMES {
      assert key in h.Keys * NAMES && h[key] == value;
    } else if hecho.Keys * NAMES == {} {
      assert h.Keys * NAMES == {};
    } else {
      var k :| k in NAMES && k in hecho && nombre == hecho[k];
      assert k in h.Keys * NAMES && h[k] == nombre;
    }
  }

  // ---------- The in-place deletion ----------

  /** The references that are kept. */
  function Filtered(s: seq<Snapshot>, quitado: Snapshot): (r: seq<Snapshot>)
    ensures |r| <= |s| && forall x :: x in r ==> x in s && x != quitado
  {
    if s == [] then []
    else
      var last := s[|s| - 1];
      Filtered(s[..|s| - 1], quitado) + (if last == quitado then [] else [last])
  }

  lemma FilteredSnoc(s: seq<Snapshot>, quitado: Snapshot, i: nat)
    requires i < |s|
    ensures Filtered(s[..i + 1], quitado) == Filtered(s[..i], quitado) + (if s[i] == quitado then [] else [s[i]])
  {
    assert s[..i + 1][..i] == s[..i];
  }

  lemma {:induction false} FilteredDistinct(s: seq<Snapshot>, quitado: Snapshot)
    requires Distinct(s)
    ensures Distinct(Filtered(s, quitado))
  {
    if s != [] {
      var init, last := s[..|s| - 1], s[|s| - 1];
      FilteredDistinct(init, quitado);
      forall x | x in init ensures x != last {
        var k :| 0 <= k < |init| && init[k] == x;
        assert s[k] == x;
      }
      var f0, f := Filtered(init, quitado), Filtered(s, quitado);
      assert forall i :: 0 <= i < |f0| ==> f[i] == f0[i] && f0[i] in f0;
    }
  }

  /** Each kept snapshot reads as re-parented, so the kept list reads as the deletion. */
  lemma {:induction false} FilteredValues(s: seq<Snapshot>, quitado: Snapshot, antes: seq<Snap>, padre: string)
    requires |antes| == |s|
    requires forall i :: 0 <= i < |s| ==> (antes[i].nombre == quitado.nombre <==> s[i] == quitado)
    requires forall i :: 0 <= i < |s| && s[i] != quitado ==> s[i].Value() == Reparented(antes[i], quitado.nombre, padre)
    ensures Values(Filtered(s, quitado)) == Delete(antes, quitado.nombre, padre)
  {
    if s != [] {
      var init, last := s[..|s| - 1], s[|s| - 1];
      FilteredValues(init, quitado, antes[..|s| - 1], padre);
      var kept := Filtered(s, quitado);
      if last != quitado {
        assert kept[..|kept| - 1] == Filtered(init, quitado);
      } else {
        assert kept == Filtered(init, quitado);
      }
    }
  }

  lemma {:induction false} ParentAt(snaps: seq<Snap>, k: nat)
    requires k < |snaps| && forall j :: 0 <= j < |snaps| && snaps[j].nombre == snaps[k].nombre ==> j == k
    ensures ParentOf(snaps, snaps[k].nombre) == snaps[k].padre
  {
    if k < |snaps| - 1 {
      ParentAt(snaps[..|snaps| - 1], k);
    }
  }

  lemma ParentIs(s: seq<Snapshot>, snap: Snapshot)
    requires snap in s && Distinct(s) && forall x :: x in s && x.nombre == snap.nombre ==> x == snap
    ensures ParentOf(Values(s), snap.nombre) == snap.padre
  {
    var k :| 0 <= k < |s| && s[k] == snap;
    forall j | 0 <= j < |s| && Values(s)[j].nombre == Values(s)[k].nombre ensures j == k {
      assert s[j] in s;
    }
    ParentAt(Values(s), k);
  }

  lemma {:induction false} FindSnapFirst(snaps: seq<Snap>, nombre: string, k: nat)
    requires k <= |snaps| && forall j :: 0 <= j < k ==> snaps[j].nombre != nombre
    requires k < |snaps| ==> snaps[k].nombre == nombre
    ensures FindSnap(snaps, nombre) == if k < |snaps| then Some(snaps[k]) else None
  {
    if k > 0 {
      FindSnapFirst(snaps[1..], nombre, k - 1);
    }
  }

  /** append on a slice that uses the first `n` elements of `a`. */
  method Append(a: array<Snapshot>, n: nat, x: Snapshot) returns (b: array<Snapshot>)
    requires n <= a.Length
    modifies a
    ensures b == a || fresh(b)
    ensures n < b.Length && b[..n + 1] == old(a[..n]) + [x]
  {
    b := a;
    if n == a.Length {
      b := new Snapshot[2 * n + 1](i requires 0 <= i reads a => if i < a.Length then a[i] else x);
    }
    b[n] := x;
  }

  /** A kept snapshot moves to position `r`, and to the parent of the deleted one if it was its child. */
  method Keep(a: array<Snapshot>, r: nat, otro: Snapshot, snap: Snapshot)
    requires r < a.Length && otro != snap
    modifies a, otro
    ensures a[..r + 1] == old(a[..r]) + [otro] && forall k :: r < k < a.Length ==> a[k] == old(a[k])
    ensures otro.padre == Redirected(old(otro.padre), snap.nombre, snap.padre)
  {
    if otro.padre == snap.nombre {
      otro.padre := snap.padre;
    }
    a[r] := otro;
  }

  /** The first `i` snapshots have been re-parented, the others not yet. */
  ghost predicate Moved(todos: seq<Snapshot>, padres: seq<string>, snap: Snapshot, i: nat)
    reads todos, snap
  {
    && i <= |todos| == |padres|
    && (forall k :: 0 <= k < i && todos[k] != snap ==> todos[k].padre == Redirected(padres[k], snap.nombre, snap.padre))
    && (forall k :: i <= k < |todos| ==> todos[k].padre == padres[k])
  }

  /** The state of the deletion loop: what `a` holds before position `r` and from position `i` on. */
  ghost predicate Filtering(a: array<Snapshot>, todos: seq<Snapshot>, padres: seq<string>, snap: Snapshot, i: nat, r: nat)
    reads a, todos, snap
  {
    && r <= i <= |todos| <= a.Length
    && a[..r] == Filtered(todos[..i], snap)
    && (forall k :: i <= k < |todos| ==> a[k] == todos[k])
    && Moved(todos, padres, snap, i)
  }

  method FilterOne(a: array<Snapshot>, i: nat, r: nat, snap: Snapshot, ghost todos: seq<Snapshot>, ghost padres: seq<string>)
    returns (r': nat)
    requires i < |todos| && Distinct(todos) && Filtering(a, todos, padres, snap, i, r)
    modifies a, todos
    ensures Filtering(a, todos, padres, snap, i + 1, r') && snap.padre == old(snap.padre)
  {
    FilteredSnoc(todos, snap, i);
    var otro := a[i];
    r' := r;
    if otro != snap {
      Keep(a, r, otro, snap);
      r' := r + 1;
    }
  }

  /** The deletion loop: `a[..r]` takes the kept elements, over the array being read. */
  method FilterInPlace(a: array<Snapshot>, n: nat, snap: Snapshot) returns (r: nat)
    requires n <= a.Length && Distinct(a[..n])
    modifies a, a[..n]
    ensures r <= n && a[..r] == Filtered(old(a[..n]), snap)
    ensures snap.padre == old(snap.padre)
    ensures forall k :: 0 <= k < n && old(a[k]) != snap ==> old(a[k]).padre == Redirected(old(a[k].padre), snap.nombre, snap.padre)
  {
    ghost var todos, padres := a[..n], seq(n, k requires 0 <= k < n reads a, a[..n] => a[k].padre);
    var i := 0;
    r := 0;
    assert todos[..0] == [] && a[..0] == [];
    assert Filtering(a, todos, padres, snap, 0, 0);
    hide Filtering, Filtered, Moved;
    while i < n
      invariant i <= n && Filtering(a, todos, padres, snap, i, r) && snap.padre == old(snap.padre)
    {
      r := FilterOne(a, i, r, snap, todos, padres);
      i := i + 1;
    }
    AllFiltered(a, todos, padres, snap, r);
  }

  lemma AllFiltered(a: array<Snapshot>, todos: seq<Snapshot>, padres: seq<string>, snap: Snapshot, r: nat)
    requires |padres| == |todos| && Filtering(a, todos, padres, snap, |todos|, r)
    ensures r <= |todos| <= a.Length && a[..r] == Filtered(todos, snap)
    ensures forall k :: 0 <= k < |todos| && todos[k] != snap ==> todos[k].padre == Redirected(padres[k], snap.nombre, snap.padre)
  {
    assert todos[..|todos|] == todos;
  }

  lemma EffectOf(c: Config, i: Inst, e: Efecto, pid: nat)
    ensures e.Creacion? || e.Destruir? ==> Efectuar(c, i, e, pid) == (i, OK)
    ensures e.Energia? ==> Efectuar(c, i, e, pid) == AplicarAccion(c, i, e.accion, pid)
    ensures e.Tomar? ==> Efectuar(c, i, e, pid) == (i.(snaps := Take(i.snaps, e.snap), actual := e.snap.nombre), OK)
    ensures e.Revertir? ==> Efectuar(c, i, e, pid).1 == OK
    ensures e.BorrarSnap? ==> var padre := ParentOf(i.snaps, e.nombre);
      Efectuar(c, i, e, pid) == (i.(snaps := Delete(i.snaps, e.nombre, padre), actual := Redirected(i.actual, e.nombre, padre)), OK)
  {
    hide AplicarAccion, Delete, ParentOf, Take;
  }

  /** The number that a pending value gives, or the one in use. */
  function Leido(c: Config, pendiente: map<string, string>, clave: string, enUso: int): int {
    if clave !in pendiente then enUso
    else match c.sscan(pendiente[clave]) case None => enUso case Some(n) => n
  }

  /** An edit, field by field: on a running VM cores, memory and sockets are deferred, and everything else is in use at once. */
  lemma EditTouches(c: Config, i: Inst, params: map<string, string>, elegido: string)
    ensures var j := Editada(c, i, params, elegido);
      if i.tipo.Qemu? && i.estado.Running? then
        && j.cores == i.cores && j.memoriaMB == i.memoriaMB
        && (forall k :: k in j.pendiente <==> k in i.pendiente || (k in params && k in {"cores", "memory", "sockets"}))
        && (forall k :: k in j.pendiente ==> j.pendiente[k] == if k in params && k in {"cores", "memory", "sockets"} then params[k] else i.pendiente[k])
      else
        && j.cores == Leido(c, params, "cores", i.cores) && j.memoriaMB == Leido(c, params, "memory", i.memoriaMB)
        && j.pendiente == i.pendiente
    ensures var j := Editada(c, i, params, elegido);
      && j.swapMB == Leido(c, params, "swap", i.swapMB) && j.nombre == elegido
      && j.estado == i.estado && j.pid == i.pid && j.lock == i.lock && j.snaps == i.snaps && j.actual == i.actual
  {
    var m := params - {"digest"};
    var d := m - (m.Keys - DEFERRED);
    forall k ensures k in d <==> k in params && k in DEFERRED {
    }
    assert forall k :: k in d ==> d[k] == params[k];
    assert forall k :: k in NUMERIC && k in params ==> k in m && m[k] == params[k];
    assert "swap" !in DEFERRED && "cores" in DEFERRED && "memory" in DEFERRED;
  }

  /** The other parameters go to the configuration, but for the names and the digest. */
  lemma EditSetsConfig(c: Config, i: Inst, params: map<string, string>, elegido: string, k: string)
    ensures var j := Editada(c, i, params, elegido);
      && (k in j.config <==> k in i.config || (Libre(i, k) && k in params))
      && (k in j.config ==> j.config[k] == if Libre(i, k) && k in params then params[k] else i.config[k])
  {
    var m := params - {"digest"};
    var usados := if i.tipo.Qemu? && i.estado.Running? then m - DEFERRED else m;
    assert k in usados - NUMERIC - NAMES <==> k in params && Libre(i, k);
    assert Editada(c, i, params, elegido).config == i.config + (usados - NUMERIC - NAMES);
  }

  /** The parameter is set in the configuration at once. */
  predicate Libre(i: Inst, k: string) {
    && k !in {"cores", "memory", "swap", "name", "hostname", "digest"}
    && (k == "sockets" ==> i.tipo.Lxc? || !i.estado.Running?)
  }

  /** What one iteration of the simulator does to the instance of its task. */
  lemma SeenFromInstance(c: Config, s: Sim, id: TaskId)
    requires id in s.tareas && s.tareas[id].vmid in s.instancias && !s.tareas[id].efecto.Destruir?
    ensures var s1, t := Terminar(c, s, id), s.tareas[id];
      var i, pid := s.instancias[t.vmid], s.proximoPID + 13;
      var (j, r) := Efectuar(c, i, t.efecto, pid);
      && t.vmid in s1.instancias && s1.instancias[t.vmid] == (if Activa(s1, t.vmid) then j else j.(lock := ""))
      && s1.tareas[id].resultado == r
      && s1.proximoPID == if t.efecto.Energia? && Enciende(i, t.efecto.accion) then pid else s.proximoPID
  {
    hide Efectuar, Enciende;
  }

  class Instancia {
    const tipo: Tipo
    const ha: bool
    var estado: Estado
    var cores: int
    var memoriaMB: int
    var swapMB: int
    var nombre: string
    var lock: string
    var config: map<string, string>
    var pendiente: map<string, string>
    var datos: array<Snapshot>
    var n: nat
    var actual: string
    var pid: nat

    ghost function Snapshots(): seq<Snapshot>
      reads `n, `datos, datos
    {
      if n <= datos.Length then datos[..n] else []
    }

    ghost function Lista(): seq<Snap>
      reads `n, `datos, datos, Snapshots()
    {
      Values(Snapshots())
    }

    ghost function Repr(): set<object>
      reads `n, `datos, datos
    {
      {this, datos} + set s | s in Snapshots()
    }

    ghost predicate Valid()
      reads `n, `datos, `pendiente, datos
    {
      n <= datos.Length && Distinct(Snapshots()) && pendiente.Keys <= DEFERRED
    }

    ghost function View(): Inst
      reads this, datos, Snapshots()
    {
      Inst(tipo, ha, estado, cores, memoriaMB, swapMB, nombre, lock, config, pendiente,
           Lista(), actual, pid)
    }

    /** A new instance, stopped and without snapshots (crearInstancia). */
    constructor (p: Pedido)
      requires p.Crear?
      ensures Valid() && fresh(Repr())
      ensures View() == NuevaInst(p)
    {
      tipo, ha, estado := p.tipo, false, Stopped;
      cores, memoriaMB, swapMB := p.cores, p.memoriaMB, if p.tipo.Lxc? then p.swapMB else 0;
      nombre, lock, config, pendiente := p.nombre, "", p.config, map[];
      datos, n, actual, pid := new Snapshot[0], 0, "", 0;
    }

    // ---------- Configuration ----------

    method SetConfig(c: Config, key: string, value: string)
      requires Valid()
      modifies `cores, `memoriaMB, `swapMB, `nombre, `config
      ensures Valid() && Lista() == old(Lista())
      ensures View() == SetOne(c, old(View()), key, value)
      ensures cores == if key == "cores" && c.sscan(value).Some? then c.sscan(value).value else old(cores)
      ensures memoriaMB == if key == "memory" && c.sscan(value).Some? then c.sscan(value).value else old(memoriaMB)
      ensures swapMB == if key == "swap" && c.sscan(value).Some? then c.sscan(value).value else old(swapMB)
      ensures nombre == if key == "name" || key == "hostname" then value else old(nombre)
      ensures config == if key in {"cores", "memory", "swap", "name", "hostname"} then old(config) else old(config)[key := value]
    {
      if key == "cores" {
        if c.sscan(value).Some? { cores := c.sscan(value).value; }
      } else if key == "memory" {
        if c.sscan(value).Some? { memoriaMB := c.sscan(value).value; }
      } else if key == "swap" {
        if c.sscan(value).Some? { swapMB := c.sscan(value).value; }
      } else if key in NAMES {
        nombre := value;
      } else {
        config := config[key := value];
      }
    }

    /** The pending map is walked in any order. */
    method AplicarPendientes(c: Config)
      requires Valid()
      modifies `cores, `memoriaMB, `swapMB, `nombre, `config, `pendiente
      ensures Valid() && Lista() == old(Lista())
      ensures View() == SetAll(c, old(View()), old(pendiente), old(nombre)).(pendiente := map[])
    {
      ghost var before, m := View(), pendiente;
      ghost var hecho: map<string, string> := map[];
      var porAplicar := pendiente.Keys;
      SetNothing(c, before);
      while porAplicar != {}
        invariant m == pendiente && Valid() && Lista() == old(Lista())
        invariant Partial(m, hecho, porAplicar)
        invariant View() == SetAll(c, before, hecho, before.nombre)
        decreases porAplicar
      {
        var key :| key in porAplicar;
        PartialStep(c, before, m, hecho, porAplicar, before.nombre, key);
        SetConfig(c, key, pendiente[key]);
        hecho := hecho[key := m[key]];
        porAplicar := porAplicar - {key};
      }
      PartialEnd(m, hecho);
      pendiente := map[];
    }

    /** The loop of editarConfig over the accepted parameters, in any order. */
    method Editar(c: Config, params: map<string, string>) returns (ghost elegido: string)
      requires Valid()
      modifies `cores, `memoriaMB, `swapMB, `nombre, `config, `pendiente
      ensures Valid() && Lista() == old(Lista())
      ensures NameAfter(params - {"digest"}, old(nombre), elegido)
      ensures View() == Editada(c, old(View()), params, elegido)
    {
      ghost var before, m := View(), params - {"digest"};
      ghost var hecho: map<string, string> := map[];
      var porAplicar := params.Keys - {"digest"};
      EditNothing(c, before);
      elegido := nombre;
      while porAplicar != {}
        invariant Valid() && Lista() == old(Lista())
        invariant Partial(m, hecho, porAplicar) && NameAfter(hecho, before.nombre, elegido)
        invariant View() == Editada(c, before, hecho, elegido)
        decreases porAplicar
      {
        var key :| key in porAplicar;
        EditStep(c, before, m, hecho, porAplicar, elegido, key);
        EditarUno(c, key, params[key]);
        hecho, elegido := hecho[key := m[key]], if key in NAMES then m[key] else elegido;
        porAplicar := porAplicar - {key};
      }
      PartialEnd(m, hecho);
      assert Editada(c, before, m, elegido) == Editada(c, before, params, elegido) by { assert m - {"digest"} == m; }
    }

    method EditarUno(c: Config, key: string, value: string)
      requires Valid()
      modifies `cores, `memoriaMB, `swapMB, `nombre, `config, `pendiente
      ensures Valid() && Lista() == old(Lista())
      ensures View() == EditOne(c, old(View()), key, value)
      ensures key in {"cores", "memory", "sockets"} && tipo.Qemu? && estado.Running? ==>
        pendiente == old(pendiente)[key := value] && cores == old(cores) && memoriaMB == old(memoriaMB) && config == old(config)
      ensures !(key in {"cores", "memory", "sockets"} && tipo.Qemu? && estado.Running?) ==> pendiente == old(pendiente)
    {
      var enCaliente := tipo.Lxc? || !estado.Running?;
      if key in DEFERRED && !enCaliente {
        pendiente := pendiente[key := value];
      } else {
        SetConfig(c, key, value);
      }
    }

    // ---------- Power actions ----------

    method Encendido(c: Config, nuevoPid: nat)
      requires Valid()
      modifies `cores, `memoriaMB, `swapMB, `nombre, `config, `pendiente, `estado, `pid
      ensures Valid() && Lista() == old(Lista())
      ensures View() == Encender(c, old(View()), nuevoPid)
    {
      estado, pid := Running, nuevoPid;
      AplicarPendientes(c);
    }

    /** aplicarAccion: the new PID is taken only when the instance is switched on. */
    method Accionar(c: Config, accion: Accion, nuevoPid: nat) returns (r: Resultado, encendida: bool)
      requires Valid()
      modifies `cores, `memoriaMB, `swapMB, `nombre, `config, `pendiente, `estado, `pid
      ensures Valid() && Lista() == old(Lista())
      ensures (View(), r) == AplicarAccion(c, old(View()), accion, nuevoPid)
      ensures encendida == Enciende(old(View()), accion)
      ensures encendida <==> match accion
        case Start => !old(estado).Running?
        case Reboot => old(estado).Running?
        case Resume => old(estado).Paused?
        case _ => false
      ensures encendida ==> estado == Running && pid == nuevoPid && r == OK && pendiente == map[]
      ensures encendida ==>
        && cores == Leido(c, old(pendiente), "cores", old(cores))
        && memoriaMB == Leido(c, old(pendiente), "memory", old(memoriaMB))
        && swapMB == Leido(c, old(pendiente), "swap", old(swapMB))
      ensures !encendida ==> cores == old(cores) && memoriaMB == old(memoriaMB) && swapMB == old(swapMB)
      ensures !encendida ==> pendiente == old(pendiente) && config == old(config)
      ensures nombre == old(nombre) && actual == old(actual) && lock == old(lock)
      ensures (accion.Stop? && !old(estado).Stopped?) || (accion.Shutdown? && old(estado).Running?) ==> estado == Stopped && pid == 0 && r == OK
      ensures accion.Stop? && old(estado).Stopped? ==> estado == Stopped && pid == old(pid) && r == OK
      ensures accion.Reset? ==> estado == old(estado) && pid == old(pid) && r == if estado.Running? then OK else NoEncendida
      ensures accion.Start? && old(estado).Running? ==> estado == Running && pid == old(pid) && r == YaEncendida
      ensures (accion.Shutdown? || accion.Reboot?) && !old(estado).Running? ==> estado == old(estado) && pid == old(pid) && r == NoEncendida
      ensures accion.Resume? && !old(estado).Paused? ==> estado == old(estado) && pid == old(pid) && r == NoPausada
    {
      r, encendida := OK, false;
      match accion {
        case Start =>
          if estado.Running? { return YaEncendida, false; }
          Encendido(c, nuevoPid);
          encendida := true;
        case Stop =>
          if estado.Running? || estado.Paused? { estado, pid := Stopped, 0; }
        case Shutdown =>
          if !estado.Running? { return NoEncendida, false; }
          estado, pid := Stopped, 0;
        case Reboot =>
          if !estado.Running? { return NoEncendida, false; }
          Encendido(c, nuevoPid);
          encendida := true;
        case Resume =>
          if !estado.Paused? { return NoPausada, false; }
          Encendido(c, nuevoPid);
          encendida := true;
        case Reset =>
          if !estado.Running? { return NoEncendida, false; }
      }
    }

    // ---------- Snapshots ----------

    /** buscarSnapshot */
    method BuscarSnapshot(nombre: string) returns (snap: Snapshot?)
      requires Valid()
      ensures FindSnap(Lista(), nombre) == if snap == null then None else Some(snap.Value())
      ensures snap != null ==> snap in Snapshots() && snap.nombre == nombre
    {
      var i := 0;
      while i < n
        invariant i <= n
        invariant forall j :: 0 <= j < i ==> Lista()[j].nombre != nombre
      {
        assert Lista()[i] == datos[i].Value();
        if datos[i].nombre == nombre {
          FindSnapFirst(Lista(), nombre, i);
          return datos[i];
        }
        i := i + 1;
      }
      FindSnapFirst(Lista(), nombre, n);
      snap := null;
    }

    /** append to the list of snapshots, in place when there is room. */
    method Anexar(snap: Snapshot)
      requires Valid() && snap !in Snapshots()
      modifies `datos, `n, datos
      ensures Valid() && (datos == old(datos) || fresh(datos))
      ensures Snapshots() == old(Snapshots()) + [snap] && Lista() == old(Lista()) + [snap.Value()]
    {
      ghost var antes := Snapshots();
      datos := Append(datos, n, snap);
      n := n + 1;
      assert Snapshots() == antes + [snap] && Snapshots()[..|antes|] == antes;
      SameValues(antes);
    }

    /** The effect of a snapshot task. */
    method AnadirSnapshot(s: Snap)
      requires Valid()
      modifies `datos, `n, `actual, datos
      ensures Valid() && fresh(Repr() - old(Repr()))
      ensures View() == old(View()).(snaps := Take(old(Lista()), s), actual := s.nombre)
    {
      var snap := new Snapshot(s);
      SameValues(Snapshots());
      Anexar(snap);
      assert Lista() == Take(old(Lista()), s);
      PonerActual(snap.nombre);
    }

    method PonerActual(nombre: string)
      requires Valid()
      modifies `actual
      ensures Valid() && Repr() == old(Repr())
      ensures View() == old(View()).(actual := nombre)
    {
      actual := nombre;
    }

    /** The effect of a rollback task. */
    method Restaurar(s: Snap)
      requires Valid()
      modifies `estado, `pid, `cores, `memoriaMB, `pendiente, `actual
      ensures Valid() && Lista() == old(Lista())
      ensures forall c: Config, p: nat :: View() == Efectuar(c, old(View()), Revertir(s), p).0
    {
      if estado.Running? { estado, pid := Stopped, 0; }
      cores, memoriaMB := s.cores, s.memoriaMB;
      pendiente := map[];
      actual := s.nombre;
    }

    /** The effect of a snapshot deletion on the list: filtered in place, children pass to the parent. */
    method Filtrar(snap: Snapshot)
      requires Valid() && snap in Snapshots()
      requires forall s :: s in Snapshots() && s.nombre == snap.nombre ==> s == snap
      modifies `n, datos, Snapshots()
      ensures Valid() && Snapshots() == Filtered(old(Snapshots()), snap) && snap.padre == old(snap.padre)
      ensures snap.padre == ParentOf(old(View()).snaps, snap.nombre)
      ensures View() == old(View()).(snaps := Delete(old(View()).snaps, snap.nombre, ParentOf(old(View()).snaps, snap.nombre)))
    {
      ghost var todos, antes := Snapshots(), Lista();
      ParentIs(todos, snap);
      n := FilterInPlace(datos, n, snap);
      FilteredDistinct(todos, snap);
      FilteredValues(todos, snap, antes, snap.padre);
    }

    method QuitarSnapshot(snap: Snapshot)
      requires Valid() && snap in Snapshots()
      requires forall s :: s in Snapshots() && s.nombre == snap.nombre ==> s == snap
      modifies `n, `actual, datos, Snapshots()
      ensures Valid() && Repr() <= old(Repr())
      ensures var antes, padre := old(View()), ParentOf(old(View()).snaps, snap.nombre);
        View() == antes.(snaps := Delete(antes.snaps, snap.nombre, padre), actual := Redirected(antes.actual, snap.nombre, padre))
    {
      hide Delete, ParentOf;
      Filtrar(snap);
      Redirigir(snap);
    }

    method Redirigir(snap: Snapshot)
      requires Valid()
      modifies `actual
      ensures Valid() && View() == old(View()).(actual := Redirected(old(View()).actual, snap.nombre, snap.padre))
    {
      if actual == snap.nombre {
        actual := snap.padre;
      }
    }

    // ---------- The effect of a task ----------

    method PonerLock(l: string)
      requires Valid()
      modifies `lock
      ensures Valid() && Lista() == old(Lista())
      ensures View() == old(View()).(lock := l)
    {
      lock := l;
    }

    /** The closure that a task runs when it ends (a destruction acts on the inventory instead). */
    method Terminar(c: Config, e: Efecto, nuevoPid: nat) returns (r: Resultado, encendida: bool)
      requires Valid() && TreeOk(Lista(), actual) && (e.BorrarSnap? ==> Names(Lista(), e.nombre))
      modifies Repr()
      ensures Valid() && fresh(Repr() - old(Repr()))
      ensures (View(), r) == Efectuar(c, old(View()), e, nuevoPid)
      ensures encendida == (e.Energia? && Enciende(old(View()), e.accion))
    {
      EffectOf(c, View(), e, nuevoPid);
      hide Efectuar, Take, Delete, ParentOf, Redirected, AplicarAccion, Enciende;
      r, encendida := OK, false;
      match e {
        case Creacion =>
        case Energia(accion) => r, encendida := Accionar(c, accion, nuevoPid);
        case Tomar(snap) => AnadirSnapshot(snap);
        case Revertir(snap) => Restaurar(snap);
        case BorrarSnap(nombre) => BorrarPorNombre(nombre);
        case Destruir =>
      }
    }

    /** crearTarea, on the object: the instance is locked while a task with a lock runs. */
    method Empezar(c: Config, ghost s: Sim, ahora: int, ghost vmid: Vmid, candado: string, efecto: Efecto)
      requires Valid() && vmid in s.instancias && View() == s.instancias[vmid]
      modifies `lock
      ensures Valid() && Lista() == old(Lista())
      ensures View() == SimModel.CrearTarea(c, s, ahora, vmid, candado, efecto).instancias[vmid]
    {
      if candado != "" { PonerLock(candado); }
    }

    /**
      One iteration of finalizarTareas, on the object: the closure of the task, and
      the lock dropped if no other task of the instance runs.  It is the iteration
      of the simulator `s`, seen from its instance.
     */
    method Acabar(c: Config, ghost s: Sim, ghost id: TaskId, e: Efecto, nuevoPid: nat, sigueActiva: bool) returns (r: Resultado, encendida: bool)
      requires id in s.tareas && s.tareas[id].vmid in s.instancias && View() == s.instancias[s.tareas[id].vmid]
      requires e == s.tareas[id].efecto && !e.Destruir? && nuevoPid == s.proximoPID + 13
      requires sigueActiva == Activa(SimModel.Terminar(c, s, id), s.tareas[id].vmid)
      requires Valid() && TreeOk(Lista(), actual) && (e.BorrarSnap? ==> Names(Lista(), e.nombre))
      modifies Repr()
      ensures Valid() && fresh(Repr() - old(Repr()))
      ensures var s1, vmid := SimModel.Terminar(c, s, id), s.tareas[id].vmid;
        && vmid in s1.instancias && View() == s1.instancias[vmid] && r == s1.tareas[id].resultado
        && s1.proximoPID == if encendida then nuevoPid else s.proximoPID
    {
      SeenFromInstance(c, s, id);
      hide Efectuar, Enciende, SimModel.Terminar;
      r, encendida := Terminar(c, e, nuevoPid);
      if !sigueActiva { PonerLock(""); }
    }

    /** The closure of a deletion finds its snapshot again by name. */
    method BorrarPorNombre(nombre: string)
      requires Valid() && TreeOk(Lista(), actual) && Names(Lista(), nombre)
      modifies `n, `actual, datos, Snapshots()
      ensures Valid() && Repr() <= old(Repr())
      ensures var antes, padre := old(View()), ParentOf(old(View()).snaps, nombre);
        View() == antes.(snaps := Delete(antes.snaps, nombre, padre), actual := Redirected(antes.actual, nombre, padre))
    {
      hide Delete, ParentOf, Redirected;
      FoundByName(nombre);
      var snap := BuscarSnapshot(nombre);
      QuitarSnapshot(snap);
    }

    lemma FoundByName(nombre: string)
      requires Valid() && TreeOk(Lista(), actual) && Names(Lista(), nombre)
      ensures FindSnap(Lista(), nombre).Some?
      ensures forall s, t :: s in Snapshots() && t in Snapshots() && s.nombre == t.nombre ==> s == t
    {
      FindSnapNames(Lista(), nombre);
      forall s, t | s in Snapshots() && t in Snapshots() && s.nombre == t.nombre ensures s == t {
        SameNameSameSnapshot(s, t);
      }
    }

    lemma SameNameSameSnapshot(s: Snapshot, t: Snapshot)
      requires Valid() && TreeOk(Lista(), actual) && s in Snapshots() && t in Snapshots() && s.nombre == t.nombre
      ensures s == t
    {
      var i :| 0 <= i < n && Snapshots()[i] == s;
      var j :| 0 <= j < n && Snapshots()[j] == t;
      assert Lista()[i].nombre == Lista()[j].nombre;
    }
  }
}
