/**
  The list of reservations that CuotasService keeps in the store: which calls add
  to it, which take away, and what the failures of the store leave behind.
 */
module ReservationLedger {
  import opened Wrappers
  import opened KeyStore
  import opened Int64
  import opened CapacityMath
  import opened Capacity
  import Reconfiguration

  function Ids(reservas: seq<Reserva>): seq<nat> {
    if reservas == [] then [] else Ids(reservas[..|reservas| - 1]) + [reservas[|reservas| - 1].id]
  }

  /** What a removal leaves. */
  function Sin(reservas: seq<Reserva>, id: nat): seq<Reserva> {
    if reservas == [] then []
    else
      var r := reservas[|reservas| - 1];
      Sin(reservas[..|reservas| - 1], id) + (if r.id == id then [] else [r])
  }

  function NodoDe(reservas: seq<Reserva>, id: nat): string {
    if reservas == [] then ""
    else if reservas[|reservas| - 1].id == id then reservas[|reservas| - 1].nodo
    else NodoDe(reservas[..|reservas| - 1], id)
  }

  /** quitarReservaYObtenerNodo: the slice is filtered over itself. */
  method QuitarReserva(a: array<Reserva>, n: nat, id: nat) returns (m: nat, nodo: string)
    requires n <= a.Length
    modifies a
    ensures m <= n && a[..m] == Sin(old(a[..n]), id)
    ensures nodo == NodoDe(old(a[..n]), id)
  {
    ghost var todas := a[..n];
    var i := 0;
    m, nodo := 0, "";
    while i < n
      invariant m <= i <= n
      invariant a[..m] == Sin(todas[..i], id) && nodo == NodoDe(todas[..i], id)
      invariant forall k :: i <= k < n ==> a[k] == todas[k]
    {
      assert todas[..i + 1][..i] == todas[..i];
      var r := a[i];
      if r.id == id {
        nodo := r.nodo;
      } else {
        ghost var antes := a[..m];
        a[m] := r;
        m := m + 1;
        assert a[..m] == antes + [r];
      }
      i := i + 1;
    }
    assert todas[..n] == todas;
  }

  lemma {:induction false} IdsOf(reservas: seq<Reserva>, id: nat)
    ensures id in Ids(reservas) <==> exists k :: 0 <= k < |reservas| && reservas[k].id == id
  {
    if reservas != [] {
      var init, last := reservas[..|reservas| - 1], |reservas| - 1;
      IdsOf(init, id);
      if k :| 0 <= k < |reservas| && reservas[k].id == id {
        if k < last { assert init[k].id == id; }
      }
      if k :| 0 <= k < |init| && init[k].id == id {
        assert reservas[k].id == id;
      }
      if reservas[last].id == id { assert id in Ids(reservas); }
    }
  }

  lemma RemovalOfLast(init: seq<Reserva>, r: Reserva, id: nat)
    ensures Sin(init + [r], id) == if r.id == id then Sin(init, id) else Sin(init, id) + [r]
  {
    assert (init + [r])[..|init|] == init && (init + [r])[|init|] == r;
    assert Sin(init, id) + [] == Sin(init, id);
  }

  lemma IdsSnoc(init: seq<Reserva>, r: Reserva)
    ensures Ids(init + [r]) == Ids(init) + [r.id]
  {
    assert (init + [r])[..|init|] == init;
  }

  lemma {:induction false} RemovalIds(reservas: seq<Reserva>, id: nat, x: nat)
    ensures x in Ids(Sin(reservas, id)) <==> x in Ids(reservas) && x != id
  {
    if reservas != [] {
      var init, r := reservas[..|reservas| - 1], reservas[|reservas| - 1];
      assert reservas == init + [r];
      RemovalIds(init, id, x);
      RemovalOfLast(init, r, id);
      IdsSnoc(init, r);
      IdsSnoc(Sin(init, id), r);
      hide Sin, Ids;
    }
  }

  lemma {:induction false} RemovalTwice(reservas: seq<Reserva>, id: nat)
    ensures Sin(Sin(reservas, id), id) == Sin(reservas, id)
  {
    if reservas != [] {
      var init, r := reservas[..|reservas| - 1], reservas[|reservas| - 1];
      assert reservas == init + [r];
      RemovalTwice(init, id);
      RemovalOfLast(init, r, id);
      RemovalOfLast(Sin(init, id), r, id);
      hide Sin;
    }
  }

  lemma {:induction false} RemovalOfNothing(reservas: seq<Reserva>, id: nat)
    requires id !in Ids(reservas)
    ensures Sin(reservas, id) == reservas
  {
    if reservas != [] {
      var init, r := reservas[..|reservas| - 1], reservas[|reservas| - 1];
      assert reservas == init + [r];
      IdsSnoc(init, r);
      assert Ids(reservas)[|Ids(init)|] == r.id && forall k :: 0 <= k < |Ids(init)| ==> Ids(reservas)[k] == Ids(init)[k];
      RemovalOfNothing(init, id);
      RemovalOfLast(init, r, id);
      hide Sin, Ids;
    }
  }

  /** A removal takes away its identifier and nothing else; repeating it changes nothing. */
  lemma RemovalIsExact(reservas: seq<Reserva>, id: nat)
    ensures forall x :: x in Ids(Sin(reservas, id)) <==> x in Ids(reservas) && x != id
    ensures Sin(Sin(reservas, id), id) == Sin(reservas, id)
    ensures id !in Ids(reservas) ==> Sin(reservas, id) == reservas
  {
    forall x ensures x in Ids(Sin(reservas, id)) <==> x in Ids(reservas) && x != id {
      RemovalIds(reservas, id, x);
    }
    RemovalTwice(reservas, id);
    if id !in Ids(reservas) { RemovalOfNothing(reservas, id); }
  }

  /** The node is that of an entry with the identifier, and there is none exactly when there is no such entry. */
  lemma {:induction false} NodeOfRemoved(reservas: seq<Reserva>, id: nat)
    ensures id !in Ids(reservas) ==> NodoDe(reservas, id) == ""
    ensures id in Ids(reservas) ==> exists k :: 0 <= k < |reservas| && reservas[k].id == id && reservas[k].nodo == NodoDe(reservas, id)
  {
    if reservas != [] {
      var init, last := reservas[..|reservas| - 1], |reservas| - 1;
      NodeOfRemoved(init, id);
      assert reservas == init + [reservas[last]];
      IdsSnoc(init, reservas[last]);
      assert forall k :: 0 <= k < last ==> init[k] == reservas[k];
    }
  }

  /** Removals of different identifiers can come in any order. */
  lemma {:induction false} RemovalsCommute(reservas: seq<Reserva>, a: nat, b: nat)
    ensures Sin(Sin(reservas, a), b) == Sin(Sin(reservas, b), a)
  {
    if reservas != [] {
      var init, r := reservas[..|reservas| - 1], reservas[|reservas| - 1];
      RemovalsCommute(init, a, b);
      RemovalOfLast(init, r, a);
      RemovalOfLast(init, r, b);
      assert init + [r] == reservas;
      RemovalOfLast(Sin(init, a), r, b);
      RemovalOfLast(Sin(init, b), r, a);
      hide Sin;
    }
  }

  // ---------- The calls ----------

  datatype Salida = Creada(vmid: int) | NoDespachada | Incierta

  /** `admitida`: the lock was taken, the list read and the capacity enough; `g1`, `g2`, `g`: how each save ended. */
  datatype Llamada =
    | Aprovisionar(r: Reserva, admitida: bool, g1: Escritura, salida: Salida, g2: Escritura)
    | Finalizar(id: nat, completada: bool, g: Escritura)

  function Tras(reservas: seq<Reserva>, c: Llamada): seq<Reserva> {
    match c
    case Aprovisionar(r, admitida, g1, salida, g2) =>
      if !admitida || g1.Perdida? then reservas
      else if g1.Dudosa? then reservas + [r]
      else (match salida
        case Creada(vmid) => reservas + [if g2.Surte() then r.(vmid := vmid) else r]
        case NoDespachada => if g2.Surte() then Sin(reservas + [r], r.id) else reservas + [r]
        case Incierta => reservas + [r])
    case Finalizar(id, completada, g) => if completada && g.Surte() then Sin(reservas, id) else reservas
  }

  function TrasTodas(cs: seq<Llamada>): seq<Reserva> {
    if cs == [] then [] else Tras(TrasTodas(cs[..|cs| - 1]), cs[|cs| - 1])
  }

  // ---------- The history, and what the ledger says about it ----------

  predicate Anota(c: Llamada, id: nat) {
    c.Aprovisionar? && c.r.id == id && c.admitida && c.g1.Surte()
  }

  /** The creation was, or may have been, dispatched. */
  predicate QuizasDespachada(c: Llamada, id: nat) {
    Anota(c, id) && c.g1.Hecha? && !c.salida.NoDespachada?
  }

  predicate Confirmada(c: Llamada, id: nat) {
    c.Finalizar? && c.id == id && c.completada
  }

  /** An entry without a creation: its save was reported as failed, or its removal was lost. */
  predicate Resto(c: Llamada, id: nat) {
    Anota(c, id) && (c.g1.Dudosa? || (c.salida.NoDespachada? && c.g2.Perdida?))
  }

  predicate Quitada(c: Llamada, id: nat) {
    Confirmada(c, id) && c.g.Surte()
  }

  /** Identifiers are fresh, and nothing is finalized before it is created. */
  ghost predicate Historia(cs: seq<Llamada>) {
    && (forall i, j :: 0 <= i < j < |cs| && cs[i].Aprovisionar? && cs[j].Aprovisionar? ==> cs[i].r.id != cs[j].r.id)
    && (forall i, j :: 0 <= i < j < |cs| && cs[i].Finalizar? && cs[j].Aprovisionar? ==> cs[i].id != cs[j].r.id)
  }

  ghost predicate AlgunaVez(cs: seq<Llamada>, id: nat) {
    exists i :: 0 <= i < |cs| && (QuizasDespachada(cs[i], id) || Resto(cs[i], id))
  }

  ghost predicate YaQuitada(cs: seq<Llamada>, id: nat) {
    exists i :: 0 <= i < |cs| && Quitada(cs[i], id)
  }

  lemma Snoc(cs: seq<Llamada>, id: nat)
    requires cs != []
    ensures var init, c := cs[..|cs| - 1], cs[|cs| - 1];
      && (AlgunaVez(cs, id) <==> AlgunaVez(init, id) || QuizasDespachada(c, id) || Resto(c, id))
      && (YaQuitada(cs, id) <==> YaQuitada(init, id) || Quitada(c, id))
  {
    var init, c := cs[..|cs| - 1], cs[|cs| - 1];
    assert forall i :: 0 <= i < |init| ==> init[i] == cs[i];
    if AlgunaVez(cs, id) {
      var i :| 0 <= i < |cs| && (QuizasDespachada(cs[i], id) || Resto(cs[i], id));
      assert i < |init| ==> init[i] == cs[i];
    }
    if YaQuitada(cs, id) {
      var i :| 0 <= i < |cs| && Quitada(cs[i], id);
      assert i < |init| ==> init[i] == cs[i];
    }
  }

  /** The history of an identifier begins with its own creation. */
  lemma FreshAtFirst(cs: seq<Llamada>)
    requires Historia(cs) && cs != [] && cs[|cs| - 1].Aprovisionar?
    ensures var init, id := cs[..|cs| - 1], cs[|cs| - 1].r.id;
      !AlgunaVez(init, id) && !YaQuitada(init, id)
  {
  }

  ghost predicate Dice(cs: seq<Llamada>, reservas: seq<Reserva>) {
    forall id :: id in Ids(reservas) <==> AlgunaVez(cs, id) && !YaQuitada(cs, id)
  }

  /** What one admitted call leaves in the list: the same without it, or one more. */
  lemma AdmittedIds(antes: seq<Reserva>, c: Llamada, id: nat)
    requires c.Aprovisionar? && c.r.id !in Ids(antes)
    ensures id in Ids(Tras(antes, c)) <==> id in Ids(antes) || QuizasDespachada(c, id) || Resto(c, id)
  {
    IdsSnoc(antes, c.r);
    if c.salida.Creada? { IdsSnoc(antes, c.r.(vmid := c.salida.vmid)); }
    RemovalOfLast(antes, c.r, c.r.id);
    RemovalOfNothing(antes, c.r.id);
    hide Sin, Ids;
  }

  lemma AdmittedCall(cs: seq<Llamada>, antes: seq<Reserva>)
    requires Historia(cs) && cs != [] && cs[|cs| - 1].Aprovisionar? && Dice(cs[..|cs| - 1], antes)
    ensures Dice(cs, Tras(antes, cs[|cs| - 1]))
  {
    var c := cs[|cs| - 1];
    FreshAtFirst(cs);
    assert c.r.id !in Ids(antes);
    forall id ensures id in Ids(Tras(antes, c)) <==> AlgunaVez(cs, id) && !YaQuitada(cs, id) {
      Snoc(cs, id);
      AdmittedIds(antes, c, id);
      hide AlgunaVez, YaQuitada, Tras, Ids, Historia;
    }
  }

  lemma FinalCall(cs: seq<Llamada>, antes: seq<Reserva>)
    requires cs != [] && cs[|cs| - 1].Finalizar? && Dice(cs[..|cs| - 1], antes)
    ensures Dice(cs, Tras(antes, cs[|cs| - 1]))
  {
    var c := cs[|cs| - 1];
    forall id ensures id in Ids(Tras(antes, c)) <==> AlgunaVez(cs, id) && !YaQuitada(cs, id) {
      Snoc(cs, id);
      RemovalIds(antes, c.id, id);
      hide AlgunaVez, YaQuitada, Ids, Sin;
    }
  }

  /** The ledger, after any history: what may have been dispatched or could not be taken out, and was not removed. */
  lemma {:induction false} LedgerIsHistory(cs: seq<Llamada>)
    requires Historia(cs)
    ensures forall id :: id in Ids(TrasTodas(cs)) <==> AlgunaVez(cs, id) && !YaQuitada(cs, id)
  {
    if cs != [] {
      var init := cs[..|cs| - 1];
      LedgerIsHistory(init);
      if cs[|cs| - 1].Aprovisionar? { AdmittedCall(cs, TrasTodas(init)); } else { FinalCall(cs, TrasTodas(init)); }
    }
  }

  ghost predicate StoreWorks(cs: seq<Llamada>) {
    forall i :: 0 <= i < |cs| ==> match cs[i]
      case Aprovisionar(_, _, g1, _, g2) => g1.Hecha? && g2.Hecha?
      case Finalizar(_, _, g) => g.Hecha?
  }

  /** With the store working: exactly the creations that were or may have been dispatched and were not confirmed. */
  lemma LedgerIsExact(cs: seq<Llamada>, id: nat)
    requires Historia(cs) && StoreWorks(cs)
    ensures id in Ids(TrasTodas(cs)) <==>
      (exists i :: 0 <= i < |cs| && QuizasDespachada(cs[i], id)) && !(exists i :: 0 <= i < |cs| && Confirmada(cs[i], id))
  {
    LedgerIsHistory(cs);
    assert (exists i :: 0 <= i < |cs| && Confirmada(cs[i], id)) <==> YaQuitada(cs, id) by {
      if i :| 0 <= i < |cs| && Confirmada(cs[i], id) { assert Quitada(cs[i], id); }
      if i :| 0 <= i < |cs| && Quitada(cs[i], id) { assert Confirmada(cs[i], id); }
    }
  }

  /** Whatever the store does, capacity that may be in use is never forgotten. */
  lemma LedgerNeverForgets(cs: seq<Llamada>, i: nat, id: nat)
    requires Historia(cs) && i < |cs| && QuizasDespachada(cs[i], id)
    requires forall j :: 0 <= j < |cs| ==> !Confirmada(cs[j], id)
    ensures id in Ids(TrasTodas(cs))
  {
    LedgerIsHistory(cs);
    assert AlgunaVez(cs, id);
  }

  // ---------- Order ----------

  /** The position of the call that admitted an identifier. */
  function Momento(cs: seq<Llamada>, id: nat): int {
    if cs == [] then -1
    else if Anota(cs[|cs| - 1], id) then |cs| - 1
    else Momento(cs[..|cs| - 1], id)
  }

  ghost predicate Increasing(ids: seq<nat>, clave: nat -> int) {
    forall p, q :: 0 <= p < q < |ids| ==> clave(ids[p]) < clave(ids[q])
  }

  lemma {:induction false} RemovalKeepsOrder(reservas: seq<Reserva>, id: nat, clave: nat -> int)
    requires Increasing(Ids(reservas), clave)
    ensures Increasing(Ids(Sin(reservas, id)), clave)
  {
    if reservas != [] {
      var init, r := reservas[..|reservas| - 1], reservas[|reservas| - 1];
      assert init + [r] == reservas;
      IdsSnoc(init, r);
      assert forall p :: 0 <= p < |Ids(init)| ==> Ids(init)[p] == Ids(reservas)[p];
      RemovalKeepsOrder(init, id, clave);
      RemovalOfLast(init, r, id);
      if r.id != id {
        IdsSnoc(Sin(init, id), r);
        RemovalIsExact(init, id);
        BelowLast(Ids(init), Ids(Sin(init, id)), r.id, clave);
      }
    }
  }

  lemma BelowLast(ids: seq<nat>, fewer: seq<nat>, last: nat, clave: nat -> int)
    requires Increasing(ids + [last], clave) && Increasing(fewer, clave) && forall x :: x in fewer ==> x in ids
    ensures Increasing(fewer + [last], clave)
  {
    forall x | x in fewer ensures clave(x) < clave(last) {
      var p :| 0 <= p < |ids| && ids[p] == x;
      assert (ids + [last])[p] == x && (ids + [last])[|ids|] == last;
    }
    assert forall p :: 0 <= p < |fewer| ==> fewer[p] in fewer;
  }

  lemma {:induction false} MomentBounds(cs: seq<Llamada>, id: nat)
    ensures Momento(cs, id) < |cs|
  {
    if cs != [] { MomentBounds(cs[..|cs| - 1], id); }
  }

  /** What an admitted creation leaves: its own entry, with or without VMID, behind the others, or not at all. */
  lemma AdmittedKeepsOrder(antes: seq<Reserva>, c: Llamada, clave: nat -> int)
    requires c.Aprovisionar? && Increasing(Ids(antes) + [c.r.id], clave)
    ensures Increasing(Ids(Tras(antes, c)), clave)
  {
    IdsSnoc(antes, c.r);
    if c.salida.Creada? { IdsSnoc(antes, c.r.(vmid := c.salida.vmid)); }
    RemovalKeepsOrder(antes + [c.r], c.r.id, clave);
    assert Increasing(Ids(antes), clave) by {
      assert forall p :: 0 <= p < |Ids(antes)| ==> Ids(antes)[p] == (Ids(antes) + [c.r.id])[p];
    }
    hide Increasing, Ids, Sin;
  }

  /** The call at the end admits its own identifier, if any, and no other. */
  lemma LastMoment(cs: seq<Llamada>, id: nat)
    requires cs != []
    ensures Momento(cs, id) == if Anota(cs[|cs| - 1], id) then |cs| - 1 else Momento(cs[..|cs| - 1], id)
    ensures Momento(cs[..|cs| - 1], id) < |cs| - 1
  {
    MomentBounds(cs[..|cs| - 1], id);
  }

  /** An order by the calls before the last one is an order by all of them. */
  lemma StillIncreasing(cs: seq<Llamada>, ids: seq<nat>)
    requires cs != [] && Increasing(ids, (x: nat) => Momento(cs[..|cs| - 1], x))
    requires forall x :: x in ids ==> !Anota(cs[|cs| - 1], x)
    ensures Increasing(ids, (x: nat) => Momento(cs, x))
    ensures forall x :: x in ids ==> Momento(cs, x) < |cs| - 1
  {
    hide Momento, Anota;
    forall x | x in ids ensures Momento(cs, x) == Momento(cs[..|cs| - 1], x) < |cs| - 1 {
      LastMoment(cs, x);
    }
  }

  /** The ledger keeps its entries in the order in which they were admitted, without repetition. */
  lemma {:induction false} LedgerKeepsOrder(cs: seq<Llamada>)
    requires Historia(cs)
    ensures Increasing(Ids(TrasTodas(cs)), (id: nat) => Momento(cs, id))
  {
    if cs != [] {
      LedgerKeepsOrder(cs[..|cs| - 1]);
      LastKeepsOrder(cs);
    }
  }

  lemma LastKeepsOrder(cs: seq<Llamada>)
    requires Historia(cs) && cs != []
    requires Increasing(Ids(TrasTodas(cs[..|cs| - 1])), (x: nat) => Momento(cs[..|cs| - 1], x))
    ensures Increasing(Ids(TrasTodas(cs)), (x: nat) => Momento(cs, x))
  {
    hide Ids, Momento, Increasing, Sin, Historia;
    var c, antes := cs[|cs| - 1], TrasTodas(cs[..|cs| - 1]);
    if c.Aprovisionar? && c.admitida && c.g1.Surte() {
      Appended(cs, c.r.id);
      AdmittedKeepsOrder(antes, c, (x: nat) => Momento(cs, x));
    } else {
      StillIncreasing(cs, Ids(antes));
      if c.Finalizar? { RemovalKeepsOrder(antes, c.id, (x: nat) => Momento(cs, x)); }
    }
  }

  lemma Appended(cs: seq<Llamada>, id: nat)
    requires Historia(cs) && cs != [] && Anota(cs[|cs| - 1], id)
    requires Increasing(Ids(TrasTodas(cs[..|cs| - 1])), (x: nat) => Momento(cs[..|cs| - 1], x))
    ensures Increasing(Ids(TrasTodas(cs[..|cs| - 1])) + [id], (x: nat) => Momento(cs, x))
  {
    hide Ids, TrasTodas, AlgunaVez, YaQuitada, Momento;
    var ids := Ids(TrasTodas(cs[..|cs| - 1]));
    assert id !in ids by {
      LedgerIsHistory(cs[..|cs| - 1]);
      FreshAtFirst(cs);
    }
    StillIncreasing(cs, ids);
    LastMoment(cs, id);
    assert forall p :: 0 <= p < |ids| ==> ids[p] in ids;
  }

  // ---------- The service ----------

  const GIB: int := 1024 * MIB

  datatype Resultado = Creado(vmid: int, reserva: nat) | SinCapacidad | SinCoordinacion | SinLectura | Cancelada | ErrorDeCreacion

  datatype Peticion = Peticion(nodo: string, storage: string, cores: int, memoriaMB: int, discoGB: int)

  /** A reservation of the sizes asked for, in bytes. */
  function Reservar(id: nat, p: Peticion): Reserva {
    Reserva(id, 0, p.nodo, p.storage, CantidadEnBytes(p.memoriaMB, MIB).0, CantidadEnBytes(p.discoGB, GIB).0)
  }

  predicate Tamanos(p: Peticion) {
    CantidadEnBytes(p.memoriaMB, MIB).1 && CantidadEnBytes(p.discoGB, GIB).1
  }

  /** The sizes are valid, the lock is taken, list and capacity can be read, and all checks pass. */
  ghost predicate Admitida(reservas: seq<Reserva>, id: nat, p: Peticion, candado: Candado, legible: bool, cap: Option<Reconfiguration.Capacidad>) {
    && Tamanos(p) && candado.Tomado? && legible && cap.Some?
    && var r := Reservar(id, p);
      Reconfiguration.Admisible64(cap.value, reservas, Reconfiguration.Pedido(p.nodo, p.storage, p.cores, r.memoria, r.disco))
  }

  /** What is asked for, in bytes, is over the margin of the node or over what is left on the storage; or there is no such storage. */
  ghost predicate SinLugar(cap: Reconfiguration.Capacidad, reservas: seq<Reserva>, p: Peticion) {
    || p.memoriaMB * 1_048_576 > Margen64(cap.n, cap.insts, reservas, p.nodo)
    || (forall k :: Reconfiguration.Elegido(cap.storages, p.storage, k) ==>
          p.discoGB * 1_073_741_824 > Wrap64(cap.storages[k].avail - Reconfiguration.DiscoReservado(reservas, cap.storages[k], p.nodo)))
  }

  /** The sizes asked for are not negative and fit in 64 bits of bytes. */
  predicate EnRango(p: Peticion) {
    0 <= p.memoriaMB * 1_048_576 <= 9_223_372_036_854_775_807 && 0 <= p.discoGB * 1_073_741_824 <= 9_223_372_036_854_775_807
  }

  function EnBytes(id: nat, vmid: int, p: Peticion): Reserva {
    Reserva(id, vmid, p.nodo, p.storage, p.memoriaMB * 1_048_576, p.discoGB * 1_073_741_824)
  }

  /** A usable storage of that name, and enough of everything for what is asked for, in bytes. */
  ghost predicate HayLugar(cap: Reconfiguration.Capacidad, reservas: seq<Reserva>, p: Peticion) {
    exists k :: Reconfiguration.Elegido(cap.storages, p.storage, k) && Reconfiguration.Sobra(cap, reservas,
      Reconfiguration.Pedido(p.nodo, p.storage, p.cores, p.memoriaMB * 1_048_576, p.discoGB * 1_073_741_824), cap.storages[k])
  }

  lemma NoRoomIsNotEnough(cap: Reconfiguration.Capacidad, reservas: seq<Reserva>, p: Peticion)
    ensures SinLugar(cap, reservas, p) ==> !HayLugar(cap, reservas, p)
  {
  }

  lemma EnoughIffAdmissible(cap: Reconfiguration.Capacidad, reservas: seq<Reserva>, p: Peticion)
    ensures HayLugar(cap, reservas, p) <==> Reconfiguration.Admisible64(cap, reservas,
      Reconfiguration.Pedido(p.nodo, p.storage, p.cores, p.memoriaMB * 1_048_576, p.discoGB * 1_073_741_824))
  {
    Reconfiguration.ElegidoUnico(cap.storages, p.storage);
  }

  lemma SizesInBytes(p: Peticion)
    ensures CantidadEnBytes(p.memoriaMB, MIB).1 <==> 0 <= p.memoriaMB && p.memoriaMB * 1_048_576 <= 9_223_372_036_854_775_807
    ensures CantidadEnBytes(p.discoGB, GIB).1 <==> 0 <= p.discoGB && p.discoGB * 1_073_741_824 <= 9_223_372_036_854_775_807
    ensures CantidadEnBytes(p.memoriaMB, MIB).1 ==> CantidadEnBytes(p.memoriaMB, MIB).0 == p.memoriaMB * 1_048_576
    ensures CantidadEnBytes(p.discoGB, GIB).1 ==> CantidadEnBytes(p.discoGB, GIB).0 == p.discoGB * 1_073_741_824
  {
    SizesAreExact(p.memoriaMB, MIB);
    SizesAreExact(p.discoGB, GIB);
  }

  /** How a save ends that is only tried with the lock and the list at hand. */
  function Llega(candado: Candado, legible: bool, g: Escritura): Escritura {
    if candado.Tomado? && legible then g else Perdida
  }

  /** The call uses an identifier of its own. */
  ghost predicate Nueva(cs: seq<Llamada>, id: nat) {
    forall i :: 0 <= i < |cs| ==> match cs[i]
      case Aprovisionar(r, _, _, _, _) => r.id != id
      case Finalizar(x, _, _) => x != id
  }

  lemma NewIsHistory(cs: seq<Llamada>, c: Llamada)
    requires Historia(cs) && (c.Aprovisionar? ==> Nueva(cs, c.r.id))
    ensures Historia(cs + [c])
  {
  }

  /** CuotasService over the list in the store; `reservas` is what the store holds, `conFoto` the nodes with a cached reading. */
  class CuotasService {
    var reservas: seq<Reserva>
    var conFoto: set<string>
    var conEstado: bool
    ghost var llamadas: seq<Llamada>

    ghost predicate Valid()
      reads `reservas, `llamadas
    {
      reservas == TrasTodas(llamadas) && Historia(llamadas)
    }

    constructor ()
      ensures Valid() && llamadas == []
    {
      reservas, llamadas, conFoto, conEstado := [], [], {}, false;
    }

    /** A list read from the store is a slice of its own. */
    method Leer() returns (a: array<Reserva>)
      ensures fresh(a) && a[..] == reservas
    {
      a := new Reserva[|reservas|](i requires 0 <= i < |reservas| reads this => reservas[i]);
    }

    /** guardarReservas; the caller sees an error unless the save is done. */
    method Guardar(nuevas: seq<Reserva>, g: Escritura) returns (ok: bool)
      modifies `reservas
      ensures reservas == if g.Surte() then nuevas else old(reservas)
      ensures ok <==> g.Hecha?
    {
      if g.Surte() { reservas := nuevas; }
      ok := g.Hecha?;
    }

    /** invalidarCacheCapacidad */
    method Invalidar(nodo: string)
      modifies `conFoto, `conEstado
      ensures conFoto == old(conFoto) - {nodo} && !conEstado
    {
      conFoto, conEstado := conFoto - {nodo}, false;
    }

    ghost method Registrar(c: Llamada)
      requires reservas == Tras(TrasTodas(llamadas), c) && Historia(llamadas + [c])
      modifies `llamadas
      ensures Valid() && llamadas == old(llamadas) + [c]
    {
      llamadas := llamadas + [c];
      assert llamadas[..|llamadas| - 1] == old(llamadas);
    }

    /** quitarReserva and the save after it. */
    method Quitar(id: nat, g: Escritura) returns (nodo: string, ok: bool)
      modifies `reservas
      ensures reservas == (if g.Surte() then Sin(old(reservas), id) else old(reservas)) && nodo == NodoDe(old(reservas), id)
      ensures ok <==> g.Hecha?
    {
      var a := Leer();
      assert a[..a.Length] == a[..];
      var m;
      m, nodo := QuitarReserva(a, a.Length, id);
      ok := Guardar(a[..m], g);
    }

    /**
      AprovisionarInstancia: sizes, lock, list, capacity, and then the creation.
      A refusal before the creation changes nothing; the ledger and the history of
      calls stay in step in every case.
     */
    method AprovisionarInstancia(id: nat, p: Peticion, candado: Candado, legible: bool, cap: Option<Reconfiguration.Capacidad>,
                                 g1: Escritura, salida: Salida, g2: Escritura) returns (res: Resultado)
      requires Valid() && Nueva(llamadas, id)
      modifies this
      ensures Valid() && llamadas == old(llamadas) +
        [Aprovisionar(Reservar(id, p), Admitida(old(reservas), id, p, candado, legible, cap), g1, salida, g2)]
      ensures res.Creado? <==> Admitida(old(reservas), id, p, candado, legible, cap) && g1.Hecha? && salida.Creada?
      ensures res.Creado? ==> res.vmid == salida.vmid && res.reserva == id && id in Ids(reservas)
      ensures !Admitida(old(reservas), id, p, candado, legible, cap) || g1.Perdida? || (g1.Hecha? && salida.NoDespachada? && g2.Surte()) ==>
        reservas == old(reservas)
      ensures Admitida(old(reservas), id, p, candado, legible, cap) && g1.Hecha? && (salida.NoDespachada? ==> g2.Hecha?) ==> p.nodo !in conFoto && !conEstado
      ensures res.Creado? ==> reservas == old(reservas) + [EnBytes(id, if g2.Surte() then salida.vmid else 0, p)]
      ensures res.Creado? <==>
        candado.Tomado? && legible && cap.Some? && EnRango(p) && HayLugar(cap.value, old(reservas), p) && g1.Hecha? && salida.Creada?
      ensures p.memoriaMB < 0 || p.memoriaMB * 1_048_576 > 9_223_372_036_854_775_807 ==> !res.Creado? && reservas == old(reservas)
      ensures p.discoGB < 0 || p.discoGB * 1_073_741_824 > 9_223_372_036_854_775_807 ==> !res.Creado? && reservas == old(reservas)
      ensures cap.Some? && SinLugar(cap.value, old(reservas), p) ==> !res.Creado? && reservas == old(reservas)
    {
      hide Reconfiguration.Admisible64, Historia, Reconfiguration.Sobra, Reconfiguration.DiscoReservado, Margen64;
      SizesInBytes(p);
      if cap.Some? { NoRoomIsNotEnough(cap.value, reservas, p); }
      var r := Reserva(id, 0, p.nodo, p.storage, CantidadEnBytes(p.memoriaMB, MIB).0, CantidadEnBytes(p.discoGB, GIB).0);
      var rechazo := Revisar(id, p, candado, legible, cap);
      if rechazo.Some? {
        NewIsHistory(llamadas, Aprovisionar(r, false, g1, salida, g2));
        Registrar(Aprovisionar(r, false, g1, salida, g2));
        return rechazo.value;
      }
      res := Crear(r, g1, salida, g2);
    }

    /** What comes before the first save: sizes, lock, list and capacity, each refusal with its answer. */
    method Revisar(ghost id: nat, p: Peticion, candado: Candado, legible: bool, cap: Option<Reconfiguration.Capacidad>) returns (rechazo: Option<Resultado>)
      ensures rechazo.None? <==> Admitida(reservas, id, p, candado, legible, cap)
      ensures rechazo.None? <==> EnRango(p) && candado.Tomado? && legible && cap.Some? && HayLugar(cap.value, reservas, p)
      ensures rechazo.Some? ==> !rechazo.value.Creado?
      ensures EnRango(p) && candado.Cancelado? ==> rechazo == Some(Cancelada)
      ensures EnRango(p) && candado.Fallido? ==> rechazo == Some(SinCoordinacion)
      ensures !EnRango(p) || candado.Vencido? ==> rechazo == Some(SinCapacidad)
      ensures EnRango(p) && candado.Tomado? && (!legible || cap.None?) ==> rechazo == Some(SinLectura)
    {
      hide Reconfiguration.Admisible64, Reconfiguration.Sobra;
      SizesInBytes(p);
      if cap.Some? { EnoughIffAdmissible(cap.value, reservas, p); }
      hide HayLugar;
      var (memoria, memoriaValida) := CantidadEnBytes(p.memoriaMB, MIB);
      var (disco, discoValido) := CantidadEnBytes(p.discoGB, GIB);
      if !memoriaValida || !discoValido { return Some(SinCapacidad); }
      if candado != Tomado {
        return Some(match candado case Vencido => SinCapacidad case Cancelado => Cancelada case _ => SinCoordinacion);
      }
      if !legible || cap.None? { return Some(SinLectura); }
      var causa := Reconfiguration.ValidarCapacidad(cap.value, reservas, Reconfiguration.Pedido(p.nodo, p.storage, p.cores, memoria, disco));
      rechazo := if causa.Some? then Some(SinCapacidad) else None;
    }

    /** From the first save on: the admitted creation, what it answers, and what is saved after it. */
    method Crear(r: Reserva, g1: Escritura, salida: Salida, g2: Escritura) returns (res: Resultado)
      requires Valid() && Nueva(llamadas, r.id) && r.vmid == 0
      modifies this
      ensures Valid() && llamadas == old(llamadas) + [Aprovisionar(r, true, g1, salida, g2)]
      ensures res.Creado? <==> g1.Hecha? && salida.Creada?
      ensures res.Creado? ==> res.vmid == salida.vmid && res.reserva == r.id && r.id in Ids(reservas)
      ensures g1.Perdida? || (g1.Hecha? && salida.NoDespachada? && g2.Surte()) ==> reservas == old(reservas)
      ensures res.Creado? ==> reservas == old(reservas) + [if g2.Surte() then r.(vmid := salida.vmid) else r]
      ensures g1.Hecha? && (salida.NoDespachada? ==> g2.Hecha?) ==> r.nodo !in conFoto && !conEstado
    {
      ghost var c := Aprovisionar(r, true, g1, salida, g2);
      NewIsHistory(llamadas, c);
      ghost var antes := reservas;
      assert Sin(antes + [r], r.id) == antes by {
        FreshIn(llamadas, c);
        WithdrawnIsAsBefore(reservas, r);
      }
      assert g1.Hecha? && salida.Creada? ==> r.id in Ids(Tras(antes, c)) by {
      }
      hide Historia, Sin, Ids, TrasTodas, Nueva;
      var lista := reservas + [r];
      var guardada := Guardar(lista, g1);
      if !guardada {
        res := SinCoordinacion;
      } else {
        res := Concluir(antes, lista, r, salida, g2);
      }
      assert reservas == Tras(antes, c);
      Registrar(c);
    }

    /** What is saved once the creation has answered. */
    method Concluir(ghost antes: seq<Reserva>, lista: seq<Reserva>, r: Reserva, salida: Salida, g2: Escritura) returns (res: Resultado)
      requires reservas == lista == antes + [r] && Sin(lista, r.id) == antes
      modifies `reservas, `conFoto, `conEstado
      ensures reservas == Tras(antes, Aprovisionar(r, true, Hecha, salida, g2))
      ensures salida.NoDespachada? && g2.Surte() ==> reservas == antes
      ensures res.Creado? <==> salida.Creada?
      ensures res.Creado? ==> res.vmid == salida.vmid && res.reserva == r.id
      ensures (salida.NoDespachada? ==> g2.Hecha?) ==> r.nodo !in conFoto && !conEstado
    {
      hide Sin, Ids;
      match salida {
        case NoDespachada =>
          var _, quitada := Quitar(r.id, g2);
          if quitada { Invalidar(r.nodo); }
          res := if quitada then ErrorDeCreacion else SinCoordinacion;
        case Incierta =>
          Invalidar(r.nodo);
          res := ErrorDeCreacion;
        case Creada(vmid) =>
          assert lista[..|lista| - 1] == antes;
          Asociar(lista, vmid, g2);
          Invalidar(r.nodo);
          res := Creado(vmid, r.id);
      }
    }

    /** The VMID is put on the last reservation of the list, and the list is saved. */
    method Asociar(lista: seq<Reserva>, vmid: int, g: Escritura)
      requires lista != []
      modifies `reservas
      ensures reservas == if g.Surte() then lista[..|lista| - 1] + [lista[|lista| - 1].(vmid := vmid)] else old(reservas)
    {
      var ultima := lista[|lista| - 1];
      var nueva := lista[|lista| - 1 := ultima.(vmid := vmid)];
      assert nueva == lista[..|lista| - 1] + [ultima.(vmid := vmid)];
      var _ := Guardar(nueva, g);
    }

    /** LiberarReserva: under the lock; a task without a reservation only drops the cached state of the node. */
    method LiberarReserva(id: nat, candado: Candado, legible: bool, g: Escritura) returns (ok: bool)
      modifies `reservas, `conFoto, `conEstado
      ensures reservas == if Llega(candado, legible, g).Surte() then Sin(old(reservas), id) else old(reservas)
      ensures ok <==> Llega(candado, legible, g).Hecha?
      ensures ok ==> !conEstado && conFoto == if NodoDe(old(reservas), id) == "" then old(conFoto) else old(conFoto) - {NodoDe(old(reservas), id)}
    {
      hide Sin, NodoDe;
      ok := false;
      if candado.Tomado? && legible {
        var nodo;
        nodo, ok := Quitar(id, g);
        if ok {
          if nodo == "" { conEstado := false; } else { Invalidar(nodo); }
        }
      }
    }

    /** FinalizarReserva: only a completed creation gives its capacity back. */
    method FinalizarReserva(id: nat, completada: bool, candado: Candado, legible: bool, g: Escritura) returns (ok: bool)
      requires Valid()
      modifies this
      ensures Valid() && llamadas == old(llamadas) + [Finalizar(id, completada, Llega(candado, legible, g))]
      ensures reservas == if completada && Llega(candado, legible, g).Surte() then Sin(old(reservas), id) else old(reservas)
      ensures completada && Llega(candado, legible, g).Hecha? ==>
        !conEstado && conFoto == if NodoDe(old(reservas), id) == "" then old(conFoto) else old(conFoto) - {NodoDe(old(reservas), id)}
      ensures ok <==> !completada || Llega(candado, legible, g).Hecha?
    {
      hide Historia, Sin, NodoDe, TrasTodas;
      ghost var c := Finalizar(id, completada, Llega(candado, legible, g));
      NewIsHistory(llamadas, c);
      ok := true;
      if completada { ok := LiberarReserva(id, candado, legible, g); }
      Registrar(c);
    }
  }

  lemma WithdrawnIsAsBefore(reservas: seq<Reserva>, r: Reserva)
    requires r.id !in Ids(reservas)
    ensures Sin(reservas + [r], r.id) == reservas
  {
    RemovalOfNothing(reservas, r.id);
    RemovalOfLast(reservas, r, r.id);
  }

  lemma FreshIn(cs: seq<Llamada>, c: Llamada)
    requires Historia(cs) && Historia(cs + [c]) && c.Aprovisionar?
    ensures c.r.id !in Ids(TrasTodas(cs))
  {
    LedgerIsHistory(cs);
    assert (cs + [c])[..|cs|] == cs;
    FreshAtFirst(cs + [c]);
  }
}
