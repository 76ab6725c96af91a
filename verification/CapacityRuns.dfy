/**
  Admissions, creations, enlargements and releases on one node, with the capacity
  cache and everything that happens in Proxmox in between.  A section under the
  provisioning lock is split where the outside can move; `enCurso` is the lock
  between an admission and the answer of the creation.  Two paths work without
  the lock: a request that only raises vCPUs may write the cache, and a request
  whose memory does not rise, as measured, is applied unchecked.
 */
module CapacityRuns {
  import opened Wrappers
  import opened CapacityMath
  import opened Capacity

  /** A reservation and what really became of it: the VMID Proxmox gave (0 before), and whether it is in the inventory. */
  datatype Entrada = Entrada(r: Reserva, dado: int, aparecida: bool) {
    predicate Espera() { !aparecida && dado != 0 }
  }

  /** A capacity reading; `externo` is what outsiders had added by then. */
  datatype Foto = Foto(insts: seq<Instancia>, usada: int, externo: nat)

  /** A reconfiguration under way: the size it measured, and then the digest it will send. */
  datatype Pedido = Pedido(vmid: int, leido: int, digest: Option<int>)

  datatype State = State(
    insts: seq<Instancia>, digests: map<int, int>, usada: int, entradas: seq<Entrada>, cache: Option<Foto>, enCurso: bool,
    externo: nat, sinLock: map<nat, Foto>, pedidos: map<nat, Pedido>)

  /** `borra`: the cached reading is deleted after the step, as it should be; a failure of the deletion is ignored. */
  datatype Step =
    | Lee                                    // obtenerCapacidad, inside a section
    | Admite(r: Reserva)                     // validarCapacidad and the first guardarReservas
    | Despacha(k: nat, vmid: int)            // Proxmox takes the creation on
    | NoDespachada(borra: bool)              // ErrCreacionNoDespachada
    | Incierta(borra: bool)                  // any other error of the creation
    | Aceptada(guardado: bool, borra: bool)  // the VMID is attached, if it can be saved
    | Aparece(k: nat, mem: int, digest: int)
    | Libera(k: nat, borra: bool)            // FinalizarReserva of a completed creation
    | Mide(q: nat, i: nat)                   // Reconfigurar reads the inventory ...
    | LeeDigest(q: nat)                      // ... and, later, the digest of the configuration
    | Amplia(q: nat, i: nat, objetivo: int, enUso: bool, digest: int, borra: bool)  // a checked increment: the PUT under the lock
    | Directo(q: nat, i: nat, objetivo: int, enUso: bool, digest: int)  // no increment, as measured: the PUT without lock
    | Invalida                               // a rejected enlargement, or the cache expires
    | Uso(usada: int)
    | Cambia(i: nat, mem: int, digest: int)  // an edit, or pending values applied at a reboot
    | Quita(i: nat)
    | Agrega(inst: Instancia, digest: int)
    | LeeSinLock(q: nat)                     // the cores-only path reads Proxmox ...
    | EscribeSinLock(q: nat)                 // ... and writes the cache later

  datatype Node = Node(nombre: string, total: int)

  function Reservas(entradas: seq<Entrada>): seq<Reserva> {
    if entradas == [] then [] else Reservas(entradas[..|entradas| - 1]) + [entradas[|entradas| - 1].r]
  }

  /** What admitted creations will still add to the inventory. */
  function Pendiente(entradas: seq<Entrada>): int {
    if entradas == [] then 0
    else
      var e := entradas[|entradas| - 1];
      Pendiente(entradas[..|entradas| - 1]) + if e.aparecida then 0 else e.r.memoria
  }

  function MargenDe(n: Node, f: Foto, entradas: seq<Entrada>): int {
    Margen(Nodo(n.total, f.usada), f.insts, Reservas(entradas), n.nombre)
  }

  ghost predicate Libre(s: State, vmid: int) {
    && (forall i :: 0 <= i < |s.insts| ==> s.insts[i].vmid != vmid)
    && (forall k :: 0 <= k < |s.entradas| && s.entradas[k].Espera() ==> s.entradas[k].dado != vmid)
  }

  function Digest(s: State, vmid: int): int {
    if vmid in s.digests then s.digests[vmid] else 0
  }

  /** The instance is the one the request is about, which has its digest. */
  predicate Listo(n: Node, s: State, q: nat, i: nat) {
    q in s.pedidos && s.pedidos[q].digest.Some? && i < |s.insts| && s.insts[i].vmid == s.pedidos[q].vmid && s.insts[i].nodo == n.nombre
  }

  /** Proxmox accepts the PUT: nobody changed the configuration since its digest was read. */
  predicate Acepta(s: State, q: nat)
    requires q in s.pedidos && s.pedidos[q].digest.Some?
  {
    s.pedidos[q].digest.value == Digest(s, s.pedidos[q].vmid)
  }

  ghost predicate Enabled(n: Node, s: State, st: Step) {
    match st
    case Lee => s.cache.None?
    case Admite(r) =>
      && !s.enCurso && s.cache.Some? && r.vmid == 0 && r.nodo == n.nombre
      && 0 <= r.memoria <= MargenDe(n, s.cache.value, s.entradas)
    case Despacha(k, vmid) => k < |s.entradas| && s.entradas[k].dado == 0 && !s.entradas[k].aparecida && vmid != 0 && Libre(s, vmid)
    case NoDespachada(_) => s.enCurso && s.entradas != [] && s.entradas[|s.entradas| - 1].dado == 0 && !s.entradas[|s.entradas| - 1].aparecida
    case Incierta(_) => s.enCurso
    case Aceptada(_, _) => s.enCurso && s.entradas != [] && s.entradas[|s.entradas| - 1].dado != 0
    case Aparece(k, mem, _) => k < |s.entradas| && s.entradas[k].Espera() && 0 <= mem <= s.entradas[k].r.memoria
    case Libera(k, _) => !s.enCurso && k < |s.entradas| && s.entradas[k].aparecida
    case Mide(q, i) => q !in s.pedidos && i < |s.insts|
    case LeeDigest(q) => q in s.pedidos && s.pedidos[q].digest.None?
    case Amplia(q, i, objetivo, _, _, _) =>
      && !s.enCurso && s.cache.Some? && Listo(n, s, q, i)
      && 0 < objetivo - s.pedidos[q].leido <= MargenDe(n, s.cache.value, s.entradas)
    case Directo(q, i, objetivo, _, _) => Listo(n, s, q, i) && 0 <= objetivo <= s.pedidos[q].leido
    case Invalida => true
    case Uso(_) => true
    case Cambia(i, mem, _) => i < |s.insts| && 0 <= mem
    case Quita(i) => i < |s.insts|
    case Agrega(inst, _) => 0 <= inst.maxMem && Libre(s, inst.vmid)
    case LeeSinLock(q) => q !in s.sinLock
    case EscribeSinLock(q) => q in s.sinLock
  }

  function Crece(n: Node, antes: int, inst: Instancia): nat {
    if inst.nodo == n.nombre then Max(0, inst.maxMem - antes) else 0
  }

  /** The PUT of a reconfiguration; the new size is in use at once, or pending until a reboot. */
  function Aplica(s: State, q: nat, i: nat, objetivo: int, enUso: bool, digest: int): State
    requires q in s.pedidos && s.pedidos[q].digest.Some? && i < |s.insts|
  {
    var fin := s.(pedidos := s.pedidos - {q});
    if !Acepta(s, q) then fin
    else if enUso then
      fin.(insts := s.insts[i := s.insts[i].(maxMem := objetivo)], digests := s.digests[s.insts[i].vmid := digest])
    else fin.(digests := s.digests[s.insts[i].vmid := digest])
  }

  /** The cached reading after an attempt to delete it. */
  function Copia(s: State, borra: bool): Option<Foto> {
    if borra then None else s.cache
  }

  function Apply(n: Node, s: State, st: Step): State
    requires Enabled(n, s, st)
  {
    var last := |s.entradas| - 1;
    match st
    case Lee => s.(cache := Some(Foto(s.insts, s.usada, s.externo)))
    case Admite(r) => s.(entradas := s.entradas + [Entrada(r, 0, false)], enCurso := true)
    case Despacha(k, vmid) => s.(entradas := s.entradas[k := s.entradas[k].(dado := vmid)])
    case NoDespachada(borra) => s.(entradas := s.entradas[..last], enCurso := false, cache := Copia(s, borra))
    case Incierta(borra) => s.(enCurso := false, cache := Copia(s, borra))
    case Aceptada(guardado, borra) =>
      var e := s.entradas[last];
      s.(entradas := if guardado then s.entradas[last := e.(r := e.r.(vmid := e.dado))] else s.entradas, enCurso := false,
         cache := Copia(s, borra))
    case Aparece(k, mem, digest) =>
      var e := s.entradas[k];
      s.(insts := s.insts + [Instancia(e.dado, n.nombre, mem)], digests := s.digests[e.dado := digest],
         entradas := s.entradas[k := e.(aparecida := true)])
    case Libera(k, borra) => s.(entradas := s.entradas[..k] + s.entradas[k + 1..], cache := Copia(s, borra))
    case Mide(q, i) => s.(pedidos := s.pedidos[q := Pedido(s.insts[i].vmid, s.insts[i].maxMem, None)])
    case LeeDigest(q) => s.(pedidos := s.pedidos[q := s.pedidos[q].(digest := Some(Digest(s, s.pedidos[q].vmid)))])
    case Amplia(q, i, objetivo, enUso, digest, borra) => Aplica(s, q, i, objetivo, enUso, digest).(cache := Copia(s, borra))
    case Directo(q, i, objetivo, enUso, digest) => Aplica(s, q, i, objetivo, enUso, digest)
    case Invalida => s.(cache := None)
    case Uso(u) => s.(usada := u)
    case Cambia(i, mem, digest) =>
      var inst := s.insts[i].(maxMem := mem);
      s.(insts := s.insts[i := inst], digests := s.digests[inst.vmid := digest], externo := s.externo + Crece(n, s.insts[i].maxMem, inst))
    case Quita(i) => s.(insts := s.insts[..i] + s.insts[i + 1..])
    case Agrega(inst, digest) =>
      s.(insts := s.insts + [inst], digests := s.digests[inst.vmid := digest], externo := s.externo + Crece(n, 0, inst))
    case LeeSinLock(q) => s.(sinLock := s.sinLock[q := Foto(s.insts, s.usada, s.externo)])
    case EscribeSinLock(q) => s.(cache := Some(s.sinLock[q]), sinLock := s.sinLock - {q})
  }

  // ---------- What steps leave alone, and what they end ----------

  /** An answer of the creation ends its section: the lock is free, and the cached reading is deleted, unless that fails. */
  lemma SectionEnds(n: Node, s: State, st: Step)
    requires Enabled(n, s, st) && (st.NoDespachada? || st.Incierta? || st.Aceptada?)
    ensures var s' := Apply(n, s, st);
      && !s'.enCurso && s'.cache == (if st.borra then None else s.cache)
      && s'.insts == s.insts && s'.digests == s.digests && s'.usada == s.usada && s'.externo == s.externo
      && s'.sinLock == s.sinLock && s'.pedidos == s.pedidos
      && |s'.entradas| == |s.entradas| - if st.NoDespachada? then 1 else 0
  {
  }

  /** Only an admission opens a section; releases and enlargements need it closed and delete the reading as answers do; an expired reading is gone. */
  lemma SectionsAndReadings(n: Node, s: State, st: Step)
    requires Enabled(n, s, st)
    ensures var s' := Apply(n, s, st);
      && (s'.enCurso && !s.enCurso ==> st.Admite?) && (st.Admite? ==> !s.enCurso && s'.enCurso)
      && (s.enCurso && !s'.enCurso ==> st.NoDespachada? || st.Incierta? || st.Aceptada?)
      && (st.Libera? || st.Amplia? ==> !s.enCurso && s'.cache == if st.borra then None else s.cache)
      && (st.Invalida? ==> s' == s.(cache := None))
      && (st.Lee? ==> s' == s.(cache := Some(Foto(s.insts, s.usada, s.externo))))
      && (st.EscribeSinLock? ==> s' == s.(cache := Some(s.sinLock[st.q]), sinLock := s.sinLock - {st.q}))
      && (st.LeeSinLock? ==> s' == s.(sinLock := s.sinLock[st.q := Foto(s.insts, s.usada, s.externo)]))
      && (st.Uso? ==> s' == s.(usada := st.usada))
  {
    hide Margen, MargenDe, Reservas;
  }

  /** What outsiders do to the inventory, and to the digests of what they touch. */
  lemma OutsidersAct(n: Node, s: State, st: Step)
    requires Enabled(n, s, st) && (st.Cambia? || st.Quita? || st.Agrega?)
    ensures var s' := Apply(n, s, st);
      && s'.entradas == s.entradas && s'.cache == s.cache && s'.enCurso == s.enCurso && s'.usada == s.usada
      && (st.Cambia? ==> s'.insts == s.insts[st.i := s.insts[st.i].(maxMem := st.mem)] && Digest(s', s.insts[st.i].vmid) == st.digest)
      && (st.Quita? ==> s'.insts == s.insts[..st.i] + s.insts[st.i + 1..])
      && (st.Agrega? ==> s'.insts == s.insts + [st.inst] && Digest(s', st.inst.vmid) == st.digest)
  {
  }

  // ---------- The invariant ----------

  function Tope(n: Node): int {
    n.total - Headroom(Nodo(n.total, 0))
  }

  /** What is assigned, plus what admitted creations will still add. */
  function Total(n: Node, s: State): int {
    Asignada(s.insts, n.nombre) + Pendiente(s.entradas)
  }

  /** How much of the present total, less what outsiders added since, a reading and the ledger cover in excess. */
  function Sobra(n: Node, s: State, f: Foto): int {
    Asignada(f.insts, n.nombre) + Reservada(f.insts, Reservas(s.entradas), n.nombre) + (s.externo - f.externo) - Total(n, s)
  }

  ghost predicate Wellformed(n: Node, s: State) {
    && (forall i :: 0 <= i < |s.insts| ==> 0 <= s.insts[i].maxMem)
    && (forall k :: 0 <= k < |s.entradas| ==> 0 <= s.entradas[k].r.memoria && s.entradas[k].r.nodo == n.nombre)
    && (forall k :: 0 <= k < |s.entradas| && !s.entradas[k].aparecida && s.entradas[k].r.vmid != 0 ==> s.entradas[k].r.vmid == s.entradas[k].dado)
    && (forall k, i :: 0 <= k < |s.entradas| && s.entradas[k].Espera() && 0 <= i < |s.insts| ==> s.insts[i].vmid != s.entradas[k].dado)
    && (forall j, k :: 0 <= j < k < |s.entradas| && s.entradas[j].Espera() && s.entradas[k].Espera() ==> s.entradas[j].dado != s.entradas[k].dado)
    && (forall q :: q in s.pedidos ==> 0 <= s.pedidos[q].leido)
  }

  /** Readings are of the past, and outsiders' additions are only counted up. */
  ghost predicate Pasadas(s: State) {
    && (s.cache.Some? ==> s.cache.value.externo <= s.externo)
    && (forall q :: q in s.sinLock ==> s.sinLock[q].externo <= s.externo)
  }

  /** The cached reading, with the ledger, covers the present total but for what outsiders have added since. */
  ghost predicate Covers(n: Node, s: State) {
    s.cache.Some? ==> Sobra(n, s, s.cache.value) >= 0
  }

  ghost predicate Inv(n: Node, s: State) {
    Wellformed(n, s) && Pasadas(s) && Covers(n, s) && Total(n, s) <= Tope(n) + s.externo
  }

  // ---------- Sums over edited lists ----------

  lemma {:induction false} AssignedSplit(a: seq<Instancia>, b: seq<Instancia>, nodo: string)
    ensures Asignada(a + b, nodo) == Asignada(a, nodo) + Asignada(b, nodo)
  {
    if b == [] {
      assert a + b == a;
    } else {
      AssignedSplit(a, b[..|b| - 1], nodo);
      assert (a + b)[..|a + b| - 1] == a + b[..|b| - 1];
    }
  }

  function Aporte(i: Instancia, nodo: string): int {
    if i.nodo == nodo then i.maxMem else 0
  }

  lemma AssignedOne(x: Instancia, nodo: string)
    ensures Asignada([x], nodo) == Aporte(x, nodo)
  {
    assert [x][..0] == [];
  }

  lemma AssignedEdit(insts: seq<Instancia>, i: nat, x: Instancia, nodo: string)
    requires i < |insts|
    ensures Asignada(insts[i := x], nodo) == Asignada(insts, nodo) - Aporte(insts[i], nodo) + Aporte(x, nodo)
    ensures Asignada(insts[..i] + insts[i + 1..], nodo) == Asignada(insts, nodo) - Aporte(insts[i], nodo)
    ensures Asignada(insts + [x], nodo) == Asignada(insts, nodo) + Aporte(x, nodo)
  {
    hide Asignada, Aporte;
    var a, b := insts[..i], insts[i + 1..];
    AssignedOne(x, nodo);
    AssignedOne(insts[i], nodo);
    AssignedSplit(a, b, nodo);
    AssignedSplit(a, [insts[i]], nodo);
    AssignedSplit(a, [x], nodo);
    AssignedSplit(a + [insts[i]], b, nodo);
    AssignedSplit(a + [x], b, nodo);
    AssignedSplit(insts, [x], nodo);
    assert insts == a + [insts[i]] + b && insts[i := x] == a + [x] + b;
  }

  lemma {:induction false} PendingSplit(a: seq<Entrada>, b: seq<Entrada>)
    ensures Pendiente(a + b) == Pendiente(a) + Pendiente(b)
  {
    if b == [] {
      assert a + b == a;
    } else {
      PendingSplit(a, b[..|b| - 1]);
      assert (a + b)[..|a + b| - 1] == a + b[..|b| - 1];
    }
  }

  function Deuda(e: Entrada): int {
    if e.aparecida then 0 else e.r.memoria
  }

  lemma PendingEdit(es: seq<Entrada>, k: nat, x: Entrada)
    requires k < |es|
    ensures Pendiente(es[k := x]) == Pendiente(es) - Deuda(es[k]) + Deuda(x)
    ensures Pendiente(es[..k] + es[k + 1..]) == Pendiente(es) - Deuda(es[k])
  {
    var a, b := es[..k], es[k + 1..];
    PendingSplit(a, b);
    PendingSplit(a, [es[k]]);
    PendingSplit(a, [x]);
    PendingSplit(a + [es[k]], b);
    PendingSplit(a + [x], b);
    assert es == a + [es[k]] + b && es[k := x] == a + [x] + b;
  }

  lemma ReservasSnoc(es: seq<Entrada>, e: Entrada)
    ensures Reservas(es + [e]) == Reservas(es) + [e.r]
    ensures Pendiente(es + [e]) == Pendiente(es) + Deuda(e)
  {
    assert (es + [e])[..|es|] == es;
  }

  /** The flags of an entry are no part of its reservation. */
  lemma {:induction false} SameReservas(es: seq<Entrada>, k: nat, e: Entrada)
    requires k < |es| && e.r == es[k].r
    ensures Reservas(es[k := e]) == Reservas(es)
  {
    var all := es[k := e];
    if k < |es| - 1 {
      SameReservas(es[..|es| - 1], k, e);
      assert all[..|es| - 1] == es[..|es| - 1][k := e];
    } else {
      assert all[..|es| - 1] == es[..|es| - 1];
    }
  }

  lemma {:induction false} ReservasSplit(a: seq<Entrada>, b: seq<Entrada>)
    ensures Reservas(a + b) == Reservas(a) + Reservas(b)
  {
    if b == [] {
      assert a + b == a;
    } else {
      ReservasSplit(a, b[..|b| - 1]);
      assert (a + b)[..|a + b| - 1] == a + b[..|b| - 1];
    }
  }

  // ---------- What every step keeps ----------

  /** What the inventory does not show of a reservation is at least what is still to come of it. */
  lemma {:induction false} LedgerCovers(n: Node, s: State, es: seq<Entrada>)
    requires Wellformed(n, s) && es <= s.entradas
    ensures Reservada(s.insts, Reservas(es), n.nombre) >= Pendiente(es)
  {
    if es != [] {
      var k := |es| - 1;
      var e := es[k];
      LedgerCovers(n, s, es[..k]);
      assert e == s.entradas[k];
      if !e.aparecida {
        if e.r.vmid == 0 {
          NoVmidNotVisible(s.insts, e.r);
        } else {
          AbsentNotVisible(s.insts, e.r);
        }
      }
    }
  }

  lemma AdmissionWellformed(n: Node, s: State, r: Reserva)
    requires Wellformed(n, s) && Enabled(n, s, Admite(r))
    ensures Wellformed(n, Apply(n, s, Admite(r)))
  {
    hide Margen, MargenDe, Asignada, Reservada, Reservas, Pendiente;
  }

  lemma DispatchWellformed(n: Node, s: State, k: nat, vmid: int)
    requires Wellformed(n, s) && Enabled(n, s, Despacha(k, vmid))
    ensures Wellformed(n, Apply(n, s, Despacha(k, vmid)))
  {
    hide Margen, MargenDe, Asignada, Reservada, Reservas, Pendiente;
  }

  lemma AnswerWellformed(n: Node, s: State, guardado: bool, borra: bool)
    requires Wellformed(n, s) && Enabled(n, s, Aceptada(guardado, borra))
    ensures Wellformed(n, Apply(n, s, Aceptada(guardado, borra)))
  {
    hide Margen, MargenDe, Asignada, Reservada, Reservas, Pendiente;
  }

  lemma AppearanceWellformed(n: Node, s: State, k: nat, mem: int, digest: int)
    requires Wellformed(n, s) && Enabled(n, s, Aparece(k, mem, digest))
    ensures Wellformed(n, Apply(n, s, Aparece(k, mem, digest)))
  {
    hide Margen, MargenDe, Asignada, Reservada, Reservas, Pendiente;
  }

  lemma ReleaseWellformed(n: Node, s: State, k: nat, borra: bool)
    requires Wellformed(n, s) && Enabled(n, s, Libera(k, borra))
    ensures Wellformed(n, Apply(n, s, Libera(k, borra)))
  {
    hide Margen, MargenDe, Asignada, Reservada, Reservas, Pendiente;
    var quedan := s.entradas[..k] + s.entradas[k + 1..];
    assert forall j :: 0 <= j < |quedan| ==> quedan[j] == s.entradas[if j < k then j else j + 1];
  }

  lemma ArrivalWellformed(n: Node, s: State, inst: Instancia, digest: int)
    requires Wellformed(n, s) && Enabled(n, s, Agrega(inst, digest))
    ensures Wellformed(n, Apply(n, s, Agrega(inst, digest)))
  {
    hide Margen, MargenDe, Asignada, Reservada, Reservas, Pendiente;
  }

  lemma PutWellformed(n: Node, s: State, q: nat, i: nat, objetivo: int, enUso: bool, digest: int)
    requires Wellformed(n, s) && q in s.pedidos && s.pedidos[q].digest.Some? && i < |s.insts| && objetivo >= 0
    ensures Wellformed(n, Aplica(s, q, i, objetivo, enUso, digest))
  {
  }

  lemma ResizingWellformed(n: Node, s: State, st: Step)
    requires Wellformed(n, s) && Enabled(n, s, st) && (st.Amplia? || st.Directo? || st.Cambia?)
    ensures Wellformed(n, Apply(n, s, st))
  {
    hide Margen, MargenDe, Asignada, Reservada, Reservas, Pendiente, Aplica, Libre;
    match st {
      case Cambia(i, mem, digest) =>
      case Amplia(q, i, objetivo, enUso, digest, _) => PutWellformed(n, s, q, i, objetivo, enUso, digest);
      case Directo(q, i, objetivo, enUso, digest) => PutWellformed(n, s, q, i, objetivo, enUso, digest);
    }
  }

  lemma QuietWellformed(n: Node, s: State, st: Step)
    requires Wellformed(n, s) && Enabled(n, s, st)
    requires !st.Admite? && !st.Despacha? && !st.Aceptada? && !st.Aparece? && !st.Libera? && !st.Agrega?
    requires !st.Amplia? && !st.Directo? && !st.Cambia?
    ensures Wellformed(n, Apply(n, s, st))
  {
    hide Margen, MargenDe, Asignada, Reservada, Reservas, Pendiente, Aplica, Libre;
  }

  lemma StepKeepsWellformed(n: Node, s: State, st: Step)
    requires Wellformed(n, s) && Enabled(n, s, st)
    ensures Wellformed(n, Apply(n, s, st))
  {
    hide Apply, Enabled, Wellformed;
    match st {
      case Admite(r) => AdmissionWellformed(n, s, r);
      case Despacha(k, vmid) => DispatchWellformed(n, s, k, vmid);
      case Aceptada(guardado, borra) => AnswerWellformed(n, s, guardado, borra);
      case Aparece(k, mem, digest) => AppearanceWellformed(n, s, k, mem, digest);
      case Libera(k, borra) => ReleaseWellformed(n, s, k, borra);
      case Agrega(inst, digest) => ArrivalWellformed(n, s, inst, digest);
      case Amplia(_, _, _, _, _, _) => ResizingWellformed(n, s, st);
      case Directo(_, _, _, _, _) => ResizingWellformed(n, s, st);
      case Cambia(_, _, _) => ResizingWellformed(n, s, st);
      case _ => QuietWellformed(n, s, st);
    }
  }

  lemma StepKeepsPasadas(n: Node, s: State, st: Step)
    requires Pasadas(s) && Enabled(n, s, st)
    ensures Pasadas(Apply(n, s, st)) && Apply(n, s, st).externo >= s.externo
  {
    hide Margen, MargenDe;
  }

  // ---------- What every step does to the cover of a reading ----------

  predicate EnVigor(s: State, q: nat, enUso: bool)
    requires q in s.pedidos && s.pedidos[q].digest.Some?
  {
    Acepta(s, q) && enUso
  }

  /**
    What a step adds to the cover of the reading `f`: an instance that shows up
    smaller than its reservation, shrinks or goes away adds; a release takes what
    the reading does not show of the reservation, an attached VMID what it does
    show, and an enlargement its real increment.
   */
  function Saldo(n: Node, s: State, st: Step, f: Foto): int
    requires Enabled(n, s, st)
  {
    match st
    case Aparece(k, mem, _) => s.entradas[k].r.memoria - mem
    case Aceptada(guardado, _) =>
      var e := s.entradas[|s.entradas| - 1];
      if guardado then Descubierta(f.insts, e.r.(vmid := e.dado)) - Descubierta(f.insts, e.r) else 0
    case Libera(k, _) => -Descubierta(f.insts, s.entradas[k].r)
    case Amplia(q, i, objetivo, enUso, _, _) => if EnVigor(s, q, enUso) then s.insts[i].maxMem - objetivo else 0
    case Directo(q, i, objetivo, enUso, _) => if EnVigor(s, q, enUso) then s.insts[i].maxMem - objetivo else 0
    case Cambia(i, mem, _) => if s.insts[i].nodo == n.nombre then Max(0, s.insts[i].maxMem - mem) else 0
    case Quita(i) => Aporte(s.insts[i], n.nombre)
    case _ => 0
  }

  /** A reservation is on the node's ledger: what a reading shows of it. */
  lemma OneMoreReserved(n: Node, f: Foto, es: seq<Entrada>, e: Entrada)
    requires e.r.nodo == n.nombre
    ensures Reservada(f.insts, Reservas(es + [e]), n.nombre) == Reservada(f.insts, Reservas(es), n.nombre) + Descubierta(f.insts, e.r)
    ensures Pendiente(es + [e]) == Pendiente(es) + Deuda(e)
  {
    ReservasSnoc(es, e);
  }

  lemma AdmissionCover(n: Node, s: State, r: Reserva, f: Foto)
    requires Wellformed(n, s) && Enabled(n, s, Admite(r))
    ensures Sobra(n, Apply(n, s, Admite(r)), f) == Sobra(n, s, f)
  {
    hide Margen, MargenDe, Asignada, Reservada, Pendiente, Reservas, Visible;
    OneMoreReserved(n, f, s.entradas, Entrada(r, 0, false));
    NoVmidNotVisible(f.insts, r);
  }

  lemma WithdrawalCover(n: Node, s: State, borra: bool, f: Foto)
    requires Wellformed(n, s) && Enabled(n, s, NoDespachada(borra))
    ensures Sobra(n, Apply(n, s, NoDespachada(borra)), f) == Sobra(n, s, f)
  {
    hide Asignada, Reservada, Pendiente, Reservas, Visible;
    var last := |s.entradas| - 1;
    assert s.entradas == s.entradas[..last] + [s.entradas[last]];
    OneMoreReserved(n, f, s.entradas[..last], s.entradas[last]);
    NoVmidNotVisible(f.insts, s.entradas[last].r);
  }

  lemma AnswerCover(n: Node, s: State, guardado: bool, borra: bool, f: Foto)
    requires Wellformed(n, s) && Enabled(n, s, Aceptada(guardado, borra))
    ensures Sobra(n, Apply(n, s, Aceptada(guardado, borra)), f) == Sobra(n, s, f) + Saldo(n, s, Aceptada(guardado, borra), f)
  {
    hide Asignada, Reservada, Pendiente, Reservas, Visible;
    var last := |s.entradas| - 1;
    var e := s.entradas[last];
    var e' := e.(r := e.r.(vmid := e.dado));
    assert s.entradas == s.entradas[..last] + [e] && s.entradas[last := e'] == s.entradas[..last] + [e'];
    OneMoreReserved(n, f, s.entradas[..last], e);
    OneMoreReserved(n, f, s.entradas[..last], e');
  }

  lemma FlagCover(n: Node, s: State, st: Step, f: Foto)
    requires Wellformed(n, s) && Enabled(n, s, st) && (st.Despacha? || st.Aparece?)
    ensures Sobra(n, Apply(n, s, st), f) == Sobra(n, s, f) + Saldo(n, s, st, f)
  {
    hide Asignada, Reservada, Pendiente, Reservas, Visible;
    var e := s.entradas[st.k];
    var e' := if st.Despacha? then e.(dado := st.vmid) else e.(aparecida := true);
    PendingEdit(s.entradas, st.k, e');
    SameReservas(s.entradas, st.k, e');
    if st.Aparece? {
      AssignedSnoc(s.insts, Instancia(e.dado, n.nombre, st.mem), n.nombre);
    }
  }

  lemma AssignedSnoc(insts: seq<Instancia>, x: Instancia, nodo: string)
    ensures Asignada(insts + [x], nodo) == Asignada(insts, nodo) + Aporte(x, nodo)
  {
    assert (insts + [x])[..|insts|] == insts;
  }

  lemma ReleaseCover(n: Node, s: State, k: nat, borra: bool, f: Foto)
    requires Wellformed(n, s) && Enabled(n, s, Libera(k, borra))
    ensures Sobra(n, Apply(n, s, Libera(k, borra)), f) == Sobra(n, s, f) + Saldo(n, s, Libera(k, borra), f)
  {
    hide Asignada, Reservada, Pendiente, Visible, Descubierta;
    var es := s.entradas;
    PendingEdit(es, k, es[k]);
    RemovedReservas(es, k);
    Parts(f.insts, Reservas(es[..k]), es[k].r, Reservas(es[k + 1..]));
    ReservedSplit(f.insts, Reservas(es[..k]), Reservas(es[k + 1..]), n.nombre);
  }

  lemma OneReserva(e: Entrada)
    ensures Reservas([e]) == [e.r]
  {
    ReservasSnoc([], e);
    assert [] + [e] == [e];
  }

  lemma RemovedReservas(es: seq<Entrada>, k: nat)
    requires k < |es|
    ensures Reservas(es) == Reservas(es[..k]) + ([es[k].r] + Reservas(es[k + 1..]))
    ensures Reservas(es[..k] + es[k + 1..]) == Reservas(es[..k]) + Reservas(es[k + 1..])
  {
    hide Reservas;
    var a, b := es[..k], es[k + 1..];
    assert es[k..] == [es[k]] + b && es == a + es[k..];
    ReservasSplit(a, [es[k]] + b);
    ReservasSplit([es[k]], b);
    ReservasSplit(a, b);
    OneReserva(es[k]);
  }

  lemma InstanceCover(n: Node, s: State, st: Step, f: Foto)
    requires Wellformed(n, s) && Enabled(n, s, st) && (st.Amplia? || st.Directo? || st.Cambia? || st.Quita?)
    ensures Sobra(n, Apply(n, s, st), f) == Sobra(n, s, f) + Saldo(n, s, st, f)
  {
    hide Asignada, Reservada, Pendiente, Reservas, Visible, Margen, MargenDe;
    var x := s.insts[st.i].(maxMem := if st.Cambia? then st.mem else if st.Quita? then 0 else st.objetivo);
    AssignedEdit(s.insts, st.i, x, n.nombre);
  }

  lemma StepCover(n: Node, s: State, st: Step, f: Foto)
    requires Wellformed(n, s) && Enabled(n, s, st)
    ensures Sobra(n, Apply(n, s, st), f) == Sobra(n, s, f) + Saldo(n, s, st, f)
  {
    match st {
      case Admite(r) => AdmissionCover(n, s, r, f);
      case Despacha(_, _) => FlagCover(n, s, st, f);
      case NoDespachada(borra) => WithdrawalCover(n, s, borra, f);
      case Aceptada(guardado, borra) => AnswerCover(n, s, guardado, borra, f);
      case Aparece(_, _, _) => FlagCover(n, s, st, f);
      case Libera(k, borra) => ReleaseCover(n, s, k, borra, f);
      case Agrega(inst, _) => AssignedSnoc(s.insts, inst, n.nombre);
      case Amplia(_, _, _, _, _, _) => InstanceCover(n, s, st, f);
      case Directo(_, _, _, _, _) => InstanceCover(n, s, st, f);
      case Cambia(_, _, _) => InstanceCover(n, s, st, f);
      case Quita(_) => InstanceCover(n, s, st, f);
      case _ =>
    }
  }

  // ---------- What every step does to the total ----------

  /** What a PUT really adds to the node at once. */
  function Aumento(s: State, q: nat, i: nat, objetivo: int, enUso: bool): int
    requires q in s.pedidos && s.pedidos[q].digest.Some? && i < |s.insts|
  {
    if EnVigor(s, q, enUso) then objetivo - s.insts[i].maxMem else 0
  }

  /** What a step adds to the total, apart from what outsiders add. */
  function Alza(n: Node, s: State, st: Step): int
    requires Enabled(n, s, st)
  {
    match st
    case Admite(r) => r.memoria
    case NoDespachada(_) => -s.entradas[|s.entradas| - 1].r.memoria
    case Amplia(q, i, objetivo, enUso, _, _) => Aumento(s, q, i, objetivo, enUso)
    case Directo(q, i, objetivo, enUso, _) => Aumento(s, q, i, objetivo, enUso)
    case Aparece(k, mem, _) => mem - s.entradas[k].r.memoria
    case Cambia(i, mem, _) => if s.insts[i].nodo == n.nombre then -Max(0, s.insts[i].maxMem - mem) else 0
    case Quita(i) => -Aporte(s.insts[i], n.nombre)
    case _ => 0
  }

  lemma EntriesTotal(n: Node, s: State, st: Step)
    requires Wellformed(n, s) && Enabled(n, s, st)
    requires st.Despacha? || st.NoDespachada? || st.Aceptada? || st.Libera? || st.Aparece?
    ensures Total(n, Apply(n, s, st)) == Total(n, s) + Alza(n, s, st)
  {
    hide Asignada, Pendiente, Reservas;
    var last := |s.entradas| - 1;
    match st {
      case Despacha(k, vmid) => PendingEdit(s.entradas, k, s.entradas[k].(dado := vmid));
      case NoDespachada(_) => PendingEdit(s.entradas, last, s.entradas[last]);
        assert s.entradas[..last] + s.entradas[last + 1..] == s.entradas[..last];
      case Aceptada(_, _) =>
        var e := s.entradas[last];
        PendingEdit(s.entradas, last, e.(r := e.r.(vmid := e.dado)));
      case Libera(k, _) => PendingEdit(s.entradas, k, s.entradas[k]);
      case Aparece(k, mem, _) =>
        PendingEdit(s.entradas, k, s.entradas[k].(aparecida := true));
        AssignedSnoc(s.insts, Instancia(s.entradas[k].dado, n.nombre, mem), n.nombre);
    }
  }

  lemma StepTotal(n: Node, s: State, st: Step)
    requires Wellformed(n, s) && Enabled(n, s, st)
    ensures var s' := Apply(n, s, st); Total(n, s') - s'.externo == Total(n, s) - s.externo + Alza(n, s, st)
  {
    hide Asignada, Pendiente, Reservas, Margen, MargenDe;
    match st {
      case Admite(r) => ReservasSnoc(s.entradas, Entrada(r, 0, false));
      case Agrega(inst, _) => AssignedSnoc(s.insts, inst, n.nombre);
      case Amplia(_, i, objetivo, _, _, _) => AssignedEdit(s.insts, i, s.insts[i].(maxMem := objetivo), n.nombre);
      case Directo(_, i, objetivo, _, _) => AssignedEdit(s.insts, i, s.insts[i].(maxMem := objetivo), n.nombre);
      case Cambia(i, mem, _) => AssignedEdit(s.insts, i, s.insts[i].(maxMem := mem), n.nombre);
      case Quita(i) => AssignedEdit(s.insts, i, s.insts[i], n.nombre);
      case _ => if st.Despacha? || st.NoDespachada? || st.Aceptada? || st.Libera? || st.Aparece? { EntriesTotal(n, s, st); }
    }
  }
}
