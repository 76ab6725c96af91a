/**
  When is a node never overcommitted?  Three kinds of steps can break the invariant:
  a cache written without the lock from an old reading, a cached reading that
  could not be deleted, and a PUT whose increment was measured on an old size.  Their exact condition is found, and for the first
  it is restated in terms of what happened since the reading.
 */
module CapacitySafety {
  import opened Wrappers
  import opened CapacityMath
  import opened Capacity
  import opened CapacityRuns

  /** A PUT, with what it really adds, keeps the total under the limit and the cached reading covering. */
  ghost predicate Cabe(n: Node, s: State, mas: int, cache: Option<Foto>) {
    && Total(n, s) + mas <= Tope(n) + s.externo
    && (cache.Some? ==> mas <= Sobra(n, s, cache.value))
  }

  /** The exact condition of each step. */
  ghost predicate Guarded(n: Node, s: State, st: Step)
    requires Enabled(n, s, st)
  {
    match st
    case EscribeSinLock(q) => Sobra(n, s, s.sinLock[q]) >= 0
    case Amplia(q, i, objetivo, enUso, _, borra) => Cabe(n, s, Aumento(s, q, i, objetivo, enUso), Copia(s, borra))
    case Directo(q, i, objetivo, enUso, _) => Cabe(n, s, Aumento(s, q, i, objetivo, enUso), s.cache)
    case Libera(k, borra) => borra || SigueCubriendo(n, s, st)
    case Aceptada(_, borra) => borra || SigueCubriendo(n, s, st)
    case _ => true
  }

  /** A cached reading that could not be deleted covers after the step, with what the step adds to it. */
  ghost predicate SigueCubriendo(n: Node, s: State, st: Step)
    requires Enabled(n, s, st)
  {
    s.cache.Some? ==> Sobra(n, s, s.cache.value) + Saldo(n, s, st, s.cache.value) >= 0
  }

  lemma BoundKeptIff(n: Node, s: State, st: Step)
    requires Inv(n, s) && Enabled(n, s, st)
    ensures var s' := Apply(n, s, st);
      Total(n, s') <= Tope(n) + s'.externo <==>
        (st.Amplia? || st.Directo? ==> Total(n, s) + Aumento(s, st.q, st.i, st.objetivo, st.enUso) <= Tope(n) + s.externo)
  {
    StepTotal(n, s, st);
  }

  /** What steps that keep the cache do to its cover. */
  lemma CacheStays(n: Node, s: State, st: Step)
    requires Wellformed(n, s) && Enabled(n, s, st) && Apply(n, s, st).cache.Some? && !st.Lee? && !st.EscribeSinLock?
    ensures Apply(n, s, st).cache == s.cache
    ensures Saldo(n, s, st, s.cache.value) >= 0 || st.Directo? || st.Amplia? || st.Libera? || st.Aceptada?
    ensures st.Directo? || st.Amplia? ==> Saldo(n, s, st, s.cache.value) == -Aumento(s, st.q, st.i, st.objetivo, st.enUso)
  {
    hide Asignada, Pendiente, Reservas, Margen, MargenDe, Descubierta;
  }

  lemma CoverKeptIff(n: Node, s: State, st: Step)
    requires Inv(n, s) && Enabled(n, s, st)
    ensures Covers(n, Apply(n, s, st)) <==>
      match st
      case EscribeSinLock(q) => Sobra(n, s, s.sinLock[q]) >= 0
      case Directo(q, i, objetivo, enUso, _) => s.cache.Some? ==> Aumento(s, q, i, objetivo, enUso) <= Sobra(n, s, s.cache.value)
      case Amplia(q, i, objetivo, enUso, _, borra) => borra || Aumento(s, q, i, objetivo, enUso) <= Sobra(n, s, s.cache.value)
      case Libera(_, borra) => borra || SigueCubriendo(n, s, st)
      case Aceptada(_, borra) => borra || SigueCubriendo(n, s, st)
      case _ => true
  {
    var s' := Apply(n, s, st);
    if st.Lee? {
      LedgerCovers(n, s, s.entradas);
    } else if st.EscribeSinLock? {
      StepCover(n, s, st, s.sinLock[st.q]);
    } else if s'.cache.Some? {
      CacheStays(n, s, st);
      StepCover(n, s, st, s.cache.value);
      hide Apply, Sobra, Saldo;
    }
  }

  /** One step keeps the invariant exactly when it is guarded. */
  lemma GuardIsExact(n: Node, s: State, st: Step)
    requires Inv(n, s) && Enabled(n, s, st)
    ensures Inv(n, Apply(n, s, st)) <==> Guarded(n, s, st)
  {
    StepKeepsWellformed(n, s, st);
    StepKeepsPasadas(n, s, st);
    BoundKeptIff(n, s, st);
    CoverKeptIff(n, s, st);
    hide Apply, Enabled, Wellformed, Pasadas, Total, Tope, Sobra, Aumento;
  }

  /**
    A release whose deletion of the cached reading fails is harmless exactly when
    the reading covers in excess what it does not show of the reservation.
   */
  lemma FailedDeletionIsHarmlessIff(n: Node, s: State, k: nat)
    requires Inv(n, s) && Enabled(n, s, Libera(k, false)) && s.cache.Some?
    ensures Inv(n, Apply(n, s, Libera(k, false))) <==> Descubierta(s.cache.value.insts, s.entradas[k].r) <= Sobra(n, s, s.cache.value)
  {
    GuardIsExact(n, s, Libera(k, false));
  }

  // ---------- Runs ----------

  ghost predicate Runs(n: Node, s: State, steps: seq<Step>)
    decreases |steps|
  {
    steps != [] ==> Enabled(n, s, steps[0]) && Runs(n, Apply(n, s, steps[0]), steps[1..])
  }

  ghost function Exec(n: Node, s: State, steps: seq<Step>): State
    requires Runs(n, s, steps)
    decreases |steps|
  {
    if steps == [] then s else Exec(n, Apply(n, s, steps[0]), steps[1..])
  }

  /** The ledger starts empty; what the node then has over the limit counts as added by outsiders. */
  function Inicial(n: Node, insts: seq<Instancia>, usada: int): State {
    State(insts, map[], usada, [], None, false, Max(0, Asignada(insts, n.nombre) - Tope(n)), map[], map[])
  }

  ghost predicate AlwaysInv(n: Node, s: State, steps: seq<Step>)
    requires Runs(n, s, steps)
    decreases |steps|
  {
    Inv(n, s) && (steps != [] ==> AlwaysInv(n, Apply(n, s, steps[0]), steps[1..]))
  }

  ghost predicate AlwaysGuarded(n: Node, s: State, steps: seq<Step>)
    requires Runs(n, s, steps)
    decreases |steps|
  {
    steps != [] ==> Guarded(n, s, steps[0]) && AlwaysGuarded(n, Apply(n, s, steps[0]), steps[1..])
  }

  lemma {:induction false} RunInvIffGuarded(n: Node, s: State, steps: seq<Step>)
    requires Inv(n, s) && Runs(n, s, steps)
    ensures AlwaysInv(n, s, steps) <==> AlwaysGuarded(n, s, steps)
    decreases |steps|
  {
    if steps != [] {
      var s' := Apply(n, s, steps[0]);
      GuardIsExact(n, s, steps[0]);
      hide Apply, Inv, Guarded;
      if Inv(n, s') { RunInvIffGuarded(n, s', steps[1..]); }
    }
  }

  // ---------- The balance of an unlocked reading ----------

  /** What the ledger reserves beyond what is still to come, at a reading of the present. */
  function Excedente(n: Node, s: State): int {
    Reservada(s.insts, Reservas(s.entradas), n.nombre) - Pendiente(s.entradas)
  }

  /** All that the steps of a run add to the cover of a reading. */
  ghost function Suma(n: Node, s: State, steps: seq<Step>, f: Foto): int
    requires Runs(n, s, steps)
    decreases |steps|
  {
    if steps == [] then 0 else Saldo(n, s, steps[0], f) + Suma(n, Apply(n, s, steps[0]), steps[1..], f)
  }

  /** Over every run, the cover of any reading changes by what the steps add to it. */
  lemma {:induction false} CoverIsBalance(n: Node, s: State, steps: seq<Step>, f: Foto)
    requires Wellformed(n, s) && Runs(n, s, steps)
    ensures Sobra(n, Exec(n, s, steps), f) == Sobra(n, s, f) + Suma(n, s, steps, f)
    decreases |steps|
  {
    if steps != [] {
      StepKeepsWellformed(n, s, steps[0]);
      StepCover(n, s, steps[0], f);
      hide Apply, Sobra, Saldo, Wellformed;
      CoverIsBalance(n, Apply(n, s, steps[0]), steps[1..], f);
    }
  }

  lemma {:induction false} ReadingStays(n: Node, s: State, steps: seq<Step>, q: nat)
    requires Runs(n, s, steps) && q in s.sinLock && EscribeSinLock(q) !in steps
    ensures q in Exec(n, s, steps).sinLock && Exec(n, s, steps).sinLock[q] == s.sinLock[q]
    decreases |steps|
  {
    if steps != [] {
      ReadingStays(n, Apply(n, s, steps[0]), steps[1..], q);
    }
  }

  /**
    The cores-only path reads Proxmox, anything happens, and it writes its reading
    into the cache.  The write is harmless exactly when what the ledger had in
    excess at the reading, plus what has appeared smaller, shrunk or gone since,
    makes up for what has been released, attached and enlarged since.
   */
  lemma LateWriteIsHarmlessIff(n: Node, s: State, q: nat, meanwhile: seq<Step>)
    requires Wellformed(n, s) && Enabled(n, s, LeeSinLock(q))
    requires Runs(n, Apply(n, s, LeeSinLock(q)), meanwhile) && EscribeSinLock(q) !in meanwhile
    requires Inv(n, Exec(n, Apply(n, s, LeeSinLock(q)), meanwhile))
    ensures var s1 := Apply(n, s, LeeSinLock(q));
      var s2 := Exec(n, s1, meanwhile);
      && q in s2.sinLock
      && (Inv(n, Apply(n, s2, EscribeSinLock(q))) <==>
            Excedente(n, s) + Suma(n, s1, meanwhile, Foto(s.insts, s.usada, s.externo)) >= 0)
  {
    hide Apply, Inv, Sobra, Saldo, Wellformed, Excedente;
    var s1 := Apply(n, s, LeeSinLock(q));
    var s2 := Exec(n, s1, meanwhile);
    ReadingTaken(n, s, q);
    ReadingStays(n, s1, meanwhile, q);
    StepKeepsWellformed(n, s, LeeSinLock(q));
    CoverIsBalance(n, s1, meanwhile, s1.sinLock[q]);
    LateWrite(n, s2, q);
  }

  lemma ReadingTaken(n: Node, s: State, q: nat)
    requires Enabled(n, s, LeeSinLock(q))
    ensures var s1, f := Apply(n, s, LeeSinLock(q)), Foto(s.insts, s.usada, s.externo);
      q in s1.sinLock && s1.sinLock[q] == f && Sobra(n, s1, f) == Excedente(n, s)
  {
  }

  lemma LateWrite(n: Node, s: State, q: nat)
    requires Inv(n, s) && q in s.sinLock
    ensures Enabled(n, s, EscribeSinLock(q))
    ensures Inv(n, Apply(n, s, EscribeSinLock(q))) <==> Sobra(n, s, s.sinLock[q]) >= 0
  {
    GuardIsExact(n, s, EscribeSinLock(q));
  }

  // ---------- The run theorem ----------

  function Cuenta(cuentas: map<nat, int>, q: nat): int {
    if q in cuentas then cuentas[q] else 0
  }

  /** The balances of the readings not written yet, brought forward by one step. */
  function Cuentas(n: Node, s: State, st: Step, cuentas: map<nat, int>): map<nat, int>
    requires Enabled(n, s, st)
  {
    var llevadas := map q | q in s.sinLock :: Cuenta(cuentas, q) + Saldo(n, s, st, s.sinLock[q]);
    if st.LeeSinLock? then llevadas[st.q := Excedente(n, s)] else llevadas
  }

  /** Late writes have a balance that is not negative, PUTs fit, and a reading that is not deleted when it should goes on covering. */
  ghost predicate Balanced(n: Node, s: State, cuentas: map<nat, int>, steps: seq<Step>)
    requires Runs(n, s, steps)
    decreases |steps|
  {
    steps != [] ==>
      && (steps[0].EscribeSinLock? ==> Cuenta(cuentas, steps[0].q) >= 0)
      && (!steps[0].EscribeSinLock? ==> Guarded(n, s, steps[0]))
      && Balanced(n, Apply(n, s, steps[0]), Cuentas(n, s, steps[0], cuentas), steps[1..])
  }

  ghost predicate Cuadra(n: Node, s: State, cuentas: map<nat, int>) {
    forall q :: q in s.sinLock ==> Cuenta(cuentas, q) == Sobra(n, s, s.sinLock[q])
  }

  lemma AccountsStayRight(n: Node, s: State, st: Step, cuentas: map<nat, int>)
    requires Wellformed(n, s) && Enabled(n, s, st) && Cuadra(n, s, cuentas)
    ensures Cuadra(n, Apply(n, s, st), Cuentas(n, s, st, cuentas))
  {
    var s', nuevas := Apply(n, s, st), Cuentas(n, s, st, cuentas);
    forall q | q in s'.sinLock ensures Cuenta(nuevas, q) == Sobra(n, s', s'.sinLock[q]) {
      if st != LeeSinLock(q) {
        OldAccount(n, s, st, q, cuentas);
      }
    }
  }

  lemma OldAccount(n: Node, s: State, st: Step, q: nat, cuentas: map<nat, int>)
    requires Wellformed(n, s) && Enabled(n, s, st) && Cuadra(n, s, cuentas)
    requires q in Apply(n, s, st).sinLock && st != LeeSinLock(q)
    ensures var s' := Apply(n, s, st); Cuenta(Cuentas(n, s, st, cuentas), q) == Sobra(n, s', s'.sinLock[q])
  {
    hide Apply, Sobra, Wellformed, Enabled, Saldo, Excedente;
    OldReading(n, s, st, q);
    StepCover(n, s, st, s.sinLock[q]);
  }

  lemma OldReading(n: Node, s: State, st: Step, q: nat)
    requires Enabled(n, s, st) && q in Apply(n, s, st).sinLock && st != LeeSinLock(q)
    ensures q in s.sinLock && Apply(n, s, st).sinLock[q] == s.sinLock[q]
  {
    hide Margen, MargenDe, Reservas;
  }

  lemma {:induction false} BalancedIffGuarded(n: Node, s: State, cuentas: map<nat, int>, steps: seq<Step>)
    requires Wellformed(n, s) && Runs(n, s, steps) && Cuadra(n, s, cuentas)
    ensures Balanced(n, s, cuentas, steps) <==> AlwaysGuarded(n, s, steps)
    decreases |steps|
  {
    if steps != [] {
      StepKeepsWellformed(n, s, steps[0]);
      AccountsStayRight(n, s, steps[0], cuentas);
      hide Apply, Wellformed, Sobra, Cuentas, Cuenta;
      BalancedIffGuarded(n, Apply(n, s, steps[0]), Cuentas(n, s, steps[0], cuentas), steps[1..]);
    }
  }

  /**
    On every run from an empty ledger the invariant holds throughout if and only
    if no late write has a negative balance, every PUT fits with its real increment,
    and no reading that should have been deleted stays without covering.
   */
  lemma InvThroughoutIffBalanced(n: Node, insts: seq<Instancia>, usada: int, steps: seq<Step>)
    requires forall i :: 0 <= i < |insts| ==> 0 <= insts[i].maxMem
    requires Runs(n, Inicial(n, insts, usada), steps)
    ensures AlwaysInv(n, Inicial(n, insts, usada), steps) <==> Balanced(n, Inicial(n, insts, usada), map[], steps)
  {
    RunInvIffGuarded(n, Inicial(n, insts, usada), steps);
    BalancedIffGuarded(n, Inicial(n, insts, usada), map[], steps);
  }

  lemma {:induction false} InvAtTheEnd(n: Node, s: State, steps: seq<Step>)
    requires Runs(n, s, steps) && AlwaysInv(n, s, steps)
    ensures Inv(n, Exec(n, s, steps))
    decreases |steps|
  {
    if steps != [] { InvAtTheEnd(n, Apply(n, s, steps[0]), steps[1..]); }
  }

  /**
    No overcommit: on every balanced run the RAM assigned on the node, with all that
    admitted creations will still add, stays 15% under the node's memory, but for
    what outsiders have added.
   */
  lemma NoOvercommit(n: Node, insts: seq<Instancia>, usada: int, steps: seq<Step>)
    requires forall i :: 0 <= i < |insts| ==> 0 <= insts[i].maxMem
    requires Runs(n, Inicial(n, insts, usada), steps) && Balanced(n, Inicial(n, insts, usada), map[], steps)
    ensures var s := Exec(n, Inicial(n, insts, usada), steps);
      Asignada(s.insts, n.nombre) <= Total(n, s) <= Tope(n) + s.externo
  {
    InvThroughoutIffBalanced(n, insts, usada, steps);
    InvAtTheEnd(n, Inicial(n, insts, usada), steps);
    PendingIsPositive(Exec(n, Inicial(n, insts, usada), steps).entradas);
  }

  lemma {:induction false} PendingIsPositive(es: seq<Entrada>)
    requires forall k :: 0 <= k < |es| ==> 0 <= es[k].r.memoria
    ensures Pendiente(es) >= 0
  {
    if es != [] { PendingIsPositive(es[..|es| - 1]); }
  }

  /** A reading that does not cover, taken when no outsider had added anything and usage was not over what was assigned: the next admission of its whole margin goes over the limit. */
  lemma UncoveredReadingOvercommits(n: Node, s: State, r: Reserva)
    requires Wellformed(n, s) && s.cache.Some? && Sobra(n, s, s.cache.value) < 0
    requires s.cache.value.externo == 0 && s.cache.value.usada <= Asignada(s.cache.value.insts, n.nombre)
    requires Enabled(n, s, Admite(r)) && 0 < r.memoria == MargenDe(n, s.cache.value, s.entradas)
    ensures var s' := Apply(n, s, Admite(r)); Total(n, s') > Tope(n) + s'.externo
  {
    StepTotal(n, s, Admite(r));
  }

  // ---------- Every admission and enlargement, against its reading ----------

  /** Assigned or used, whichever is more, with headroom and all reservations, is within the node at every admission of memory. */
  lemma AdmissionFitsItsReading(n: Node, s: State, r: Reserva)
    requires Enabled(n, s, Admite(r)) && r.memoria > 0
    ensures var f := s.cache.value;
      Comprometida(Nodo(n.total, f.usada), f.insts, Reservas(Apply(n, s, Admite(r)).entradas), n.nombre) <= n.total
  {
    ReservasSnoc(s.entradas, Entrada(r, 0, false));
    AdmissionFits(Nodo(n.total, s.cache.value.usada), s.cache.value.insts, Reservas(s.entradas), r);
  }

  /** The same at every enlargement, with the size the request measured in the reading. */
  lemma EnlargementFitsItsReading(n: Node, s: State, st: Step, k: nat)
    requires Enabled(n, s, st) && st.Amplia? && forall j :: 0 <= j < |s.cache.value.insts| ==> 0 <= s.cache.value.insts[j].maxMem
    requires k < |s.cache.value.insts| && s.cache.value.insts[k] == Instancia(s.pedidos[st.q].vmid, n.nombre, s.pedidos[st.q].leido)
    ensures var f := s.cache.value;
      Comprometida(Nodo(n.total, f.usada), f.insts[k := f.insts[k].(maxMem := st.objetivo)], Reservas(s.entradas), n.nombre) <= n.total
  {
    var f := s.cache.value;
    EnlargementFits(Nodo(n.total, f.usada), f.insts, Reservas(s.entradas), k, st.objetivo - s.pedidos[st.q].leido);
  }
}
