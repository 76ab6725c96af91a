/**
  Mutual exclusion per instance (exclusion_instancias.go with Seguir): a request
  takes the lock of its VMID, checks that no task runs, works, registers its task
  and releases the lock; from then on the RUNNING row keeps others out.
  Requests, finalizers, creations and faults interleave freely.
 */
module Exclusion {
  type Vmid = int
  type ReqId = nat

  /** Where the request is between the guard and the release. */
  datatype Fase = Nuevo | Reservando | Verificado | Saliendo | Fin

  /** The row of tareas_asincronas that the request registered. */
  datatype Fila = SinFila | EnCurso | Cerrada

  /** `amparado` records that nothing has taken the protection of the lock from the request. */
  datatype Pedido = Pedido(vmid: Vmid, fase: Fase, conLock: bool, fila: Fila, amparado: bool)

  /** `creaciones`: the RUNNING rows of creations, which do not pass through the guard. */
  datatype State = State(locks: map<Vmid, ReqId>, pedidos: map<ReqId, Pedido>, creaciones: map<nat, Vmid>)

  datatype Step =
    | Llega(r: ReqId, v: Vmid)
    | Toma(r: ReqId)                 // AcquireLock succeeds
    | Rechaza(r: ReqId)              // the lock is taken, or the request is cancelled
    | SinRedis(r: ReqId)             // the store fails: go on without the lock
    | VeLibre(r: ReqId)              // no RUNNING row of the VMID
    | VeOcupada(r: ReqId)            // there is one
    | NoVe(r: ReqId)                 // the query fails
    | Registra(r: ReqId)             // Seguir creates the RUNNING row
    | NoRegistra(r: ReqId)           // the handler ends without a row
    | Libera(r: ReqId)
    | NoLibera(r: ReqId)             // the release fails; the lock stays until it expires
    | Pierde(v: Vmid)                // the lock expires, or a starting replica deletes it
    | Cierra(r: ReqId)               // the row ends
    | Crea(k: nat, v: Vmid)
    | CierraCreacion(k: nat)

  predicate En(s: State, r: ReqId, fase: Fase) {
    r in s.pedidos && s.pedidos[r].fase == fase
  }

  /** Between the lock and the registration. */
  predicate EnSeccion(p: Pedido) {
    p.fase == Reservando || p.fase == Verificado
  }

  ghost predicate HayFila(s: State, v: Vmid) {
    || (exists r :: r in s.pedidos && s.pedidos[r].vmid == v && s.pedidos[r].fila == EnCurso)
    || (exists k :: k in s.creaciones && s.creaciones[k] == v)
  }

  ghost predicate Enabled(s: State, st: Step) {
    match st
    case Llega(r, _) => r !in s.pedidos
    case Toma(r) => En(s, r, Nuevo) && s.pedidos[r].vmid !in s.locks
    case Rechaza(r) => En(s, r, Nuevo)
    case SinRedis(r) => En(s, r, Nuevo)
    case VeLibre(r) => En(s, r, Reservando) && !HayFila(s, s.pedidos[r].vmid)
    case VeOcupada(r) => En(s, r, Reservando) && HayFila(s, s.pedidos[r].vmid)
    case NoVe(r) => En(s, r, Reservando)
    case Registra(r) => En(s, r, Verificado)
    case NoRegistra(r) => En(s, r, Verificado)
    case Libera(r) => En(s, r, Saliendo)
    case NoLibera(r) => En(s, r, Saliendo)
    case Pierde(v) => v in s.locks
    case Cierra(r) => r in s.pedidos && s.pedidos[r].fila == EnCurso
    case Crea(k, _) => k !in s.creaciones
    case CierraCreacion(k) => k in s.creaciones
  }

  function Con(s: State, r: ReqId, p: Pedido): State {
    s.(pedidos := s.pedidos[r := p])
  }

  /** The owner of a lost lock is no longer protected, if it was still counting on it. */
  function Desamparar(s: State, v: Vmid): State
    requires v in s.locks
  {
    var r := s.locks[v];
    if r in s.pedidos && EnSeccion(s.pedidos[r]) then Con(s, r, s.pedidos[r].(amparado := false)) else s
  }

  function Apply(s: State, st: Step): State
    requires Enabled(s, st)
  {
    match st
    case Llega(r, v) => Con(s, r, Pedido(v, Nuevo, false, SinFila, true))
    case Toma(r) => Con(s, r, s.pedidos[r].(fase := Reservando, conLock := true)).(locks := s.locks[s.pedidos[r].vmid := r])
    case Rechaza(r) => Con(s, r, s.pedidos[r].(fase := Fin))
    case SinRedis(r) => Con(s, r, s.pedidos[r].(fase := Reservando, amparado := false))
    case VeLibre(r) => Con(s, r, s.pedidos[r].(fase := Verificado))
    case VeOcupada(r) => Con(s, r, s.pedidos[r].(fase := Saliendo))
    case NoVe(r) => Con(s, r, s.pedidos[r].(fase := Saliendo))
    case Registra(r) => Con(s, r, s.pedidos[r].(fase := Saliendo, fila := EnCurso))
    case NoRegistra(r) => Con(s, r, s.pedidos[r].(fase := Saliendo))
    case Libera(r) =>
      var p, v := s.pedidos[r].(fase := Fin), s.pedidos[r].vmid;
      Con(s, r, p).(locks := if p.conLock && v in s.locks && s.locks[v] == r then s.locks - {v} else s.locks)
    case NoLibera(r) => Con(s, r, s.pedidos[r].(fase := Fin))
    case Pierde(v) => Desamparar(s, v).(locks := s.locks - {v})
    case Cierra(r) => Con(s, r, s.pedidos[r].(fila := Cerrada))
    case Crea(k, v) => s.(creaciones := s.creaciones[k := v])
    case CierraCreacion(k) => s.(creaciones := s.creaciones - {k})
  }

  const INIT := State(map[], map[], map[])

  ghost predicate Runs(s: State, steps: seq<Step>)
    decreases |steps|
  {
    steps != [] ==> Enabled(s, steps[0]) && Runs(Apply(s, steps[0]), steps[1..])
  }

  ghost function Exec(s: State, steps: seq<Step>): State
    requires Runs(s, steps)
    decreases |steps|
  {
    if steps == [] then s else Exec(Apply(s, steps[0]), steps[1..])
  }

  // ---------- What counts as a fault, and who occupies an instance ----------

  /** Going on without the lock, or losing it between taking it and registering. */
  predicate EsFalla(s: State, st: Step, v: Vmid) {
    match st
    case SinRedis(r) => r in s.pedidos && s.pedidos[r].vmid == v
    case Pierde(w) => w == v && v in s.locks && s.locks[v] in s.pedidos && EnSeccion(s.pedidos[s.locks[v]])
    case _ => false
  }

  ghost function Fallas(s: State, steps: seq<Step>, v: Vmid): nat
    requires Runs(s, steps)
    decreases |steps|
  {
    if steps == [] then 0
    else (if EsFalla(s, steps[0], v) then 1 else 0) + Fallas(Apply(s, steps[0]), steps[1..], v)
  }

  predicate Ocupa(p: Pedido) {
    p.fase == Verificado || p.fila == EnCurso
  }

  /** The requests that passed the check and have not registered, and those whose row runs. */
  function Ocupantes(s: State, v: Vmid): set<ReqId> {
    set r | r in s.pedidos && s.pedidos[r].vmid == v && Ocupa(s.pedidos[r])
  }

  function Desamparados(s: State, v: Vmid): set<ReqId> {
    set r | r in s.pedidos && s.pedidos[r].vmid == v && !s.pedidos[r].amparado
  }

  // ---------- The invariant ----------

  predicate AmparadoOcupa(s: State, v: Vmid, r: ReqId) {
    r in s.pedidos && s.pedidos[r].vmid == v && s.pedidos[r].amparado && Ocupa(s.pedidos[r])
  }

  ghost predicate Inv(s: State, v: Vmid) {
    && (forall r :: r in s.pedidos && s.pedidos[r].vmid == v && s.pedidos[r].amparado && EnSeccion(s.pedidos[r]) ==>
          v in s.locks && s.locks[v] == r)
    && (forall a, b :: AmparadoOcupa(s, v, a) && AmparadoOcupa(s, v, b) ==> a == b)
    && (forall r :: r in s.pedidos && s.pedidos[r].fila != SinFila ==> s.pedidos[r].fase == Saliendo || s.pedidos[r].fase == Fin)
    && (forall w :: w in s.locks ==> s.locks[w] in s.pedidos && s.pedidos[s.locks[w]].vmid == w)
  }
  lemma TakingTheLock(s: State, v: Vmid, r: ReqId)
    requires Inv(s, v) && Enabled(s, Toma(r))
    ensures Inv(Apply(s, Toma(r)), v)
  {
    var s' := Apply(s, Toma(r));
    assert forall a :: AmparadoOcupa(s', v, a) ==> AmparadoOcupa(s, v, a);
  }

  lemma PassingTheCheck(s: State, v: Vmid, r: ReqId)
    requires Inv(s, v) && Enabled(s, VeLibre(r))
    ensures Inv(Apply(s, VeLibre(r)), v)
  {
    var s' := Apply(s, VeLibre(r));
    forall a, b | AmparadoOcupa(s', v, a) && AmparadoOcupa(s', v, b)
      ensures a == b
    {
      assert a != r ==> AmparadoOcupa(s, v, a);
      assert b != r ==> AmparadoOcupa(s, v, b);
    }
  }

  /** A request that only moves on, and locks that only go away when nobody in the section counts on them. */
  lemma MovingOn(s: State, s': State, v: Vmid, r: ReqId)
    requires Inv(s, v) && r in s.pedidos && r in s'.pedidos && s'.pedidos == s.pedidos[r := s'.pedidos[r]]
    requires var p, p' := s.pedidos[r], s'.pedidos[r];
      && p'.vmid == p.vmid && (p'.amparado ==> p.amparado)
      && (EnSeccion(p') ==> EnSeccion(p) || !p'.amparado) && (Ocupa(p') ==> Ocupa(p))
      && (p'.fila != SinFila ==> p'.fase == Saliendo || p'.fase == Fin)
    requires forall w :: w in s'.locks ==> w in s.locks && s'.locks[w] == s.locks[w]
    requires forall w :: w in s.locks && w !in s'.locks ==>
      !(s'.pedidos[s.locks[w]].amparado && EnSeccion(s'.pedidos[s.locks[w]]))
    ensures Inv(s', v)
  {
    assert forall a :: AmparadoOcupa(s', v, a) ==> AmparadoOcupa(s, v, a);
  }

  lemma Arriving(s: State, v: Vmid, r: ReqId, w: Vmid)
    requires Inv(s, v) && r !in s.pedidos
    ensures Inv(Apply(s, Llega(r, w)), v)
  {
    var s' := Apply(s, Llega(r, w));
    assert forall a :: AmparadoOcupa(s', v, a) ==> AmparadoOcupa(s, v, a);
  }

  lemma StepKeepsInv(s: State, v: Vmid, st: Step)
    requires Inv(s, v) && Enabled(s, st)
    ensures Inv(Apply(s, st), v)
  {
    match st {
      case Llega(r, w) => Arriving(s, v, r, w);
      case Toma(r) => TakingTheLock(s, v, r);
      case VeLibre(r) => PassingTheCheck(s, v, r);
      case Crea(_, _) => SameButCreations(s, Apply(s, st), v);
      case CierraCreacion(_) => SameButCreations(s, Apply(s, st), v);
      case Pierde(w) => MovingOn(s, Apply(s, st), v, s.locks[w]);
      case _ => MovingOn(s, Apply(s, st), v, st.r);
    }
  }

  lemma SameButCreations(s: State, s': State, v: Vmid)
    requires Inv(s, v) && s'.locks == s.locks && s'.pedidos == s.pedidos
    ensures Inv(s', v)
  {
    assert forall a :: AmparadoOcupa(s', v, a) ==> AmparadoOcupa(s, v, a);
  }

  /** Only a fault of the VMID leaves one more request unprotected. */
  lemma StepCountsFaults(s: State, v: Vmid, st: Step)
    requires Inv(s, v) && Enabled(s, st)
    ensures |Desamparados(Apply(s, st), v)| <= |Desamparados(s, v)| + if EsFalla(s, st, v) then 1 else 0
  {
    if st.SinRedis? {
      GoingOnWithoutLock(s, v, st.r);
    } else if st.Pierde? {
      LosingALock(s, v, st.v);
    } else {
      OthersUnprotectNobody(s, v, st);
      Fewer(Desamparados(Apply(s, st), v), Desamparados(s, v));
    }
  }

  lemma GoingOnWithoutLock(s: State, v: Vmid, r: ReqId)
    requires Enabled(s, SinRedis(r))
    ensures |Desamparados(Apply(s, SinRedis(r)), v)| <= |Desamparados(s, v)| + if EsFalla(s, SinRedis(r), v) then 1 else 0
  {
    var antes := Desamparados(s, v);
    assert Desamparados(Apply(s, SinRedis(r)), v) == if s.pedidos[r].vmid == v then antes + {r} else antes;
  }

  lemma OthersUnprotectNobody(s: State, v: Vmid, st: Step)
    requires Enabled(s, st) && !st.SinRedis? && !st.Pierde?
    ensures Desamparados(Apply(s, st), v) <= Desamparados(s, v)
  {
    hide HayFila;
    var s' := Apply(s, st);
    assert forall r :: r in s'.pedidos && !s'.pedidos[r].amparado ==> r in s.pedidos && !s.pedidos[r].amparado && s.pedidos[r].vmid == s'.pedidos[r].vmid;
  }

  lemma LosingALock(s: State, v: Vmid, w: Vmid)
    requires Inv(s, v) && w in s.locks
    ensures |Desamparados(Apply(s, Pierde(w)), v)| <= |Desamparados(s, v)| + if EsFalla(s, Pierde(w), v) then 1 else 0
  {
    var despues := Desamparados(Apply(s, Pierde(w)), v);
    var mas := Desamparados(s, v) + if EsFalla(s, Pierde(w), v) then {s.locks[w]} else {};
    assert despues <= mas;
    Fewer(despues, mas);
  }

  lemma {:induction false} Fewer<T>(a: set<T>, b: set<T>)
    requires a <= b
    ensures |a| <= |b|
  {
    if x :| x in a {
      Fewer(a - {x}, b - {x});
    }
  }

  lemma {:induction false} EveryRun(s: State, steps: seq<Step>, v: Vmid)
    requires Inv(s, v) && Runs(s, steps)
    ensures Inv(Exec(s, steps), v)
    ensures |Desamparados(Exec(s, steps), v)| <= |Desamparados(s, v)| + Fallas(s, steps, v)
    decreases |steps|
  {
    if steps != [] {
      StepKeepsInv(s, v, steps[0]);
      StepCountsFaults(s, v, steps[0]);
      EveryRun(Apply(s, steps[0]), steps[1..], v);
    }
  }

  lemma OnlyOneProtected(s: State, v: Vmid)
    requires Inv(s, v)
    ensures |Ocupantes(s, v)| <= 1 + |Desamparados(s, v)|
  {
    var o, d := Ocupantes(s, v), Desamparados(s, v);
    if r :| r in o && r !in d {
      forall a | a in o ensures a in d + {r} {
        assert a in d || (AmparadoOcupa(s, v, a) && AmparadoOcupa(s, v, r));
      }
      Fewer(o, d + {r});
    } else {
      assert o <= d;
      Fewer(o, d);
    }
  }

  /**
    On every run, an instance is occupied by at most one request more than the
    faults the run had on that instance.
   */
  lemma OccupantsBoundedByFaults(steps: seq<Step>, v: Vmid)
    requires Runs(INIT, steps)
    ensures |Ocupantes(Exec(INIT, steps), v)| <= 1 + Fallas(INIT, steps, v)
  {
    EveryRun(INIT, steps, v);
    assert Desamparados(INIT, v) == {};
    OnlyOneProtected(Exec(INIT, steps), v);
  }

  /** With the store answering and no lock lost inside the section: mutual exclusion. */
  lemma MutualExclusion(steps: seq<Step>, v: Vmid)
    requires Runs(INIT, steps) && Fallas(INIT, steps, v) == 0
    ensures forall a, b :: a in Ocupantes(Exec(INIT, steps), v) && b in Ocupantes(Exec(INIT, steps), v) ==> a == b
  {
    OccupantsBoundedByFaults(steps, v);
    var o := Ocupantes(Exec(INIT, steps), v);
    forall a, b | a in o && b in o ensures a == b {
      Fewer({a, b}, o);
    }
  }
  // ---------- The bound is reached ----------

  lemma Prepend(s: State, st: Step, rest: seq<Step>, v: Vmid)
    requires Enabled(s, st) && Runs(Apply(s, st), rest)
    ensures Runs(s, [st] + rest) && Exec(s, [st] + rest) == Exec(Apply(s, st), rest)
    ensures Fallas(s, [st] + rest, v) == (if EsFalla(s, st, v) then 1 else 0) + Fallas(Apply(s, st), rest, v)
  {
    assert ([st] + rest)[1..] == rest;
  }

  /** `n` requests, from number `k` on, that go on without the lock while nothing has been registered. */
  function Cuelan(k: ReqId, n: nat, v: Vmid): seq<Step>
    decreases n
  {
    if n == 0 then [] else [Llega(k, v)] + ([SinRedis(k)] + ([VeLibre(k)] + Cuelan(k + 1, n - 1, v)))
  }

  function Colado(s: State, k: ReqId, v: Vmid): State {
    Con(s, k, Pedido(v, Verificado, false, SinFila, false))
  }

  lemma SlipsIn(s: State, k: ReqId, n: nat, v: Vmid)
    requires n > 0 && k !in s.pedidos && !HayFila(s, v) && Runs(Colado(s, k, v), Cuelan(k + 1, n - 1, v))
    ensures Runs(s, Cuelan(k, n, v)) && Exec(s, Cuelan(k, n, v)) == Exec(Colado(s, k, v), Cuelan(k + 1, n - 1, v))
    ensures Fallas(s, Cuelan(k, n, v), v) == 1 + Fallas(Colado(s, k, v), Cuelan(k + 1, n - 1, v), v)
  {
    var rest := Cuelan(k + 1, n - 1, v);
    var s1 := Apply(s, Llega(k, v));
    var s2 := Apply(s1, SinRedis(k));
    SameRows(s, s2, v, k);
    assert Apply(s2, VeLibre(k)) == Colado(s, k, v);
    Prepend(s2, VeLibre(k), rest, v);
    Prepend(s1, SinRedis(k), [VeLibre(k)] + rest, v);
    Prepend(s, Llega(k, v), [SinRedis(k)] + ([VeLibre(k)] + rest), v);
  }

  /** A request without a row of its own changes nothing about the rows. */
  lemma SameRows(s: State, s': State, v: Vmid, r: ReqId)
    requires r in s'.pedidos && s'.pedidos == s.pedidos[r := s'.pedidos[r]] && s'.creaciones == s.creaciones
    requires s'.pedidos[r].fila == SinFila && (r in s.pedidos ==> s.pedidos[r].fila == SinFila)
    ensures HayFila(s', v) <==> HayFila(s, v)
  {
    assert forall q :: q != r ==> (q in s.pedidos <==> q in s'.pedidos) && (q in s.pedidos ==> s.pedidos[q] == s'.pedidos[q]);
  }

  lemma OneMoreInside(s: State, k: ReqId, v: Vmid)
    requires !HayFila(s, v) && forall r :: r in s.pedidos ==> r < k
    ensures !HayFila(Colado(s, k, v), v) && forall r :: r in Colado(s, k, v).pedidos ==> r < k + 1
    ensures |Ocupantes(Colado(s, k, v), v)| == |Ocupantes(s, v)| + 1
  {
    SameRows(s, Colado(s, k, v), v, k);
    assert Ocupantes(Colado(s, k, v), v) == Ocupantes(s, v) + {k};
  }

  lemma {:induction false} ManySlipIn(s: State, k: ReqId, n: nat, v: Vmid)
    requires !HayFila(s, v) && forall r :: r in s.pedidos ==> r < k
    ensures Runs(s, Cuelan(k, n, v)) && Fallas(s, Cuelan(k, n, v), v) == n
    ensures |Ocupantes(Exec(s, Cuelan(k, n, v)), v)| == |Ocupantes(s, v)| + n
    decreases n
  {
    if n > 0 {
      hide Runs, Exec, Fallas, Cuelan, Colado, HayFila, Ocupantes;
      OneMoreInside(s, k, v);
      ManySlipIn(Colado(s, k, v), k + 1, n - 1, v);
      SlipsIn(s, k, n, v);
    }
  }

  /** The state in which one request alone has passed the guard, lock in hand. */
  function UnoDentro(v: Vmid): State {
    State(map[v := 0], map[0 := Pedido(v, Verificado, true, SinFila, true)], map[])
  }

  lemma OneGetsIn(v: Vmid, rest: seq<Step>)
    requires Runs(UnoDentro(v), rest)
    ensures var steps := [Llega(0, v)] + ([Toma(0)] + ([VeLibre(0)] + rest));
      && Runs(INIT, steps) && Exec(INIT, steps) == Exec(UnoDentro(v), rest)
      && Fallas(INIT, steps, v) == Fallas(UnoDentro(v), rest, v)
  {
    var s1 := Apply(INIT, Llega(0, v));
    var s2 := Apply(s1, Toma(0));
    assert Apply(s2, VeLibre(0)) == UnoDentro(v);
    Prepend(s2, VeLibre(0), rest, v);
    Prepend(s1, Toma(0), [VeLibre(0)] + rest, v);
    Prepend(INIT, Llega(0, v), [Toma(0)] + ([VeLibre(0)] + rest), v);
  }

  /** For every number of faults there is a run in which each of them lets one more request in. */
  lemma BoundIsReached(n: nat, v: Vmid)
    ensures exists steps :: Runs(INIT, steps) && Fallas(INIT, steps, v) == n && |Ocupantes(Exec(INIT, steps), v)| == n + 1
  {
    assert Ocupantes(UnoDentro(v), v) == {0};
    ManySlipIn(UnoDentro(v), 1, n, v);
    OneGetsIn(v, Cuelan(1, n, v));
  }

  function Segundo(v: Vmid): seq<Step> {
    [Pierde(v)] + ([Llega(1, v)] + ([Toma(1)] + ([VeLibre(1)] + [])))
  }

  lemma SecondGetsIn(v: Vmid)
    ensures var s := UnoDentro(v);
      Runs(s, Segundo(v)) && Ocupantes(Exec(s, Segundo(v)), v) == {0, 1}
  {
    var s := UnoDentro(v);
    var s1 := Apply(s, Pierde(v));
    var s2 := Apply(s1, Llega(1, v));
    var s3 := Apply(s2, Toma(1));
    var s4 := Apply(s3, VeLibre(1));
    assert Ocupantes(s4, v) == {0, 1};
    Prepend(s3, VeLibre(1), [], v);
    Prepend(s2, Toma(1), [VeLibre(1)] + [], v);
    Prepend(s1, Llega(1, v), [Toma(1)] + ([VeLibre(1)] + []), v);
    Prepend(s, Pierde(v), [Llega(1, v)] + ([Toma(1)] + ([VeLibre(1)] + [])), v);
  }

  /** With the store answering, a lock lost inside the section is enough to let a second request in. */
  lemma LostLockLetsTwoIn(v: Vmid)
    ensures exists steps :: Runs(INIT, steps) && |Ocupantes(Exec(INIT, steps), v)| == 2 && forall r :: SinRedis(r) !in steps
  {
    hide Runs, Exec, Fallas, Apply, Enabled, Ocupantes;
    SecondGetsIn(v);
    OneGetsIn(v, Segundo(v));
  }

  // ---------- What a request goes through ----------

  /** The request that a step is of, if any. */
  predicate EsDe(st: Step, r: ReqId) {
    match st
    case Llega(x, _) => x == r
    case Toma(x) => x == r
    case Rechaza(x) => x == r
    case SinRedis(x) => x == r
    case VeLibre(x) => x == r
    case VeOcupada(x) => x == r
    case NoVe(x) => x == r
    case Registra(x) => x == r
    case NoRegistra(x) => x == r
    case Libera(x) => x == r
    case NoLibera(x) => x == r
    case Cierra(x) => x == r
    case Pierde(_) => false
    case Crea(_, _) => false
    case CierraCreacion(_) => false
  }

  /**
    The way of a request: refused, or past the lock; then past the check or on its
    way out; then, with a row or without, on its way out; and out.  Its row ends
    once, at any time after it was registered, and no step of another touches it.
   */
  lemma TheWayOfARequest(s: State, st: Step, r: ReqId)
    requires Enabled(s, st) && r in s.pedidos
    ensures var p, p' := s.pedidos[r], Apply(s, st).pedidos[r];
      && r in Apply(s, st).pedidos && p'.vmid == p.vmid
      && (!EsDe(st, r) ==> p' == p || p' == p.(amparado := false))
      && (EsDe(st, r) && st.Rechaza? ==> p' == p.(fase := Fin))
      && (EsDe(st, r) && (st.Toma? || st.SinRedis?) ==> p'.fase == Reservando && p'.fila == p.fila && (p'.conLock <==> p.conLock || st.Toma?))
      && (EsDe(st, r) && st.VeLibre? ==> p' == p.(fase := Verificado))
      && (EsDe(st, r) && (st.VeOcupada? || st.NoVe? || st.NoRegistra?) ==> p' == p.(fase := Saliendo))
      && (EsDe(st, r) && st.Registra? ==> p' == p.(fase := Saliendo, fila := EnCurso))
      && (EsDe(st, r) && (st.Libera? || st.NoLibera?) ==> p' == p.(fase := Fin))
      && (EsDe(st, r) && st.Cierra? ==> p' == p.(fila := Cerrada))
  {
  }

  /** Locks: one more when it is taken, one less when its owner releases it or it is lost, and otherwise the same; rows of creations by their own steps. */
  lemma LocksAndCreations(s: State, st: Step)
    requires Enabled(s, st)
    ensures var s' := Apply(s, st);
      && (st.Toma? ==> s'.locks == s.locks[s.pedidos[st.r].vmid := st.r])
      && (st.Pierde? ==> s'.locks == s.locks - {st.v})
      && (st.Libera? ==> var p := s.pedidos[st.r];
            s'.locks == if p.conLock && p.vmid in s.locks && s.locks[p.vmid] == st.r then s.locks - {p.vmid} else s.locks)
      && (!st.Toma? && !st.Pierde? && !st.Libera? ==> s'.locks == s.locks)
      && (st.Crea? ==> s'.creaciones == s.creaciones[st.k := st.v])
      && (st.CierraCreacion? ==> s'.creaciones == s.creaciones - {st.k})
      && (!st.Crea? && !st.CierraCreacion? ==> s'.creaciones == s.creaciones)
  {
  }

  lemma {:induction false} RowStays(s: State, steps: seq<Step>, r: ReqId)
    requires Runs(s, steps) && r in s.pedidos && s.pedidos[r].fila == EnCurso && s.pedidos[r].fase in {Saliendo, Fin} && Cierra(r) !in steps
    ensures r in Exec(s, steps).pedidos && Exec(s, steps).pedidos[r].fila == EnCurso && Exec(s, steps).pedidos[r].vmid == s.pedidos[r].vmid
    decreases |steps|
  {
    if steps != [] {
      TheWayOfARequest(s, steps[0], r);
      hide Apply;
      RowStays(Apply(s, steps[0]), steps[1..], r);
    }
  }

  /** From its registration on, over every run, the row of a request keeps every other request of its instance out, until it ends. */
  lemma RowKeepsOthersOut(s: State, r: ReqId, steps: seq<Step>, otro: ReqId)
    requires Enabled(s, Registra(r)) && Runs(Apply(s, Registra(r)), steps) && Cierra(r) !in steps
    ensures var s' := Exec(Apply(s, Registra(r)), steps);
      && HayFila(s', s.pedidos[r].vmid)
      && (En(s', otro, Reservando) && s'.pedidos[otro].vmid == s.pedidos[r].vmid ==> !Enabled(s', VeLibre(otro)) && Enabled(s', VeOcupada(otro)))
  {
    TheWayOfARequest(s, Registra(r), r);
    RowStays(Apply(s, Registra(r)), steps, r);
  }

  /** The same for the row of a creation. */
  lemma {:induction false} CreationStays(s: State, steps: seq<Step>, k: nat)
    requires Runs(s, steps) && k in s.creaciones && CierraCreacion(k) !in steps
    ensures k in Exec(s, steps).creaciones && Exec(s, steps).creaciones[k] == s.creaciones[k] && HayFila(Exec(s, steps), s.creaciones[k])
    decreases |steps|
  {
    if steps != [] {
      LocksAndCreations(s, steps[0]);
      CreationStays(Apply(s, steps[0]), steps[1..], k);
    }
  }

  /** When the only row of an instance ends, the next check finds it free. */
  lemma EndLetsIn(s: State, r: ReqId, otro: ReqId)
    requires Enabled(s, Cierra(r)) && En(s, otro, Reservando) && otro != r && s.pedidos[otro].vmid == s.pedidos[r].vmid
    requires forall x :: x in s.pedidos && x != r && s.pedidos[x].vmid == s.pedidos[r].vmid ==> s.pedidos[x].fila != EnCurso
    requires forall k :: k in s.creaciones ==> s.creaciones[k] != s.pedidos[r].vmid
    ensures Enabled(Apply(s, Cierra(r)), VeLibre(otro))
  {
  }

  // ---------- The guard itself ----------

  datatype Candado = Tomado | Vencido | Caido
  datatype Consulta = NoResponde | Responde(enCurso: bool)
  datatype Respuesta = Reservada | Ocupada | NoDisponible | Cancelada

  /** The guard over the shared state; what the stores answer is given. */
  class Guardian {
    var s: State

    constructor ()
      ensures s == INIT
    {
      s := INIT;
    }

    method Paso(st: Step)
      requires Enabled(s, st)
      modifies this
      ensures s == Apply(old(s), st)
    {
      s := Apply(s, st);
    }

    /** liberar, when the guard itself gives up. */
    method Soltar(r: ReqId, suelta: bool)
      requires En(s, r, Saliendo)
      modifies this
      ensures s == Apply(old(s), if suelta then Libera(r) else NoLibera(r))
      ensures s.pedidos == old(s.pedidos)[r := old(s.pedidos)[r].(fase := Fin)] && s.creaciones == old(s.creaciones)
      ensures var p := old(s.pedidos)[r];
        s.locks == if suelta && p.conLock && p.vmid in old(s.locks) && old(s.locks)[p.vmid] == r then old(s.locks) - {p.vmid} else old(s.locks)
    {
      if suelta { Paso(Libera(r)); } else { Paso(NoLibera(r)); }
    }

    /** Reservar: `vivo` says whether the request is still alive when the lock is not obtained. */
    method Reservar(r: ReqId, candado: Candado, vivo: bool, consulta: Consulta, suelta: bool) returns (res: Respuesta)
      requires En(s, r, Nuevo) && !s.pedidos[r].conLock && s.pedidos[r].fila == SinFila && (candado.Tomado? ==> s.pedidos[r].vmid !in s.locks)
      requires consulta.Responde? ==> (consulta.enCurso <==> HayFila(s, s.pedidos[r].vmid))
      modifies this
      ensures res.Reservada? <==>
        (candado.Tomado? || (candado.Caido? && vivo)) && consulta.Responde? && !old(HayFila(s, s.pedidos[r].vmid))
      ensures res.Reservada? ==> s == Apply(Apply(old(s), if candado.Tomado? then Toma(r) else SinRedis(r)), VeLibre(r))
      ensures !res.Reservada? ==> En(s, r, Fin) && s.creaciones == old(s.creaciones)
      ensures !res.Reservada? ==> s.pedidos == old(s.pedidos)[r := s.pedidos[r]] && (suelta ==> s.locks == old(s.locks))
      ensures res.Cancelada? <==> !candado.Tomado? && !vivo
      ensures res.NoDisponible? <==> (candado.Tomado? || (candado.Caido? && vivo)) && consulta.NoResponde?
      ensures res.Ocupada? <==> (candado.Vencido? && vivo) || ((candado.Tomado? || (candado.Caido? && vivo)) && consulta.Responde? && consulta.enCurso)
      ensures res.Reservada? ==> s.pedidos == old(s.pedidos)[r := old(s.pedidos)[r].(fase := Verificado, conLock := candado.Tomado?,
        amparado := candado.Tomado? && old(s.pedidos)[r].amparado)]
      ensures res.Reservada? ==> s.creaciones == old(s.creaciones)
      ensures res.Reservada? ==> s.locks == if candado.Tomado? then old(s.locks)[old(s.pedidos)[r].vmid := r] else old(s.locks)
    {
      hide HayFila;
      ghost var p := s.pedidos[r];
      if !candado.Tomado? {
        if !vivo || candado.Vencido? {
          Paso(Rechaza(r));
          return if vivo then Ocupada else Cancelada;
        }
        Paso(SinRedis(r));
      } else {
        Paso(Toma(r));
        assert s.locks - {p.vmid} == old(s.locks);
      }
      if consulta.NoResponde? {
        Paso(NoVe(r));
        Soltar(r, suelta);
        return NoDisponible;
      }
      SameRows(old(s), s, p.vmid, r);
      if consulta.enCurso {
        Paso(VeOcupada(r));
        Soltar(r, suelta);
        return Ocupada;
      }
      Paso(VeLibre(r));
      res := Reservada;
    }
  }
}
