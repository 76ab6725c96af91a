/**
  Increments measured on an old size.  A reconfiguration reads the instance's size,
  later the digest of its configuration, and later still sends the PUT, which
  Proxmox refuses if the configuration has changed since its digest was read.
 */
module CapacityIncrements {
  import opened Wrappers
  import opened CapacityMath
  import opened Capacity
  import opened CapacityRuns
  import opened CapacitySafety

  /** How much more can be assigned or admitted under the limit. */
  function Hueco(n: Node, s: State): int {
    Tope(n) + s.externo - Total(n, s)
  }

  ghost predicate PuedeAmpliar(n: Node, s: State, q: nat, i: nat) {
    !s.enCurso && s.cache.Some? && Listo(n, s, q, i) && Acepta(s, q)
  }

  /** The same, and if the cached reading is not deleted also in its cover. */
  function Holgura(n: Node, s: State, borra: bool): int
    requires s.cache.Some?
  {
    if borra || Hueco(n, s) <= Sobra(n, s, s.cache.value) then Hueco(n, s) else Sobra(n, s, s.cache.value)
  }

  /** Every target that the check accepts, applied at once. */
  ghost predicate AllTargetsKeepInv(n: Node, s: State, q: nat, i: nat, digest: int, borra: bool) {
    forall objetivo {:trigger Enabled(n, s, Amplia(q, i, objetivo, true, digest, borra))} ::
      Enabled(n, s, Amplia(q, i, objetivo, true, digest, borra)) ==> Inv(n, Apply(n, s, Amplia(q, i, objetivo, true, digest, borra)))
  }

  /**
    With a positive margin, all accepted targets keep the invariant exactly when
    the instance has not shrunk, since it was measured, by more than the room that
    the checked margin leaves unused.
   */
  lemma StaleIncrementIsSafeIff(n: Node, s: State, q: nat, i: nat, digest: int, borra: bool)
    requires Inv(n, s) && PuedeAmpliar(n, s, q, i) && MargenDe(n, s.cache.value, s.entradas) > 0
    ensures AllTargetsKeepInv(n, s, q, i, digest, borra) <==>
      s.pedidos[q].leido - s.insts[i].maxMem <= Holgura(n, s, borra) - MargenDe(n, s.cache.value, s.entradas)
  {
    var m, leido := MargenDe(n, s.cache.value, s.entradas), s.pedidos[q].leido;
    assert Enabled(n, s, Amplia(q, i, leido + m, true, digest, borra));
    GuardIsExact(n, s, Amplia(q, i, leido + m, true, digest, borra));
    forall objetivo | Enabled(n, s, Amplia(q, i, objetivo, true, digest, borra))
      ensures Inv(n, Apply(n, s, Amplia(q, i, objetivo, true, digest, borra))) <==> objetivo - s.insts[i].maxMem <= Holgura(n, s, borra)
    {
      GuardIsExact(n, s, Amplia(q, i, objetivo, true, digest, borra));
    }
    hide Apply, Inv, MargenDe, Hueco;
  }

  /** The reading that the increment was checked on is deleted, or covers the increment all the same. */
  ghost predicate NoEngana(n: Node, s: State, st: Step)
    requires Enabled(n, s, st)
  {
    st.Amplia? && !st.borra ==> Aumento(s, st.q, st.i, st.objetivo, st.enUso) <= Sobra(n, s, s.cache.value)
  }

  /** Not shrunk since it was measured: every accepted increment fits, and the invariant is kept unless the reading stays without covering it. */
  lemma UnshrunkIsSafe(n: Node, s: State, st: Step)
    requires Inv(n, s) && Enabled(n, s, st) && st.Amplia? && s.insts[st.i].maxMem >= s.pedidos[st.q].leido
    ensures Hueco(n, Apply(n, s, st)) >= 0
    ensures Inv(n, Apply(n, s, st)) <==> NoEngana(n, s, st)
  {
    GuardIsExact(n, s, st);
    BoundKeptIff(n, s, st);
  }

  ghost predicate AllReductionsKeepInv(n: Node, s: State, q: nat, i: nat, digest: int) {
    forall objetivo {:trigger Enabled(n, s, Directo(q, i, objetivo, true, digest))} ::
      Enabled(n, s, Directo(q, i, objetivo, true, digest)) ==> Inv(n, Apply(n, s, Directo(q, i, objetivo, true, digest)))
  }

  /**
    A target that is no increment, as measured, is sent unchecked: all of them keep
    the invariant exactly when what the instance has shrunk since fits in the room
    left and in the cover of the cached reading.
   */
  lemma StaleReductionIsSafeIff(n: Node, s: State, q: nat, i: nat, digest: int)
    requires Inv(n, s) && Listo(n, s, q, i) && Acepta(s, q)
    ensures AllReductionsKeepInv(n, s, q, i, digest) <==>
      var menos := s.pedidos[q].leido - s.insts[i].maxMem;
      menos <= Hueco(n, s) && (s.cache.Some? ==> menos <= Sobra(n, s, s.cache.value))
  {
    var leido := s.pedidos[q].leido;
    assert Enabled(n, s, Directo(q, i, leido, true, digest));
    GuardIsExact(n, s, Directo(q, i, leido, true, digest));
    forall objetivo | Enabled(n, s, Directo(q, i, objetivo, true, digest))
      ensures var mas := objetivo - s.insts[i].maxMem;
        Inv(n, Apply(n, s, Directo(q, i, objetivo, true, digest))) <==> mas <= Hueco(n, s) && (s.cache.Some? ==> mas <= Sobra(n, s, s.cache.value))
    {
      GuardIsExact(n, s, Directo(q, i, objetivo, true, digest));
    }
    hide Apply, Inv, Hueco, Sobra;
  }

  // ---------- What the digest closes ----------

  /** The size of the first instance of the inventory with the VMID. */
  function Tamano(insts: seq<Instancia>, vmid: int): Option<int> {
    if insts == [] then None else if insts[0].vmid == vmid then Some(insts[0].maxMem) else Tamano(insts[1..], vmid)
  }

  /** In this run every step that changes the size of the instance changes its digest, which never becomes `d` again. */
  ghost predicate Delata(n: Node, s: State, steps: seq<Step>, vmid: int, d: int)
    requires Runs(n, s, steps)
    decreases |steps|
  {
    steps != [] ==>
      var s' := Apply(n, s, steps[0]);
      && (Digest(s', vmid) == d ==> Digest(s, vmid) == d && Tamano(s'.insts, vmid) == Tamano(s.insts, vmid))
      && Delata(n, s', steps[1..], vmid, d)
  }

  lemma {:induction false} SameDigestSameSize(n: Node, s: State, steps: seq<Step>, vmid: int, d: int)
    requires Runs(n, s, steps) && Delata(n, s, steps, vmid, d) && Digest(Exec(n, s, steps), vmid) == d
    ensures Digest(s, vmid) == d && Tamano(Exec(n, s, steps).insts, vmid) == Tamano(s.insts, vmid)
    decreases |steps|
  {
    if steps != [] { SameDigestSameSize(n, Apply(n, s, steps[0]), steps[1..], vmid, d); }
  }

  ghost predicate Unicas(insts: seq<Instancia>) {
    forall i, j :: 0 <= i < j < |insts| ==> insts[i].vmid != insts[j].vmid
  }

  lemma {:induction false} SizeOf(insts: seq<Instancia>, i: nat)
    requires Unicas(insts) && i < |insts|
    ensures Tamano(insts, insts[i].vmid) == Some(insts[i].maxMem)
  {
    if i > 0 {
      assert forall k :: 0 <= k < |insts[1..]| ==> insts[1..][k] == insts[k + 1];
      SizeOf(insts[1..], i - 1);
    }
  }

  lemma {:induction false} RequestStays(n: Node, s: State, steps: seq<Step>, q: nat)
    requires Runs(n, s, steps) && q in s.pedidos && s.pedidos[q].digest.Some?
    requires forall k :: 0 <= k < |steps| ==> !Ends(steps[k], q)
    ensures q in Exec(n, s, steps).pedidos && Exec(n, s, steps).pedidos[q] == s.pedidos[q]
    decreases |steps|
  {
    if steps != [] {
      OneStepLeavesRequest(n, s, steps[0], q);
      assert forall k :: 0 <= k < |steps[1..]| ==> steps[1..][k] == steps[k + 1];
      hide Apply, Enabled, Ends;
      RequestStays(n, Apply(n, s, steps[0]), steps[1..], q);
    }
  }

  predicate Ends(st: Step, q: nat) {
    (st.Amplia? || st.Directo?) && st.q == q
  }

  lemma OneStepLeavesRequest(n: Node, s: State, st: Step, q: nat)
    requires Enabled(n, s, st) && q in s.pedidos && s.pedidos[q].digest.Some? && !Ends(st, q)
    ensures q in Apply(n, s, st).pedidos && Apply(n, s, st).pedidos[q] == s.pedidos[q]
  {
    hide Margen, MargenDe, Reservas;
  }

  lemma StepKeepsUnique(n: Node, s: State, st: Step)
    requires Wellformed(n, s) && Unicas(s.insts) && Enabled(n, s, st)
    ensures Unicas(Apply(n, s, st).insts)
  {
    hide Margen, MargenDe, Reservas, Pendiente, Asignada;
  }

  lemma {:induction false} RunKeepsUnique(n: Node, s: State, steps: seq<Step>)
    requires Wellformed(n, s) && Unicas(s.insts) && Runs(n, s, steps)
    ensures Unicas(Exec(n, s, steps).insts)
    decreases |steps|
  {
    if steps != [] {
      StepKeepsWellformed(n, s, steps[0]);
      StepKeepsUnique(n, s, steps[0]);
      hide Apply, Enabled, Wellformed, Unicas;
      RunKeepsUnique(n, Apply(n, s, steps[0]), steps[1..]);
    }
  }

  /** A PUT that is refused, or that finds the instance not smaller than measured. */
  lemma UnshrunkPutIsSafe(n: Node, s: State, st: Step)
    requires Inv(n, s) && Enabled(n, s, st) && (st.Amplia? || st.Directo?)
    requires Acepta(s, st.q) ==> s.insts[st.i].maxMem >= s.pedidos[st.q].leido
    ensures Hueco(n, Apply(n, s, st)) >= 0
    ensures Inv(n, Apply(n, s, st)) <==> NoEngana(n, s, st)
  {
    GuardIsExact(n, s, st);
    BoundKeptIff(n, s, st);
  }

  /**
    If sizes cannot change behind the digest, the only stale measure that matters
    is one that was stale already when the digest was read: an instance not smaller
    then than measured makes every PUT of the request fit, whatever happens in between,
    and keep the invariant unless a checked reading stays without covering it.
   */
  lemma DigestClosesTheWindow(n: Node, s: State, q: nat, steps: seq<Step>, st: Step)
    requires Wellformed(n, s) && Unicas(s.insts)
    requires Enabled(n, s, LeeDigest(q)) && Runs(n, Apply(n, s, LeeDigest(q)), steps)
    requires Delata(n, Apply(n, s, LeeDigest(q)), steps, s.pedidos[q].vmid, Digest(s, s.pedidos[q].vmid))
    requires forall k :: 0 <= k < |steps| ==> !Ends(steps[k], q)
    requires var size := Tamano(s.insts, s.pedidos[q].vmid); size.Some? && size.value >= s.pedidos[q].leido
    requires var s2 := Exec(n, Apply(n, s, LeeDigest(q)), steps); Inv(n, s2) && Enabled(n, s2, st) && Ends(st, q)
    ensures var s2 := Exec(n, Apply(n, s, LeeDigest(q)), steps);
      Hueco(n, Apply(n, s2, st)) >= 0 && (Inv(n, Apply(n, s2, st)) <==> NoEngana(n, s2, st))
  {
    var s1 := Apply(n, s, LeeDigest(q));
    var s2, vmid := Exec(n, s1, steps), s.pedidos[q].vmid;
    DigestRead(n, s, q);
    RequestStays(n, s1, steps, q);
    RunKeepsUnique(n, s1, steps);
    PutIsAboutIt(n, s2, st);
    hide Apply, Enabled, Runs, Exec, Delata, Inv, Wellformed, Unicas, Tamano;
    if Acepta(s2, q) {
      SameDigestSameSize(n, s1, steps, vmid, Digest(s, vmid));
      SizeOf(s2.insts, st.i);
    }
    UnshrunkPutIsSafe(n, s2, st);
  }

  /**
    Once a PUT has been accepted, in use or pending, with a digest of its own, every
    other request that read the digest before it is refused, and its own is over.
   */
  lemma AcceptedPutRefusesOthers(n: Node, s: State, st: Step, otro: nat)
    requires Enabled(n, s, st) && (st.Amplia? || st.Directo?) && Acepta(s, st.q)
    requires otro in s.pedidos && otro != st.q && s.pedidos[otro].vmid == s.pedidos[st.q].vmid && s.pedidos[otro].digest.Some?
    requires s.pedidos[otro].digest.value == Digest(s, s.pedidos[otro].vmid) != st.digest
    ensures var s' := Apply(n, s, st);
      && st.q !in s'.pedidos && otro in s'.pedidos && s'.pedidos[otro] == s.pedidos[otro] && !Acepta(s', otro)
      && s'.insts == if st.enUso then s.insts[st.i := s.insts[st.i].(maxMem := st.objetivo)] else s.insts
  {
  }

  /** A refused PUT changes nothing in Proxmox. */
  lemma RefusedPutChangesNothing(n: Node, s: State, st: Step)
    requires Enabled(n, s, st) && (st.Amplia? || st.Directo?) && !Acepta(s, st.q)
    ensures var s' := Apply(n, s, st);
      s'.insts == s.insts && s'.digests == s.digests && s'.entradas == s.entradas && s'.externo == s.externo && st.q !in s'.pedidos
  {
  }

  lemma DigestRead(n: Node, s: State, q: nat)
    requires Wellformed(n, s) && Enabled(n, s, LeeDigest(q))
    ensures var s1 := Apply(n, s, LeeDigest(q));
      && Wellformed(n, s1) && s1.insts == s.insts && q in s1.pedidos
      && s1.pedidos[q] == s.pedidos[q].(digest := Some(Digest(s, s.pedidos[q].vmid)))
  {
  }

  lemma PutIsAboutIt(n: Node, s: State, st: Step)
    requires Enabled(n, s, st) && (st.Amplia? || st.Directo?)
    ensures st.q in s.pedidos && s.pedidos[st.q].digest.Some? && st.i < |s.insts| && s.insts[st.i].vmid == s.pedidos[st.q].vmid
  {
  }
}
