/**
  How many queries to Proxmox are in progress at once.  The workers are not the
  only ones that ask: recovery starts one verifier for each expired row.
 */
module TaskPoolQueries {
  import opened TaskPool

  lemma {:induction false} SubsetOfRange(xs: set<nat>, n: nat)
    requires forall x :: x in xs ==> x < n
    ensures |xs| <= n
  {
    if n == 0 {
      assert xs == {};
    } else {
      SubsetOfRange(xs - {n - 1}, n - 1);
    }
  }

  /** The workers, and the verifiers, that are asking Proxmox. */
  function Querying(s: State): set<Routine> {
    set g | g in s.flows && s.flows[g].Consultando?
  }

  function Checking(s: State): set<Routine> {
    set g | g in s.flows && s.flows[g].Verificando?
  }

  lemma AskingIsBounded(c: Config, s: State)
    requires Inv(c, s)
    ensures |Querying(s)| <= c.workers && |Checking(s)| <= c.workers && |Querying(s) + Checking(s)| <= 2 * c.workers
  {
    forall g | g in Querying(s) ensures g < c.workers {
      assert RoleOk(c, g, s.flows[g]);
    }
    SubsetOfRange(Querying(s), c.workers);
    forall g | g in Checking(s) ensures g in EnTurno(c, s) {
      assert RoleOk(c, g, s.flows[g]);
    }
    Fewer(Checking(s), EnTurno(c, s));
  }

  /** At most `workers` queries of workers, and as many of start-up verifiers, are in progress at any time. */
  lemma QueriesAreBounded(c: Config, rows: map<TaskId, Row>, steps: seq<Step>)
    requires Runs(c, Init(rows), steps)
    ensures var s := Exec(c, Init(rows), steps);
      |Querying(s)| <= c.workers && |Checking(s)| <= c.workers && |Querying(s) + Checking(s)| <= 2 * c.workers
  {
    EveryRunKeepsInv(c, Init(rows), steps);
    AskingIsBounded(c, Exec(c, Init(rows), steps));
  }

  // ---------- The workers alone ----------

  ghost predicate NoVerifier(s: State) {
    forall g :: g in s.flows ==> !s.flows[g].PorTurno? && !s.flows[g].Verificando?
  }

  lemma {:induction false} RunKeepsNoVerifier(c: Config, s: State, steps: seq<Step>)
    requires Runs(c, s, steps) && NoVerifier(s) && forall i :: 0 <= i < |steps| ==> !steps[i].Lanzar?
    ensures NoVerifier(Exec(c, s, steps))
    decreases |steps|
  {
    if steps != [] {
      RunKeepsNoVerifier(c, Apply(c, s, steps[0]), steps[1..]);
    }
  }

  /** If no recovery of the run finds an expired row, the workers' number bounds all queries. */
  lemma WorkersBoundQueries(c: Config, rows: map<TaskId, Row>, steps: seq<Step>)
    requires Runs(c, Init(rows), steps) && forall i :: 0 <= i < |steps| ==> !steps[i].Lanzar?
    ensures var s := Exec(c, Init(rows), steps); |Querying(s) + Checking(s)| <= c.workers
  {
    QueriesAreBounded(c, rows, steps);
    RunKeepsNoVerifier(c, Init(rows), steps);
    var s := Exec(c, Init(rows), steps);
    assert Querying(s) + Checking(s) == Querying(s);
  }

  // ---------- How many queries a recovery makes possible ----------

  /** The verifiers that recovery has started and that have not had their answer. */
  function Verifiers(s: State): set<Routine> {
    set g | g in s.flows && (s.flows[g].PorTurno? || s.flows[g].Verificando?)
  }

  /** Rows that routine `g`, the one that recovers, still has to start a verifier for. */
  function Unlaunched(s: State, g: Routine): nat {
    if g !in s.flows then 0
    else match s.flows[g]
      case Recuperando(v, _) => |v|
      case Lanzando(v, _) => |v|
      case _ => 0
  }

  /** Nobody but `g` recovers. */
  ghost predicate OnlyRecovers(s: State, g: Routine) {
    s.recuperado && forall h :: h in s.flows && h != g ==> !s.flows[h].Recuperando? && !s.flows[h].Lanzando?
  }

  /** Recovery has run, by `g` alone, and has `n` verifiers to answer for. */
  ghost predicate Within(s: State, g: Routine, n: nat) {
    OnlyRecovers(s, g) && |Verifiers(s)| + Unlaunched(s, g) <= n
  }

  lemma StepKeepsOnly(c: Config, s: State, step: Step, g: Routine)
    requires FlowsKnown(s) && Enabled(c, s, step) && OnlyRecovers(s, g) && !step.Reiniciar?
    ensures OnlyRecovers(Apply(c, s, step), g)
  {
    hide EnTurno, Enqueue, FlowsKnown, CloseRow;
  }

  lemma StepLaunches(c: Config, s: State, step: Step, g: Routine)
    requires FlowsKnown(s) && Enabled(c, s, step) && OnlyRecovers(s, g) && !step.Reiniciar?
    ensures Unlaunched(Apply(c, s, step), g) + (if step.Lanzar? then 1 else 0) <= Unlaunched(s, g)
  {
    hide EnTurno, Enqueue, FlowsKnown, CloseRow;
  }

  lemma StepKeepsWithin(c: Config, s: State, step: Step, g: Routine, n: nat)
    requires FlowsKnown(s) && Enabled(c, s, step) && Within(s, g, n) && !step.Reiniciar?
    ensures Within(Apply(c, s, step), g, n)
  {
    hide Enabled, Unlaunched, FlowsKnown, OnlyRecovers;
    StepKeepsOnly(c, s, step, g);
    StepLaunches(c, s, step, g);
    VerifiersGrow(c, s, step);
  }

  lemma VerifiersGrow(c: Config, s: State, step: Step)
    requires FlowsKnown(s) && Enabled(c, s, step)
    ensures |Verifiers(Apply(c, s, step))| <= |Verifiers(s)| + if step.Lanzar? then 1 else 0
  {
    hide EnTurno, Enqueue, FlowsKnown, CloseRow;
    if step.Lanzar? {
      assert Verifiers(Apply(c, s, step)) == Verifiers(s) + {step.verifier};
    } else {
      VerifiersShrink(c, s, step);
      Fewer(Verifiers(Apply(c, s, step)), Verifiers(s));
    }
  }

  lemma VerifiersShrink(c: Config, s: State, step: Step)
    requires FlowsKnown(s) && Enabled(c, s, step) && !step.Lanzar?
    ensures Verifiers(Apply(c, s, step)) <= Verifiers(s)
  {
    var s', g := Apply(c, s, step), Actor(c, step);
    forall h | h in Verifiers(s') ensures h in Verifiers(s) {
      assert h != g ==> h in s.flows && s'.flows[h] == s.flows[h];
    }
  }

  lemma {:induction false} RunKeepsWithin(c: Config, s: State, steps: seq<Step>, g: Routine, n: nat)
    requires Runs(c, s, steps) && Within(s, g, n) && Reiniciar !in steps
    ensures Within(Exec(c, s, steps), g, n)
    decreases |steps|
  {
    if steps != [] {
      StepKeepsWithin(c, s, steps[0], g, n);
      RunKeepsWithin(c, Apply(c, s, steps[0]), steps[1..], g, n);
    }
  }

  /** A run of one process: recovery finds `v` expired and `r` to be resumed, and then anything but a restart. */
  ghost predicate OneProcess(c: Config, rows: map<TaskId, Row>, g: Routine, v: seq<TaskId>, r: seq<TaskId>, steps: seq<Step>) {
    Runs(c, Init(rows), steps) && steps != [] && steps[0] == Recuperar(g, v, r) && Reiniciar !in steps
  }

  function Least(a: nat, b: nat): nat {
    if a <= b then a else b
  }

  function Queries(s: State): nat {
    |Querying(s) + Checking(s)|
  }

  /** No run of the process asks more than its workers and a verifier for each expired row, as many as there are turns. */
  lemma ProcessIsBounded(c: Config, rows: map<TaskId, Row>, g: Routine, v: seq<TaskId>, r: seq<TaskId>, steps: seq<Step>)
    requires OneProcess(c, rows, g, v, r, steps)
    ensures Queries(Exec(c, Init(rows), steps)) <= c.workers + Least(|v|, c.workers)
  {
    var s := Exec(c, Init(rows), steps);
    QueriesAreBounded(c, rows, steps);
    var s1 := Apply(c, Init(rows), steps[0]);
    assert Verifiers(s1) == {};
    RunKeepsWithin(c, s1, steps[1..], g, |v|);
    Fewer(Checking(s), Verifiers(s));
  }

  // ---------- And it does make them possible ----------

  /** What happens while recovery runs, before any request is served. */
  predicate OfRecovery(step: Step) {
    step.Recuperar? || step.MarcarVencidas? || step.Lanzar? || step.EntrarTurno? || step.EncolarReanudada?
  }

  /** Requests that create tasks, and workers that take them. */
  predicate OfService(step: Step) {
    step.Crear? || step.EncolarNueva? || step.Tomar?
  }

  lemma {:induction false} SomeNatAbove(xs: set<nat>, low: nat) returns (n: nat)
    ensures n > low && n !in xs && forall x :: x in xs ==> x < n
    decreases |xs|
  {
    if x :| x in xs {
      n := SomeNatAbove(xs - {x}, if x > low then x else low);
      assert forall y :: y in xs ==> y == x || y in xs - {x};
    } else {
      n := low + 1;
    }
  }

  lemma FreeRoutine(c: Config, s: State) returns (g: Routine)
    ensures g > c.workers && g !in s.flows
  {
    g := SomeNatAbove(s.flows.Keys, c.workers);
  }

  /** Recovery at `g` is starting verifiers; `m` of them wait for a turn and nobody else does anything. */
  ghost predicate Launching(c: Config, s: State, g: Routine, m: nat) {
    && FlowsKnown(s) && s.core.activo && g > c.workers && g in s.flows && s.flows[g].Lanzando?
    && |Verifiers(s)| == m
    && forall h :: h in s.flows && h != g ==> h > c.workers && s.flows[h].PorTurno?
  }

  lemma {:induction false} LaunchAll(c: Config, s: State, g: Routine, m: nat) returns (steps: seq<Step>)
    requires Launching(c, s, g, m)
    ensures Runs(c, s, steps) && forall step :: step in steps ==> OfRecovery(step)
    ensures Launching(c, Exec(c, s, steps), g, m + |s.flows[g].vencidas|) && Exec(c, s, steps).flows[g].vencidas == []
    decreases |s.flows[g].vencidas|
  {
    if s.flows[g].vencidas == [] {
      steps := [];
    } else {
      var h := FreeRoutine(c, s);
      var s1 := Apply(c, s, Lanzar(g, h));
      StepKeepsKnown(c, s, Lanzar(g, h));
      assert Verifiers(s1) == Verifiers(s) + {h};
      var rest := LaunchAll(c, s1, g, m + 1);
      Cons(c, s, Lanzar(g, h), rest);
      steps := [Lanzar(g, h)] + rest;
    }
  }

  /** All verifiers are started, and `k` of them have a turn. */
  ghost predicate Launched(c: Config, s: State, g: Routine, m: nat, k: nat) {
    && FlowsKnown(s) && s.core.activo && g > c.workers && g in s.flows && s.flows[g].Lanzando? && s.flows[g].vencidas == []
    && |Verifiers(s)| == m && |Checking(s)| == k
    && forall h :: h in s.flows && h != g ==> h > c.workers && (s.flows[h].PorTurno? || s.flows[h].Verificando?)
  }

  lemma TurnIsFree(c: Config, s: State, g: Routine, m: nat, k: nat) returns (h: Routine)
    requires Launched(c, s, g, m, k) && k < c.workers && k < m
    ensures h in s.flows && s.flows[h].PorTurno? && Enabled(c, s, EntrarTurno(h))
  {
    assert EnTurno(c, s) == Checking(s);
    if forall x :: x in Verifiers(s) ==> x in Checking(s) { Fewer(Verifiers(s), Checking(s)); }
    h :| h in Verifiers(s) && h !in Checking(s);
  }

  lemma {:induction false} EnterTurns(c: Config, s: State, g: Routine, m: nat, k: nat, n: nat) returns (steps: seq<Step>)
    requires Launched(c, s, g, m, k) && k <= n <= m && n <= c.workers
    ensures Runs(c, s, steps) && forall step :: step in steps ==> OfRecovery(step)
    ensures Launched(c, Exec(c, s, steps), g, m, n)
    decreases n - k
  {
    if k == n {
      steps := [];
    } else {
      var h := TurnIsFree(c, s, g, m, k);
      var s1 := Apply(c, s, EntrarTurno(h));
      StepKeepsKnown(c, s, EntrarTurno(h));
      assert Verifiers(s1) == Verifiers(s) && Checking(s1) == Checking(s) + {h};
      var rest := EnterTurns(c, s1, g, m, k + 1, n);
      Cons(c, s, EntrarTurno(h), rest);
      steps := [EntrarTurno(h)] + rest;
    }
  }

  /** Recovery is over, `k` verifiers and the workers below `j` are asking, and the other workers are free. */
  ghost predicate Serving(c: Config, s: State, k: nat, j: nat) {
    && FlowsKnown(s) && s.core.activo && |Checking(s)| == k
    && (forall h :: h in s.flows && h >= c.workers ==> h > c.workers && (s.flows[h].PorTurno? || s.flows[h].Verificando?))
    && (forall h: Routine :: h < c.workers ==> (h in s.flows <==> h < j))
    && (forall h: Routine :: h < j && h in s.flows ==> s.flows[h].Consultando?)
  }

  /** The rows to be resumed are offered to the queue, whatever becomes of each, and recovery ends. */
  lemma {:induction false} OfferAll(c: Config, s: State, g: Routine, m: nat, k: nat) returns (steps: seq<Step>)
    requires Launched(c, s, g, m, k)
    ensures Runs(c, s, steps) && forall step :: step in steps ==> OfRecovery(step)
    ensures Serving(c, Exec(c, s, steps), k, 0) && g !in Exec(c, s, steps).flows
    decreases |s.flows[g].reanudadas|
  {
    var step := EncolarReanudada(g);
    var s1 := Apply(c, s, step);
    StepKeepsKnown(c, s, step);
    assert Verifiers(s1) == Verifiers(s) && Checking(s1) == Checking(s);
    if s.flows[g].reanudadas == [] {
      assert forall h :: h in s1.flows ==> h in s.flows && h != g && s1.flows[h] == s.flows[h];
      assert Serving(c, s1, k, 0);
      Cons(c, s, step, []);
      steps := [step] + [];
    } else {
      var rest := OfferAll(c, s1, g, m, k);
      Cons(c, s, step, rest);
      steps := [step] + rest;
    }
  }

  /** A free worker takes a task of the queue, or one that a request has just created. */
  lemma OneMoreAsks(c: Config, s: State, k: nat, j: nat) returns (steps: seq<Step>)
    requires c.Valid() && Serving(c, s, k, j) && j < c.workers
    ensures Runs(c, s, steps) && forall step :: step in steps ==> OfService(step)
    ensures Serving(c, Exec(c, s, steps), k, j + 1)
  {
    if s.core.cola != [] {
      TakesOne(c, s, k, j);
      Cons(c, s, Tomar(j), []);
      steps := [Tomar(j)] + [];
    } else {
      var h := FreeRoutine(c, s);
      var id := SomeNatAbove(s.rows.Keys, 0);
      var s2 := CreatesOne(c, s, k, j, h, id);
      TakesOne(c, s2, k, j);
      Cons(c, s2, Tomar(j), []);
      Cons(c, Apply(c, s, Crear(h, id)), EncolarNueva(h), [Tomar(j)] + []);
      Cons(c, s, Crear(h, id), [EncolarNueva(h)] + ([Tomar(j)] + []));
      steps := [Crear(h, id)] + ([EncolarNueva(h)] + ([Tomar(j)] + []));
    }
  }

  lemma TakesOne(c: Config, s: State, k: nat, j: nat)
    requires Serving(c, s, k, j) && j < c.workers && s.core.cola != []
    ensures Enabled(c, s, Tomar(j)) && Serving(c, Apply(c, s, Tomar(j)), k, j + 1)
  {
    StepKeepsKnown(c, s, Tomar(j));
    assert Checking(Apply(c, s, Tomar(j))) == Checking(s);
  }

  lemma CreatesOne(c: Config, s: State, k: nat, j: nat, h: Routine, id: TaskId) returns (s2: State)
    requires c.Valid() && Serving(c, s, k, j) && s.core.cola == [] && h > c.workers && h !in s.flows && id !in s.rows
    ensures Enabled(c, s, Crear(h, id)) && FlowsKnown(Apply(c, s, Crear(h, id))) && Enabled(c, Apply(c, s, Crear(h, id)), EncolarNueva(h))
    ensures s2 == Apply(c, Apply(c, s, Crear(h, id)), EncolarNueva(h)) && Serving(c, s2, k, j) && s2.core.cola != []
  {
    var s1 := Apply(c, s, Crear(h, id));
    StepKeepsKnown(c, s, Crear(h, id));
    s2 := Apply(c, s1, EncolarNueva(h));
    StepKeepsKnown(c, s1, EncolarNueva(h));
    assert Checking(s1) == Checking(s) && Checking(s2) == Checking(s);
  }

  lemma {:induction false} AllWorkersAsk(c: Config, s: State, k: nat, j: nat) returns (steps: seq<Step>)
    requires c.Valid() && Serving(c, s, k, j) && j <= c.workers
    ensures Runs(c, s, steps) && forall step :: step in steps ==> OfService(step)
    ensures Serving(c, Exec(c, s, steps), k, c.workers)
    decreases c.workers - j
  {
    if j == c.workers {
      steps := [];
    } else {
      var first := OneMoreAsks(c, s, k, j);
      var rest := AllWorkersAsk(c, Exec(c, s, first), k, j + 1);
      RunsConcat(c, s, first, rest);
      steps := first + rest;
    }
  }

  lemma {:induction false} RangeSize(xs: set<nat>, n: nat)
    requires forall x: nat :: x in xs <==> x < n
    ensures |xs| == n
  {
    if n == 0 {
      assert xs == {};
    } else {
      RangeSize(xs - {n - 1}, n - 1);
    }
  }

  lemma ServingCounts(c: Config, s: State, k: nat)
    requires Serving(c, s, k, c.workers)
    ensures Queries(s) == c.workers + k
  {
    RangeSize(Querying(s), c.workers);
    assert Querying(s) !! Checking(s);
  }

  /** After the classification, and after the expired rows have been marked. */
  ghost function Marked(c: Config, rows: map<TaskId, Row>, g: Routine, v: seq<TaskId>, r: seq<TaskId>): (State, State) {
    (Init(rows).(flows := map[g := Recuperando(v, r)], recuperado := true),
     Init(rows).(core := Core(true, [], Elems(v)), flows := map[g := Lanzando(v, r)], recuperado := true))
  }

  lemma MarkedBegins(c: Config, rows: map<TaskId, Row>, g: Routine, v: seq<TaskId>, r: seq<TaskId>)
    requires Enabled(c, Init(rows), Recuperar(g, v, r))
    ensures var s0, s1, s2 := Init(rows), Marked(c, rows, g, v, r).0, Marked(c, rows, g, v, r).1;
      && FlowsKnown(s0) && Apply(c, s0, Recuperar(g, v, r)) == s1
      && FlowsKnown(s1) && Enabled(c, s1, MarcarVencidas(g)) && Apply(c, s1, MarcarVencidas(g)) == s2
      && Launching(c, s2, g, 0) && s2.flows[g].vencidas == v
  {
    hide EnTurno, Enqueue;
    var s0, s1, s2 := Init(rows), Marked(c, rows, g, v, r).0, Marked(c, rows, g, v, r).1;
    StepKeepsKnown(c, s0, Recuperar(g, v, r));
    StepKeepsKnown(c, s1, MarcarVencidas(g));
    assert Verifiers(s2) == {};
  }

  lemma LaunchedIsAll(c: Config, s: State, g: Routine, m: nat)
    requires Launching(c, s, g, m) && s.flows[g].vencidas == []
    ensures Launched(c, s, g, m, 0)
  {
    assert Checking(s) == {};
  }

  /** Recovery up to the last offer, with as many verifiers asking as there are expired rows and turns. */
  lemma RecoveryRuns(c: Config, rows: map<TaskId, Row>, g: Routine, v: seq<TaskId>, r: seq<TaskId>) returns (steps: seq<Step>)
    requires Enabled(c, Init(rows), Recuperar(g, v, r))
    ensures Runs(c, Init(rows), steps) && steps != [] && steps[0] == Recuperar(g, v, r) && forall step :: step in steps ==> OfRecovery(step)
    ensures Serving(c, Exec(c, Init(rows), steps), Least(|v|, c.workers), 0) && g !in Exec(c, Init(rows), steps).flows
  {
    hide Launching, Launched, Serving, Enabled, Apply, FlowsKnown, Runs, Exec, Verifiers, Checking;
    var s0, s1, s2 := Init(rows), Marked(c, rows, g, v, r).0, Marked(c, rows, g, v, r).1;
    MarkedBegins(c, rows, g, v, r);
    var launch := LaunchAll(c, s2, g, 0);
    var s3 := Exec(c, s2, launch);
    LaunchedIsAll(c, s3, g, |v|);
    var enter := EnterTurns(c, s3, g, |v|, 0, Least(|v|, c.workers));
    var s4 := Exec(c, s3, enter);
    var offer := OfferAll(c, s4, g, |v|, Least(|v|, c.workers));
    RunsConcat(c, s3, enter, offer);
    RunsConcat(c, s2, launch, enter + offer);
    Cons(c, s1, MarcarVencidas(g), launch + (enter + offer));
    Cons(c, s0, Recuperar(g, v, r), [MarcarVencidas(g)] + (launch + (enter + offer)));
    steps := [Recuperar(g, v, r)] + ([MarcarVencidas(g)] + (launch + (enter + offer)));
  }

  /**
    The most queries that recovery makes possible are reached, by a run that
    serves no request before recovery is over.
   */
  lemma RecoveryReachesTheBound(c: Config, rows: map<TaskId, Row>, g: Routine, v: seq<TaskId>, r: seq<TaskId>)
    returns (recovery: seq<Step>, service: seq<Step>)
    requires c.Valid() && Enabled(c, Init(rows), Recuperar(g, v, r))
    ensures OneProcess(c, rows, g, v, r, recovery + service)
    ensures Queries(Exec(c, Init(rows), recovery + service)) == c.workers + Least(|v|, c.workers)
    ensures (forall step :: step in recovery ==> OfRecovery(step)) && (forall step :: step in service ==> OfService(step))
    ensures Runs(c, Init(rows), recovery) && g !in Exec(c, Init(rows), recovery).flows
  {
    hide Serving, Enabled, Apply, FlowsKnown, Runs, Exec;
    recovery := RecoveryRuns(c, rows, g, v, r);
    var s := Exec(c, Init(rows), recovery);
    service := AllWorkersAsk(c, s, Least(|v|, c.workers), 0);
    RunsConcat(c, Init(rows), recovery, service);
    ServingCounts(c, Exec(c, s, service), Least(|v|, c.workers));
  }

  ghost predicate CanReach(c: Config, rows: map<TaskId, Row>, g: Routine, v: seq<TaskId>, r: seq<TaskId>, n: nat) {
    exists steps :: OneProcess(c, rows, g, v, r, steps) && Queries(Exec(c, Init(rows), steps)) >= n
  }

  /** For any table, and any split of it by age: how many queries at once are possible. */
  lemma QueriesReachIff(c: Config, rows: map<TaskId, Row>, g: Routine, v: seq<TaskId>, r: seq<TaskId>, n: nat)
    requires c.Valid() && Enabled(c, Init(rows), Recuperar(g, v, r))
    ensures CanReach(c, rows, g, v, r, n) <==> n <= c.workers + Least(|v|, c.workers)
  {
    if steps :| OneProcess(c, rows, g, v, r, steps) && Queries(Exec(c, Init(rows), steps)) >= n {
      ProcessIsBounded(c, rows, g, v, r, steps);
    }
    var recovery, service := RecoveryReachesTheBound(c, rows, g, v, r);
    assert OneProcess(c, rows, g, v, r, recovery + service);
  }

  /** The workers bound all queries if and only if recovery finds no expired row; with enough of them, queries double. */
  lemma MoreQueriesThanWorkersIff(c: Config, rows: map<TaskId, Row>, g: Routine, v: seq<TaskId>, r: seq<TaskId>)
    requires c.Valid() && Enabled(c, Init(rows), Recuperar(g, v, r))
    ensures CanReach(c, rows, g, v, r, c.workers + 1) <==> v != []
    ensures CanReach(c, rows, g, v, r, 2 * c.workers) <==> |v| >= c.workers
  {
    QueriesReachIff(c, rows, g, v, r, c.workers + 1);
    QueriesReachIff(c, rows, g, v, r, 2 * c.workers);
  }
}
