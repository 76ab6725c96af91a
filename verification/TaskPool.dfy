/**
  The task-tracking pool of seguimiento_tareas.go as a state machine.

  Goroutines interleave freely: every critical section, channel operation and
  database call of the source is one atomic step, and a step label carries the
  choices that the scheduler, the database or Proxmox make.
 */
module TaskPool {
  import opened Wrappers

  type TaskId = nat
  type Routine = nat

  datatype Outcome = Completed | Failed
  datatype RowState = Running | Closed(outcome: Outcome)

  /** A row of the task table; `legible` says that its instance id parses as a VMID. */
  datatype Row = Row(state: RowState, legible: bool)

  datatype Event = TaskFinished(id: TaskId, outcome: Outcome)

  /** What the mutex and the channel of the pool protect. */
  datatype Core = Core(activo: bool, cola: seq<TaskId>, enCurso: set<TaskId>)

  /** Where a goroutine stands. A goroutine absent from `State.flows` is idle or gone. */
  datatype Flow =
    | Registrada(id: TaskId)                                  // Seguir: between Crear and encolar
    | Consultando(id: TaskId)                                 // a worker asking Proxmox
    | PorTurno(id: TaskId)                                    // a verifier waiting for one of the turns
    | Verificando(id: TaskId)                                 // verificarUnaVez asking Proxmox, in its turn
    | Cerrando(id: TaskId, outcome: Outcome)                  // finalizar: before ActualizarEstado
    | PorAnunciar(id: TaskId, outcome: Outcome)               // finalizar: committed, before OnTaskFinished
    | Cerrada(id: TaskId)                                     // finalizar: the deferred unmarking is left
    | EnEspera(id: TaskId)                                    // a timer armed by consultar
    | Revisando(pendientes: seq<TaskId>)                      // reconciliar: rows still to look at
    | PorEncolar(id: TaskId, pendientes: seq<TaskId>)         // reconciliar: found unmarked, not yet queued
    | Recuperando(vencidas: seq<TaskId>, reanudadas: seq<TaskId>) // recuperar: rows classified by age
    | Lanzando(vencidas: seq<TaskId>, reanudadas: seq<TaskId>)    // recuperar: expired ones marked

  /** `recuperado` says that this process has run its recovery; Iniciar runs it once. */
  datatype State = State(core: Core, rows: map<TaskId, Row>, flows: map<Routine, Flow>, events: seq<Event>, recuperado: bool)

  /** Workers are the routines below `workers`; routine `workers` is the reconciler. */
  datatype Config = Config(workers: nat, buffer: nat) {
    /** conDefaults never leaves a count at zero. */
    ghost predicate Valid() { workers > 0 && buffer > 0 }
  }

  // ---------- The critical sections ----------

  predicate Admits(core: Core, buffer: nat) {
    core.activo && |core.cola| < buffer
  }

  function Enqueue(core: Core, buffer: nat, id: TaskId): Core {
    if Admits(core, buffer) then core.(cola := core.cola + [id], enCurso := core.enCurso + {id})
    else core.(enCurso := core.enCurso - {id})
  }

  function Unmark(core: Core, id: TaskId): Core {
    core.(enCurso := core.enCurso - {id})
  }

  function Elems(ids: seq<TaskId>): set<TaskId> {
    set id | id in ids
  }

  // ---------- Steps ----------

  datatype Step =
    | Crear(g: Routine, id: TaskId)
    | EncolarNueva(g: Routine)
    | Tomar(g: Routine)
    | Reprogramar(g: Routine, timer: Routine)
    | Resolver(g: Routine, outcome: Outcome)
    | Disparar(g: Routine)
    | ActualizarEstado(g: Routine, fin: Escritura)
    | Anunciar(g: Routine)
    | Desmarcar(g: Routine)
    | Listar(g: Routine, ids: seq<TaskId>)
    | Revisar(g: Routine)
    | EncolarRevisada(g: Routine)
    | Recuperar(g: Routine, vencidas: seq<TaskId>, reanudadas: seq<TaskId>)
    | MarcarVencidas(g: Routine)
    | Lanzar(g: Routine, verifier: Routine)
    | EntrarTurno(g: Routine)
    | EncolarReanudada(g: Routine)
    | Apagar
    | Reiniciar

  ghost predicate NoDuplicates(ids: seq<TaskId>) {
    forall i, j :: 0 <= i < j < |ids| ==> ids[i] != ids[j]
  }

  predicate IsRunning(s: State, id: TaskId) {
    id in s.rows && s.rows[id].state.Running?
  }

  /** ListarEnCurso: every RUNNING row, once. */
  ghost predicate Lists(s: State, ids: seq<TaskId>) {
    && NoDuplicates(ids)
    && (forall id :: id in ids <==> IsRunning(s, id))
  }

  /** A goroutine that queries or closes a task. */
  predicate Closing(f: Flow) {
    f.Consultando? || f.Verificando? || f.Cerrando? || f.PorAnunciar? || f.Cerrada?
  }

  /** The verifiers that have taken a turn and not given it back: the channel `turnos` of recuperar. */
  function EnTurno(c: Config, s: State): set<Routine> {
    set g | g in s.flows && g > c.workers && Closing(s.flows[g])
  }

  ghost predicate Enabled(c: Config, s: State, step: Step) {
    match step
    case Crear(g, id) => g > c.workers && g !in s.flows && id !in s.rows
    case EncolarNueva(g) => g in s.flows && s.flows[g].Registrada?
    case Tomar(g) => g < c.workers && g !in s.flows && s.core.cola != []
    case Reprogramar(g, timer) =>
      g in s.flows && s.flows[g].Consultando? && timer > c.workers && timer !in s.flows
    case Resolver(g, _) => g in s.flows && (s.flows[g].Consultando? || s.flows[g].Verificando?)
    case Disparar(g) => g in s.flows && s.flows[g].EnEspera?
    case ActualizarEstado(g, _) => g in s.flows && s.flows[g].Cerrando?
    case Anunciar(g) => g in s.flows && s.flows[g].PorAnunciar?
    case Desmarcar(g) => g in s.flows && s.flows[g].Cerrada?
    case Listar(g, ids) => g == c.workers && g !in s.flows && Lists(s, ids)
    case Revisar(g) => g in s.flows && s.flows[g].Revisando?
    case EncolarRevisada(g) => g in s.flows && s.flows[g].PorEncolar?
    case Recuperar(g, vencidas, reanudadas) =>
      && !s.recuperado && g > c.workers && g !in s.flows
      && NoDuplicates(vencidas + reanudadas)
      && (forall id :: id in vencidas + reanudadas <==> IsRunning(s, id) && s.rows[id].legible)
    case MarcarVencidas(g) => g in s.flows && s.flows[g].Recuperando?
    case Lanzar(g, verifier) =>
      && g in s.flows && s.flows[g].Lanzando? && s.flows[g].vencidas != []
      && verifier > c.workers && verifier !in s.flows
    case EntrarTurno(g) => g in s.flows && s.flows[g].PorTurno? && |EnTurno(c, s)| < c.workers
    case EncolarReanudada(g) => g in s.flows && s.flows[g].Lanzando? && s.flows[g].vencidas == []
    case Apagar => s.core.activo
    case Reiniciar => true
  }

  function Drop(flows: map<Routine, Flow>, g: Routine): map<Routine, Flow> {
    map h | h in flows && h != g :: flows[h]
  }

  /** ActualizarEstado: repeating the closure of a finished task changes nothing. */
  function CloseRow(rows: map<TaskId, Row>, id: TaskId, outcome: Outcome): map<TaskId, Row>
    requires id in rows
  {
    if rows[id].state.Running? then rows[id := rows[id].(state := Closed(outcome))] else rows
  }

  ghost function Apply(c: Config, s: State, step: Step): State
    requires Enabled(c, s, step) && FlowsKnown(s)
  {
    match step
    case Crear(g, id) =>
      s.(rows := s.rows[id := Row(Running, true)], flows := s.flows[g := Registrada(id)])
    case EncolarNueva(g) =>
      s.(core := Enqueue(s.core, c.buffer, s.flows[g].id), flows := Drop(s.flows, g))
    case Tomar(g) =>
      s.(core := s.core.(cola := s.core.cola[1..]), flows := s.flows[g := Consultando(s.core.cola[0])])
    case Reprogramar(g, timer) =>
      s.(flows := Drop(s.flows, g)[timer := EnEspera(s.flows[g].id)])
    case Resolver(g, outcome) =>
      s.(flows := s.flows[g := Cerrando(s.flows[g].id, outcome)])
    case Disparar(g) =>
      s.(core := Enqueue(s.core, c.buffer, s.flows[g].id), flows := Drop(s.flows, g))
    case ActualizarEstado(g, fin) =>
      var f := s.flows[g];
      s.(rows := if fin.Surte() then CloseRow(s.rows, f.id, f.outcome) else s.rows,
         flows := s.flows[g := if fin.Hecha? then PorAnunciar(f.id, f.outcome) else Cerrada(f.id)])
    case Anunciar(g) =>
      var f := s.flows[g];
      s.(flows := s.flows[g := Cerrada(f.id)], events := s.events + [TaskFinished(f.id, f.outcome)])
    case Desmarcar(g) =>
      s.(core := Unmark(s.core, s.flows[g].id), flows := Drop(s.flows, g))
    case Listar(g, ids) =>
      s.(flows := s.flows[g := Revisando(ids)])
    case Revisar(g) =>
      var p := s.flows[g].pendientes;
      if p == [] then s.(flows := Drop(s.flows, g))
      else if p[0] in s.core.enCurso || !s.rows[p[0]].legible then s.(flows := s.flows[g := Revisando(p[1..])])
      else s.(flows := s.flows[g := PorEncolar(p[0], p[1..])])
    case EncolarRevisada(g) =>
      var f := s.flows[g];
      s.(core := Enqueue(s.core, c.buffer, f.id),
         flows := if Admits(s.core, c.buffer) then s.flows[g := Revisando(f.pendientes)] else Drop(s.flows, g))
    case Recuperar(g, vencidas, reanudadas) =>
      s.(flows := s.flows[g := Recuperando(vencidas, reanudadas)], recuperado := true)
    case MarcarVencidas(g) =>
      var f := s.flows[g];
      s.(core := s.core.(enCurso := s.core.enCurso + Elems(f.vencidas)),
         flows := s.flows[g := Lanzando(f.vencidas, f.reanudadas)])
    case Lanzar(g, verifier) =>
      var f := s.flows[g];
      s.(flows := s.flows[g := Lanzando(f.vencidas[1..], f.reanudadas)][verifier := PorTurno(f.vencidas[0])])
    case EntrarTurno(g) =>
      s.(flows := s.flows[g := Verificando(s.flows[g].id)])
    case EncolarReanudada(g) =>
      var f := s.flows[g];
      if f.reanudadas == [] then s.(flows := Drop(s.flows, g))
      else s.(core := Enqueue(s.core, c.buffer, f.reanudadas[0]),
              flows := s.flows[g := Lanzando([], f.reanudadas[1..])])
    case Apagar => s.(core := s.core.(activo := false))
    case Reiniciar => s.(core := Core(true, [], {}), flows := map[], recuperado := false)
  }

  /** The state of a process that just started on a table left by earlier ones. */
  function Init(rows: map<TaskId, Row>): State {
    State(Core(true, [], {}), rows, map[], [], false)
  }

  // ---------- Runs ----------

  ghost predicate Runs(c: Config, s: State, steps: seq<Step>)
    decreases |steps|
  {
    FlowsKnown(s) && (steps != [] ==> Enabled(c, s, steps[0]) && Runs(c, Apply(c, s, steps[0]), steps[1..]))
  }

  ghost function Exec(c: Config, s: State, steps: seq<Step>): State
    requires Runs(c, s, steps)
    decreases |steps|
  {
    if steps == [] then s else Exec(c, Apply(c, s, steps[0]), steps[1..])
  }

  lemma {:induction false} RunsConcat(c: Config, s: State, a: seq<Step>, b: seq<Step>)
    requires Runs(c, s, a) && Runs(c, Exec(c, s, a), b)
    ensures Runs(c, s, a + b) && Exec(c, s, a + b) == Exec(c, Exec(c, s, a), b)
    decreases |a|
  {
    if a == [] {
      assert a + b == b;
    } else {
      RunsConcat(c, Apply(c, s, a[0]), a[1..], b);
      assert (a + b)[1..] == a[1..] + b;
    }
  }

  lemma Cons(c: Config, s: State, step: Step, rest: seq<Step>)
    requires FlowsKnown(s) && Enabled(c, s, step) && Runs(c, Apply(c, s, step), rest)
    ensures Runs(c, s, [step] + rest) && Exec(c, s, [step] + rest) == Exec(c, Apply(c, s, step), rest)
  {
    assert ([step] + rest)[1..] == rest;
  }

  // ---------- Who holds a task ----------

  /** The tasks a goroutine will still query, close or queue on its own. */
  function Holds(f: Flow): set<TaskId> {
    match f
    case Consultando(id) => {id}
    case PorTurno(id) => {id}
    case Verificando(id) => {id}
    case Cerrando(id, _) => {id}
    case PorAnunciar(id, _) => {id}
    case Cerrada(id) => {id}
    case EnEspera(id) => {id}
    case Lanzando(vencidas, _) => Elems(vencidas)
    case _ => {}
  }

  function Mentions(f: Flow): set<TaskId> {
    match f
    case Registrada(id) => {id}
    case Revisando(p) => Elems(p)
    case PorEncolar(id, p) => {id} + Elems(p)
    case Recuperando(v, r) => Elems(v) + Elems(r)
    case Lanzando(v, r) => Elems(v) + Elems(r)
    case _ => Holds(f)
  }

  ghost predicate Held(s: State, id: TaskId) {
    id in s.core.cola || exists g :: g in s.flows && id in Holds(s.flows[g])
  }

  /** Tasks are never deleted from the table, so whatever a goroutine carries is in it. */
  ghost predicate FlowsKnown(s: State) {
    && (forall g, id :: g in s.flows && id in Mentions(s.flows[g]) ==> id in s.rows)
    && (forall id :: id in s.core.cola ==> id in s.rows)
  }

  ghost predicate RoleOk(c: Config, g: Routine, f: Flow) {
    && (f.Consultando? ==> g < c.workers)
    && (f.Revisando? || f.PorEncolar? ==> g == c.workers)
    && (g < c.workers ==> f.Consultando? || f.Cerrando? || f.PorAnunciar? || f.Cerrada?)
    && (g == c.workers ==> f.Revisando? || f.PorEncolar?)
  }

  /** What every reachable state satisfies. */
  ghost predicate Inv(c: Config, s: State) {
    && FlowsKnown(s)
    && |s.core.cola| <= c.buffer
    && (forall id :: id in s.core.enCurso ==> Held(s, id))
    && (forall g :: g in s.flows ==> RoleOk(c, g, s.flows[g]))
    && SaidIsClosed(s)
    && |EnTurno(c, s)| <= c.workers
  }

  // ---------- No mark without a holder ----------

  /** A holder other than `g` survives any step that touches only `g` and adds routines. */
  lemma HeldElsewhere(s: State, s': State, g: Routine, id: TaskId)
    requires Held(s, id)
    requires forall x :: x in s.core.cola ==> x in s'.core.cola
    requires forall h :: h in s.flows && h != g ==> h in s'.flows && Holds(s.flows[h]) <= Holds(s'.flows[h])
    requires g in s.flows && id in Holds(s.flows[g]) ==> Held(s', id)
    ensures Held(s', id)
  {
    if id !in s.core.cola {
      var h :| h in s.flows && id in Holds(s.flows[h]);
      if h != g {
        assert id in Holds(s'.flows[h]);
      }
    }
  }

  /** The routine a step is about. */
  function Actor(c: Config, step: Step): Routine {
    match step
    case Crear(g, _) => g
    case EncolarNueva(g) => g
    case Tomar(g) => g
    case Reprogramar(g, _) => g
    case Resolver(g, _) => g
    case Disparar(g) => g
    case ActualizarEstado(g, _) => g
    case Anunciar(g) => g
    case Desmarcar(g) => g
    case Listar(g, _) => g
    case Revisar(g) => g
    case EncolarRevisada(g) => g
    case Recuperar(g, _, _) => g
    case MarcarVencidas(g) => g
    case Lanzar(g, _) => g
    case EntrarTurno(g) => g
    case EncolarReanudada(g) => g
    case Apagar => 0
    case Reiniciar => 0
  }

  /** Where the tasks that goroutines mention after a step come from. */
  ghost predicate Source(c: Config, s: State, step: Step, h: Routine, id: TaskId) {
    || (h in s.flows && id in Mentions(s.flows[h]))
    || (Actor(c, step) in s.flows && id in Mentions(s.flows[Actor(c, step)]))
    || (step.Tomar? && s.core.cola != [] && id == s.core.cola[0])
    || (step.Crear? && id == step.id)
    || ((step.Listar? || step.Recuperar?) && IsRunning(s, id))
  }

  lemma MentionsCome(c: Config, s: State, step: Step, h: Routine, id: TaskId)
    requires Enabled(c, s, step) && FlowsKnown(s)
    requires h in Apply(c, s, step).flows && id in Mentions(Apply(c, s, step).flows[h])
    ensures Source(c, s, step, h, id)
  {
    hide EnTurno, Enqueue, FlowsKnown, CloseRow, Unmark, Held;
    if step.Recuperar? && h == step.g {
      assert id in step.vencidas + step.reanudadas;
    }
  }

  lemma StepKeepsKnown(c: Config, s: State, step: Step)
    requires Enabled(c, s, step) && FlowsKnown(s)
    ensures FlowsKnown(Apply(c, s, step))
  {
    var s' := Apply(c, s, step);
    forall h, id | h in s'.flows && id in Mentions(s'.flows[h])
      ensures id in s'.rows
    {
      MentionsCome(c, s, step, h, id);
    }
  }

  /** Whatever a step leaves marked is still held by somebody. */
  lemma StepKeepsMarksHeld(c: Config, s: State, step: Step, id: TaskId)
    requires Inv(c, s) && Enabled(c, s, step)
    requires id in Apply(c, s, step).core.enCurso
    ensures Held(Apply(c, s, step), id)
  {
    var s' := Apply(c, s, step);
    var g := Actor(c, step);
    if step.Tomar? {
      TakeKeepsHeld(c, s, g, id);
    } else if HandsOver(step) {
      HandOverKeepsHeld(c, s, step, id);
    } else if !step.Reiniciar? {
      StillHeldOutside(c, s, step, id);
    }
  }

  /** Steps that pass nothing on: what they leave marked is queued now, or held by another routine. */
  lemma QueuedIsHeld(s: State, id: TaskId)
    requires id in s.core.cola
    ensures Held(s, id)
  {
  }

  lemma StillHeldOutside(c: Config, s: State, step: Step, id: TaskId)
    requires Inv(c, s) && Enabled(c, s, step) && !step.Tomar? && !HandsOver(step) && !step.Reiniciar?
    requires id in Apply(c, s, step).core.enCurso
    ensures Held(Apply(c, s, step), id)
  {
    hide EnTurno, RoleOk, FlowsKnown, CloseRow, Mentions, Held, SaidIsClosed;
    var s' := Apply(c, s, step);
    if id !in s'.core.cola {
      assert id in s.core.enCurso;
      HeldElsewhere(s, s', Actor(c, step), id);
    } else {
      QueuedIsHeld(s', id);
    }
  }

  lemma TakeKeepsHeld(c: Config, s: State, g: Routine, id: TaskId)
    requires Enabled(c, s, Tomar(g)) && FlowsKnown(s) && Held(s, id)
    ensures Held(Apply(c, s, Tomar(g)), id)
  {
    var s' := Apply(c, s, Tomar(g));
    if id == s.core.cola[0] {
      assert id in Holds(s'.flows[g]);
    } else if id in s.core.cola {
      assert id in s'.core.cola;
    } else {
      var h :| h in s.flows && id in Holds(s.flows[h]);
      assert id in Holds(s'.flows[h]);
    }
  }

  predicate HandsOver(step: Step) {
    || step.Reprogramar? || step.Resolver? || step.ActualizarEstado? || step.Anunciar?
    || step.MarcarVencidas? || step.Lanzar? || step.EntrarTurno?
  }

  /** Steps in which one routine passes a task on to itself or to a routine it starts. */
  lemma HandOverKeepsHeld(c: Config, s: State, step: Step, id: TaskId)
    requires Enabled(c, s, step) && FlowsKnown(s)
    requires HandsOver(step)
    requires Held(s, id) || (step.MarcarVencidas? && id in s.flows[step.g].vencidas)
    ensures Held(Apply(c, s, step), id)
  {
    var s' := Apply(c, s, step);
    var g := Actor(c, step);
    var heir := if step.Reprogramar? then step.timer
                else if step.Lanzar? && id == s.flows[g].vencidas[0] then step.verifier else g;
    if id in Mentions(s.flows[g]) && id in Holds(s'.flows[heir]) {
    } else {
      HeldElsewhere(s, s', g, id);
    }
  }

  /** A turn is taken only when one is free, and given back at the end. */
  lemma StepKeepsTurns(c: Config, s: State, step: Step)
    requires Inv(c, s) && Enabled(c, s, step)
    ensures |EnTurno(c, Apply(c, s, step))| <= c.workers
  {
    var s', g := Apply(c, s, step), Actor(c, step);
    if step.EntrarTurno? {
      assert EnTurno(c, s') == EnTurno(c, s) + {g};
    } else {
      NobodyEnters(c, s, step);
      Fewer(EnTurno(c, s'), EnTurno(c, s));
    }
  }

  lemma NobodyEnters(c: Config, s: State, step: Step)
    requires FlowsKnown(s) && Enabled(c, s, step) && !step.EntrarTurno?
    ensures EnTurno(c, Apply(c, s, step)) <= EnTurno(c, s)
  {
    var s', g := Apply(c, s, step), Actor(c, step);
    forall h | h in EnTurno(c, s') ensures h in EnTurno(c, s) {
      assert h != g ==> h in s.flows && s'.flows[h] == s.flows[h];
    }
  }

  lemma {:induction false} Fewer<T>(a: set<T>, b: set<T>)
    requires a <= b
    ensures |a| <= |b|
  {
    if x :| x in a {
      Fewer(a - {x}, b - {x});
    }
  }

  lemma StepKeepsRoles(c: Config, s: State, step: Step)
    requires Inv(c, s) && Enabled(c, s, step)
    ensures |Apply(c, s, step).core.cola| <= c.buffer
    ensures forall g :: g in Apply(c, s, step).flows ==> RoleOk(c, g, Apply(c, s, step).flows[g])
  {
    hide EnTurno, Held, FlowsKnown, CloseRow;
  }

  ghost predicate SaidIsClosed(s: State) {
    && (forall e :: e in s.events ==> e.id in s.rows && s.rows[e.id].state.Closed?)
    && (forall g :: g in s.flows && s.flows[g].PorAnunciar? ==> s.flows[g].id in s.rows && s.rows[s.flows[g].id].state.Closed?)
  }

  /** What has been announced, and what is about to be, is closed. */
  lemma StepKeepsSaid(c: Config, s: State, step: Step)
    requires FlowsKnown(s) && SaidIsClosed(s) && Enabled(c, s, step)
    ensures SaidIsClosed(Apply(c, s, step))
  {
    var s' := Apply(c, s, step);
    forall id | id in s.rows && s.rows[id].state.Closed? ensures id in s'.rows && s'.rows[id].state.Closed? {
      StepKeepsClosed(c, s, step, id);
    }
    forall g | g in s'.flows && s'.flows[g].PorAnunciar? ensures s'.flows[g].id in s'.rows && s'.rows[s'.flows[g].id].state.Closed? {
      NewlyCommitted(c, s, step, g);
    }
  }

  lemma NewlyCommitted(c: Config, s: State, step: Step, g: Routine)
    requires FlowsKnown(s) && Enabled(c, s, step) && g in Apply(c, s, step).flows && Apply(c, s, step).flows[g].PorAnunciar?
    ensures var id := Apply(c, s, step).flows[g].id;
      (g in s.flows && s.flows[g] == Apply(c, s, step).flows[g]) || (id in Apply(c, s, step).rows && Apply(c, s, step).rows[id].state.Closed?)
  {
    if step.ActualizarEstado? { assert s.flows[step.g].id in Mentions(s.flows[step.g]); }
    hide EnTurno, Enqueue, FlowsKnown;
  }

  lemma StepKeepsInv(c: Config, s: State, step: Step)
    requires Inv(c, s) && Enabled(c, s, step)
    ensures Inv(c, Apply(c, s, step))
  {
    hide Apply, Enabled, EnTurno, Held, RoleOk, FlowsKnown, SaidIsClosed;
    StepKeepsKnown(c, s, step);
    forall id | id in Apply(c, s, step).core.enCurso ensures Held(Apply(c, s, step), id) {
      StepKeepsMarksHeld(c, s, step, id);
    }
    StepKeepsTurns(c, s, step);
    StepKeepsRoles(c, s, step);
    StepKeepsSaid(c, s, step);
  }

  /**
    Over every interleaving of requests, workers, timers, recovery, reconciler,
    database failures, shutdowns and restarts: a marked task is held by a queue
    slot, worker, timer or verifier; the queue stays within its capacity; and
    every TASK_FINISHED speaks of a row that is closed.
   */
  lemma {:induction false} EveryRunKeepsInv(c: Config, s: State, steps: seq<Step>)
    requires Inv(c, s) && Runs(c, s, steps)
    ensures Inv(c, Exec(c, s, steps))
    decreases |steps|
  {
    if steps != [] {
      StepKeepsInv(c, s, steps[0]);
      EveryRunKeepsInv(c, Apply(c, s, steps[0]), steps[1..]);
    }
  }

  /** A RUNNING row nobody holds is unmarked, so the reconciler will not skip it. */
  lemma NoTaskStranded(c: Config, rows: map<TaskId, Row>, steps: seq<Step>, id: TaskId)
    requires Runs(c, Init(rows), steps)
    requires IsRunning(Exec(c, Init(rows), steps), id)
    ensures var s := Exec(c, Init(rows), steps); Held(s, id) || id !in s.core.enCurso
  {
    EveryRunKeepsInv(c, Init(rows), steps);
  }

  // ---------- The first closure is final ----------

  lemma StepKeepsClosed(c: Config, s: State, step: Step, id: TaskId)
    requires Enabled(c, s, step) && FlowsKnown(s) && id in s.rows
    ensures id in Apply(c, s, step).rows
    ensures s.rows[id].state.Closed? ==> Apply(c, s, step).rows[id] == s.rows[id]
    ensures Apply(c, s, step).rows[id].legible == s.rows[id].legible
  {
  }

  /** Duplicate copies, late verifiers and restarts never reopen a row nor change its outcome. */
  lemma {:induction false} FirstClosureIsFinal(c: Config, s: State, steps: seq<Step>, id: TaskId)
    requires Runs(c, s, steps) && id in s.rows
    ensures id in Exec(c, s, steps).rows
    ensures s.rows[id].state.Closed? ==> Exec(c, s, steps).rows[id] == s.rows[id]
    ensures Exec(c, s, steps).rows[id].legible == s.rows[id].legible
    decreases |steps|
  {
    if steps != [] {
      StepKeepsClosed(c, s, steps[0], id);
      FirstClosureIsFinal(c, Apply(c, s, steps[0]), steps[1..], id);
    }
  }
}
