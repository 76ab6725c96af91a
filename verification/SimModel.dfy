/**
  The Proxmox simulator (cmd/proxmox-simulador) as values: instances, deferred
  task effects and requests.  Finishing one due task is one step, so that the
  order in which a pass over the task map finishes them stays open.
 */
module SimModel {
  import opened Wrappers
  import opened SnapshotTree

  type Vmid = int
  type TaskId = nat

  datatype Tipo = Qemu | Lxc
  datatype Estado = Running | Stopped | Paused
  datatype Accion = Start | Stop | Shutdown | Reboot | Resume | Reset

  datatype Inst = Inst(
    tipo: Tipo, ha: bool, estado: Estado, cores: int, memoriaMB: int, swapMB: int, nombre: string,
    lock: string, config: map<string, string>, pendiente: map<string, string>,
    snaps: seq<Snap>, actual: string, pid: nat)

  /** What a task does when it ends (the closure alTerminar). */
  datatype Efecto =
    | Creacion
    | Energia(accion: Accion)
    | Tomar(snap: Snap)
    | Revertir(snap: Snap)
    | BorrarSnap(nombre: string)
    | Destruir

  datatype Resultado = EnCurso | OK | YaEncendida | NoEncendida | NoPausada

  datatype Tarea = Tarea(vmid: Vmid, fin: int, efecto: Efecto, resultado: Resultado) {
    predicate Terminada() { resultado != EnCurso }
  }

  /** The task map is keyed by the PID that makes a UPID unique. */
  datatype Sim = Sim(instancias: map<Vmid, Inst>, tareas: map<TaskId, Tarea>, proximoPID: nat)

  /** strconv.Atoi, fmt.Sscan and the digest of a configuration are not part of this model: any three functions. */
  datatype Config = Config(atoi: string -> Option<int>, sscan: string -> Option<int>, huella: Inst -> string, duracion: nat, purgaHA: bool)

  // ---------- Configuration values ----------

  const NUMERIC := {"cores", "memory", "swap"}
  const NAMES := {"name", "hostname"}
  const DEFERRED := {"memory", "cores", "sockets"}

  function Number(c: Config, m: map<string, string>, key: string, old_: int): int {
    if key in m && c.sscan(m[key]).Some? then c.sscan(m[key]).value else old_
  }

  /** setConfig. */
  function SetOne(c: Config, i: Inst, key: string, value: string): Inst {
    if key == "cores" then i.(cores := Number(c, map[key := value], key, i.cores))
    else if key == "memory" then i.(memoriaMB := Number(c, map[key := value], key, i.memoriaMB))
    else if key == "swap" then i.(swapMB := Number(c, map[key := value], key, i.swapMB))
    else if key in NAMES then i.(nombre := value)
    else i.(config := i.config[key := value])
  }

  /** All the values of a map at once; `nombre` is what the two name keys leave. */
  function SetAll(c: Config, i: Inst, m: map<string, string>, nombre: string): Inst {
    i.(cores := Number(c, m, "cores", i.cores), memoriaMB := Number(c, m, "memory", i.memoriaMB),
       swapMB := Number(c, m, "swap", i.swapMB), nombre := nombre,
       config := i.config + (m - NUMERIC - NAMES))
  }

  /** The outcomes of setting the name keys of `m` in some order. */
  ghost predicate NameAfter(m: map<string, string>, before: string, after: string) {
    if m.Keys * NAMES == {} then after == before
    else exists k :: k in NAMES && k in m && after == m[k]
  }

  // ---------- Effects ----------

  function Encender(c: Config, i: Inst, pid: nat): Inst {
    SetAll(c, i.(estado := Running, pid := pid), i.pendiente, i.nombre).(pendiente := map[])
  }

  function Apagada(i: Inst): Inst {
    i.(estado := Stopped, pid := 0)
  }

  predicate Enciende(i: Inst, accion: Accion) {
    match accion
    case Start => !i.estado.Running?
    case Reboot => i.estado.Running?
    case Resume => i.estado.Paused?
    case _ => false
  }

  function AplicarAccion(c: Config, i: Inst, accion: Accion, pid: nat): (Inst, Resultado) {
    match accion
    case Start => if i.estado.Running? then (i, YaEncendida) else (Encender(c, i, pid), OK)
    case Stop => (if i.estado.Stopped? then i else Apagada(i), OK)
    case Shutdown => if i.estado.Running? then (Apagada(i), OK) else (i, NoEncendida)
    case Reboot => if i.estado.Running? then (Encender(c, i, pid), OK) else (i, NoEncendida)
    case Resume => if i.estado.Paused? then (Encender(c, i, pid), OK) else (i, NoPausada)
    case Reset => (i, if i.estado.Running? then OK else NoEncendida)
  }

  /** The instance after an effect; `Destruir` is not an effect on the instance but on the inventory. */
  function Efectuar(c: Config, i: Inst, e: Efecto, pid: nat): (Inst, Resultado) {
    match e
    case Creacion => (i, OK)
    case Energia(accion) => AplicarAccion(c, i, accion, pid)
    case Tomar(snap) => (i.(snaps := Take(i.snaps, snap), actual := snap.nombre), OK)
    case Revertir(snap) =>
      ((if i.estado.Running? then Apagada(i) else i).(cores := snap.cores, memoriaMB := snap.memoriaMB,
        pendiente := map[], actual := snap.nombre), OK)
    case BorrarSnap(n) =>
      (i.(snaps := Delete(i.snaps, n, ParentOf(i.snaps, n)), actual := Redirected(i.actual, n, ParentOf(i.snaps, n))), OK)
    case Destruir => (i, OK)
  }

  // ---------- Tasks ----------

  predicate Activa(s: Sim, vmid: Vmid) {
    exists id :: id in s.tareas && s.tareas[id].vmid == vmid && !s.tareas[id].Terminada()
  }

  /** crearTarea, without the pass that follows when tasks take no time. */
  function CrearTarea(c: Config, s: Sim, ahora: int, vmid: Vmid, lock: string, efecto: Efecto): Sim
    requires vmid in s.instancias
  {
    var pid := s.proximoPID + 17;
    var i := s.instancias[vmid];
    Sim(s.instancias[vmid := if lock != "" then i.(lock := lock) else i],
        s.tareas[pid := Tarea(vmid, ahora + c.duracion, efecto, EnCurso)], pid)
  }

  /** The inventory after the effect of a task on its instance, and the lock released if nothing else runs. */
  function TrasEfecto(instancias: map<Vmid, Inst>, t: Tarea, j: Inst, sigueActiva: bool): map<Vmid, Inst> {
    if t.efecto.Destruir? then instancias - {t.vmid}
    else instancias[t.vmid := if sigueActiva then j else j.(lock := "")]
  }

  /** One iteration of finalizarTareas; `SimInvariant` shows that the instance is always there. */
  function Terminar(c: Config, s: Sim, id: TaskId): Sim
    requires id in s.tareas
  {
    var t := s.tareas[id];
    if t.vmid !in s.instancias then s.(tareas := s.tareas[id := t.(resultado := OK)])
    else
      var i := s.instancias[t.vmid];
      var pid := s.proximoPID + 13;
      var (j, r) := Efectuar(c, i, t.efecto, pid);
      var tareas := s.tareas[id := t.(resultado := r)];
      Sim(TrasEfecto(s.instancias, t, j, Activa(s.(tareas := tareas), t.vmid)), tareas,
          if t.efecto.Energia? && Enciende(i, t.efecto.accion) then pid else s.proximoPID)
  }

  // ---------- Requests ----------

  datatype Respuesta =
    | Aceptada(tarea: TaskId)
    | Hecho
    | NoImplementado | ParametrosInvalidos | NoExiste | YaExiste | Bloqueada | Ocupada
    | NombreUsado | SnapshotInexistente | Encendida | EnHA | ConfigCambiada

  datatype Pedido =
    | Crear(vmid: Vmid, tipo: Tipo, nombre: string, cores: int, memoriaMB: int, swapMB: int, config: map<string, string>, valido: bool)
    | Accionar(vmid: Vmid, tipo: Tipo, accion: Accion)
    | Editar(vmid: Vmid, tipo: Tipo, params: map<string, string>, nombre: string)
    | CrearSnapshot(vmid: Vmid, tipo: Tipo, nombre: string)
    | RevertirSnapshot(vmid: Vmid, tipo: Tipo, nombre: string)
    | BorrarSnapshot(vmid: Vmid, tipo: Tipo, nombre: string)
    | Borrar(vmid: Vmid, tipo: Tipo, purge: bool)

  predicate Existe(s: Sim, vmid: Vmid, tipo: Tipo) {
    vmid in s.instancias && s.instancias[vmid].tipo == tipo
  }

  /** verificarLibre: None when free. */
  function Impedimento(s: Sim, vmid: Vmid): Option<Respuesta>
    requires vmid in s.instancias
  {
    if s.instancias[vmid].lock != "" then Some(Bloqueada)
    else if Activa(s, vmid) then Some(Ocupada)
    else None
  }

  function FindSnap(snaps: seq<Snap>, nombre: string): Option<Snap> {
    if snaps == [] then None else if snaps[0].nombre == nombre then Some(snaps[0]) else FindSnap(snaps[1..], nombre)
  }

  predicate EsLetra(ch: char) {
    'a' <= ch <= 'z' || 'A' <= ch <= 'Z'
  }

  /** nombreSnapshotValido: a letter, then 1 to 39 letters, digits, hyphens or underscores. */
  predicate NombreValido(nombre: string) {
    && 2 <= |nombre| <= 40 && EsLetra(nombre[0])
    && forall k :: 0 < k < |nombre| ==> EsLetra(nombre[k]) || '0' <= nombre[k] <= '9' || nombre[k] in {'-', '_'}
  }

  predicate AccionAdmitida(tipo: Tipo, accion: Accion) {
    tipo.Qemu? || !accion.Reset?
  }

  predicate EnteroValido(c: Config, params: map<string, string>, key: string, minimo: int) {
    key !in params || params[key] == "" || (c.atoi(params[key]).Some? && c.atoi(params[key]).value >= minimo)
  }

  predicate EdicionValida(c: Config, tipo: Tipo, params: map<string, string>) {
    && EnteroValido(c, params, "memory", 16) && EnteroValido(c, params, "cores", 1) && EnteroValido(c, params, "swap", 0)
    && params.Keys * {"vmid", "lock", "parent", "snapname"} == {}
    && (tipo.Qemu? && "hostname" in params ==> params["hostname"] == "")
    && (tipo.Lxc? && "name" in params ==> params["name"] == "")
  }

  /** The loop of editarConfig over the accepted parameters. */
  function Editada(c: Config, i: Inst, params: map<string, string>, nombre: string): Inst {
    var m := params - {"digest"};
    if i.tipo.Qemu? && i.estado.Running? then
      SetAll(c, i, m - DEFERRED, nombre).(pendiente := i.pendiente + (m - (m.Keys - DEFERRED)))
    else SetAll(c, i, m, nombre)
  }

  function NuevaInst(p: Pedido): Inst
    requires p.Crear?
  {
    Inst(p.tipo, false, Stopped, p.cores, p.memoriaMB, if p.tipo.Lxc? then p.swapMB else 0, p.nombre,
         "", p.config, map[], [], "", 0)
  }

  function Atender(c: Config, s: Sim, ahora: int, p: Pedido): (Sim, Respuesta) {
    match p
    case Crear(vmid, tipo, _, _, _, _, _, valido) =>
      if !valido then (s, ParametrosInvalidos)
      else if vmid in s.instancias then (s, YaExiste)
      else Despachar(c, s.(instancias := s.instancias[vmid := NuevaInst(p)]), ahora, vmid, "create", Creacion)
    case Accionar(vmid, tipo, accion) =>
      if !AccionAdmitida(tipo, accion) then (s, NoImplementado)
      else if !Existe(s, vmid, tipo) then (s, NoExiste)
      else if Impedimento(s, vmid).Some? then (s, Impedimento(s, vmid).value)
      else Despachar(c, s, ahora, vmid, "", Energia(accion))
    case Editar(vmid, tipo, params, nombre) =>
      if !Existe(s, vmid, tipo) then (s, NoExiste)
      else if s.instancias[vmid].lock != "" then (s, Bloqueada)
      else if "digest" in params && params["digest"] != "" && params["digest"] != c.huella(s.instancias[vmid]) then (s, ConfigCambiada)
      else if !EdicionValida(c, tipo, params) then (s, ParametrosInvalidos)
      else (s.(instancias := s.instancias[vmid := Editada(c, s.instancias[vmid], params, nombre)]), Hecho)
    case CrearSnapshot(vmid, tipo, nombre) =>
      if nombre == "current" || !NombreValido(nombre) then (s, ParametrosInvalidos)
      else if !Existe(s, vmid, tipo) then (s, NoExiste)
      else if Impedimento(s, vmid).Some? then (s, Impedimento(s, vmid).value)
      else
        var i := s.instancias[vmid];
        if FindSnap(i.snaps, nombre).Some? then (s, NombreUsado)
        else Despachar(c, s, ahora, vmid, "snapshot", Tomar(Snap(nombre, i.actual, i.cores, i.memoriaMB)))
    case RevertirSnapshot(vmid, tipo, nombre) =>
      if !Existe(s, vmid, tipo) then (s, NoExiste)
      else if Impedimento(s, vmid).Some? then (s, Impedimento(s, vmid).value)
      else
        var snap := FindSnap(s.instancias[vmid].snaps, nombre);
        if snap.None? then (s, SnapshotInexistente)
        else Despachar(c, s, ahora, vmid, "rollback", Revertir(snap.value))
    case BorrarSnapshot(vmid, tipo, nombre) =>
      if !Existe(s, vmid, tipo) then (s, NoExiste)
      else if Impedimento(s, vmid).Some? then (s, Impedimento(s, vmid).value)
      else if FindSnap(s.instancias[vmid].snaps, nombre).None? then (s, SnapshotInexistente)
      else Despachar(c, s, ahora, vmid, "snapshot-delete", BorrarSnap(nombre))
    case Borrar(vmid, tipo, purge) =>
      if !Existe(s, vmid, tipo) then (s, NoExiste)
      else if Impedimento(s, vmid).Some? then (s, Impedimento(s, vmid).value)
      else if s.instancias[vmid].estado.Running? then (s, Encendida)
      else if c.purgaHA && s.instancias[vmid].ha && !purge then (s, EnHA)
      else Despachar(c, s, ahora, vmid, "destroyed", Destruir)
  }

  function Despachar(c: Config, s: Sim, ahora: int, vmid: Vmid, lock: string, efecto: Efecto): (Sim, Respuesta)
    requires vmid in s.instancias
  {
    (CrearTarea(c, s, ahora, vmid, lock, efecto), Aceptada(s.proximoPID + 17))
  }
}
