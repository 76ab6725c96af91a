/**
  What the simulator answers to each request, and what an accepted request leaves,
  told through the fields of the state: the locks, the tasks, and the instance the
  request is about.
 */
module SimAnswers {
  import opened Wrappers
  import opened SnapshotTree
  import opened SimModel
  import opened SimInvariant

  // ---------- Who is refused ----------

  /** An instance of that VMID and kind. */
  predicate Esta(s: Sim, vmid: Vmid, tipo: Tipo) {
    vmid in s.instancias && s.instancias[vmid].tipo == tipo
  }

  /** A task of the VMID has no result yet. */
  ghost predicate ConTarea(s: Sim, vmid: Vmid) {
    exists id :: id in s.tareas && s.tareas[id].vmid == vmid && s.tareas[id].resultado == EnCurso
  }

  ghost predicate ConSnapshot(s: Sim, vmid: Vmid, nombre: string)
    requires vmid in s.instancias
  {
    exists k :: 0 <= k < |s.instancias[vmid].snaps| && s.instancias[vmid].snaps[k].nombre == nombre
  }

  /** The refusals that come first for every task on an instance. */
  ghost predicate Libre(s: Sim, vmid: Vmid, tipo: Tipo) {
    Esta(s, vmid, tipo) && s.instancias[vmid].lock == "" && !ConTarea(s, vmid)
  }

  ghost predicate SinPaso(s: Sim, vmid: Vmid, tipo: Tipo, r: Respuesta) {
    && (!Esta(s, vmid, tipo) ==> r == NoExiste)
    && (Esta(s, vmid, tipo) && s.instancias[vmid].lock != "" ==> r == Bloqueada)
    && (Esta(s, vmid, tipo) && s.instancias[vmid].lock == "" && ConTarea(s, vmid) ==> r == Ocupada)
  }

  /** One task more, for the given effect, and the lock it puts on its instance; nothing else. */
  ghost predicate Emprendida(c: Config, s: Sim, s1: Sim, ahora: int, vmid: Vmid, candado: string, efecto: Efecto, r: Respuesta) {
    && r == Aceptada(s.proximoPID + 17) && s1.proximoPID == s.proximoPID + 17
    && s1.tareas == s.tareas[s.proximoPID + 17 := Tarea(vmid, ahora + c.duracion, efecto, EnCurso)]
    && vmid in s.instancias
    && s1.instancias == s.instancias[vmid := if candado == "" then s.instancias[vmid] else s.instancias[vmid].(lock := candado)]
  }

  lemma BusyIffTask(s: Sim, vmid: Vmid)
    ensures Activa(s, vmid) <==> ConTarea(s, vmid)
  {
  }

  lemma ActionAnswer(c: Config, s: Sim, ahora: int, vmid: Vmid, tipo: Tipo, accion: Accion)
    ensures var (s1, r) := Atender(c, s, ahora, Accionar(vmid, tipo, accion));
      if tipo == Lxc && accion == Reset then r == NoImplementado && s1 == s
      else if Libre(s, vmid, tipo) then Emprendida(c, s, s1, ahora, vmid, "", Energia(accion), r)
      else s1 == s && SinPaso(s, vmid, tipo, r)
  {
    BusyIffTask(s, vmid);
  }

  /** The name of a snapshot, character by character. */
  predicate NombreAdmitido(nombre: string) {
    && 2 <= |nombre| <= 40
    && (forall k :: 0 <= k < |nombre| ==> var ch := nombre[k] as int;
          65 <= ch <= 90 || 97 <= ch <= 122 || (k > 0 && (48 <= ch <= 57 || ch == 45 || ch == 95)))
  }

  lemma NamesAdmitted(nombre: string)
    ensures NombreValido(nombre) <==> NombreAdmitido(nombre)
  {
    if NombreValido(nombre) {
      forall k | 0 <= k < |nombre| ensures var ch := nombre[k] as int;
          65 <= ch <= 90 || 97 <= ch <= 122 || (k > 0 && (48 <= ch <= 57 || ch == 45 || ch == 95)) {
        if k == 0 { assert EsLetra(nombre[0]); }
      }
    }
  }

  lemma SnapshotAnswer(c: Config, s: Sim, ahora: int, vmid: Vmid, tipo: Tipo, nombre: string)
    ensures var (s1, r) := Atender(c, s, ahora, CrearSnapshot(vmid, tipo, nombre));
      if nombre == "current" || !NombreAdmitido(nombre) then r == ParametrosInvalidos && s1 == s
      else if !Libre(s, vmid, tipo) then s1 == s && SinPaso(s, vmid, tipo, r)
      else if ConSnapshot(s, vmid, nombre) then r == NombreUsado && s1 == s
      else var i := s.instancias[vmid];
        Emprendida(c, s, s1, ahora, vmid, "snapshot", Tomar(Snap(nombre, i.actual, i.cores, i.memoriaMB)), r)
  {
    NamesAdmitted(nombre);
    BusyIffTask(s, vmid);
    if vmid in s.instancias { FindSnapNames(s.instancias[vmid].snaps, nombre); }
    hide NombreValido, NombreAdmitido, Activa;
  }

  lemma RollbackAnswer(c: Config, s: Sim, ahora: int, vmid: Vmid, tipo: Tipo, nombre: string)
    ensures var (s1, r) := Atender(c, s, ahora, RevertirSnapshot(vmid, tipo, nombre));
      if !Libre(s, vmid, tipo) then s1 == s && SinPaso(s, vmid, tipo, r)
      else if !ConSnapshot(s, vmid, nombre) then r == SnapshotInexistente && s1 == s
      else exists snap :: snap in s.instancias[vmid].snaps && snap.nombre == nombre && Emprendida(c, s, s1, ahora, vmid, "rollback", Revertir(snap), r)
  {
    BusyIffTask(s, vmid);
    if vmid in s.instancias { FindSnapNames(s.instancias[vmid].snaps, nombre); }
    hide Activa;
  }

  lemma SnapshotDeletionAnswer(c: Config, s: Sim, ahora: int, vmid: Vmid, tipo: Tipo, nombre: string)
    ensures var (s1, r) := Atender(c, s, ahora, BorrarSnapshot(vmid, tipo, nombre));
      if !Libre(s, vmid, tipo) then s1 == s && SinPaso(s, vmid, tipo, r)
      else if !ConSnapshot(s, vmid, nombre) then r == SnapshotInexistente && s1 == s
      else Emprendida(c, s, s1, ahora, vmid, "snapshot-delete", BorrarSnap(nombre), r)
  {
    BusyIffTask(s, vmid);
    if vmid in s.instancias { FindSnapNames(s.instancias[vmid].snaps, nombre); }
    hide Activa;
  }

  lemma DestructionAnswer(c: Config, s: Sim, ahora: int, vmid: Vmid, tipo: Tipo, purge: bool)
    ensures var (s1, r) := Atender(c, s, ahora, Borrar(vmid, tipo, purge));
      if !Libre(s, vmid, tipo) then s1 == s && SinPaso(s, vmid, tipo, r)
      else if s.instancias[vmid].estado == Running then r == Encendida && s1 == s
      else if c.purgaHA && s.instancias[vmid].ha && !purge then r == EnHA && s1 == s
      else Emprendida(c, s, s1, ahora, vmid, "destroyed", Destruir, r)
  {
    BusyIffTask(s, vmid);
  }

  /** A new instance is off, locked by its creation, and has nothing pending and no snapshot. */
  lemma CreationAnswer(c: Config, s: Sim, ahora: int, p: Pedido)
    requires p.Crear?
    ensures var (s1, r) := Atender(c, s, ahora, p);
      if !p.valido then r == ParametrosInvalidos && s1 == s
      else if p.vmid in s.instancias then r == YaExiste && s1 == s
      else
        && r == Aceptada(s.proximoPID + 17) && s1.proximoPID == s.proximoPID + 17
        && s1.tareas == s.tareas[s.proximoPID + 17 := Tarea(p.vmid, ahora + c.duracion, Creacion, EnCurso)]
        && s1.instancias == s.instancias[p.vmid := Inst(p.tipo, false, Stopped, p.cores, p.memoriaMB, if p.tipo == Lxc then p.swapMB else 0,
             p.nombre, "create", p.config, map[], [], "", 0)]
  {
  }

  // ---------- Edits ----------

  /** An integer parameter is absent, empty, or a number from a minimum on. */
  predicate Numero(c: Config, params: map<string, string>, clave: string, minimo: int) {
    clave in params && params[clave] != "" ==> c.atoi(params[clave]).Some? && minimo <= c.atoi(params[clave]).value
  }

  predicate ParametrosBuenos(c: Config, tipo: Tipo, params: map<string, string>) {
    && Numero(c, params, "memory", 16) && Numero(c, params, "cores", 1) && Numero(c, params, "swap", 0)
    && "vmid" !in params && "lock" !in params && "parent" !in params && "snapname" !in params
    && (tipo == Qemu && "hostname" in params ==> params["hostname"] == "")
    && (tipo == Lxc && "name" in params ==> params["name"] == "")
  }

  /** Only the instance of that VMID may differ. */
  ghost predicate Otras(s: Sim, s1: Sim, vmid: Vmid) {
    && s1.tareas == s.tareas && s1.proximoPID == s.proximoPID && s1.instancias.Keys == s.instancias.Keys
    && forall v :: v in s.instancias && v != vmid ==> s1.instancias[v] == s.instancias[v]
  }

  /** An edit needs no free instance, only an unlocked one; a digest that is given must be the present one. */
  lemma EditAnswer(c: Config, s: Sim, ahora: int, vmid: Vmid, tipo: Tipo, params: map<string, string>, nombre: string)
    ensures var (s1, r) := Atender(c, s, ahora, Editar(vmid, tipo, params, nombre));
      if !Esta(s, vmid, tipo) then r == NoExiste && s1 == s
      else if s.instancias[vmid].lock != "" then r == Bloqueada && s1 == s
      else if "digest" in params && params["digest"] != "" && params["digest"] != c.huella(s.instancias[vmid]) then r == ConfigCambiada && s1 == s
      else if !ParametrosBuenos(c, tipo, params) then r == ParametrosInvalidos && s1 == s
      else r == Hecho && Otras(s, s1, vmid)
  {
    assert EdicionValida(c, tipo, params) <==> ParametrosBuenos(c, tipo, params) by { GoodParameters(c, tipo, params); }
    hide Editada, EdicionValida, ParametrosBuenos;
  }

  lemma GoodParameters(c: Config, tipo: Tipo, params: map<string, string>)
    ensures EdicionValida(c, tipo, params) <==> ParametrosBuenos(c, tipo, params)
  {
    var fijos := {"vmid", "lock", "parent", "snapname"};
    if params.Keys * fijos == {} {
      forall k | k in fijos ensures k !in params {
        assert k !in params.Keys * fijos;
      }
    }
  }

  // ---------- The end of a task ----------

  /** What each task leaves when it ends, but for power actions. */
  lemma EndOfTask(c: Config, s: Sim, id: TaskId)
    requires Inv(s) && Unfinished(s, id) && !s.tareas[id].efecto.Energia?
    ensures var s1, t := Terminar(c, s, id), s.tareas[id];
      && s1.proximoPID == s.proximoPID && s1.tareas == s.tareas[id := t.(resultado := OK)]
      && (forall v :: v != t.vmid ==> (v in s1.instancias <==> v in s.instancias) && (v in s1.instancias ==> s1.instancias[v] == s.instancias[v]))
      && (t.efecto == Destruir <==> t.vmid !in s1.instancias)
      && (t.vmid in s1.instancias ==>
            var i, j := s.instancias[t.vmid], s1.instancias[t.vmid];
            && j.lock == "" && j.nombre == i.nombre && j.config == i.config && j.swapMB == i.swapMB && j.ha == i.ha && j.tipo == i.tipo
            && (t.efecto == Creacion ==> j == i.(lock := ""))
            && (t.efecto.Tomar? ==> j == i.(lock := "", snaps := i.snaps + [t.efecto.snap], actual := t.efecto.snap.nombre))
            && (t.efecto.Revertir? ==> j == i.(lock := "", cores := t.efecto.snap.cores, memoriaMB := t.efecto.snap.memoriaMB,
                  pendiente := map[], actual := t.efecto.snap.nombre, estado := if i.estado == Running then Stopped else i.estado,
                  pid := if i.estado == Running then 0 else i.pid))
            && (t.efecto.BorrarSnap? ==> j == i.(lock := "", snaps := j.snaps, actual := j.actual)))
  {
    TerminarFrees(c, s, id);
  }
}
