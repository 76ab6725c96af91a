/**
  The checks before a creation (validarCapacidad) and before a change of CPU and
  RAM (Reconfigurar with AmpliarInstancia), in the order of the code.
 */
module Reconfiguration {
  import opened Wrappers
  import opened KeyStore
  import opened Int64
  import opened CapacityMath
  import opened Capacity

  // ---------- Creations ----------

  /** `sirve`: the storage takes the content that the kind of instance needs. */
  datatype Storage = Storage(nombre: string, active: int, enabled: int, shared: int, sirve: bool, avail: int)

  datatype Pedido = Pedido(nodo: string, storage: string, cores: int, memoria: int, disco: int)

  datatype Motivo = SinStorage | SinRAM | SinCores | SinDisco

  function Busca(storages: seq<Storage>, nombre: string): Option<Storage> {
    if storages == [] then None
    else if storages[0].nombre == nombre then Some(storages[0])
    else Busca(storages[1..], nombre)
  }

  predicate Cuenta(r: Reserva, s: Storage, nodo: string) {
    r.storage == s.nombre && (s.shared == 1 || r.nodo == nodo)
  }

  /** The disk that pending creations hold on a storage. */
  function DiscoReservado(reservas: seq<Reserva>, s: Storage, nodo: string): int {
    if reservas == [] then 0
    else
      var r := reservas[|reservas| - 1];
      DiscoReservado(reservas[..|reservas| - 1], s, nodo) + if Cuenta(r, s, nodo) then r.disco else 0
  }

  /** A capacity reading: node, threads, inventory, storages. */
  datatype Capacidad = Capacidad(n: Nodo, cpus: int, insts: seq<Instancia>, storages: seq<Storage>)

  /** The checks of a creation, with a margin and a sum of pending disk given. */
  ghost predicate Pasa(margen: int, reservado: int, cap: Capacidad, p: Pedido) {
    var s := Busca(cap.storages, p.storage);
    && s.Some? && s.value.active == 1 && s.value.enabled == 1 && s.value.sirve
    && p.memoria <= margen
    && (cap.cpus > 0 ==> p.cores <= cap.cpus)
    && p.disco <= Wrap64(s.value.avail - reservado)
  }

  ghost predicate Admisible64(cap: Capacidad, reservas: seq<Reserva>, p: Pedido) {
    var s := Busca(cap.storages, p.storage);
    s.Some? && Pasa(Margen64(cap.n, cap.insts, reservas, p.nodo), DiscoReservado(reservas, s.value, p.nodo), cap, p)
  }

  /** What the checks mean, over unbounded integers. */
  ghost predicate Admisible(cap: Capacidad, reservas: seq<Reserva>, p: Pedido) {
    var s := Busca(cap.storages, p.storage);
    && s.Some? && s.value.active == 1 && s.value.enabled == 1 && s.value.sirve
    && p.memoria <= Margen(cap.n, cap.insts, reservas, p.nodo)
    && (cap.cpus > 0 ==> p.cores <= cap.cpus)
    && p.disco <= s.value.avail - DiscoReservado(reservas, s.value, p.nodo)
  }

  lemma {:induction false} BuscaFirst(storages: seq<Storage>, nombre: string, k: nat)
    requires k <= |storages| && forall j :: 0 <= j < k ==> storages[j].nombre != nombre
    requires k < |storages| ==> storages[k].nombre == nombre
    ensures Busca(storages, nombre) == if k < |storages| then Some(storages[k]) else None
  {
    if k > 0 { BuscaFirst(storages[1..], nombre, k - 1); }
  }

  /** The first storage of the name. */
  ghost predicate Elegido(storages: seq<Storage>, nombre: string, k: int) {
    0 <= k < |storages| && storages[k].nombre == nombre && forall j :: 0 <= j < k ==> storages[j].nombre != nombre
  }

  /** The storage is in use for this kind of instance, and there is enough of everything. */
  ghost predicate Sobra(cap: Capacidad, reservas: seq<Reserva>, p: Pedido, s: Storage) {
    && s.active == 1 && s.enabled == 1 && s.sirve
    && p.memoria <= Margen64(cap.n, cap.insts, reservas, p.nodo)
    && (cap.cpus <= 0 || p.cores <= cap.cpus)
    && p.disco <= Wrap64(s.avail - DiscoReservado(reservas, s, p.nodo))
  }

  /** Among the first storages of a name there is at most one. */
  lemma ElegidoUnico(storages: seq<Storage>, nombre: string)
    ensures forall k :: Elegido(storages, nombre, k) ==> Busca(storages, nombre) == Some(storages[k])
    ensures Busca(storages, nombre).Some? ==> exists k :: Elegido(storages, nombre, k)
  {
    forall k | Elegido(storages, nombre, k) ensures Busca(storages, nombre) == Some(storages[k]) {
      BuscaFirst(storages, nombre, k);
    }
    if Busca(storages, nombre).Some? { var k := FirstOf(storages, nombre); }
  }

  lemma {:induction false} FirstOf(storages: seq<Storage>, nombre: string) returns (k: nat)
    requires Busca(storages, nombre).Some?
    ensures Elegido(storages, nombre, k)
  {
    if storages[0].nombre == nombre {
      k := 0;
    } else {
      var j := FirstOf(storages[1..], nombre);
      k := j + 1;
      assert forall i :: 0 < i < |storages| ==> storages[i] == storages[1..][i - 1];
    }
  }

  lemma {:induction false} BuscaNames(storages: seq<Storage>, nombre: string)
    ensures Busca(storages, nombre).Some? ==> Busca(storages, nombre).value.nombre == nombre
  {
    if storages != [] { BuscaNames(storages[1..], nombre); }
  }

  /** A pending creation counts against a storage when it is on it, and the storage is shared or the node is the same. */
  lemma OneMoreDisk(reservas: seq<Reserva>, r: Reserva, s: Storage, nodo: string)
    ensures r.storage == s.nombre && (s.shared == 1 || r.nodo == nodo) ==>
      DiscoReservado(reservas + [r], s, nodo) == DiscoReservado(reservas, s, nodo) + r.disco
    ensures r.storage != s.nombre || (s.shared != 1 && r.nodo != nodo) ==>
      DiscoReservado(reservas + [r], s, nodo) == DiscoReservado(reservas, s, nodo)
    ensures DiscoReservado([], s, nodo) == 0
  {
    assert (reservas + [r])[..|reservas|] == reservas;
  }

  /** The last loop of validarCapacidad. */
  method SumaDisco(reservas: seq<Reserva>, s: Storage, nodo: string) returns (reservado: int)
    ensures reservado == Wrap64(DiscoReservado(reservas, s, nodo))
  {
    reservado := 0;
    var i := 0;
    while i < |reservas|
      invariant i <= |reservas| && reservado == Wrap64(DiscoReservado(reservas[..i], s, nodo))
    {
      assert reservas[..i + 1][..i] == reservas[..i];
      WrapAbsorbs(DiscoReservado(reservas[..i], s, nodo), reservas[i].disco);
      if reservas[i].storage == s.nombre && (s.shared == 1 || reservas[i].nodo == nodo) {
        reservado := Wrap64(reservado + reservas[i].disco);
      }
      i := i + 1;
    }
    assert reservas[..i] == reservas;
  }

  /** The first loop: the storage of the request. */
  method BuscarStorage(storages: seq<Storage>, nombre: string) returns (s: Option<Storage>)
    ensures s == Busca(storages, nombre)
  {
    var k := 0;
    while k < |storages| && storages[k].nombre != nombre
      invariant k <= |storages| && forall j :: 0 <= j < k ==> storages[j].nombre != nombre
    {
      k := k + 1;
    }
    BuscaFirst(storages, nombre, k);
    s := if k < |storages| then Some(storages[k]) else None;
  }

  /** validarCapacidad: a creation passes exactly when all checks hold, and each refusal has its own cause. */
  method ValidarCapacidad(cap: Capacidad, reservas: seq<Reserva>, p: Pedido) returns (rechazo: Option<Motivo>)
    ensures rechazo.None? <==> Admisible64(cap, reservas, p)
    ensures rechazo.None? <==> exists k :: Elegido(cap.storages, p.storage, k) && Sobra(cap, reservas, p, cap.storages[k])
    ensures rechazo == Some(SinRAM) ==> p.memoria > Margen64(cap.n, cap.insts, reservas, p.nodo)
    ensures rechazo == Some(SinCores) ==> cap.cpus > 0 && p.cores > cap.cpus
    ensures rechazo == Some(SinDisco) ==> var s := Busca(cap.storages, p.storage);
      s.Some? && p.disco > Wrap64(s.value.avail - DiscoReservado(reservas, s.value, p.nodo))
  {
    hide Wrap64, Margen64;
    ElegidoUnico(cap.storages, p.storage);
    var storage := BuscarStorage(cap.storages, p.storage);
    if storage.None? { return Some(SinStorage); }
    var s := storage.value;
    BuscaNames(cap.storages, p.storage);
    if s.active != 1 || s.enabled != 1 || !s.sirve { return Some(SinStorage); }
    var margen := MargenRAMNodo(cap.n, cap.insts, reservas, p.nodo);
    if p.memoria > margen { return Some(SinRAM); }
    if cap.cpus > 0 && p.cores > cap.cpus { return Some(SinCores); }
    var reservado := SumaDisco(reservas, s, p.nodo);
    WrapAbsorbs(DiscoReservado(reservas, s, p.nodo), s.avail);
    if p.disco > Wrap64(s.avail - reservado) { return Some(SinDisco); }
    rechazo := None;
  }

  /** Sizes that are not negative and fit in 64 bits. */
  ghost predicate Medida(cap: Capacidad, reservas: seq<Reserva>) {
    && Sane(cap.insts, reservas) && Fits(cap.n, cap.insts, reservas)
    && (forall i :: 0 <= i < |reservas| ==> 0 <= reservas[i].disco)
    && (forall i :: 0 <= i < |cap.storages| ==> cap.storages[i].avail <= MAX64)
  }

  /** The pending disk is within the storage, or what it exceeds is in the lower half of a turn of 2^64. */
  ghost predicate DiscoExacto(reservas: seq<Reserva>, s: Storage, nodo: string) {
    var e := DiscoReservado(reservas, s, nodo) - s.avail;
    e <= 0 || 0 < e % TWO64 <= TWO63
  }

  lemma {:induction false} DiskNotNegative(reservas: seq<Reserva>, s: Storage, nodo: string)
    requires forall i :: 0 <= i < |reservas| ==> 0 <= reservas[i].disco
    ensures 0 <= DiscoReservado(reservas, s, nodo)
  {
    if reservas != [] { DiskNotNegative(reservas[..|reservas| - 1], s, nodo); }
  }

  lemma {:induction false} BuscaFits(storages: seq<Storage>, nombre: string)
    requires forall i :: 0 <= i < |storages| ==> storages[i].avail <= MAX64
    ensures Busca(storages, nombre).Some? ==> Busca(storages, nombre).value.avail <= MAX64
  {
    if storages != [] { BuscaFits(storages[1..], nombre); }
  }

  /** Exactly then does the check of the disk answer what it would over unbounded integers, for every size. */
  lemma DiskCheckIsExactIff(reservas: seq<Reserva>, s: Storage, nodo: string)
    requires s.avail <= MAX64 && forall i :: 0 <= i < |reservas| ==> 0 <= reservas[i].disco
    ensures var libre := s.avail - DiscoReservado(reservas, s, nodo);
      && (DiscoExacto(reservas, s, nodo) <==> (Wrap64(libre) == libre || (libre < 0 && Wrap64(libre) < 0)))
      && (!DiscoExacto(reservas, s, nodo) ==> libre < 0 <= Wrap64(libre))
  {
    var e := DiscoReservado(reservas, s, nodo) - s.avail;
    DiskNotNegative(reservas, s, nodo);
    WrapIsExactIff(-e);
    OppositeWraps(e);
    if Wrap64(-e) == 0 { WrapsToNothing(e); }
    if e % TWO64 == 0 { WrapsAlike(-e, 0, -(e / TWO64)); }
  }

  lemma WrapsToNothing(x: int)
    requires Wrap64(-x) == 0
    ensures x % TWO64 == 0
  {
    var turns := (-x + TWO63) / TWO64;
    assert -x == turns * TWO64;
    assert x == (-turns) * TWO64;
  }

  predicate Usable(s: Option<Storage>) {
    s.Some? && s.value.active == 1 && s.value.enabled == 1 && s.value.sirve
  }

  /** The checks in 64 bits answer what they would over unbounded integers. */
  ghost predicate Coinciden(cap: Capacidad, reservas: seq<Reserva>, p: Pedido) {
    Admisible64(cap, reservas, p) <==> Admisible(cap, reservas, p)
  }

  /** Nothing the sums do can be noticed: the storage is no use or surely full, or neither margin nor disk is wrong. */
  ghost predicate Cabal(cap: Capacidad, reservas: seq<Reserva>, nodo: string, storage: string) {
    var s := Busca(cap.storages, storage);
    Usable(s) ==>
      && DiscoExacto(reservas, s.value, nodo)
      && (MargenExacto(cap.n, cap.insts, reservas, nodo) || s.value.avail < DiscoReservado(reservas, s.value, nodo))
  }

  /** For every node and storage: the code's checks are right for all requests exactly under this condition. */
  lemma ChecksAreExact(cap: Capacidad, reservas: seq<Reserva>, nodo: string, storage: string)
    requires Medida(cap, reservas)
    ensures Cabal(cap, reservas, nodo, storage) <==>
      forall p: Pedido :: p.nodo == nodo && p.storage == storage && 0 <= p.memoria && 0 <= p.disco ==> Coinciden(cap, reservas, p)
  {
    if Cabal(cap, reservas, nodo, storage) {
      forall p: Pedido | p.nodo == nodo && p.storage == storage && 0 <= p.memoria && 0 <= p.disco ensures Coinciden(cap, reservas, p) {
        ChecksAgree(cap, reservas, p);
      }
    } else {
      var p := ChecksDiffer(cap, reservas, nodo, storage);
    }
  }

  lemma ChecksAgree(cap: Capacidad, reservas: seq<Reserva>, p: Pedido)
    requires Medida(cap, reservas) && Cabal(cap, reservas, p.nodo, p.storage) && 0 <= p.memoria && 0 <= p.disco
    ensures Coinciden(cap, reservas, p)
  {
    hide Margen, Margen64, MargenExacto, DiscoExacto, DiscoReservado, Wrap64;
    MarginIsExactIff(cap.n, cap.insts, reservas, p.nodo);
    var s := Busca(cap.storages, p.storage);
    BuscaFits(cap.storages, p.storage);
    if s.Some? { DiskCheckIsExactIff(reservas, s.value, p.nodo); }
  }

  /** Otherwise some request is let in that does not fit: none that fits is refused. */
  lemma ChecksDiffer(cap: Capacidad, reservas: seq<Reserva>, nodo: string, storage: string) returns (p: Pedido)
    requires Medida(cap, reservas) && !Cabal(cap, reservas, nodo, storage)
    ensures p.nodo == nodo && p.storage == storage && 0 <= p.memoria && 0 <= p.disco
    ensures Admisible64(cap, reservas, p) && !Admisible(cap, reservas, p)
  {
    hide Margen64, MargenExacto, DiscoExacto, DiscoReservado, Wrap64;
    MarginIsExactIff(cap.n, cap.insts, reservas, nodo);
    BuscaFits(cap.storages, storage);
    DiskCheckIsExactIff(reservas, Busca(cap.storages, storage).value, nodo);
    p := Pedido(nodo, storage, 1, Margen64(cap.n, cap.insts, reservas, nodo), 0);
  }

  /** What an admission promises: RAM within the node, and all pending disk within the storage. */
  lemma AdmissionFitsNodeAndStorage(cap: Capacidad, reservas: seq<Reserva>, p: Pedido, r: Reserva)
    requires Medida(cap, reservas) && Cabal(cap, reservas, p.nodo, p.storage)
    requires Admisible64(cap, reservas, p) && p.memoria > 0 && p.disco >= 0
    requires r.vmid == 0 && r.nodo == p.nodo && r.storage == p.storage && r.memoria == p.memoria && r.disco == p.disco
    ensures Comprometida(cap.n, cap.insts, reservas + [r], p.nodo) <= cap.n.memTotal
    ensures var s := Busca(cap.storages, p.storage);
      s.Some? && DiscoReservado(reservas + [r], s.value, p.nodo) <= s.value.avail
  {
    ChecksAgree(cap, reservas, p);
    BuscaNames(cap.storages, p.storage);
    AdmissionFits(cap.n, cap.insts, reservas, r);
    assert (reservas + [r])[..|reservas|] == reservas;
  }

  // ---------- Changes of CPU and RAM ----------

  /** What the store answers for the cached capacity: a reading, no key, a text that is no reading, or an error. */
  datatype Foto = Presente(cap: Capacidad) | Ausente | Ilegible | SinStore

  /** The answers that obtenerCapacidad meets; `guarda`: the store takes the new copy. */
  datatype Lectura = Lectura(foto: Foto, nodo: Option<(Nodo, int)>, insts: Option<seq<Instancia>>, storages: Option<seq<Storage>>, guarda: bool)

  datatype Obtencion = Obtenida(cap: Capacidad) | FallaStore | FallaProxmox

  /** A capacity reading is had from the copy, or from Proxmox if the store could be read and takes the new copy. */
  ghost predicate SeObtiene(l: Lectura, cap: Capacidad) {
    || l.foto == Presente(cap)
    || ((l.foto.Ausente? || l.foto.Ilegible?) && l.guarda
        && l.nodo == Some((cap.n, cap.cpus)) && l.insts == Some(cap.insts) && l.storages == Some(cap.storages))
  }

  /** There is no copy to be had, and some answer of Proxmox is missing. */
  predicate ProxmoxCalla(l: Lectura) {
    (l.foto.Ausente? || l.foto.Ilegible?) && (l.nodo.None? || l.insts.None? || l.storages.None?)
  }

  /** obtenerCapacidad.  `copia` is what it leaves in the store if it wrote there. */
  method ObtenerCapacidad(l: Lectura) returns (o: Obtencion, copia: Option<Capacidad>)
    ensures forall cap :: o == Obtenida(cap) <==> SeObtiene(l, cap)
    ensures o.FallaProxmox? <==> ProxmoxCalla(l)
    ensures copia == if o.Obtenida? && !l.foto.Presente? then Some(o.cap) else None
    ensures l.foto.Presente? ==> o == Obtenida(l.foto.cap)
    ensures l.foto.SinStore? ==> o == FallaStore
    ensures !l.foto.Presente? && !l.foto.SinStore? ==>
      if l.nodo.None? || l.insts.None? || l.storages.None? then o == FallaProxmox
      else if !l.guarda then o == FallaStore
      else o == Obtenida(Capacidad(l.nodo.value.0, l.nodo.value.1, l.insts.value, l.storages.value))
  {
    copia := None;
    match l.foto {
      case Presente(cap) => return Obtenida(cap), copia;
      case SinStore => return FallaStore, copia;
      case _ =>
    }
    if l.nodo.None? || l.insts.None? || l.storages.None? { return FallaProxmox, copia; }
    if !l.guarda { return FallaStore, copia; }
    o := Obtenida(Capacidad(l.nodo.value.0, l.nodo.value.1, l.insts.value, l.storages.value));
    copia := Some(o.cap);
  }

  datatype Resultado = Aplicada | Rechazada | SinCoordinacion | Cancelada | ErrorDeProxmox

  /**
    What AmpliarInstancia meets: the lock, the list of reservations if it can be
    read, the answers for the capacity, and Proxmox's answer to the write.
   */
  datatype Entorno = Entorno(candado: Candado, reservas: Option<seq<Reserva>>, lectura: Lectura, acepta: bool)

  /** The error of a capacity that was not had. */
  function SinLectura(o: Obtencion): Resultado {
    if o.FallaStore? then SinCoordinacion else ErrorDeProxmox
  }

  /** The checks of an enlargement on a reading. */
  ghost predicate Cabe(cap: Capacidad, nodo: string, cores: int, delta: int, reservas: Option<seq<Reserva>>) {
    && (cap.cpus > 0 ==> cores <= cap.cpus)
    && (delta > 0 ==> reservas.Some? && delta <= Margen64(cap.n, cap.insts, reservas.value, nodo))
  }

  /** The cores are within the threads of the node, if it reports them. */
  predicate ConHilos(cap: Capacidad, cores: int) {
    cap.cpus <= 0 || cores <= cap.cpus
  }

  /** For more RAM the lock is taken and the list of reservations read. */
  predicate Coordinada(delta: int, e: Entorno) {
    delta > 0 ==> e.candado.Tomado? && e.reservas.Some?
  }

  /** The checks hold on the reading that is had. */
  ghost predicate PuedeAmpliar(nodo: string, cores: int, delta: int, e: Entorno) {
    Coordinada(delta, e) && exists cap :: SeObtiene(e.lectura, cap) && Cabe(cap, nodo, cores, delta, e.reservas)
  }

  /**
    AmpliarInstancia.  Without an increment of RAM it takes no lock and reads no
    reservations.  `puestas` counts the writes of the configuration; whatever comes
    of a write, the cached reading is deleted after it.
   */
  method AmpliarInstancia(nodo: string, cores: int, delta: int, e: Entorno)
    returns (r: Resultado, puestas: nat, invalidada: bool)
    ensures puestas <= 1 && (puestas == 1 <==> PuedeAmpliar(nodo, cores, delta, e))
    ensures (r.Aplicada? <==> puestas == 1 && e.acepta) && (puestas == 1 && !e.acepta ==> r.ErrorDeProxmox?)
    ensures invalidada <==> puestas == 1
    ensures r.Cancelada? <==> delta > 0 && e.candado.Cancelado?
    ensures r.SinCoordinacion? <==>
      if Coordinada(delta, e) then !ProxmoxCalla(e.lectura) && forall cap :: !SeObtiene(e.lectura, cap) else !e.candado.Cancelado?
    ensures r.Rechazada? <==> Coordinada(delta, e) && exists cap :: SeObtiene(e.lectura, cap) && !Cabe(cap, nodo, cores, delta, e.reservas)
    ensures delta > 0 && !e.candado.Tomado? ==> puestas == 0 && r == if e.candado.Cancelado? then Cancelada else SinCoordinacion
    ensures delta > 0 && e.candado.Tomado? && e.reservas.None? ==> puestas == 0 && r == SinCoordinacion
    ensures delta <= 0 && e.lectura.foto.Presente? ==> (puestas == 1 <==> ConHilos(e.lectura.foto.cap, cores))
    ensures delta > 0 && e.candado.Tomado? && e.reservas.Some? && e.lectura.foto.Presente? ==>
      var cap := e.lectura.foto.cap; puestas == 1 <==> ConHilos(cap, cores) && delta <= Margen64(cap.n, cap.insts, e.reservas.value, nodo)
    ensures delta <= 0 && e.lectura.foto.SinStore? ==> puestas == 0 && r == SinCoordinacion
    ensures delta <= 0 && (e.lectura.foto.Ausente? || e.lectura.foto.Ilegible?) && e.lectura.nodo.None? ==> puestas == 0 && r == ErrorDeProxmox
  {
    hide Margen64;
    puestas, invalidada := 0, false;
    if delta <= 0 {
      var foto, _ := ObtenerCapacidad(e.lectura);
      if !foto.Obtenida? { return SinLectura(foto), puestas, invalidada; }
      if foto.cap.cpus > 0 && cores > foto.cap.cpus { return Rechazada, puestas, invalidada; }
      puestas, invalidada := 1, true;
      return if e.acepta then Aplicada else ErrorDeProxmox, puestas, invalidada;
    }
    if e.candado != Tomado {
      return if e.candado.Cancelado? then Cancelada else SinCoordinacion, puestas, invalidada;
    }
    if e.reservas.None? { return SinCoordinacion, puestas, invalidada; }
    var o, _ := ObtenerCapacidad(e.lectura);
    if !o.Obtenida? { return SinLectura(o), puestas, invalidada; }
    var margen := MargenRAMNodo(o.cap.n, o.cap.insts, e.reservas.value, nodo);
    if delta > margen { return Rechazada, puestas, invalidada; }
    if o.cap.cpus > 0 && cores > o.cap.cpus { return Rechazada, puestas, invalidada; }
    puestas, invalidada := 1, true;
    r := if e.acepta then Aplicada else ErrorDeProxmox;
  }

  /** The instance in the inventory. */
  datatype Leida = Leida(nodo: string, maxCpu: int, maxMem: int, encendida: bool)

  datatype Uso = Uso(cores: int, memoriaMB: int)

  /** Something that was asked for is not in use yet. */
  predicate Pendiente(ahora: Uso, cores: int, memoriaMB: int) {
    (cores > 0 && ahora.cores != cores) || (memoriaMB > 0 && ahora.memoriaMB != memoriaMB)
  }

  /** What Reconfigurar reads first: the instance, the configuration in use, and the digest of the one with pending values. */
  datatype Lecturas = Lecturas(inst: Option<Leida>, enUso: Option<Uso>, digest: Option<string>) {
    predicate Completas() { inst.Some? && enUso.Some? && digest.Some? }
  }

  /**
    Reconfigurar.  Proxmox accepts the write when the digest sent is still the one
    of the configuration; `despues` is the configuration in use read after it, if
    it can be read.
   */
  method Reconfigurar(l: Lecturas, cores: int, memoriaMB: int, e: Entorno, vigente: string, despues: Option<Uso>)
    returns (r: Resultado, puestas: nat, invalidada: bool, solicitada: Option<Uso>, reinicio: bool, verificacionPendiente: bool)
    requires (l.inst.Some? ==> 0 <= l.inst.value.maxMem <= MAX64) && (e.acepta && l.digest.Some? ==> l.digest.value == vigente)
    ensures !l.Completas() ==> r.ErrorDeProxmox? && puestas == 0
    ensures puestas <= 1 && (r.Aplicada? <==> puestas == 1 && e.acepta)
    ensures l.Completas() && l.digest.value != vigente ==> !r.Aplicada?
    ensures l.Completas() && puestas == 1 && cores > l.inst.value.maxCpu && cores > 0 ==> PuedeAmpliar(l.inst.value.nodo, cores, 0, e)
    ensures l.Completas() && puestas == 1 && 0 < memoriaMB && 0 < memoriaMB * MIB - l.inst.value.maxMem <= MAX64 ==>
      PuedeAmpliar(l.inst.value.nodo, if cores > l.inst.value.maxCpu then cores else 0, memoriaMB * MIB - l.inst.value.maxMem, e)
    ensures l.Completas() && cores <= l.inst.value.maxCpu && (memoriaMB <= 0 || memoriaMB * MIB <= l.inst.value.maxMem) ==> puestas == 1 && !invalidada
    ensures l.Completas() && ((cores > l.inst.value.maxCpu && cores > 0) || (0 < memoriaMB && 0 < memoriaMB * MIB - l.inst.value.maxMem <= MAX64)) ==>
      invalidada == (puestas == 1)
    ensures solicitada == if !l.Completas() then None else
      Some(Uso(if cores > 0 then cores else l.enUso.value.cores, if memoriaMB > 0 then memoriaMB else l.enUso.value.memoriaMB))
    ensures reinicio <==> r.Aplicada? && l.inst.value.encendida && despues.Some? && Pendiente(despues.value, cores, memoriaMB)
    ensures reinicio ==> (cores > 0 && despues.value.cores != cores) || (memoriaMB > 0 && despues.value.memoriaMB != memoriaMB)
    ensures r.Aplicada? && l.inst.value.encendida && despues.Some? && !reinicio ==>
      (cores <= 0 || despues.value.cores == cores) && (memoriaMB <= 0 || despues.value.memoriaMB == memoriaMB)
    ensures verificacionPendiente <==> r.Aplicada? && l.inst.value.encendida && despues.None?
  {
    hide Margen64;
    puestas, invalidada, solicitada, reinicio, verificacionPendiente := 0, false, None, false, false;
    if !l.Completas() { return ErrorDeProxmox, puestas, invalidada, solicitada, reinicio, verificacionPendiente; }
    var inst, nueva := l.inst.value, l.enUso.value;
    if cores > 0 { nueva := nueva.(cores := cores); }
    if memoriaMB > 0 { nueva := nueva.(memoriaMB := memoriaMB); }
    solicitada := Some(nueva);
    var coresQueSuben, delta := 0, 0;
    if cores > inst.maxCpu { coresQueSuben := cores; }
    if memoriaMB > 0 {
      delta := DeltaMemoria(memoriaMB, inst.maxMem);
      DeltaIsExactIff(memoriaMB, inst.maxMem);
    }
    hide DeltaMemoria;
    if coresQueSuben > 0 || delta > 0 {
      r, puestas, invalidada := AmpliarInstancia(inst.nodo, coresQueSuben, Max(0, delta), e);
    } else {
      puestas, invalidada := 1, false;
      r := if e.acepta then Aplicada else ErrorDeProxmox;
    }
    if !r.Aplicada? || !inst.encendida { return; }
    match despues {
      case None => verificacionPendiente := true;
      case Some(ahora) =>
        reinicio := Pendiente(ahora, cores, memoriaMB);
    }
  }
}
