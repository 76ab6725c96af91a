/**
  The state of the node (nodo_service.go): a current reading that lives ten
  seconds, the last good reading as a backup, and five seconds of rest after a
  failure.  Calls come one after another; `D` is whatever Proxmox reports, and the
  store may fail any read and any write, which the code logs and ignores.
 */
module NodeStatus {
  import opened Wrappers
  import opened KeyStore

  const SECOND: int := 1_000_000_000
  const TTL: int := 10 * SECOND
  const PAUSA: int := 5 * SECOND

  datatype Lectura<D> = Lectura(dato: D, t: int)

  /** What the store does in one call: three reads and two writes, each of which works or not. */
  datatype Almacen = Almacen(leeActual: bool, leeUltimo: bool, leeDentro: bool, guardaActual: bool, guardaUltimo: bool) {
    predicate Funciona() { leeActual && leeUltimo && leeDentro && guardaActual && guardaUltimo }
  }

  /**
    A query to Proxmox: whether it was answered and its answer saved as current;
    whether the current key had been deleted since the query before; whether there
    was a backup; and what the call had managed to read.
   */
  datatype Consulta = Consulta(t: int, ok: bool, copiada: bool, trasBorrado: bool, respaldo: bool, a: Almacen)

  /** History: every good reading, those saved as backup, and every query. */
  datatype State<D> = State(
    actual: Slot<Lectura<D>>, ultimo: Option<Lectura<D>>, falla: Option<int>,
    lecturas: seq<Lectura<D>>, respaldadas: seq<Lectura<D>>, consultas: seq<Consulta>, borrada: bool)

  datatype Respuesta<D> = Fresca(l: Lectura<D>) | Vieja(l: Lectura<D>) | Error

  datatype Op<D> = Obtener(t: int, proxmox: Option<D>, a: Almacen) | Invalidar

  predicate Descansa(falla: Option<int>, t: int) {
    falla.Some? && t - falla.value < PAUSA
  }

  /** The call finds a backup. */
  predicate HayRespaldo<D>(s: State<D>, a: Almacen) {
    a.leeUltimo && s.ultimo.Some?
  }

  /** The call gets past the current reading and the rest after a failure. */
  predicate Pregunta<D>(s: State<D>, t: int, a: Almacen) {
    && !(s.actual.Viva(t) && (a.leeActual || a.leeDentro))
    && !(HayRespaldo(s, a) && Descansa(s.falla, t))
  }

  /** ObtenerEstado at `t`; `proxmox` is what a query would get. */
  function Paso<D>(s: State<D>, t: int, proxmox: Option<D>, a: Almacen): (State<D>, Respuesta<D>) {
    if a.leeActual && s.actual.Viva(t) then (s, Fresca(s.actual.valor))
    else if HayRespaldo(s, a) && Descansa(s.falla, t) then (s, Vieja(s.ultimo.value))
    else if a.leeDentro && s.actual.Viva(t) then (s, Fresca(s.actual.valor))
    else
      match proxmox
      case Some(dato) => (Refrescado(s, Lectura(dato, t), a), Fresca(Lectura(dato, t)))
      case None => (Fallado(s, t, a), if HayRespaldo(s, a) then Vieja(s.ultimo.value) else Error)
  }

  /** refrescar, when Proxmox answers. */
  function Refrescado<D>(s: State<D>, l: Lectura<D>, a: Almacen): State<D> {
    State(
      if a.guardaActual then Guardado(l, l.t + TTL) else s.actual,
      if a.guardaUltimo then Some(l) else s.ultimo,
      None, s.lecturas + [l],
      if a.guardaUltimo then s.respaldadas + [l] else s.respaldadas,
      s.consultas + [Consulta(l.t, true, a.guardaActual, s.borrada, s.ultimo.Some?, a)], false)
  }

  function Fallado<D>(s: State<D>, t: int, a: Almacen): State<D> {
    s.(falla := Some(t), consultas := s.consultas + [Consulta(t, false, false, s.borrada, s.ultimo.Some?, a)], borrada := false)
  }

  function Apply<D>(s: State<D>, op: Op<D>): State<D> {
    match op
    case Obtener(t, proxmox, a) => Paso(s, t, proxmox, a).0
    case Invalidar => s.(actual := Vacia, borrada := true)
  }

  function Exec<D>(s: State<D>, ops: seq<Op<D>>): State<D>
    decreases |ops|
  {
    if ops == [] then s else Exec(Apply(s, ops[0]), ops[1..])
  }

  function Init<D>(): State<D> {
    State(Vacia, None, None, [], [], [], false)
  }

  // ---------- The invariant ----------

  /** Why query `c` may follow query `b` in less than five seconds. */
  predicate Excused(b: Consulta, c: Consulta) {
    if b.ok then !b.copiada || c.trasBorrado || !(c.a.leeActual || c.a.leeDentro)
    else !c.respaldo || !c.a.leeUltimo
  }

  /** Queries are five seconds apart, except after a good one whose copy was lost or could not be read, and after a bad one without a backup that could be read. */
  ghost predicate Spaced(consultas: seq<Consulta>) {
    forall i :: 0 <= i < |consultas| - 1 ==>
      consultas[i + 1].t - consultas[i].t >= PAUSA || Excused(consultas[i], consultas[i + 1])
  }

  function Last<D>(lecturas: seq<Lectura<D>>): Option<Lectura<D>> {
    if lecturas == [] then None else Some(lecturas[|lecturas| - 1])
  }

  /** What the last query left behind. */
  ghost predicate AfterLast<D>(s: State<D>, c: Consulta) {
    if c.ok then
      && s.falla == None
      && (c.copiada && !s.borrada ==> s.actual.Guardado? && s.actual.vence == c.t + TTL)
    else s.falla == Some(c.t)
  }

  ghost predicate Inv<D>(s: State<D>) {
    && s.ultimo == Last(s.respaldadas)
    && (forall l :: l in s.respaldadas ==> l in s.lecturas)
    && (s.actual.Guardado? ==> s.actual.valor in s.lecturas && s.actual.vence == s.actual.valor.t + TTL)
    && (s.consultas != [] ==> AfterLast(s, s.consultas[|s.consultas| - 1]))
    && Spaced(s.consultas)
  }

  lemma CallKeepsInv<D>(s: State<D>, t: int, proxmox: Option<D>, a: Almacen)
    requires Inv(s)
    ensures Inv(Paso(s, t, proxmox, a).0)
  {
  }

  /**
    What a call answers, whatever the store does: a fresh reading is a good one
    under ten seconds old; a stale one is the latest good one that was saved as
    backup; and a call ends in error exactly when Proxmox had to be asked, failed,
    and there is no backup or it could not be read.
   */
  lemma CallAnswers<D>(s: State<D>, t: int, proxmox: Option<D>, a: Almacen)
    requires Inv(s)
    ensures var (s', r) := Paso(s, t, proxmox, a);
      && (r.Fresca? ==> t - r.l.t < TTL && r.l in s'.lecturas)
      && (r.Vieja? ==> Last(s'.respaldadas) == Some(r.l) && s'.lecturas == s.lecturas)
      && (r.Error? <==> Pregunta(s, t, a) && proxmox.None? && (s.respaldadas == [] || !a.leeUltimo))
      && (|s'.consultas| > |s.consultas| <==> Pregunta(s, t, a))
  {
  }

  lemma {:induction false} EveryRunKeepsInv<D>(s: State<D>, ops: seq<Op<D>>)
    requires Inv(s)
    ensures Inv(Exec(s, ops)) && s.respaldadas <= Exec(s, ops).respaldadas
    decreases |ops|
  {
    if ops != [] {
      if ops[0].Obtener? { CallKeepsInv(s, ops[0].t, ops[0].proxmox, ops[0].a); }
      EveryRunKeepsInv(Apply(s, ops[0]), ops[1..]);
    }
  }

  /** On every run: queries are spaced or excused, and once a backup has been saved only a failed read lets a call end in error. */
  lemma RunsAreGentle<D>(antes: seq<Op<D>>, despues: seq<Op<D>>, t: int, proxmox: Option<D>, a: Almacen)
    ensures Spaced(Exec(Exec(Init<D>(), antes), despues).consultas)
    ensures Exec(Init<D>(), antes).respaldadas != [] && a.leeUltimo ==>
      !Paso(Exec(Exec(Init<D>(), antes), despues), t, proxmox, a).1.Error?
  {
    EveryRunKeepsInv(Init<D>(), antes);
    var s := Exec(Init<D>(), antes);
    EveryRunKeepsInv(s, despues);
    CallAnswers(Exec(s, despues), t, proxmox, a);
  }

  // ---------- While the store works ----------

  /** Both copies hold the latest good reading. */
  ghost predicate Fiel<D>(s: State<D>) {
    s.respaldadas == s.lecturas && (s.actual.Guardado? ==> Last(s.lecturas) == Some(s.actual.valor))
  }

  ghost predicate StoreWorks<D>(ops: seq<Op<D>>) {
    forall i :: 0 <= i < |ops| && ops[i].Obtener? ==> ops[i].a.Funciona()
  }

  lemma {:induction false} WorkingStoreIsFaithful<D>(s: State<D>, ops: seq<Op<D>>)
    requires Inv(s) && Fiel(s) && StoreWorks(ops)
    ensures Inv(Exec(s, ops)) && Fiel(Exec(s, ops)) && s.lecturas <= Exec(s, ops).lecturas
    decreases |ops|
  {
    if ops != [] {
      if ops[0].Obtener? {
        CallKeepsInv(s, ops[0].t, ops[0].proxmox, ops[0].a);
        assert ops[0].a.Funciona();
      }
      assert forall i :: 0 <= i < |ops[1..]| ==> ops[1..][i] == ops[i + 1];
      WorkingStoreIsFaithful(Apply(s, ops[0]), ops[1..]);
    }
  }

  /** On every run in which the store works, each answer is the latest good reading, and an error means that there has never been one. */
  lemma WorkingStoreAnswers<D>(ops: seq<Op<D>>, t: int, proxmox: Option<D>, a: Almacen)
    requires StoreWorks(ops) && a.Funciona()
    ensures var s := Exec(Init<D>(), ops);
      var (s', r) := Paso(s, t, proxmox, a);
      if r.Error? then s.lecturas == [] else Last(s'.lecturas) == Some(r.l)
  {
    WorkingStoreIsFaithful(Init<D>(), ops);
    CallAnswers(Exec(Init<D>(), ops), t, proxmox, a);
  }

  // ---------- The service ----------

  class NodoService<D> {
    var actual: Slot<Lectura<D>>
    var ultimo: Option<Lectura<D>>
    var ultimaFalla: int
    var errFalla: bool
    ghost var lecturas: seq<Lectura<D>>
    ghost var respaldadas: seq<Lectura<D>>
    ghost var consultas: seq<Consulta>
    ghost var borrada: bool

    ghost function View(): State<D>
      reads this
    {
      State(actual, ultimo, if errFalla then Some(ultimaFalla) else None, lecturas, respaldadas, consultas, borrada)
    }

    constructor ()
      ensures View() == Init()
    {
      actual, ultimo, ultimaFalla, errFalla := Vacia, None, 0, false;
      lecturas, respaldadas, consultas, borrada := [], [], [], false;
    }

    /** The two writes are tried whatever becomes of the first. */
    method Refrescar(dato: D, t: int, a: Almacen) returns (l: Lectura<D>)
      modifies this
      ensures l == Lectura(dato, t)
      ensures View() == Refrescado(old(View()), l, a)
      ensures actual == if a.guardaActual then Guardado(Lectura(dato, t), t + 10_000_000_000) else old(actual)
      ensures ultimo == if a.guardaUltimo then Some(Lectura(dato, t)) else old(ultimo)
      ensures !errFalla
    {
      l := Lectura(dato, t);
      ghost var c := Consulta(t, true, a.guardaActual, borrada, ultimo.Some?, a);
      if a.guardaActual { actual := Guardado(l, t + TTL); }
      if a.guardaUltimo {
        ultimo := Some(l);
        respaldadas := respaldadas + [l];
      }
      ultimaFalla, errFalla := 0, false;
      lecturas, consultas, borrada := lecturas + [l], consultas + [c], false;
    }

    method RegistrarFalla(t: int, ghost a: Almacen)
      modifies this
      ensures View() == Fallado(old(View()), t, a)
      ensures errFalla && ultimaFalla == t && actual == old(actual) && ultimo == old(ultimo)
    {
      ultimaFalla, errFalla := t, true;
      consultas, borrada := consultas + [Consulta(t, false, false, borrada, ultimo.Some?, a)], false;
    }

    method FallaReciente(t: int) returns (reciente: bool)
      ensures reciente == Descansa(View().falla, t)
      ensures reciente <==> errFalla && t < ultimaFalla + 5_000_000_000
    {
      reciente := errFalla && t - ultimaFalla < PAUSA;
    }

    method ObtenerEstado(t: int, proxmox: Option<D>, a: Almacen) returns (r: Respuesta<D>)
      modifies this
      ensures (View(), r) == Paso(old(View()), t, proxmox, a)
      ensures a.leeActual && old(actual).Guardado? && t < old(actual).vence ==> r == Fresca(old(actual).valor)
      ensures !(a.leeActual && old(actual).Guardado? && t < old(actual).vence) ==>
        (a.leeUltimo && old(ultimo).Some? && old(errFalla) && t < old(ultimaFalla) + 5_000_000_000 ==> r == Vieja(old(ultimo).value))
      ensures |consultas| == |old(consultas)| ==> View() == old(View())
      ensures |consultas| > |old(consultas)| ==> match proxmox
        case Some(dato) => r == Fresca(Lectura(dato, t)) && !errFalla
        case None => errFalla && ultimaFalla == t && r == if a.leeUltimo && old(ultimo).Some? then Vieja(old(ultimo).value) else Error
      ensures |consultas| > |old(consultas)| <==>
        !(old(actual).Guardado? && t < old(actual).vence && (a.leeActual || a.leeDentro))
        && !(a.leeUltimo && old(ultimo).Some? && old(errFalla) && t < old(ultimaFalla) + 5_000_000_000)
    {
      if a.leeActual && actual.Viva(t) { return Fresca(actual.valor); }
      var respaldo := if a.leeUltimo then ultimo else None;
      if respaldo.Some? {
        var reciente := FallaReciente(t);
        if reciente { return Vieja(respaldo.value); }
      }
      if a.leeDentro && actual.Viva(t) { return Fresca(actual.valor); }
      match proxmox {
        case Some(dato) =>
          var l := Refrescar(dato, t, a);
          r := Fresca(l);
        case None =>
          RegistrarFalla(t, a);
          r := if respaldo.Some? then Vieja(respaldo.value) else Error;
      }
    }

    /** invalidarCacheCapacidad of the quota service deletes the current reading. */
    method Invalidar()
      modifies this
      ensures View() == Apply(old(View()), Op.Invalidar)
      ensures actual == Vacia && ultimo == old(ultimo) && errFalla == old(errFalla) && ultimaFalla == old(ultimaFalla)
    {
      actual, borrada := Vacia, true;
    }
  }
}
