/**
  Sessions (auth_service.go, almacen_sesiones.go, sesiones.go): one row per
  session, a copy in the ephemeral store to answer most requests, and the access
  token that each refresh replaces.  Each operation is one step.
 */
module Sessions {
  import opened Wrappers
  import opened KeyStore

  type SesionId = nat
  type Usuario = nat
  type Jti = nat

  datatype Fila = Fila(usuario: Usuario, access: Jti, refresh: Jti, activa: bool, expira: int)

  /** What the store keeps of a session (sesionCacheada). */
  datatype Copia = Copia(usuario: Usuario, access: Jti, refresh: Jti, expira: int)

  /** `usados`: every access identifier handed out so far; `heredadas`: sessions with a refresh key of older deployments. */
  datatype State = State(filas: map<SesionId, Fila>, cache: map<SesionId, Slot<Copia>>, usados: set<Jti>, heredadas: set<SesionId>)

  datatype Op =
    | Crear(id: SesionId, usuario: Usuario, access: Jti, refresh: Jti, vida: int)
    | Refrescar(id: SesionId, refresh: Jti, nuevo: Jti, usuarioActivo: bool)
    | Cerrar(id: SesionId, refresh: Jti)
    | Revocar(usuario: Usuario, conservada: set<SesionId>)   // all the sessions of a user, or all but one
    | Verificar(id: SesionId, access: Jti, lee: bool)        // `lee`: the store can be read, and the copy too
    | Desalojar(id: SesionId)                                // the store drops the copy

  /** `Incompleta`: the rows were closed, but their copies could not be deleted. */
  datatype Respuesta = Ok | Revocada | Inactivo | Incompleta

  predicate Vale(f: Fila, t: int) {
    f.activa && t < f.expira
  }

  /** The copy that replicarSesion keeps: its life is what is left of the refresh token. */
  function Replicar(s: State, id: SesionId, t: int): State
    requires id in s.filas
  {
    var f := s.filas[id];
    if f.expira - t <= 0 then s
    else s.(cache := s.cache[id := Guardado(Copia(f.usuario, f.access, f.refresh, f.expira), t + (f.expira - t))])
  }

  function Revocadas(s: State, usuario: Usuario, conservada: set<SesionId>): set<SesionId> {
    set id | id in s.filas && s.filas[id].usuario == usuario && s.filas[id].activa && id !in conservada
  }

  /** eliminarSesiones, when the store takes it. */
  function Borrar(s: State, ids: set<SesionId>): State {
    s.(cache := s.cache - ids, heredadas := s.heredadas - ids)
  }

  /** `fin`: how the write of this operation to the store ends. */
  function Paso(s: State, op: Op, t: int, fin: Escritura): (State, Respuesta) {
    match op
    case Crear(id, usuario, access, refresh, vida) =>
      var s1 := s.(filas := s.filas[id := Fila(usuario, access, refresh, true, t + vida)], usados := s.usados + {access});
      (if fin.Surte() then Replicar(s1, id, t) else s1, Ok)
    case Refrescar(id, refresh, nuevo, usuarioActivo) =>
      if id !in s.filas || !Vale(s.filas[id], t) || s.filas[id].refresh != refresh then (s, Revocada)
      else if !usuarioActivo then (s, Inactivo)
      else
        var s1 := s.(filas := s.filas[id := s.filas[id].(access := nuevo)], usados := s.usados + {nuevo});
        (if fin.Surte() then Replicar(s1, id, t) else s1, Ok)
    case Cerrar(id, refresh) =>
      if id !in s.filas || s.filas[id].refresh != refresh then (s, Revocada)
      else
        var s1 := s.(filas := s.filas[id := s.filas[id].(activa := false)]);
        (if fin.Surte() then Borrar(s1, {id}) else s1, if fin.Hecha? then Ok else Incompleta)
    case Revocar(usuario, conservada) =>
      var ids := Revocadas(s, usuario, conservada);
      var s1 := s.(filas := map id | id in s.filas :: if id in ids then s.filas[id].(activa := false) else s.filas[id]);
      (if fin.Surte() then Borrar(s1, ids) else s1, if fin.Hecha? then Ok else Incompleta)
    case Verificar(id, access, lee) =>
      var copia := En(s.cache, id);
      if lee && copia.Viva(t) then (s, if copia.valor.access == access && t < copia.valor.expira then Ok else Revocada)
      else if id !in s.filas || !Vale(s.filas[id], t) || s.filas[id].access != access then (s, Revocada)
      else (if fin.Surte() then Replicar(s, id, t) else s, Ok)
    case Desalojar(id) => (s.(cache := s.cache - {id}), Ok)
  }

  /** Identifiers of sessions and of access tokens are new. */
  predicate Enabled(s: State, op: Op) {
    match op
    case Crear(id, _, access, _, vida) => id !in s.filas && id !in s.cache && access !in s.usados
    case Refrescar(_, _, nuevo, _) => nuevo !in s.usados
    case _ => true
  }

  function Inicial(heredadas: set<SesionId>): State {
    State(map[], map[], {}, heredadas)
  }

  // ---------- The copy agrees with the row ----------

  predicate CopyOf(c: Slot<Copia>, f: Fila) {
    c == Guardado(Copia(f.usuario, f.access, f.refresh, f.expira), f.expira)
  }

  ghost predicate Inv(s: State) {
    && (forall id :: id in s.cache && s.cache[id].Guardado? ==> id in s.filas && s.filas[id].activa && CopyOf(s.cache[id], s.filas[id]))
    && (forall id :: id in s.cache ==> s.cache[id].Guardado?)
    && (forall id :: id in s.filas ==> s.filas[id].access in s.usados)
    && (forall a, b :: a in s.filas && b in s.filas && a != b ==> s.filas[a].access != s.filas[b].access)
  }

  /** The store takes the writes that matter: the new token of a refresh, and the deletions. */
  predicate Fiel(op: Op, fin: Escritura) {
    op.Refrescar? || op.Cerrar? || op.Revocar? ==> fin.Surte()
  }

  lemma StepKeepsInv(s: State, op: Op, t: int, fin: Escritura)
    requires Inv(s) && Enabled(s, op) && Fiel(op, fin)
    ensures Inv(Paso(s, op, t, fin).0)
  {
  }

  /** What the database alone would answer. */
  predicate SegunBase(s: State, id: SesionId, access: Jti, t: int) {
    id in s.filas && Vale(s.filas[id], t) && s.filas[id].access == access
  }

  predicate Acepta(s: State, id: SesionId, access: Jti, t: int, lee: bool) {
    Paso(s, Verificar(id, access, lee), t, Hecha).1 == Ok
  }

  /** With the copy, without it, or without a store to ask, the answer is the database's. */
  lemma CachedAnswerIsDatabaseAnswer(s: State, id: SesionId, access: Jti, t: int, lee: bool)
    requires lee ==> Inv(s)
    ensures Acepta(s, id, access, t, lee) <==> SegunBase(s, id, access, t)
  {
  }

  /** A session accepts one access token at most, and no two sessions accept the same. */
  lemma AtMostOneAccess(s: State, a: SesionId, x: Jti, b: SesionId, y: Jti, t: int, lee: bool, lee': bool)
    requires Inv(s) && Acepta(s, a, x, t, lee) && Acepta(s, b, y, t, lee')
    ensures a == b <==> x == y
  {
    CachedAnswerIsDatabaseAnswer(s, a, x, t, lee);
    CachedAnswerIsDatabaseAnswer(s, b, y, t, lee');
  }

  // ---------- Runs ----------

  datatype Llamada = Llamada(op: Op, t: int, fin: Escritura)

  ghost predicate Runs(s: State, cs: seq<Llamada>)
    decreases |cs|
  {
    cs != [] ==> Enabled(s, cs[0].op) && Runs(Paso(s, cs[0].op, cs[0].t, cs[0].fin).0, cs[1..])
  }

  ghost function Exec(s: State, cs: seq<Llamada>): State
    requires Runs(s, cs)
    decreases |cs|
  {
    if cs == [] then s else Exec(Paso(s, cs[0].op, cs[0].t, cs[0].fin).0, cs[1..])
  }

  /** A run in which the store takes the writes that matter. */
  ghost predicate RunsFaithfully(s: State, cs: seq<Llamada>) {
    Runs(s, cs) && forall i :: 0 <= i < |cs| ==> Fiel(cs[i].op, cs[i].fin)
  }

  lemma FaithfulRest(s: State, cs: seq<Llamada>)
    requires RunsFaithfully(s, cs) && cs != []
    ensures RunsFaithfully(Paso(s, cs[0].op, cs[0].t, cs[0].fin).0, cs[1..])
  {
    assert forall i :: 0 <= i < |cs[1..]| ==> cs[1..][i] == cs[i + 1];
  }

  lemma {:induction false} EveryRunKeepsInv(s: State, cs: seq<Llamada>)
    requires Inv(s) && RunsFaithfully(s, cs)
    ensures Inv(Exec(s, cs))
    decreases |cs|
  {
    if cs != [] {
      StepKeepsInv(s, cs[0].op, cs[0].t, cs[0].fin);
      FaithfulRest(s, cs);
      EveryRunKeepsInv(Paso(s, cs[0].op, cs[0].t, cs[0].fin).0, cs[1..]);
    }
  }

  /** In every state such a run reaches, the store answers what the database would. */
  lemma CacheNeverLies(heredadas: set<SesionId>, cs: seq<Llamada>, id: SesionId, access: Jti, t: int, lee: bool)
    requires RunsFaithfully(Inicial(heredadas), cs)
    ensures Acepta(Exec(Inicial(heredadas), cs), id, access, t, lee) <==> SegunBase(Exec(Inicial(heredadas), cs), id, access, t)
  {
    EveryRunKeepsInv(Inicial(heredadas), cs);
    CachedAnswerIsDatabaseAnswer(Exec(Inicial(heredadas), cs), id, access, t, lee);
  }

  /** The token has been handed out, and the session has another or is closed. */
  ghost predicate Perdido(s: State, id: SesionId, access: Jti) {
    id in s.filas && access in s.usados && (s.filas[id].access != access || !s.filas[id].activa)
  }

  ghost predicate NuncaVale(s: State, id: SesionId, access: Jti) {
    forall t, lee :: !Acepta(s, id, access, t, lee)
  }

  lemma {:induction false} LostForever(s: State, cs: seq<Llamada>, id: SesionId, access: Jti)
    requires Inv(s) && RunsFaithfully(s, cs) && Perdido(s, id, access)
    ensures NuncaVale(Exec(s, cs), id, access)
    decreases |cs|
  {
    if cs != [] {
      StepKeepsInv(s, cs[0].op, cs[0].t, cs[0].fin);
      FaithfulRest(s, cs);
      LostForever(Paso(s, cs[0].op, cs[0].t, cs[0].fin).0, cs[1..], id, access);
    }
  }

  /** A refresh hands out a token that works at once, and ends the one before for good. */
  lemma RefreshReplaces(s: State, id: SesionId, refresh: Jti, nuevo: Jti, t: int, cs: seq<Llamada>)
    requires Inv(s) && nuevo !in s.usados && Paso(s, Refrescar(id, refresh, nuevo, true), t, Hecha).1.Ok?
    requires RunsFaithfully(Paso(s, Refrescar(id, refresh, nuevo, true), t, Hecha).0, cs)
    ensures var s1 := Paso(s, Refrescar(id, refresh, nuevo, true), t, Hecha).0;
      && id in s.filas && Acepta(s1, id, nuevo, t, true) && Acepta(s1, id, nuevo, t, false)
      && NuncaVale(Exec(s1, cs), id, s.filas[id].access)
  {
    var s1 := Paso(s, Refrescar(id, refresh, nuevo, true), t, Hecha).0;
    StepKeepsInv(s, Refrescar(id, refresh, nuevo, true), t, Hecha);
    CachedAnswerIsDatabaseAnswer(s1, id, nuevo, t, true);
    LostForever(s1, cs, id, s.filas[id].access);
  }

  /** After a logout whose deletion the store takes, the session's token never works again. */
  lemma LogoutIsFinal(s: State, id: SesionId, refresh: Jti, t: int, fin: Escritura, cs: seq<Llamada>, access: Jti)
    requires Inv(s) && fin.Surte() && !Paso(s, Cerrar(id, refresh), t, fin).1.Revocada?
    requires RunsFaithfully(Paso(s, Cerrar(id, refresh), t, fin).0, cs) && access in s.usados
    ensures NuncaVale(Exec(Paso(s, Cerrar(id, refresh), t, fin).0, cs), id, access)
  {
    StepKeepsInv(s, Cerrar(id, refresh), t, fin);
    LostForever(Paso(s, Cerrar(id, refresh), t, fin).0, cs, id, access);
  }

  /** Of the sessions a user had, only the kept one still validates, then and ever after. */
  lemma RevokeOthersLeavesTheKept(s: State, usuario: Usuario, conservada: SesionId, t: int, fin: Escritura, cs: seq<Llamada>, id: SesionId, access: Jti)
    requires Inv(s) && fin.Surte() && RunsFaithfully(Paso(s, Revocar(usuario, {conservada}), t, fin).0, cs)
    requires id in s.filas && s.filas[id].usuario == usuario && id != conservada && access in s.usados
    ensures NuncaVale(Exec(Paso(s, Revocar(usuario, {conservada}), t, fin).0, cs), id, access)
  {
    StepKeepsInv(s, Revocar(usuario, {conservada}), t, fin);
    LostForever(Paso(s, Revocar(usuario, {conservada}), t, fin).0, cs, id, access);
  }

  /** The kept session, and the sessions of other users, answer as before, whatever the store does. */
  lemma RevokeOthersSparesTheRest(s: State, usuario: Usuario, conservada: SesionId, t: int, fin: Escritura, id: SesionId, access: Jti, t': int, lee: bool)
    requires id == conservada || id !in s.filas || s.filas[id].usuario != usuario
    ensures Acepta(Paso(s, Revocar(usuario, {conservada}), t, fin).0, id, access, t', lee) <==> Acepta(s, id, access, t', lee)
  {
  }

  // ---------- What is left in the store ----------

  /** The operation closes the session. */
  predicate Cierra(s: State, op: Op, id: SesionId) {
    match op
    case Cerrar(x, refresh) => x == id && id in s.filas && s.filas[id].refresh == refresh
    case Revocar(usuario, conservada) => id in Revocadas(s, usuario, conservada)
    case _ => false
  }

  /** A closed session, and what the store holds under its two keys. */
  ghost predicate Cerrada(s: State, id: SesionId, f: Fila, copia: Slot<Copia>, heredada: bool) {
    && id in s.filas && s.filas[id] == f && !f.activa
    && En(s.cache, id) == copia && (id in s.heredadas <==> heredada)
  }

  /** The call deletes the keys of a closed session: a logout with its refresh token. */
  predicate Limpia(c: Llamada, id: SesionId, refresh: Jti) {
    c.op == Cerrar(id, refresh) && c.fin.Surte()
  }

  predicate Limpiada(cs: seq<Llamada>, id: SesionId, refresh: Jti) {
    exists i :: 0 <= i < |cs| && Limpia(cs[i], id, refresh)
  }

  predicate SinCopia(cs: seq<Llamada>, id: SesionId, refresh: Jti) {
    Limpiada(cs, id, refresh) || Ocurre(cs, Desalojar(id))
  }

  predicate Ocurre(cs: seq<Llamada>, op: Op) {
    exists i :: 0 <= i < |cs| && cs[i].op == op
  }

  lemma ClosedStep(s: State, c: Llamada, id: SesionId, f: Fila, copia: Slot<Copia>, heredada: bool)
    requires Enabled(s, c.op) && Cerrada(s, id, f, copia, heredada)
    ensures Cerrada(Paso(s, c.op, c.t, c.fin).0, id, f,
      if Limpia(c, id, f.refresh) || c.op == Desalojar(id) then Vacia else copia,
      heredada && !Limpia(c, id, f.refresh))
  {
  }

  lemma FirstOrLater(cs: seq<Llamada>, id: SesionId, refresh: Jti)
    requires cs != []
    ensures Limpiada(cs, id, refresh) <==> Limpia(cs[0], id, refresh) || Limpiada(cs[1..], id, refresh)
    ensures Ocurre(cs, Desalojar(id)) <==> cs[0].op == Desalojar(id) || Ocurre(cs[1..], Desalojar(id))
  {
    assert forall i :: 0 <= i < |cs[1..]| ==> cs[1..][i] == cs[i + 1];
    assert forall i :: 0 < i < |cs| ==> cs[i] == cs[1..][i - 1];
  }

  /** Whatever is called and whatever the store does, a closed session stays as it is but for these deletions. */
  lemma {:induction false} ClosedForever(s: State, cs: seq<Llamada>, id: SesionId, f: Fila, copia: Slot<Copia>, heredada: bool)
    requires Runs(s, cs) && Cerrada(s, id, f, copia, heredada)
    ensures Cerrada(Exec(s, cs), id, f,
      if SinCopia(cs, id, f.refresh) then Vacia else copia,
      heredada && !Limpiada(cs, id, f.refresh))
    decreases |cs|
  {
    if cs != [] {
      ClosedStep(s, cs[0], id, f, copia, heredada);
      FirstOrLater(cs, id, f.refresh);
      ClosedForever(Paso(s, cs[0].op, cs[0].t, cs[0].fin).0, cs[1..], id, f,
        if Limpia(cs[0], id, f.refresh) || cs[0].op == Desalojar(id) then Vacia else copia,
        heredada && !Limpia(cs[0], id, f.refresh));
    }
  }

  /**
    A logout or a revocation whose deletion the store loses.  In every later run,
    whatever the store does, the session's last token, and no other, keeps working
    exactly while the store can be read and the copy lives: until the copy expires,
    is evicted, or a further logout deletes it.  A further revocation never does.
   */
  lemma ClosedWithoutDelete(s: State, op: Op, t: int, cs: seq<Llamada>, id: SesionId, access: Jti, t': int, lee: bool)
    requires Inv(s) && Cierra(s, op, id) && Runs(Paso(s, op, t, Perdida).0, cs)
    ensures Paso(s, op, t, Perdida).1.Incompleta?
    ensures Acepta(Exec(Paso(s, op, t, Perdida).0, cs), id, access, t', lee) <==>
      lee && access == s.filas[id].access && En(s.cache, id).Viva(t') && !SinCopia(cs, id, s.filas[id].refresh)
  {
    var s1 := Paso(s, op, t, Perdida).0;
    ClosedForever(s1, cs, id, s1.filas[id], En(s.cache, id), id in s.heredadas);
  }

  /** If the store takes it, neither key comes back in any later run, whatever the store does then. */
  lemma ClosedLeavesNoKeys(s: State, op: Op, t: int, fin: Escritura, cs: seq<Llamada>, id: SesionId)
    requires Cierra(s, op, id) && fin.Surte() && Runs(Paso(s, op, t, fin).0, cs)
    ensures var s' := Exec(Paso(s, op, t, fin).0, cs); En(s'.cache, id) == Vacia && id !in s'.heredadas
  {
    var s1 := Paso(s, op, t, fin).0;
    ClosedForever(s1, cs, id, s1.filas[id], Vacia, false);
  }

  // ---------- When a copy cannot be written ----------

  /** A refresh whose copy cannot be written gives a token that works exactly if there was no live copy to be read. */
  lemma RefreshWithoutCopy(s: State, id: SesionId, refresh: Jti, nuevo: Jti, t: int, lee: bool)
    requires Inv(s) && nuevo !in s.usados && Paso(s, Refrescar(id, refresh, nuevo, true), t, Perdida).1.Ok?
    ensures Acepta(Paso(s, Refrescar(id, refresh, nuevo, true), t, Perdida).0, id, nuevo, t, lee) <==> !(lee && En(s.cache, id).Viva(t))
    ensures id in s.filas &&
      (Acepta(Paso(s, Refrescar(id, refresh, nuevo, true), t, Perdida).0, id, s.filas[id].access, t, lee) <==> lee && En(s.cache, id).Viva(t))
  {
    assert id in s.filas && s.filas[id].access in s.usados;
  }

  // ---------- The service ----------

  /** The keys auth:session:<id> and auth:refresh:<id>. */
  datatype Clave = DeSesion(id: SesionId) | DeRefresh(id: SesionId)

  /** AuthService over its two stores; `t` is the clock and `fin` how the write to the ephemeral store ends. */
  class AuthService {
    var filas: map<SesionId, Fila>
    var cache: map<SesionId, Slot<Copia>>
    var heredadas: set<SesionId>
    ghost var usados: set<Jti>

    ghost function View(): State
      reads this
    {
      State(filas, cache, usados, heredadas)
    }

    constructor (heredadas: set<SesionId>)
      ensures View() == Inicial(heredadas)
    {
      filas, cache, usados, this.heredadas := map[], map[], {}, heredadas;
    }

    /** replicarSesion */
    method ReplicarSesion(id: SesionId, t: int, fin: Escritura)
      requires id in filas
      modifies `cache
      ensures View() == if fin.Surte() then Replicar(old(View()), id, t) else old(View())
      ensures cache == if fin.Surte() && t < filas[id].expira
        then old(cache)[id := Guardado(Copia(filas[id].usuario, filas[id].access, filas[id].refresh, filas[id].expira), filas[id].expira)]
        else old(cache)
    {
      var f := filas[id];
      var ttl := f.expira - t;
      if ttl <= 0 { return; }
      if fin.Surte() {
        cache := cache[id := Guardado(Copia(f.usuario, f.access, f.refresh, f.expira), t + ttl)];
      }
    }

    method CrearSesion(id: SesionId, usuario: Usuario, access: Jti, refresh: Jti, vida: int, t: int, fin: Escritura)
      modifies this
      ensures View() == Paso(old(View()), Crear(id, usuario, access, refresh, vida), t, fin).0
      ensures filas == old(filas)[id := Fila(usuario, access, refresh, true, t + vida)]
      ensures fin.Surte() && vida > 0 ==> cache == old(cache)[id := Guardado(Copia(usuario, access, refresh, t + vida), t + vida)]
      ensures !fin.Surte() || vida <= 0 ==> cache == old(cache)
    {
      filas := filas[id := Fila(usuario, access, refresh, true, t + vida)];
      usados := usados + {access};
      ReplicarSesion(id, t, fin);
    }

    /** RotarJtiAccess, the port's atomic update. */
    method RotarAccess(id: SesionId, refresh: Jti, nuevo: Jti, t: int) returns (rotada: bool)
      modifies `filas, `usados
      ensures rotada <==> id in old(filas) && Vale(old(filas)[id], t) && old(filas)[id].refresh == refresh
      ensures if rotada then filas == old(filas)[id := old(filas)[id].(access := nuevo)] && usados == old(usados) + {nuevo}
        else filas == old(filas) && usados == old(usados)
    {
      rotada := id in filas && Vale(filas[id], t) && filas[id].refresh == refresh;
      if rotada {
        filas := filas[id := filas[id].(access := nuevo)];
        usados := usados + {nuevo};
      }
    }

    method RefrescarToken(id: SesionId, refresh: Jti, nuevo: Jti, usuarioActivo: bool, t: int, fin: Escritura) returns (r: Respuesta)
      modifies this
      ensures (View(), r) == Paso(old(View()), Refrescar(id, refresh, nuevo, usuarioActivo), t, fin)
      ensures r.Ok? <==> id in old(filas) && old(filas)[id].activa && t < old(filas)[id].expira && old(filas)[id].refresh == refresh && usuarioActivo
      ensures !r.Ok? ==> filas == old(filas) && cache == old(cache)
      ensures r.Ok? ==> filas == old(filas)[id := old(filas)[id].(access := nuevo)]
      ensures r.Ok? && fin.Surte() ==>
        cache == old(cache)[id := Guardado(Copia(filas[id].usuario, nuevo, refresh, filas[id].expira), filas[id].expira)]
      ensures !fin.Surte() ==> cache == old(cache)
    {
      if id !in filas || !filas[id].activa || filas[id].refresh != refresh || t >= filas[id].expira { return Revocada; }
      if !usuarioActivo { return Inactivo; }
      var rotada := RotarAccess(id, refresh, nuevo, t);
      if !rotada { return Revocada; }
      ReplicarSesion(id, t, fin);
      r := Ok;
    }

    /** eliminarSesiones: the two keys of each session are listed in a loop and deleted in one call. */
    method EliminarSesiones(ids: set<SesionId>, fin: Escritura) returns (ok: bool)
      modifies `cache, `heredadas
      ensures View() == (if fin.Surte() then Borrar(old(View()), ids) else old(View())) && (ok <==> fin.Hecha?)
    {
      var claves: seq<Clave> := [];
      var porVer := ids;
      while porVer != {}
        invariant porVer <= ids
        invariant forall id :: DeSesion(id) in claves <==> id in ids - porVer
        invariant forall id :: DeRefresh(id) in claves <==> id in ids - porVer
        decreases porVer
      {
        var id :| id in porVer;
        claves := claves + [DeSesion(id), DeRefresh(id)];
        porVer := porVer - {id};
      }
      if fin.Surte() {
        cache := map id | id in cache && DeSesion(id) !in claves :: cache[id];
        heredadas := set id | id in heredadas && DeRefresh(id) !in claves;
      }
      ok := fin.Hecha?;
    }

    method CerrarSesion(id: SesionId, refresh: Jti, t: int, fin: Escritura) returns (r: Respuesta)
      modifies this
      ensures (View(), r) == Paso(old(View()), Cerrar(id, refresh), t, fin)
      ensures r.Revocada? <==> id !in old(filas) || old(filas)[id].refresh != refresh
      ensures r.Revocada? ==> View() == old(View())
      ensures !r.Revocada? ==> filas == old(filas)[id := old(filas)[id].(activa := false)] && (r.Ok? <==> fin.Hecha?)
      ensures !r.Revocada? && fin.Surte() ==> id !in cache && id !in heredadas
      ensures forall x :: x != id ==> (x in cache <==> x in old(cache)) && (x in cache ==> cache[x] == old(cache)[x])
    {
      if id !in filas || filas[id].refresh != refresh { return Revocada; }
      filas := filas[id := filas[id].(activa := false)];
      var ok := EliminarSesiones({id}, fin);
      r := if ok then Ok else Incompleta;
    }

    /** revocarSesionesDeUsuario (nothing kept) and revocarOtrasSesionesDeUsuario (one kept). */
    method RevocarSesiones(usuario: Usuario, conservada: set<SesionId>, t: int, fin: Escritura) returns (ids: set<SesionId>, r: Respuesta)
      modifies this
      ensures (View(), r) == Paso(old(View()), Revocar(usuario, conservada), t, fin)
      ensures ids == Revocadas(old(View()), usuario, conservada)
      ensures forall id :: id in ids <==> id in old(filas) && old(filas)[id].usuario == usuario && old(filas)[id].activa && id !in conservada
      ensures filas.Keys == old(filas).Keys
      ensures forall id :: id in filas ==> filas[id] == if id in ids then old(filas)[id].(activa := false) else old(filas)[id]
      ensures r.Ok? <==> fin.Hecha?
      ensures fin.Surte() ==> forall id :: id in cache <==> id in old(cache) && id !in ids
      ensures forall id :: id in cache ==> id in old(cache) && cache[id] == old(cache)[id]
    {
      ids := set id | id in filas && filas[id].usuario == usuario && filas[id].activa && id !in conservada;
      filas := map id | id in filas :: if id in ids then filas[id].(activa := false) else filas[id];
      var ok := EliminarSesiones(ids, fin);
      r := if ok then Ok else Incompleta;
    }

    method VerificarSesionAccess(id: SesionId, access: Jti, lee: bool, t: int, fin: Escritura) returns (r: Respuesta)
      modifies this
      ensures (View(), r) == Paso(old(View()), Verificar(id, access, lee), t, fin)
      ensures lee && id in old(cache) && old(cache)[id].Guardado? && t < old(cache)[id].vence ==>
        (r.Ok? <==> old(cache)[id].valor.access == access && t < old(cache)[id].valor.expira)
      ensures !(lee && id in old(cache) && old(cache)[id].Guardado? && t < old(cache)[id].vence) ==>
        (r.Ok? <==> id in filas && filas[id].activa && t < filas[id].expira && filas[id].access == access)
      ensures filas == old(filas) && (r.Ok? || r.Revocada?)
    {
      var copia := En(cache, id);
      if lee && copia.Viva(t) {
        return if copia.valor.access == access && t < copia.valor.expira then Ok else Revocada;
      }
      if id !in filas || !filas[id].activa || filas[id].access != access || t >= filas[id].expira { return Revocada; }
      ReplicarSesion(id, t, fin);
      r := Ok;
    }
  }
}
