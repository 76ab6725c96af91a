/**
  Sessions when operations overlap.  Each one works on the row first and on the
  store later, and others can come in between: a verification that has read an
  active row can write its copy after a logout has deleted it.  A world adds to
  the state of `Sessions` the writes that are on their way, and a clock.
 */
module SessionRaces {
  import opened Wrappers
  import opened KeyStore
  import opened Sessions

  /** A write that is on its way; `rota`: it brings the copy up to a new token. */
  datatype Vuelo =
    | Escribe(id: SesionId, fila: Fila, rota: bool)
    | Borra(ids: set<SesionId>)

  datatype Mundo = Mundo(s: State, vuelos: map<nat, Vuelo>, ahora: int)

  /** An operation that nobody overtakes, or one in two parts: up to its write to the store, and the write. */
  datatype Evento =
    | Entera(op: Op, t: int, fin: Escritura)
    | Empieza(h: nat, op: Op, t: int)
    | Termina(h: nat, t: int, fin: Escritura)

  /** The operation gets as far as its write to the store. */
  predicate Escribira(s: State, op: Op, t: int) {
    match op
    case Crear(_, _, _, _, _) => true
    case Refrescar(_, _, _, _) => Paso(s, op, t, Perdida).1.Ok?
    case Cerrar(_, _) => Paso(s, op, t, Perdida).1.Incompleta?
    case Revocar(_, _) => true
    case Verificar(id, access, lee) => !(lee && En(s.cache, id).Viva(t)) && SegunBase(s, id, access, t)
    case Desalojar(_) => false
  }

  /** What it has still to write: the row as the operation left or found it. */
  function PorEscribir(s: State, op: Op, t: int): Vuelo
    requires Escribira(s, op, t)
  {
    match op
    case Crear(id, usuario, access, refresh, vida) => Escribe(id, Fila(usuario, access, refresh, true, t + vida), false)
    case Refrescar(id, _, nuevo, _) => Escribe(id, s.filas[id].(access := nuevo), true)
    case Cerrar(id, _) => Borra({id})
    case Revocar(usuario, conservada) => Borra(Revocadas(s, usuario, conservada))
    case Verificar(id, _, _) => Escribe(id, s.filas[id], false)
  }

  function Escrita(s: State, v: Vuelo, t: int): State {
    match v
    case Escribe(id, f, _) =>
      if f.expira - t <= 0 then s
      else s.(cache := s.cache[id := Guardado(Copia(f.usuario, f.access, f.refresh, f.expira), t + (f.expira - t))])
    case Borra(ids) => Borrar(s, ids)
  }

  /** The two parts at one instant are the whole operation. */
  lemma PartsAreTheWhole(s: State, op: Op, t: int, fin: Escritura)
    requires Enabled(s, op) && Escribira(s, op, t)
    ensures var s1 := Paso(s, op, t, Perdida).0;
      Paso(s, op, t, fin).0 == if fin.Surte() then Escrita(s1, PorEscribir(s, op, t), t) else s1
  {
  }

  /** Every operation to which the store's answer makes a difference has a write of its own. */
  lemma WhoWrites(s: State, op: Op, t: int)
    requires Enabled(s, op) && !op.Desalojar? && Paso(s, op, t, Hecha).0 != Paso(s, op, t, Perdida).0
    ensures Escribira(s, op, t)
  {
  }

  predicate Puede(m: Mundo, e: Evento) {
    match e
    case Entera(op, t, _) => m.ahora <= t && Enabled(m.s, op)
    case Empieza(h, op, t) => m.ahora <= t && Enabled(m.s, op) && h !in m.vuelos && Escribira(m.s, op, t)
    case Termina(h, t, _) => m.ahora <= t && h in m.vuelos
  }

  function Siguiente(m: Mundo, e: Evento): Mundo
    requires Puede(m, e)
  {
    match e
    case Entera(op, t, fin) => Mundo(Paso(m.s, op, t, fin).0, m.vuelos, t)
    case Empieza(h, op, t) => Mundo(Paso(m.s, op, t, Perdida).0, m.vuelos[h := PorEscribir(m.s, op, t)], t)
    case Termina(h, t, fin) => Mundo(if fin.Surte() then Escrita(m.s, m.vuelos[h], t) else m.s, m.vuelos - {h}, t)
  }

  ghost predicate Corre(m: Mundo, es: seq<Evento>)
    decreases |es|
  {
    es != [] ==> Puede(m, es[0]) && Corre(Siguiente(m, es[0]), es[1..])
  }

  ghost function Final(m: Mundo, es: seq<Evento>): Mundo
    requires Corre(m, es)
    decreases |es|
  {
    if es == [] then m else Final(Siguiente(m, es[0]), es[1..])
  }

  // ---------- When is a token that was replaced or closed dead for good? ----------

  /** The store holds a copy with the token that has not expired. */
  predicate EnStore(m: Mundo, id: SesionId, access: Jti) {
    var c := En(m.s.cache, id);
    c.Viva(m.ahora) && c.valor.access == access && m.ahora < c.valor.expira
  }

  /** Somebody is about to write one. */
  ghost predicate EnVuelo(m: Mundo, id: SesionId, access: Jti) {
    exists h :: h in m.vuelos && Lleva(m.vuelos[h], id, access, m.ahora)
  }

  predicate Lleva(v: Vuelo, id: SesionId, access: Jti, ahora: int) {
    v.Escribe? && v.id == id && v.fila.access == access && ahora < v.fila.expira
  }

  /** From now on no verification accepts the token, whether the store can be read or not. */
  ghost predicate Rechaza(m: Mundo, id: SesionId, access: Jti) {
    forall t, lee :: m.ahora <= t ==> !Acepta(m.s, id, access, t, lee)
  }

  ghost predicate Muerto(m: Mundo, id: SesionId, access: Jti) {
    Perdido(m.s, id, access) && !EnStore(m, id, access) && !EnVuelo(m, id, access)
  }

  lemma StepKeepsLost(m: Mundo, e: Evento, id: SesionId, access: Jti)
    requires Puede(m, e) && Perdido(m.s, id, access)
    ensures Perdido(Siguiente(m, e).s, id, access)
  {
  }

  lemma StepCopiesNot(m: Mundo, e: Evento, id: SesionId, access: Jti)
    requires Puede(m, e) && Muerto(m, id, access)
    ensures !EnStore(Siguiente(m, e), id, access)
  {
    if e.Termina? { assert !Lleva(m.vuelos[e.h], id, access, m.ahora); }
  }

  lemma StepLaunchesNot(m: Mundo, e: Evento, id: SesionId, access: Jti)
    requires Puede(m, e) && Muerto(m, id, access)
    ensures !EnVuelo(Siguiente(m, e), id, access)
  {
    var m1 := Siguiente(m, e);
    forall h | h in m1.vuelos ensures !Lleva(m1.vuelos[h], id, access, m1.ahora) {
      if h in m.vuelos { assert !Lleva(m.vuelos[h], id, access, m.ahora); }
    }
  }

  lemma {:induction false} DeadForGood(m: Mundo, es: seq<Evento>, id: SesionId, access: Jti)
    requires Corre(m, es) && Muerto(m, id, access)
    ensures Rechaza(Final(m, es), id, access)
    decreases |es|
  {
    if es != [] {
      StepKeepsLost(m, es[0], id, access);
      StepCopiesNot(m, es[0], id, access);
      StepLaunchesNot(m, es[0], id, access);
      DeadForGood(Siguiente(m, es[0]), es[1..], id, access);
    }
  }

  /** No run from here, whatever it interleaves and whatever the store does, accepts the token. */
  ghost predicate MuertoParaSiempre(m: Mundo, id: SesionId, access: Jti) {
    forall es :: Corre(m, es) ==> Rechaza(Final(m, es), id, access)
  }

  /** The write that is on its way lands, and the token is accepted again. */
  lemma LandsAndLives(m: Mundo, h: nat, id: SesionId, access: Jti)
    requires h in m.vuelos && Lleva(m.vuelos[h], id, access, m.ahora)
    ensures !MuertoParaSiempre(m, id, access)
  {
    var e := Termina(h, m.ahora, Hecha);
    var m1 := Siguiente(m, e);
    assert [e][1..] == [];
    assert Corre(m, [e]) && Final(m, [e]) == m1;
    assert Acepta(m1.s, id, access, m.ahora, true);
    assert !Rechaza(m1, id, access);
  }

  /**
    A token that was replaced, or whose session was closed, is dead in every later
    run if and only if the store has no copy of it and nobody is about to write one.
   */
  lemma TokenIsDeadIff(m: Mundo, id: SesionId, access: Jti)
    requires Perdido(m.s, id, access)
    ensures MuertoParaSiempre(m, id, access) <==> !EnStore(m, id, access) && !EnVuelo(m, id, access)
  {
    if Muerto(m, id, access) {
      forall es | Corre(m, es) ensures Rechaza(Final(m, es), id, access) {
        DeadForGood(m, es, id, access);
      }
    } else if EnStore(m, id, access) {
      assert Corre(m, []) && Final(m, []) == m;
      assert Acepta(m.s, id, access, m.ahora, true);
    } else {
      var h :| h in m.vuelos && Lleva(m.vuelos[h], id, access, m.ahora);
      LandsAndLives(m, h, id, access);
    }
  }

  /** A logout or revocation whose deletion the store takes ends the session's token for good exactly when no copy of it is on its way. */
  lemma ClosingIsFinalIff(m: Mundo, op: Op, t: int, fin: Escritura, id: SesionId)
    requires Puede(m, Entera(op, t, fin)) && Cierra(m.s, op, id) && fin.Surte() && m.s.filas[id].access in m.s.usados
    ensures var m1, access := Siguiente(m, Entera(op, t, fin)), m.s.filas[id].access;
      MuertoParaSiempre(m1, id, access) <==> !EnVuelo(m1, id, access)
  {
    TokenIsDeadIff(Siguiente(m, Entera(op, t, fin)), id, m.s.filas[id].access);
  }

  /** A refresh whose copy the store takes ends the token before exactly when no copy of that one is on its way. */
  lemma RefreshReplacesIff(m: Mundo, id: SesionId, refresh: Jti, nuevo: Jti, t: int, fin: Escritura)
    requires Puede(m, Entera(Refrescar(id, refresh, nuevo, true), t, fin)) && fin.Surte()
    requires Paso(m.s, Refrescar(id, refresh, nuevo, true), t, fin).1.Ok? && m.s.filas[id].access in m.s.usados
    ensures var m1, access := Siguiente(m, Entera(Refrescar(id, refresh, nuevo, true), t, fin)), m.s.filas[id].access;
      MuertoParaSiempre(m1, id, access) <==> !EnVuelo(m1, id, access)
  {
    TokenIsDeadIff(Siguiente(m, Entera(Refrescar(id, refresh, nuevo, true), t, fin)), id, m.s.filas[id].access);
  }

  // ---------- Runs without crossings ----------

  predicate PorArreglar(v: Vuelo, id: SesionId) {
    match v
    case Escribe(x, _, rota) => x == id && rota
    case Borra(ids) => id in ids
  }

  /** A rotation or a deletion of the session is on its way. */
  ghost predicate Pendida(m: Mundo, id: SesionId) {
    exists h :: h in m.vuelos && PorArreglar(m.vuelos[h], id)
  }

  ghost predicate VueloOk(s: State, v: Vuelo) {
    match v
    case Escribe(id, f, _) => id in s.filas && s.filas[id] == f && f.activa
    case Borra(ids) => forall id :: id in ids ==> id in s.filas && !s.filas[id].activa
  }

  /** The copy is the row's, or has expired, or is about to be brought up to date. */
  ghost predicate CopiaOk(m: Mundo, id: SesionId)
    requires id in m.s.cache
  {
    && m.s.cache[id].Guardado? && id in m.s.filas && m.s.cache[id].vence == m.s.filas[id].expira
    && (Pendida(m, id) || m.s.cache[id].vence <= m.ahora || (m.s.filas[id].activa && CopyOf(m.s.cache[id], m.s.filas[id])))
  }

  ghost predicate Acorde(m: Mundo) {
    && (forall id :: id in m.s.filas ==> m.s.filas[id].access in m.s.usados)
    && (forall h :: h in m.vuelos ==> VueloOk(m.s, m.vuelos[h]))
    && (forall id :: id in m.s.cache ==> CopiaOk(m, id))
  }

  /** In such a state the store answers what the database would, but for sessions with a rotation or deletion on its way. */
  lemma SettledAnswersAgree(m: Mundo, id: SesionId, access: Jti, t: int, lee: bool)
    requires Acorde(m) && !Pendida(m, id) && m.ahora <= t
    ensures Acepta(m.s, id, access, t, lee) <==> SegunBase(m.s, id, access, t)
  {
  }

  /** The operation replaces the token of the session, or closes it. */
  predicate Cambia(s: State, op: Op, t: int, id: SesionId) {
    match op
    case Refrescar(x, _, _, _) => x == id && Paso(s, op, t, Perdida).1.Ok?
    case _ => Cierra(s, op, id)
  }

  /** A row changes while a copy of it is on its way. */
  ghost predicate Cruza(m: Mundo, e: Evento) {
    !e.Termina? && exists h :: h in m.vuelos && m.vuelos[h].Escribe? && Cambia(m.s, e.op, e.t, m.vuelos[h].id)
  }

  /** The store takes the writes that matter. */
  predicate FielEn(m: Mundo, e: Evento) {
    match e
    case Entera(op, _, fin) => Fiel(op, fin)
    case Empieza(_, _, _) => true
    case Termina(h, _, fin) => h in m.vuelos && (m.vuelos[h].Borra? || m.vuelos[h].rota) ==> fin.Surte()
  }

  /** What an operation does to the rows. */
  lemma RowsAfter(s: State, op: Op, t: int, fin: Escritura)
    requires Enabled(s, op)
    ensures var s1 := Paso(s, op, t, fin).0;
      && (forall id :: id in s.filas ==> id in s1.filas && s1.filas[id].expira == s.filas[id].expira)
      && (forall id :: id in s.filas && !Cambia(s, op, t, id) ==> s1.filas[id] == s.filas[id])
      && (forall id :: id in s.filas && Cambia(s, op, t, id) ==> !s1.filas[id].activa || s1.filas[id].access !in s.usados)
      && (forall id :: id in s.filas && !s.filas[id].activa ==> !s1.filas[id].activa)
  {
  }

  /** A flight in the air is no longer right exactly if its row changes. */
  lemma FlightsAfter(m: Mundo, e: Evento)
    requires Acorde(m) && Puede(m, e) && !e.Termina?
    ensures (forall h :: h in m.vuelos ==> VueloOk(Siguiente(m, e).s, m.vuelos[h])) <==> !Cruza(m, e)
  {
    var s1 := Siguiente(m, e).s;
    RowsAfter(m.s, e.op, e.t, if e.Entera? then e.fin else Perdida);
    forall h | h in m.vuelos ensures VueloOk(s1, m.vuelos[h]) <==> !(m.vuelos[h].Escribe? && Cambia(m.s, e.op, e.t, m.vuelos[h].id)) {
      assert VueloOk(m.s, m.vuelos[h]);
    }
  }

  /** One event keeps agreement if and only if no row changes while a copy of it is on its way. */
  lemma NoCrossingIsExact(m: Mundo, e: Evento)
    requires Acorde(m) && Puede(m, e) && FielEn(m, e)
    ensures Acorde(Siguiente(m, e)) <==> !Cruza(m, e)
  {
    match e {
      case Termina(h, t, fin) => Landing(m, h, t, fin);
      case Empieza(h, op, t) => Starting(m, h, op, t);
      case Entera(op, t, fin) => Whole(m, op, t, fin);
    }
  }

  lemma Landing(m: Mundo, h: nat, t: int, fin: Escritura)
    requires Acorde(m) && Puede(m, Termina(h, t, fin)) && FielEn(m, Termina(h, t, fin))
    ensures Acorde(Siguiente(m, Termina(h, t, fin)))
  {
    var m1 := Siguiente(m, Termina(h, t, fin));
    assert VueloOk(m.s, m.vuelos[h]);
    forall id | id in m1.s.cache ensures CopiaOk(m1, id) {
      if id in m.s.cache {
        assert CopiaOk(m, id);
        if Pendida(m, id) { PendingAfterLanding(m, h, t, fin, id); }
      }
    }
  }

  lemma PendingAfterLanding(m: Mundo, h: nat, t: int, fin: Escritura, id: SesionId)
    requires Puede(m, Termina(h, t, fin)) && Pendida(m, id)
    ensures Pendida(Siguiente(m, Termina(h, t, fin)), id) || PorArreglar(m.vuelos[h], id)
  {
    var x :| x in m.vuelos && PorArreglar(m.vuelos[x], id);
    if x != h { assert Siguiente(m, Termina(h, t, fin)).vuelos[x] == m.vuelos[x]; }
  }

  lemma Starting(m: Mundo, h: nat, op: Op, t: int)
    requires Acorde(m) && Puede(m, Empieza(h, op, t))
    ensures Acorde(Siguiente(m, Empieza(h, op, t))) <==> !Cruza(m, Empieza(h, op, t))
  {
    var e := Empieza(h, op, t);
    var m1 := Siguiente(m, e);
    FlightsAfter(m, e);
    RowsAfter(m.s, op, t, Perdida);
    assert VueloOk(m1.s, m1.vuelos[h]);
    assert forall x :: x in m.vuelos ==> m1.vuelos[x] == m.vuelos[x];
    forall id | id in m1.s.cache ensures CopiaOk(m1, id) {
      assert CopiaOk(m, id);
      if Pendida(m, id) || Cambia(m.s, op, t, id) { StillPending(m, e, id); }
    }
  }

  lemma StillPending(m: Mundo, e: Evento, id: SesionId)
    requires Puede(m, e) && e.Empieza? && id in m.s.filas && (Pendida(m, id) || Cambia(m.s, e.op, e.t, id))
    ensures Pendida(Siguiente(m, e), id)
  {
    var m1 := Siguiente(m, e);
    if Pendida(m, id) {
      var x :| x in m.vuelos && PorArreglar(m.vuelos[x], id);
      assert m1.vuelos[x] == m.vuelos[x];
    } else {
      assert m1.vuelos[e.h] == PorEscribir(m.s, e.op, e.t);
    }
  }

  lemma Whole(m: Mundo, op: Op, t: int, fin: Escritura)
    requires Acorde(m) && Puede(m, Entera(op, t, fin)) && Fiel(op, fin)
    ensures Acorde(Siguiente(m, Entera(op, t, fin))) <==> !Cruza(m, Entera(op, t, fin))
  {
    var e := Entera(op, t, fin);
    var m1 := Siguiente(m, e);
    FlightsAfter(m, e);
    forall id | id in m1.s.cache ensures CopiaOk(m1, id) {
      if id in m.s.cache { assert CopiaOk(m, id); }
      assert Pendida(m1, id) <==> Pendida(m, id);
    }
  }

  ghost predicate SinCruces(m: Mundo, es: seq<Evento>)
    requires Corre(m, es)
    decreases |es|
  {
    es != [] ==> FielEn(m, es[0]) && !Cruza(m, es[0]) && SinCruces(Siguiente(m, es[0]), es[1..])
  }

  lemma {:induction false} RunsWithoutCrossings(m: Mundo, es: seq<Evento>)
    requires Acorde(m) && Corre(m, es) && SinCruces(m, es)
    ensures Acorde(Final(m, es))
    decreases |es|
  {
    if es != [] {
      NoCrossingIsExact(m, es[0]);
      RunsWithoutCrossings(Siguiente(m, es[0]), es[1..]);
    }
  }

  /** In every run without crossings the store answers what the database would, whenever no rotation or deletion of the session is on its way. */
  lemma StoreAgreesWithoutCrossings(heredadas: set<SesionId>, es: seq<Evento>, id: SesionId, access: Jti, t: int, lee: bool)
    requires Corre(Mundo(Inicial(heredadas), map[], 0), es) && SinCruces(Mundo(Inicial(heredadas), map[], 0), es)
    ensures var m := Final(Mundo(Inicial(heredadas), map[], 0), es);
      !Pendida(m, id) && m.ahora <= t ==> (Acepta(m.s, id, access, t, lee) <==> SegunBase(m.s, id, access, t))
  {
    var m0 := Mundo(Inicial(heredadas), map[], 0);
    RunsWithoutCrossings(m0, es);
    if !Pendida(Final(m0, es), id) && Final(m0, es).ahora <= t {
      SettledAnswersAgree(Final(m0, es), id, access, t, lee);
    }
  }

  // ---------- A logout that is overtaken ----------

  const CREA: Evento := Entera(Crear(1, 1, 10, 20, 100), 0, Hecha)
  const DESALOJA: Evento := Entera(Desalojar(1), 0, Hecha)
  const LEE: Evento := Empieza(0, Verificar(1, 10, true), 1)
  const CIERRA: Evento := Entera(Cerrar(1, 20), 2, Hecha)
  const COPIA: Evento := Termina(0, 3, Hecha)

  /** The logout is reported as complete, and afterwards the closed session's token is accepted until it expires. */
  lemma OvertakenLogoutIsReachable()
    ensures var m0 := Mundo(Inicial({}), map[], 0);
      && Corre(m0, [CREA, DESALOJA, LEE, CIERRA, COPIA])
      && var m := Final(m0, [CREA, DESALOJA, LEE, CIERRA, COPIA]);
        && 1 in m.s.filas && !m.s.filas[1].activa && forall t :: 3 <= t < 100 ==> Acepta(m.s, 1, 10, t, true)
  {
    var m0 := Mundo(Inicial({}), map[], 0);
    var m1 := Siguiente(m0, CREA);
    var m2 := Siguiente(m1, DESALOJA);
    var m3 := Siguiente(m2, LEE);
    var m4 := Siguiente(m3, CIERRA);
    assert Paso(m3.s, CIERRA.op, 2, Hecha).1 == Ok;
    var m5 := Siguiente(m4, COPIA);
    assert [COPIA][1..] == [] && [CIERRA, COPIA][1..] == [COPIA] && [LEE, CIERRA, COPIA][1..] == [CIERRA, COPIA];
    assert [DESALOJA, LEE, CIERRA, COPIA][1..] == [LEE, CIERRA, COPIA];
    assert [CREA, DESALOJA, LEE, CIERRA, COPIA][1..] == [DESALOJA, LEE, CIERRA, COPIA];
    assert Corre(m5, []) && Final(m5, []) == m5;
    assert Corre(m4, [COPIA]) && Final(m4, [COPIA]) == m5;
    assert Corre(m3, [CIERRA, COPIA]) && Final(m3, [CIERRA, COPIA]) == m5;
    assert Corre(m2, [LEE, CIERRA, COPIA]) && Final(m2, [LEE, CIERRA, COPIA]) == m5;
    assert Corre(m1, [DESALOJA, LEE, CIERRA, COPIA]) && Final(m1, [DESALOJA, LEE, CIERRA, COPIA]) == m5;
  }
}
