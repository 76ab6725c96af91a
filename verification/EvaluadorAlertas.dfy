/**
  The alert evaluator as an object over its store keys (alert_evaluator_worker.go).
  Every key of an active alert is tied to the calls made on it, so the properties
  of `AlertKey` hold of every key in every reachable state; a measured key is tied
  further to the readings of its resource.  A cycle touches each key once, in
  whatever order Go walks its maps, and leaves all other keys alone.
 */
module EvaluadorAlertasClass {
  import opened Wrappers
  import opened KeyStore
  import opened AlertKey
  import opened AlertStreak

  type Vmid = nat

  datatype Clave = Host(metrica: string) | Instancia(vmid: Vmid, metrica: string) | Caida(vmid: Vmid)

  datatype Marcha = Encendida | Detenida | Otro

  // ---------- Instances that go down ----------

  datatype OrdenCaida = Ninguna | Disparar | Resolver

  /** What a cycle does about one VMID, given what it was and what it is. */
  function Decision(antes: Option<Marcha>, ahora: Option<Marcha>, centinela: bool, proxmox: bool): OrdenCaida {
    if ahora == Some(Encendida) then Resolver
    else if antes != Some(Encendida) || centinela then Ninguna
    else if ahora == Some(Detenida) && proxmox then Ninguna
    else Disparar
  }

  /** The calls on the alert key of a VMID after a cycle; identifiers are drawn from `desde` on, up to `hasta`. */
  predicate Cumple(antes: seq<Op>, orden: OrdenCaida, t: int, despues: seq<Op>, desde: nat, hasta: nat) {
    match orden
    case Ninguna => despues == antes
    case Resolver => despues == antes + [Resuelve(t)]
    case Disparar =>
      && |despues| == |antes| + 1 && despues[|antes|].Dispara? && desde <= despues[|antes|].id < hasta
      && despues == antes + [Dispara(despues[|antes|].id, t)]
  }

  function Lee(m: map<Vmid, Marcha>, vmid: Vmid): Option<Marcha> {
    if vmid in m then Some(m[vmid]) else None
  }

  function Hechas(ordenes: map<Clave, seq<Op>>, k: Clave): seq<Op> {
    if k in ordenes then ordenes[k] else []
  }

  /** The key says what the calls made on it say, each with an identifier of its own. */
  ghost predicate AlertaOk(activas: map<Clave, Slot<nat>>, ordenes: map<Clave, seq<Op>>, proximoId: nat, k: Clave) {
    En(activas, k) == Activa(Hechas(ordenes, k)) && DrawnBelow(Hechas(ordenes, k), proximoId)
  }

  lemma OneCallKeepsOk(activas: map<Clave, Slot<nat>>, ordenes: map<Clave, seq<Op>>, proximo: nat, k: Clave, op: Op, proximo': nat)
    requires forall x: Clave :: AlertaOk(activas, ordenes, proximo, x)
    requires proximo <= proximo' && (op.Dispara? ==> proximo <= op.id < proximo')
    ensures var ordenes' := ordenes[k := Hechas(ordenes, k) + [op]];
      var activas' := activas[k := Tras(En(activas, k), op).0];
      forall x: Clave :: AlertaOk(activas', ordenes', proximo', x)
  {
    var ordenes' := ordenes[k := Hechas(ordenes, k) + [op]];
    var activas' := activas[k := Tras(En(activas, k), op).0];
    assert AlertaOk(activas, ordenes, proximo, k);
    Snoc(Hechas(ordenes, k), op);
    hide Activa;
    forall x: Clave ensures AlertaOk(activas', ordenes', proximo', x) {
      assert AlertaOk(activas, ordenes, proximo, x);
      if x == k {
        assert Hechas(ordenes', x) == Hechas(ordenes, k) + [op];
      } else {
        assert Hechas(ordenes', x) == Hechas(ordenes, x) && En(activas', x) == En(activas, x);
      }
    }
  }

  /** The key is there and has not expired. */
  predicate Vigente<V>(m: map<Clave, Slot<V>>, k: Clave, t: int) {
    k in m && m[k].Guardado? && t < m[k].vence
  }

  lemma KeySays(activas: map<Clave, Slot<nat>>, ordenes: map<Clave, seq<Op>>, proximo: nat, k: Clave)
    requires forall x: Clave :: AlertaOk(activas, ordenes, proximo, x)
    ensures En(activas, k) == Activa(Hechas(ordenes, k))
  {
    assert AlertaOk(activas, ordenes, proximo, k);
  }

  /** What counts of the keys is their slots. */
  lemma SameSlots(a: map<Clave, Slot<nat>>, b: map<Clave, Slot<nat>>, ordenes: map<Clave, seq<Op>>, proximo: nat)
    requires (forall k: Clave :: En(a, k) == En(b, k)) && (forall k: Clave :: AlertaOk(a, ordenes, proximo, k))
    ensures forall k: Clave :: AlertaOk(b, ordenes, proximo, k)
  {
    forall k: Clave ensures AlertaOk(b, ordenes, proximo, k) {
      assert AlertaOk(a, ordenes, proximo, k);
    }
  }

  class EvaluadorAlertas {
    var pendientes: map<Clave, Slot<int>>
    var activas: map<Clave, Slot<nat>>
    var anterior: Slot<map<Vmid, Marcha>>
    var turno: Slot<int>
    var proximoId: nat
    ghost var intentos: seq<int>
    ghost var historia: map<Clave, seq<Lectura>>
    ghost var ordenes: map<Clave, seq<Op>>

    ghost predicate Valid()
      reads `activas, `ordenes, `proximoId
    {
      forall k: Clave :: AlertaOk(activas, ordenes, proximoId, k)
    }

    ghost function Lecturas(k: Clave): seq<Lectura>
      reads `historia
    {
      if k in historia then historia[k] else []
    }

    /** The pending counter and the calls on the alert key of a measured resource are what its readings ask for. */
    ghost predicate ClaveOk(c: Config, k: Clave)
      reads `pendientes, `ordenes, `historia
    {
      && En(pendientes, k) == PendienteTras(c, Lecturas(k))
      && Hechas(ordenes, k) == Ordenes(c, Lecturas(k))
    }

    /** The turn key says when the last turn was taken. */
    ghost predicate TurnoOk(intervalo: int)
      reads this
    {
      var tomados := Tomados(intervalo, intentos);
      turno == if tomados == [] then Vacia else Guardado(1, tomados[|tomados| - 1] + Turno(intervalo))
    }

    constructor ()
      ensures Valid() && forall i: int :: TurnoOk(i)
      ensures forall c: Config, k: Clave :: ClaveOk(c, k)
      ensures intentos == [] && activas == map[] && pendientes == map[] && anterior == Vacia
    {
      pendientes, activas, anterior, turno, proximoId := map[], map[], Vacia, Vacia, 0;
      intentos, historia, ordenes := [], map[], map[];
    }

    /** Of every key, measured or down: what the log of its events looks like, and that each resolution names the trigger before it. */
    lemma EventsOfKey(k: Clave)
      requires Valid()
      ensures LogOk(Registro(Hechas(ordenes, k)))
      ensures var r := Registro(Hechas(ordenes, k));
        forall i :: 0 <= i < |r| && r[i].Resuelta? ==> i > 0 && r[i - 1] == Disparada(r[i].id, r[i - 1].t)
      ensures var r := Registro(Hechas(ordenes, k));
        forall i, j :: 0 <= i < j < |r| && r[i].Resuelta? && r[j].Resuelta? ==> r[i].id != r[j].id
    {
      assert AlertaOk(activas, ordenes, proximoId, k);
      var ops := Hechas(ordenes, k);
      EveryLogIsOk(ops);
      forall i | 0 <= i < |Registro(ops)| && Registro(ops)[i].Resuelta?
        ensures i > 0 && Registro(ops)[i - 1].Disparada? && Registro(ops)[i - 1].id == Registro(ops)[i].id
        ensures forall j :: 0 <= j < |Registro(ops)| && j != i && Registro(ops)[j].Resuelta? ==> Registro(ops)[j].id != Registro(ops)[i].id
      {
        ResolutionsMatch(ops, i);
      }
    }

    /** turno: the cycle goes on only for the replica that takes the key. */
    method TomarTurno(intervalo: int, t: int) returns (tomado: bool)
      requires TurnoOk(intervalo)
      modifies `turno, `intentos
      ensures TurnoOk(intervalo) && intentos == old(intentos) + [t]
      ensures Tomados(intervalo, intentos) == Tomados(intervalo, old(intentos)) + if tomado then [t] else []
      ensures tomado <==> old(turno).Vacia? || old(turno).vence <= t
      ensures if tomado then turno.Guardado? && 9 * intervalo <= 10 * (turno.vence - t) < 9 * intervalo + 10 else turno == old(turno)
    {
      tomado := !turno.Viva(t);
      if tomado {
        turno := Guardado(1, t + (intervalo - intervalo / 10));
      }
      intentos := intentos + [t];
      assert intentos[..|intentos| - 1] == old(intentos);
    }

    // ---------- Triggering and resolving ----------

    /** SET NX of the alert key for a day. */
    method PonerSiNoEsta(k: Clave, id: nat, t: int) returns (nueva: bool)
      modifies `activas
      ensures nueva <==> k !in old(activas) || old(activas)[k].Vacia? || old(activas)[k].vence <= t
      ensures activas == if nueva then old(activas)[k := Guardado(id, t + 86_400_000_000_000)] else old(activas)
      ensures En(activas, k) == Tras(En(old(activas), k), Dispara(id, t)).0
    {
      nueva := !En(activas, k).Viva(t);
      if nueva { activas := activas[k := Guardado(id, t + DIA)]; }
    }

    /** GETDEL of the alert key. */
    method SacarSiEsta(k: Clave, t: int) returns (valor: Option<nat>)
      modifies `activas
      ensures valor == if k in old(activas) && old(activas)[k].Guardado? && t < old(activas)[k].vence then Some(old(activas)[k].valor) else None
      ensures activas == if valor.Some? then old(activas)[k := Vacia] else old(activas)
      ensures En(activas, k) == Tras(En(old(activas), k), Resuelve(t)).0
    {
      var activa := En(activas, k);
      valor := if activa.Viva(t) then Some(activa.valor) else None;
      if valor.Some? { activas := activas[k := Vacia]; }
    }

    /** disparar: an alert with a fresh identifier, unless one is active. */
    method DispararAlerta(k: Clave, t: int) returns (nueva: bool)
      requires Valid()
      modifies `activas, `proximoId, `ordenes
      ensures Valid() && proximoId == old(proximoId) + 1
      ensures ordenes == old(ordenes)[k := Hechas(old(ordenes), k) + [Dispara(old(proximoId), t)]]
      ensures Registro(Hechas(ordenes, k)) == Registro(Hechas(old(ordenes), k)) + if nueva then [Disparada(old(proximoId), t)] else []
      ensures nueva <==> k !in old(activas) || old(activas)[k].Vacia? || old(activas)[k].vence <= t
      ensures activas == if nueva then old(activas)[k := Guardado(old(proximoId), t + 86_400_000_000_000)] else old(activas)
    {
      hide AlertaOk, DrawnBelow, Activa, Registro;
      KeySays(activas, ordenes, proximoId, k);
      var id := proximoId;
      ghost var antes := activas;
      OneCallKeepsOk(activas, ordenes, proximoId, k, Dispara(id, t), id + 1);
      Snoc(Hechas(ordenes, k), Dispara(id, t));
      proximoId := proximoId + 1;
      nueva := PonerSiNoEsta(k, id, t);
      ordenes := ordenes[k := Hechas(ordenes, k) + [Dispara(id, t)]];
      SameSlots(antes[k := Tras(En(antes, k), Dispara(id, t)).0], activas, ordenes, proximoId);
    }

    /** resolver: the active alert, if any, is taken out. */
    method ResolverAlerta(k: Clave, t: int) returns (resuelta: Option<nat>)
      requires Valid()
      modifies `activas, `ordenes
      ensures Valid()
      ensures ordenes == old(ordenes)[k := Hechas(old(ordenes), k) + [Resuelve(t)]]
      ensures Registro(Hechas(ordenes, k)) ==
        Registro(Hechas(old(ordenes), k)) + if resuelta.Some? then [Resuelta(resuelta.value, t)] else []
      ensures resuelta == if k in old(activas) && old(activas)[k].Guardado? && t < old(activas)[k].vence then Some(old(activas)[k].valor) else None
      ensures activas == if resuelta.Some? then old(activas)[k := Vacia] else old(activas)
    {
      hide AlertaOk, DrawnBelow, Activa, Registro;
      KeySays(activas, ordenes, proximoId, k);
      ghost var antes := activas;
      OneCallKeepsOk(activas, ordenes, proximoId, k, Resuelve(t), proximoId);
      Snoc(Hechas(ordenes, k), Resuelve(t));
      resuelta := SacarSiEsta(k, t);
      ordenes := ordenes[k := Hechas(ordenes, k) + [Resuelve(t)]];
      SameSlots(antes[k := Tras(En(antes, k), Resuelve(t)).0], activas, ordenes, proximoId);
    }

    // ---------- Saturation ----------

    /** The body of evaluarMedicion: one step of the two keys of the resource. */
    method Medir(c: Config, k: Clave, valor: real, t: int) returns (eventos: seq<Evento>)
      requires Valid()
      modifies `pendientes, `activas, `proximoId, `ordenes
      ensures Valid() && old(proximoId) <= proximoId <= old(proximoId) + 1
      ensures pendientes == old(pendientes)[k := Pendiente(c, En(old(pendientes), k), Lectura(valor, t, old(proximoId)))]
      ensures forall x :: x != k ==> Hechas(ordenes, x) == Hechas(old(ordenes), x)
      ensures Hechas(ordenes, k) == Hechas(old(ordenes), k) + Orden(c, En(old(pendientes), k), Lectura(valor, t, old(proximoId)))
      ensures Registro(Hechas(ordenes, k)) == Registro(Hechas(old(ordenes), k)) + eventos
      ensures valor < c.umbral ==> k in pendientes && pendientes[k] == Vacia
      ensures valor >= c.umbral ==> k in pendientes && pendientes[k].Guardado? && pendientes[k].vence == t + c.ciclos * c.intervalo
      ensures valor >= c.umbral && Vigente(old(pendientes), k, t) ==> pendientes[k].valor == old(pendientes)[k].valor + 1
      ensures valor >= c.umbral && !Vigente(old(pendientes), k, t) ==> pendientes[k].valor == 1
      ensures eventos == [Disparada(old(proximoId), t)] <==>
        valor >= c.umbral && pendientes[k].valor >= c.ciclos && !Vigente(old(activas), k, t)
      ensures (exists id :: eventos == [Resuelta(id, t)]) <==>
        valor < c.umbral && valor < c.recuperacion && Vigente(old(activas), k, t)
      ensures eventos == [] || eventos == [Disparada(old(proximoId), t)] || (Vigente(old(activas), k, t) && eventos == [Resuelta(old(activas)[k].valor, t)])
    {
      hide AlertaOk, DrawnBelow, Activa, Registro;
      var pendiente := En(pendientes, k);
      eventos := [];
      if valor >= c.umbral {
        var ciclos := if pendiente.Viva(t) then pendiente.valor + 1 else 1;
        pendientes := pendientes[k := Guardado(ciclos, t + c.ciclos * c.intervalo)];
        if ciclos < c.ciclos { return; }
        var id := proximoId;
        var nueva := DispararAlerta(k, t);
        if nueva { eventos := [Disparada(id, t)]; }
        return;
      }
      pendientes := pendientes[k := Vacia];
      if valor < c.recuperacion {
        var resuelta := ResolverAlerta(k, t);
        if resuelta.Some? { eventos := [Resuelta(resuelta.value, t)]; }
      }
    }

    /** evaluarMedicion: the keys of the resource follow its readings, and the events are those of the history. */
    method EvaluarMedicion(c: Config, k: Clave, valor: real, t: int) returns (eventos: seq<Evento>)
      requires Valid() && ClaveOk(c, k)
      modifies `pendientes, `activas, `proximoId, `historia, `ordenes
      ensures Valid() && ClaveOk(c, k)
      ensures historia == old(historia)[k := old(Lecturas(k)) + [Lectura(valor, t, old(proximoId))]]
      ensures eventos == Emite(c, old(Lecturas(k)), Lectura(valor, t, old(proximoId)))
      ensures forall x :: x != k ==> En(pendientes, x) == En(old(pendientes), x)
      ensures forall x :: x != k ==> Hechas(ordenes, x) == Hechas(old(ordenes), x)
    {
      hide Pendiente, Orden, Tras, DrawnBelow, Activa;
      ghost var h, l := Lecturas(k), Lectura(valor, t, proximoId);
      assert (h + [l])[..|h|] == h;
      EventsOfLast(c, h, l);
      historia := historia[k := h + [l]];
      eventos := Medir(c, k, valor, t);
      assert Registro(Ordenes(c, h)) + eventos == Registro(Ordenes(c, h)) + Emite(c, h, l);
      SamePrefix(Registro(Ordenes(c, h)), eventos, Emite(c, h, l));
    }

    // ---------- Instances that go down ----------

    /** evaluarCaidas; whether a task explains each instance is given. */
    method EvaluarCaidas(actual: map<Vmid, Marcha>, t: int, centinela: set<Vmid>, proxmox: set<Vmid>)
      requires Valid()
      modifies `activas, `anterior, `proximoId, `ordenes
      ensures Valid() && anterior == Guardado(actual, t + 86_400_000_000_000) && proximoId >= old(proximoId)
      ensures forall k: Clave :: !k.Caida? ==> Hechas(ordenes, k) == Hechas(old(ordenes), k)
      ensures !old(anterior).Viva(t) ==> activas == old(activas) && ordenes == old(ordenes)
      ensures old(anterior).Viva(t) ==> forall vmid :: Cumple(Hechas(old(ordenes), Caida(vmid)),
          Decision(Lee(old(anterior).valor, vmid), Lee(actual, vmid), vmid in centinela, vmid in proxmox),
          t, Hechas(ordenes, Caida(vmid)), old(proximoId), proximoId)
      ensures old(anterior).Viva(t) ==> forall vmid ::
        && (vmid in actual && actual[vmid] == Encendida ==> UnaMas(old(ordenes), ordenes, Caida(vmid)) && Ultima(ordenes, Caida(vmid)) == Resuelve(t))
        && (Cayo(old(anterior).valor, actual, centinela, proxmox, vmid) ==>
              UnaMas(old(ordenes), ordenes, Caida(vmid)) && Ultima(ordenes, Caida(vmid)).Dispara?
              && Ultima(ordenes, Caida(vmid)).t == t && old(proximoId) <= Ultima(ordenes, Caida(vmid)).id < proximoId)
        && (!(vmid in actual && actual[vmid] == Encendida) && !Cayo(old(anterior).valor, actual, centinela, proxmox, vmid) ==>
              Iguales(old(ordenes), ordenes, Caida(vmid)))
    {
      var habia := anterior.Viva(t);
      var previo := if habia then anterior.valor else map[];
      anterior := Guardado(actual, t + DIA);
      if !habia { return; }
      ghost var antes, desde := ordenes, proximoId;
      RecorrerActuales(previo, actual, t, centinela, proxmox);
      RecorrerPerdidas(previo, actual, t, centinela, proxmox, antes, desde);
      forall vmid
        ensures vmid in actual && actual[vmid] == Encendida ==> UnaMas(antes, ordenes, Caida(vmid)) && Ultima(ordenes, Caida(vmid)) == Resuelve(t)
        ensures Cayo(previo, actual, centinela, proxmox, vmid) ==>
          UnaMas(antes, ordenes, Caida(vmid)) && Ultima(ordenes, Caida(vmid)).Dispara?
          && Ultima(ordenes, Caida(vmid)).t == t && desde <= Ultima(ordenes, Caida(vmid)).id < proximoId
        ensures !(vmid in actual && actual[vmid] == Encendida) && !Cayo(previo, actual, centinela, proxmox, vmid) ==>
          Iguales(antes, ordenes, Caida(vmid))
      {
        WhatACycleDoes(antes, ordenes, previo, actual, t, centinela, proxmox, actual.Keys + previo.Keys, desde, proximoId, vmid);
      }
    }

    /** The first loop: over the instances of the inventory. */
    method RecorrerActuales(previo: map<Vmid, Marcha>, actual: map<Vmid, Marcha>, t: int, centinela: set<Vmid>, proxmox: set<Vmid>)
      requires Valid()
      modifies `activas, `proximoId, `ordenes
      ensures Valid() && proximoId >= old(proximoId)
      ensures Recorrido(old(ordenes), ordenes, previo, actual, t, centinela, proxmox, actual.Keys, old(proximoId), proximoId)
    {
      var porVer := actual.Keys;
      while porVer != {}
        invariant Valid() && porVer <= actual.Keys && proximoId >= old(proximoId)
        invariant Recorrido(old(ordenes), ordenes, previo, actual, t, centinela, proxmox, actual.Keys - porVer, old(proximoId), proximoId)
        decreases porVer
      {
        var vmid :| vmid in porVer;
        ghost var medio, hasta, vistos := ordenes, proximoId, actual.Keys - porVer;
        AtenderActual(previo, actual, t, centinela, proxmox, vmid);
        OneMore(old(ordenes), medio, ordenes, previo, actual, t, centinela, proxmox, vistos, vmid, old(proximoId), hasta, proximoId);
        porVer := porVer - {vmid};
        assert actual.Keys - porVer == vistos + {vmid};
      }
    }

    /** The body of the first loop. */
    method AtenderActual(previo: map<Vmid, Marcha>, actual: map<Vmid, Marcha>, t: int, centinela: set<Vmid>, proxmox: set<Vmid>, vmid: Vmid)
      requires Valid() && vmid in actual
      modifies `activas, `proximoId, `ordenes
      ensures Valid() && proximoId >= old(proximoId)
      ensures forall k :: k != Caida(vmid) ==> Hechas(ordenes, k) == Hechas(old(ordenes), k)
      ensures Cumple(Hechas(old(ordenes), Caida(vmid)), Decision(Lee(previo, vmid), Lee(actual, vmid), vmid in centinela, vmid in proxmox),
                     t, Hechas(ordenes, Caida(vmid)), old(proximoId), proximoId)
    {
      if actual[vmid] == Encendida {
        var _ := ResolverAlerta(Caida(vmid), t);
      } else if vmid in previo && previo[vmid] == Encendida && vmid !in centinela {
        if !(actual[vmid] == Detenida && vmid in proxmox) {
          var _ := DispararAlerta(Caida(vmid), t);
        }
      }
    }

    /** The second loop: over what was there before and is not there now. */
    method RecorrerPerdidas(previo: map<Vmid, Marcha>, actual: map<Vmid, Marcha>, t: int, centinela: set<Vmid>, proxmox: set<Vmid>,
                            ghost antes: map<Clave, seq<Op>>, ghost desde: nat)
      requires Valid() && desde <= proximoId
      requires Recorrido(antes, ordenes, previo, actual, t, centinela, proxmox, actual.Keys, desde, proximoId)
      modifies `activas, `proximoId, `ordenes
      ensures Valid() && proximoId >= old(proximoId)
      ensures Recorrido(antes, ordenes, previo, actual, t, centinela, proxmox, actual.Keys + previo.Keys, desde, proximoId)
    {
      var porVer := previo.Keys;
      ghost var vistos := actual.Keys;
      while porVer != {}
        invariant Valid() && porVer <= previo.Keys && proximoId >= old(proximoId)
        invariant vistos == actual.Keys + (previo.Keys - porVer)
        invariant Recorrido(antes, ordenes, previo, actual, t, centinela, proxmox, vistos, desde, proximoId)
        decreases porVer
      {
        var vmid :| vmid in porVer;
        porVer := porVer - {vmid};
        if vmid in actual {
          assert vistos + {vmid} == vistos;
        } else {
          ghost var medio, hasta := ordenes, proximoId;
          AtenderPerdida(previo, actual, t, centinela, proxmox, vmid);
          OneMore(antes, medio, ordenes, previo, actual, t, centinela, proxmox, vistos, vmid, desde, hasta, proximoId);
        }
        vistos := vistos + {vmid};
      }
    }

    /** The body of the second loop. */
    method AtenderPerdida(previo: map<Vmid, Marcha>, actual: map<Vmid, Marcha>, t: int, centinela: set<Vmid>, ghost proxmox: set<Vmid>, vmid: Vmid)
      requires Valid() && vmid in previo && vmid !in actual
      modifies `activas, `proximoId, `ordenes
      ensures Valid() && proximoId >= old(proximoId)
      ensures forall k :: k != Caida(vmid) ==> Hechas(ordenes, k) == Hechas(old(ordenes), k)
      ensures Cumple(Hechas(old(ordenes), Caida(vmid)), Decision(Lee(previo, vmid), Lee(actual, vmid), vmid in centinela, vmid in proxmox),
                     t, Hechas(ordenes, Caida(vmid)), old(proximoId), proximoId)
    {
      if previo[vmid] == Encendida && vmid !in centinela {
        var _ := DispararAlerta(Caida(vmid), t);
      }
    }
  }

  /** It was on, it is not now, no task of Centinela explains it, and it is not a stop that Proxmox explains. */
  predicate Cayo(previo: map<Vmid, Marcha>, actual: map<Vmid, Marcha>, centinela: set<Vmid>, proxmox: set<Vmid>, vmid: Vmid) {
    && vmid in previo && previo[vmid] == Encendida && (vmid in actual ==> actual[vmid] != Encendida)
    && vmid !in centinela && !(vmid in actual && actual[vmid] == Detenida && vmid in proxmox)
  }

  /** One call more on the key. */
  ghost predicate UnaMas(antes: map<Clave, seq<Op>>, despues: map<Clave, seq<Op>>, k: Clave) {
    k in despues && despues[k] != [] && despues[k][..|despues[k]| - 1] == if k in antes then antes[k] else []
  }

  ghost function Ultima(ordenes: map<Clave, seq<Op>>, k: Clave): Op
    requires k in ordenes && ordenes[k] != []
  {
    ordenes[k][|ordenes[k]| - 1]
  }

  /** The same calls on the key; no entry is no call. */
  ghost predicate Iguales(antes: map<Clave, seq<Op>>, despues: map<Clave, seq<Op>>, k: Clave) {
    (if k in despues then despues[k] else []) == if k in antes then antes[k] else []
  }

  lemma WhatACycleDoes(antes: map<Clave, seq<Op>>, despues: map<Clave, seq<Op>>, previo: map<Vmid, Marcha>, actual: map<Vmid, Marcha>,
                       t: int, centinela: set<Vmid>, proxmox: set<Vmid>, vistos: set<Vmid>, desde: nat, hasta: nat, vmid: Vmid)
    requires Recorrido(antes, despues, previo, actual, t, centinela, proxmox, vistos, desde, hasta) && vistos == actual.Keys + previo.Keys
    ensures vmid in actual && actual[vmid] == Encendida ==> UnaMas(antes, despues, Caida(vmid)) && Ultima(despues, Caida(vmid)) == Resuelve(t)
    ensures Cayo(previo, actual, centinela, proxmox, vmid) ==>
      UnaMas(antes, despues, Caida(vmid)) && Ultima(despues, Caida(vmid)).Dispara?
      && Ultima(despues, Caida(vmid)).t == t && desde <= Ultima(despues, Caida(vmid)).id < hasta
    ensures !(vmid in actual && actual[vmid] == Encendida) && !Cayo(previo, actual, centinela, proxmox, vmid) ==>
      Iguales(antes, despues, Caida(vmid))
  {
    if vmid in vistos {
      assert Cumple(Hechas(antes, Caida(vmid)), Decision(Lee(previo, vmid), Lee(actual, vmid), vmid in centinela, vmid in proxmox),
        t, Hechas(despues, Caida(vmid)), desde, hasta);
    } else {
      assert Hechas(despues, Caida(vmid)) == Hechas(antes, Caida(vmid));
    }
  }

  lemma SamePrefix<T>(a: seq<T>, b: seq<T>, c: seq<T>)
    requires a + b == a + c
    ensures b == c
  {
    assert b == (a + b)[|a|..] && c == (a + c)[|a|..];
  }

  /** The VMIDs `vistos` have been attended; the other keys are as they were. */
  ghost predicate Recorrido(antes: map<Clave, seq<Op>>, despues: map<Clave, seq<Op>>, previo: map<Vmid, Marcha>, actual: map<Vmid, Marcha>,
                            t: int, centinela: set<Vmid>, proxmox: set<Vmid>, vistos: set<Vmid>, desde: nat, hasta: nat) {
    && (forall k: Clave :: !k.Caida? || k.vmid !in vistos ==> Hechas(despues, k) == Hechas(antes, k))
    && (forall vmid :: vmid in vistos ==> Cumple(Hechas(antes, Caida(vmid)),
          Decision(Lee(previo, vmid), Lee(actual, vmid), vmid in centinela, vmid in proxmox), t, Hechas(despues, Caida(vmid)), desde, hasta))
  }

  lemma OneMore(antes: map<Clave, seq<Op>>, medio: map<Clave, seq<Op>>, despues: map<Clave, seq<Op>>,
                previo: map<Vmid, Marcha>, actual: map<Vmid, Marcha>, t: int, centinela: set<Vmid>, proxmox: set<Vmid>,
                vistos: set<Vmid>, vmid: Vmid, desde: nat, hasta: nat, hasta': nat)
    requires Recorrido(antes, medio, previo, actual, t, centinela, proxmox, vistos, desde, hasta) && desde <= hasta <= hasta' && vmid !in vistos
    requires forall k :: k != Caida(vmid) ==> Hechas(despues, k) == Hechas(medio, k)
    requires Cumple(Hechas(medio, Caida(vmid)), Decision(Lee(previo, vmid), Lee(actual, vmid), vmid in centinela, vmid in proxmox),
                    t, Hechas(despues, Caida(vmid)), hasta, hasta')
    ensures Recorrido(antes, despues, previo, actual, t, centinela, proxmox, vistos + {vmid}, desde, hasta')
  {
    forall v | v in vistos + {vmid}
      ensures Cumple(Hechas(antes, Caida(v)), Decision(Lee(previo, v), Lee(actual, v), v in centinela, v in proxmox),
                     t, Hechas(despues, Caida(v)), desde, hasta')
    {
      if v != vmid {
        assert v in vistos && Caida(v) != Caida(vmid);
      } else {
        assert Hechas(medio, Caida(vmid)) == Hechas(antes, Caida(vmid));
      }
    }
  }
}
