/**
  One alert key over time (alert_evaluator_worker.go with the contract of
  key_value_store.go): a slot with expiry, the SET NX that triggers, the GETDEL
  that resolves, and what the events it emits look like in any run.
 */
module AlertKey {
  import opened KeyStore

  /** 24 hours, in nanoseconds. */
  const DIA: int := 24 * 3600 * 1_000_000_000

  datatype Evento = Disparada(id: nat, t: int) | Resuelta(id: nat, t: int)

  /** A call of disparar or of resolver; `id` is the identifier drawn for the alert. */
  datatype Op = Dispara(id: nat, t: int) | Resuelve(t: int)

  function Tras(activa: Slot<nat>, op: Op): (Slot<nat>, seq<Evento>) {
    match op
    case Dispara(id, t) => if activa.Viva(t) then (activa, []) else (Guardado(id, t + DIA), [Disparada(id, t)])
    case Resuelve(t) => if activa.Viva(t) then (Vacia, [Resuelta(activa.valor, t)]) else (activa, [])
  }

  function Activa(ops: seq<Op>): Slot<nat> {
    if ops == [] then Vacia else Tras(Activa(ops[..|ops| - 1]), ops[|ops| - 1]).0
  }

  function Registro(ops: seq<Op>): seq<Evento> {
    if ops == [] then []
    else Registro(ops[..|ops| - 1]) + Tras(Activa(ops[..|ops| - 1]), ops[|ops| - 1]).1
  }

  /** The slot says no more and no less than the last event. */
  predicate SlotIsLast(activa: Slot<nat>, registro: seq<Evento>) {
    if registro != [] && registro[|registro| - 1].Disparada? then
      var e := registro[|registro| - 1]; activa == Guardado(e.id, e.t + DIA)
    else activa == Vacia
  }

  /** What may follow what. */
  predicate Follows(antes: Evento, e: Evento) {
    if e.Resuelta? then antes.Disparada? && antes.id == e.id && e.t < antes.t + DIA
    else antes.Resuelta? || e.t >= antes.t + DIA
  }

  ghost predicate LogOk(registro: seq<Evento>) {
    && (registro != [] ==> registro[0].Disparada?)
    && forall i :: 0 < i < |registro| ==> Follows(registro[i - 1], registro[i])
  }

  lemma {:induction false} EveryLogIsOk(ops: seq<Op>)
    ensures SlotIsLast(Activa(ops), Registro(ops)) && LogOk(Registro(ops))
  {
    if ops != [] {
      EveryLogIsOk(ops[..|ops| - 1]);
    }
  }

  /** Between two triggers there is a resolution, or a whole day. */
  lemma {:induction false} TriggersAreApart(ops: seq<Op>, i: nat, j: nat)
    requires i < j < |Registro(ops)| && Registro(ops)[i].Disparada? && Registro(ops)[j].Disparada?
    ensures (exists k :: i < k < j && Registro(ops)[k].Resuelta?) || Registro(ops)[j].t >= Registro(ops)[i].t + DIA
    decreases j
  {
    EveryLogIsOk(ops);
    var r := Registro(ops);
    if forall k :: i < k < j ==> r[k].Disparada? {
      assert Follows(r[j - 1], r[j]);
      if i < j - 1 {
        TriggersAreApart(ops, i, j - 1);
      }
    }
  }

  function Ids(ops: seq<Op>): set<nat> {
    set i | 0 <= i < |ops| && ops[i].Dispara? :: ops[i].id
  }

  ghost predicate FreshIds(ops: seq<Op>) {
    forall i, j :: 0 <= i < j < |ops| && ops[i].Dispara? && ops[j].Dispara? ==> ops[i].id != ops[j].id
  }

  /** Identifiers are drawn in order: all those used are under the next one. */
  ghost predicate DrawnBelow(ops: seq<Op>, proximo: nat) {
    FreshIds(ops) && forall i :: 0 <= i < |ops| && ops[i].Dispara? ==> ops[i].id < proximo
  }

  lemma Snoc(ops: seq<Op>, op: Op)
    ensures Activa(ops + [op]) == Tras(Activa(ops), op).0
    ensures Registro(ops + [op]) == Registro(ops) + Tras(Activa(ops), op).1
  {
    assert (ops + [op])[..|ops|] == ops;
  }

  /** Every trigger of the log was drawn by a call of its own. */
  lemma {:induction false} TriggersAreFresh(ops: seq<Op>)
    requires FreshIds(ops)
    ensures forall i :: 0 <= i < |Registro(ops)| && Registro(ops)[i].Disparada? ==> Registro(ops)[i].id in Ids(ops)
    ensures forall i, j :: 0 <= i < j < |Registro(ops)| && Registro(ops)[i].Disparada? && Registro(ops)[j].Disparada? ==>
      Registro(ops)[i].id != Registro(ops)[j].id
  {
    if ops != [] {
      var init, op := ops[..|ops| - 1], ops[|ops| - 1];
      TriggersAreFresh(init);
      assert forall i :: 0 <= i < |init| ==> ops[i] == init[i];
      assert Ids(init) <= Ids(ops);
      assert op.Dispara? ==> op.id in Ids(ops) && op.id !in Ids(init);
    }
  }

  /** A resolution carries the identifier of the latest trigger, and no identifier is resolved twice. */
  lemma ResolutionsMatch(ops: seq<Op>, i: nat)
    requires FreshIds(ops) && i < |Registro(ops)| && Registro(ops)[i].Resuelta?
    ensures i > 0 && Registro(ops)[i - 1].Disparada? && Registro(ops)[i - 1].id == Registro(ops)[i].id
    ensures forall j :: 0 <= j < |Registro(ops)| && j != i && Registro(ops)[j].Resuelta? ==> Registro(ops)[j].id != Registro(ops)[i].id
  {
    EveryLogIsOk(ops);
    TriggersAreFresh(ops);
    var r := Registro(ops);
    assert Follows(r[i - 1], r[i]);
    forall j | 0 <= j < |r| && j != i && r[j].Resuelta? ensures r[j].id != r[i].id {
      assert Follows(r[j - 1], r[j]);
    }
  }
}
