/**
  Four runs from an empty ledger, without outsiders, that end over the whole
  memory of a node of 100.
 */
module CapacityWitnesses {
  import opened Wrappers
  import opened CapacityMath
  import opened Capacity
  import opened CapacityRuns
  import opened CapacitySafety

  const PVE := Node("pve", 100)

  ghost predicate Overcommits(n: Node, s: State, steps: seq<Step>) {
    Runs(n, s, steps) && Exec(n, s, steps).externo == 0 && Total(n, Exec(n, s, steps)) > n.total
  }

  function Pedida(memoria: int): Reserva {
    Reserva(0, 0, "pve", "local", memoria, 0)
  }

  function Una(mem: int): seq<Instancia> {
    [Instancia(1, "pve", mem)]
  }

  lemma Cons(n: Node, s: State, st: Step, rest: seq<Step>)
    requires Enabled(n, s, st) && Runs(n, Apply(n, s, st), rest)
    ensures Runs(n, s, [st] + rest) && Exec(n, s, [st] + rest) == Exec(n, Apply(n, s, st), rest)
  {
    assert ([st] + rest)[1..] == rest;
  }

  lemma Sums(mem: int)
    requires mem >= 0
    ensures Asignada([], "pve") == 0 && Asignada(Una(mem), "pve") == mem
    ensures Headroom(Nodo(100, 0)) == 15 && Reservas([]) == [] && Pendiente([]) == 0
    ensures Margen(Nodo(100, 0), [], [], "pve") == 85 && Margen(Nodo(100, 0), Una(mem), [], "pve") == Max(0, 85 - mem)
  {
    assert Una(mem)[..0] == [];
  }

  lemma OneEntry(e: Entrada)
    ensures Pendiente([e]) == Deuda(e) && Reservas([e]) == [e.r] && [] + [e] == [e]
  {
    assert [e][..0] == [];
  }

  lemma NothingRuns(s: State)
    ensures Runs(PVE, s, []) && Exec(PVE, s, []) == s
  {
  }

  ghost predicate Leads(a: State, st: Step, b: State) {
    Enabled(PVE, a, st) && Apply(PVE, a, st) == b
  }

  // ---------- The unlocked write ----------

  const VACIA := Foto([], 0, 0)
  const BASE := State([], map[], 0, [], None, false, 0, map[0 := VACIA], map[])

  /** The cores-only path reads the empty node; a creation of 85 is admitted, appears, is released; then the path writes. */
  function Tarde(k: nat): State {
    match k
    case 0 => BASE.(sinLock := map[])
    case 1 => BASE
    case 2 => BASE.(cache := Some(VACIA))
    case 3 => BASE.(cache := Some(VACIA), entradas := [Entrada(Pedida(85), 0, false)], enCurso := true)
    case 4 => BASE.(cache := Some(VACIA), entradas := [Entrada(Pedida(85), 1, false)], enCurso := true)
    case 5 => BASE.(entradas := [Entrada(Pedida(85).(vmid := 1), 1, false)])
    case 6 => BASE.(entradas := [Entrada(Pedida(85).(vmid := 1), 1, true)], insts := Una(85), digests := map[1 := 0])
    case 7 => BASE.(insts := Una(85), digests := map[1 := 0])
    case 8 => BASE.(insts := Una(85), digests := map[1 := 0], cache := Some(VACIA), sinLock := map[])
    case _ => BASE.(insts := Una(85), digests := map[1 := 0], cache := Some(VACIA), sinLock := map[],
                    entradas := [Entrada(Pedida(85), 0, false)], enCurso := true)
  }

  lemma LateReading()
    ensures Leads(Tarde(0), LeeSinLock(0), Tarde(1)) && Leads(Tarde(1), Lee, Tarde(2))
    ensures Leads(Tarde(2), Admite(Pedida(85)), Tarde(3))
  {
    Sums(0);
    OneEntry(Entrada(Pedida(85), 0, false));
  }

  lemma LateCreation()
    ensures Leads(Tarde(3), Despacha(0, 1), Tarde(4)) && Leads(Tarde(4), Aceptada(true, true), Tarde(5))
  {
    hide Asignada, Reservada, Pendiente, Reservas, Margen;
  }

  lemma LateRelease()
    ensures Leads(Tarde(5), Aparece(0, 85, 0), Tarde(6)) && Leads(Tarde(6), Libera(0, true), Tarde(7))
  {
    hide Asignada, Reservada, Pendiente, Reservas, Margen;
    assert [] + [Instancia(1, "pve", 85)] == Una(85);
  }

  lemma LateWriting()
    ensures Leads(Tarde(7), EscribeSinLock(0), Tarde(8)) && Leads(Tarde(8), Admite(Pedida(85)), Tarde(9))
  {
    Sums(85);
    OneEntry(Entrada(Pedida(85), 0, false));
    assert map[0 := VACIA] - {0 as nat} == map[];
  }

  lemma LateEnd()
    ensures Total(PVE, Tarde(9)) == 170 && Tarde(9).externo == 0 && Tarde(0) == Inicial(PVE, [], 0)
  {
    Sums(85);
    OneEntry(Entrada(Pedida(85), 0, false));
  }

  function TardeSteps(): seq<Step> {
    [LeeSinLock(0)] + ([Lee] + ([Admite(Pedida(85))] + ([Despacha(0, 1)] + ([Aceptada(true, true)] + ([Aparece(0, 85, 0)]
      + ([Libera(0, true)] + ([EscribeSinLock(0)] + ([Admite(Pedida(85))] + []))))))))
  }

  /** A reading taken without the lock before a creation hides that creation once it is released: the same memory is admitted twice. */
  lemma UnlockedCacheOvercommits()
    ensures Overcommits(PVE, Inicial(PVE, [], 0), TardeSteps())
  {
    hide Apply, Enabled, Runs, Exec, Total, Tarde, Inicial;
    LateReading();
    LateCreation();
    LateRelease();
    LateWriting();
    LateEnd();
    NothingRuns(Tarde(9));
    var t8, t7 := [Admite(Pedida(85))] + [], [EscribeSinLock(0)] + ([Admite(Pedida(85))] + []);
    Cons(PVE, Tarde(8), Admite(Pedida(85)), []);
    Cons(PVE, Tarde(7), EscribeSinLock(0), t8);
    Cons(PVE, Tarde(6), Libera(0, true), t7);
    Cons(PVE, Tarde(5), Aparece(0, 85, 0), [Libera(0, true)] + t7);
    Cons(PVE, Tarde(4), Aceptada(true, true), [Aparece(0, 85, 0)] + ([Libera(0, true)] + t7));
    var t3 := [Despacha(0, 1)] + ([Aceptada(true, true)] + ([Aparece(0, 85, 0)] + ([Libera(0, true)] + t7)));
    Cons(PVE, Tarde(3), Despacha(0, 1), [Aceptada(true, true)] + ([Aparece(0, 85, 0)] + ([Libera(0, true)] + t7)));
    Cons(PVE, Tarde(2), Admite(Pedida(85)), t3);
    Cons(PVE, Tarde(1), Lee, [Admite(Pedida(85))] + t3);
    Cons(PVE, Tarde(0), LeeSinLock(0), [Lee] + ([Admite(Pedida(85))] + t3));
  }

  // ---------- The deletion that fails ----------

  /** The section reads the empty node; a creation of 85 is accepted, appears and is released, and no deletion of the reading works. */
  function Sorda(k: nat): State {
    match k
    case 0 => BASE.(sinLock := map[])
    case 1 => BASE.(sinLock := map[], cache := Some(VACIA))
    case 2 => Sorda(1).(entradas := [Entrada(Pedida(85), 0, false)], enCurso := true)
    case 3 => Sorda(1).(entradas := [Entrada(Pedida(85), 1, false)], enCurso := true)
    case 4 => Sorda(1).(entradas := [Entrada(Pedida(85).(vmid := 1), 1, false)])
    case 5 => Sorda(1).(entradas := [Entrada(Pedida(85).(vmid := 1), 1, true)], insts := Una(85), digests := map[1 := 0])
    case 6 => Sorda(1).(insts := Una(85), digests := map[1 := 0])
    case _ => Sorda(1).(insts := Una(85), digests := map[1 := 0], entradas := [Entrada(Pedida(85), 0, false)], enCurso := true)
  }

  lemma DeafStart()
    ensures Leads(Sorda(0), Lee, Sorda(1)) && Leads(Sorda(1), Admite(Pedida(85)), Sorda(2))
  {
    Sums(0);
    OneEntry(Entrada(Pedida(85), 0, false));
  }

  lemma DeafCreation()
    ensures Leads(Sorda(2), Despacha(0, 1), Sorda(3)) && Leads(Sorda(3), Aceptada(true, false), Sorda(4))
    ensures Leads(Sorda(4), Aparece(0, 85, 0), Sorda(5)) && Leads(Sorda(5), Libera(0, false), Sorda(6))
  {
    hide Asignada, Reservada, Pendiente, Reservas, Margen;
    assert [] + [Instancia(1, "pve", 85)] == Una(85);
  }

  lemma DeafEnd()
    ensures Leads(Sorda(6), Admite(Pedida(85)), Sorda(7))
    ensures Total(PVE, Sorda(7)) == 170 && Sorda(7).externo == 0 && Sorda(0) == Inicial(PVE, [], 0)
  {
    Sums(85);
    OneEntry(Entrada(Pedida(85), 0, false));
  }

  function SordaSteps(): seq<Step> {
    [Lee] + ([Admite(Pedida(85))] + ([Despacha(0, 1)] + ([Aceptada(true, false)] + ([Aparece(0, 85, 0)] + ([Libera(0, false)] + ([Admite(Pedida(85))] + []))))))
  }

  /** No path works without the lock, but the reading outlives the reservation it needed: the same memory is admitted twice. */
  lemma FailedDeletionOvercommits()
    ensures Overcommits(PVE, Inicial(PVE, [], 0), SordaSteps())
  {
    hide Apply, Enabled, Runs, Exec, Total, Sorda, Inicial;
    DeafStart();
    DeafCreation();
    DeafEnd();
    NothingRuns(Sorda(7));
    var t6 := [Admite(Pedida(85))] + [];
    Cons(PVE, Sorda(6), Admite(Pedida(85)), []);
    Cons(PVE, Sorda(5), Libera(0, false), t6);
    Cons(PVE, Sorda(4), Aparece(0, 85, 0), [Libera(0, false)] + t6);
    var t3 := [Aceptada(true, false)] + ([Aparece(0, 85, 0)] + ([Libera(0, false)] + t6));
    Cons(PVE, Sorda(3), Aceptada(true, false), [Aparece(0, 85, 0)] + ([Libera(0, false)] + t6));
    Cons(PVE, Sorda(2), Despacha(0, 1), t3);
    Cons(PVE, Sorda(1), Admite(Pedida(85)), [Despacha(0, 1)] + t3);
    Cons(PVE, Sorda(0), Lee, [Admite(Pedida(85))] + ([Despacha(0, 1)] + t3));
  }

  // ---------- The stale increment ----------

  function Cabo(mem: int, digest: int): State {
    State(Una(mem), map[1 := digest], 0, [], None, false, 0, map[], map[])
  }

  /** Instance 1 is measured at 50, reduced to 20 by somebody, and its digest is read after that; then the target is 110. */
  function Vieja(k: nat): State {
    match k
    case 0 => Cabo(50, 0).(digests := map[])
    case 1 => Cabo(50, 0).(digests := map[], pedidos := map[0 := Pedido(1, 50, None)])
    case 2 => Cabo(20, 7).(pedidos := map[0 := Pedido(1, 50, None)])
    case 3 => Cabo(20, 7).(pedidos := map[0 := Pedido(1, 50, Some(7))])
    case 4 => Cabo(20, 7).(pedidos := map[0 := Pedido(1, 50, Some(7))], cache := Some(Foto(Una(20), 0, 0)))
    case _ => Cabo(110, 8)
  }

  lemma StaleMeasure()
    ensures Leads(Vieja(0), Mide(0, 0), Vieja(1)) && Leads(Vieja(1), Cambia(0, 20, 7), Vieja(2)) && Leads(Vieja(2), LeeDigest(0), Vieja(3))
  {
    assert Una(50)[0 := Instancia(1, "pve", 20)] == Una(20);
  }

  lemma StalePut()
    ensures Leads(Vieja(3), Lee, Vieja(4)) && Leads(Vieja(4), Amplia(0, 0, 110, true, 8, true), Vieja(5))
  {
    Sums(20);
    assert Una(20)[0 := Instancia(1, "pve", 110)] == Una(110);
    assert map[0 := Pedido(1, 50, Some(7))] - {0 as nat} == map[];
  }

  lemma StaleEnd()
    ensures Total(PVE, Vieja(5)) == 110 && Vieja(5).externo == 0 && Vieja(0) == Inicial(PVE, Una(50), 0)
  {
    Sums(110);
    Sums(50);
  }

  function ViejaSteps(): seq<Step> {
    [Mide(0, 0)] + ([Cambia(0, 20, 7)] + ([LeeDigest(0)] + ([Lee] + ([Amplia(0, 0, 110, true, 8, true)] + []))))
  }

  /** The digest does not protect an increment measured before it was read. */
  lemma StaleIncrementOvercommits()
    ensures Overcommits(PVE, Inicial(PVE, Una(50), 0), ViejaSteps())
  {
    hide Apply, Enabled, Runs, Exec, Total, Vieja, Inicial;
    StaleMeasure();
    StalePut();
    StaleEnd();
    NothingRuns(Vieja(5));
    Cons(PVE, Vieja(4), Amplia(0, 0, 110, true, 8, true), []);
    Cons(PVE, Vieja(3), Lee, [Amplia(0, 0, 110, true, 8, true)] + []);
    Cons(PVE, Vieja(2), LeeDigest(0), [Lee] + ([Amplia(0, 0, 110, true, 8, true)] + []));
    Cons(PVE, Vieja(1), Cambia(0, 20, 7), [LeeDigest(0)] + ([Lee] + ([Amplia(0, 0, 110, true, 8, true)] + [])));
    Cons(PVE, Vieja(0), Mide(0, 0), [Cambia(0, 20, 7)] + ([LeeDigest(0)] + ([Lee] + ([Amplia(0, 0, 110, true, 8, true)] + []))));
  }

  // ---------- The stale reduction ----------

  /** Instance 1 is measured at 85 and reduced to 20; a creation of 65 is admitted in between; then the target is 85, which is no increment. */
  function Directa(k: nat): State {
    match k
    case 0 => Cabo(85, 0).(digests := map[])
    case 1 => Cabo(85, 0).(digests := map[], pedidos := map[0 := Pedido(1, 85, None)])
    case 2 => Cabo(20, 7).(pedidos := map[0 := Pedido(1, 85, None)])
    case 3 => Cabo(20, 7).(pedidos := map[0 := Pedido(1, 85, Some(7))])
    case 4 => Cabo(20, 7).(pedidos := map[0 := Pedido(1, 85, Some(7))], cache := Some(Foto(Una(20), 0, 0)))
    case 5 => Cabo(20, 7).(pedidos := map[0 := Pedido(1, 85, Some(7))], cache := Some(Foto(Una(20), 0, 0)),
                           entradas := [Entrada(Pedida(65), 0, false)], enCurso := true)
    case _ => Cabo(85, 8).(cache := Some(Foto(Una(20), 0, 0)), entradas := [Entrada(Pedida(65), 0, false)], enCurso := true)
  }

  lemma ReductionMeasured()
    ensures Leads(Directa(0), Mide(0, 0), Directa(1)) && Leads(Directa(1), Cambia(0, 20, 7), Directa(2)) && Leads(Directa(2), LeeDigest(0), Directa(3))
  {
    assert Una(85)[0 := Instancia(1, "pve", 20)] == Una(20);
  }

  lemma ReductionPut()
    ensures Leads(Directa(3), Lee, Directa(4)) && Leads(Directa(4), Admite(Pedida(65)), Directa(5))
    ensures Leads(Directa(5), Directo(0, 0, 85, true, 8), Directa(6))
  {
    Sums(20);
    OneEntry(Entrada(Pedida(65), 0, false));
    assert Una(20)[0 := Instancia(1, "pve", 85)] == Una(85);
    assert map[0 := Pedido(1, 85, Some(7))] - {0 as nat} == map[];
  }

  lemma ReductionEnd()
    ensures Total(PVE, Directa(6)) == 150 && Directa(6).externo == 0 && Directa(0) == Inicial(PVE, Una(85), 0)
  {
    Sums(85);
    OneEntry(Entrada(Pedida(65), 0, false));
  }

  function DirectaSteps(): seq<Step> {
    [Mide(0, 0)] + ([Cambia(0, 20, 7)] + ([LeeDigest(0)] + ([Lee] + ([Admite(Pedida(65))] + ([Directo(0, 0, 85, true, 8)] + [])))))
  }

  /** A target that only looks like no increment is applied without any check. */
  lemma StaleReductionOvercommits()
    ensures Overcommits(PVE, Inicial(PVE, Una(85), 0), DirectaSteps())
  {
    hide Apply, Enabled, Runs, Exec, Total, Directa, Inicial;
    ReductionMeasured();
    ReductionPut();
    ReductionEnd();
    NothingRuns(Directa(6));
    var t5 := [Directo(0, 0, 85, true, 8)] + [];
    Cons(PVE, Directa(5), Directo(0, 0, 85, true, 8), []);
    Cons(PVE, Directa(4), Admite(Pedida(65)), t5);
    Cons(PVE, Directa(3), Lee, [Admite(Pedida(65))] + t5);
    Cons(PVE, Directa(2), LeeDigest(0), [Lee] + ([Admite(Pedida(65))] + t5));
    Cons(PVE, Directa(1), Cambia(0, 20, 7), [LeeDigest(0)] + ([Lee] + ([Admite(Pedida(65))] + t5)));
    Cons(PVE, Directa(0), Mide(0, 0), [Cambia(0, 20, 7)] + ([LeeDigest(0)] + ([Lee] + ([Admite(Pedida(65))] + t5))));
  }
}
