/**
  The object behind the pool: the fields that its mutex and its channel guard,
  and the methods that change them.  Each method is one critical section of
  `TaskPool`, except for the two loops, which are a whole pass without
  interference.
 */
module PoolSeguimientoClass {
  import opened TaskPool

  /** A RUNNING row as ListarEnCurso returns it. */
  datatype Pendiente = Pendiente(id: TaskId, legible: bool, fechaCreacion: int)

  ghost predicate Distinct(filas: seq<Pendiente>) {
    forall i, j :: 0 <= i < j < |filas| ==> filas[i].id != filas[j].id
  }

  /** The rows a reconciling pass wants in the pool, in the order of the list. */
  function Unfollowed(filas: seq<Pendiente>, enCurso: set<TaskId>): seq<TaskId> {
    if filas == [] then []
    else
      var rest := Unfollowed(filas[1..], enCurso);
      if filas[0].legible && filas[0].id !in enCurso then [filas[0].id] + rest else rest
  }

  lemma {:induction false} UnfollowedContents(filas: seq<Pendiente>, enCurso: set<TaskId>, id: TaskId)
    ensures id in Unfollowed(filas, enCurso) <==>
      id !in enCurso && exists i :: 0 <= i < |filas| && filas[i].id == id && filas[i].legible
  {
    if filas != [] {
      UnfollowedContents(filas[1..], enCurso, id);
      if i :| 0 <= i < |filas| && filas[i].id == id && filas[i].legible {
        if i > 0 {
          assert filas[1..][i - 1] == filas[i];
        }
      }
    }
  }

  /** The rows of one age class, in the order of the list. */
  function Resumed(filas: seq<Pendiente>, ahora: int, ventana: int, vencidas: bool): seq<TaskId> {
    if filas == [] then []
    else
      var rest := Resumed(filas[1..], ahora, ventana, vencidas);
      if filas[0].legible && (ahora - filas[0].fechaCreacion > ventana) == vencidas then [filas[0].id] + rest else rest
  }

  lemma {:induction false} ResumedSnoc(filas: seq<Pendiente>, f: Pendiente, ahora: int, ventana: int, vencidas: bool)
    ensures Resumed(filas + [f], ahora, ventana, vencidas) ==
      Resumed(filas, ahora, ventana, vencidas) +
      (if f.legible && (ahora - f.fechaCreacion > ventana) == vencidas then [f.id] else [])
  {
    if filas == [] {
      assert filas + [f] == [f];
    } else {
      ResumedSnoc(filas[1..], f, ahora, ventana, vencidas);
      assert (filas + [f])[1..] == filas[1..] + [f];
    }
  }

  /** The expired class is that of the legible rows older than the window, and the other one that of the rest. */
  lemma {:induction false} AgeDecides(filas: seq<Pendiente>, ahora: int, ventana: int, id: TaskId)
    ensures id in Resumed(filas, ahora, ventana, true) <==>
      exists i :: 0 <= i < |filas| && filas[i].id == id && filas[i].legible && ahora - filas[i].fechaCreacion > ventana
    ensures id in Resumed(filas, ahora, ventana, false) <==>
      exists i :: 0 <= i < |filas| && filas[i].id == id && filas[i].legible && ahora - filas[i].fechaCreacion <= ventana
  {
    if filas != [] {
      var rest := filas[1..];
      AgeDecides(rest, ahora, ventana, id);
      assert forall i :: 0 <= i < |rest| ==> rest[i] == filas[i + 1];
      assert forall i :: 0 < i < |filas| ==> filas[i] == rest[i - 1];
    }
  }

  /** Every legible row is in exactly one of the two classes. */
  lemma {:induction false} AgeClassesPartition(filas: seq<Pendiente>, ahora: int, ventana: int, id: TaskId)
    requires Distinct(filas)
    ensures (id in Resumed(filas, ahora, ventana, true)) && (id in Resumed(filas, ahora, ventana, false)) ==> false
    ensures (id in Resumed(filas, ahora, ventana, true) || id in Resumed(filas, ahora, ventana, false)) <==>
      exists i :: 0 <= i < |filas| && filas[i].id == id && filas[i].legible
  {
    if filas != [] {
      AgeClassesPartition(filas[1..], ahora, ventana, id);
      if i :| 0 <= i < |filas| && filas[i].id == id && filas[i].legible {
        if i > 0 {
          assert filas[1..][i - 1] == filas[i];
        }
      }
      if i :| 0 <= i < |filas[1..]| && filas[1..][i].id == id {
        assert filas[i + 1].id == id;
      }
    }
  }

  /** How many of `wanted` entries a queue takes before it is full. */
  function Fitting(core: Core, buffer: nat, wanted: nat): nat {
    if !core.activo || |core.cola| >= buffer then 0
    else if wanted <= buffer - |core.cola| then wanted else buffer - |core.cola|
  }

  class PoolSeguimiento {
    const buffer: nat
    var activo: bool
    var tareasChan: seq<TaskId>
    var enCurso: set<TaskId>
    var fin: bool // the channel that stops workers and reconciler is closed
    var una: bool // the sync.Once of its closing has run

    ghost predicate Valid() reads this {
      una == fin
    }

    function View(): Core reads this {
      Core(activo, tareasChan, enCurso)
    }

    constructor (buffer: nat)
      ensures this.buffer == (if buffer == 0 then 100 else buffer)
      ensures View() == Core(false, [], {}) && Valid() && !fin
    {
      this.buffer := if buffer == 0 then 100 else buffer;
      activo, tareasChan, enCurso := false, [], {};
      fin, una := false, false;
    }

    method Iniciar()
      modifies this`activo
      ensures View() == old(View()).(activo := true)
    {
      activo := true;
    }

    /** Closing a channel twice would panic. */
    method CerrarFin()
      requires !fin
      modifies this`fin
      ensures fin
    {
      fin := true;
    }

    /** What the cancelled context sets off, however often: no task is let in any more and `fin` is closed, once. */
    method Apagar()
      requires Valid()
      modifies this`activo, this`fin, this`una
      ensures Valid() && fin && View() == old(View()).(activo := false)
    {
      activo := false;
      if !una {
        una := true;
        CerrarFin();
      }
    }

    method Encolar(id: TaskId) returns (ok: bool)
      modifies this`tareasChan, this`enCurso
      ensures View() == Enqueue(old(View()), buffer, id)
      ensures ok <==> old(activo) && |old(tareasChan)| < buffer
      ensures ok ==> tareasChan == old(tareasChan) + [id] && enCurso == old(enCurso) + {id}
      ensures !ok ==> tareasChan == old(tareasChan) && enCurso == old(enCurso) - {id}
    {
      if !activo {
        enCurso := enCurso - {id};
        return false;
      }
      if |tareasChan| < buffer {
        tareasChan := tareasChan + [id];
        enCurso := enCurso + {id};
        return true;
      }
      enCurso := enCurso - {id};
      return false;
    }

    /** A worker's receive from the channel. */
    method Tomar() returns (id: TaskId)
      requires tareasChan != []
      modifies this`tareasChan
      ensures old(View()).cola == [id] + View().cola
      ensures View() == old(View()).(cola := View().cola)
    {
      id := tareasChan[0];
      tareasChan := tareasChan[1..];
    }

    /** What finalizar defers. */
    method Desmarcar(id: TaskId)
      modifies this`enCurso
      ensures View() == Unmark(old(View()), id)
      ensures enCurso == old(enCurso) - {id}
    {
      enCurso := enCurso - {id};
    }

    /**
      A pass queues the unfollowed rows of the list, in order, as far as they
      fit, marks exactly those, and touches nothing else.
     */
    method Reconciliar(pendientes: seq<Pendiente>)
      requires Distinct(pendientes)
      modifies this`tareasChan, this`enCurso
      ensures var wanted := Unfollowed(pendientes, old(enCurso));
        var n := Fitting(old(View()), buffer, |wanted|);
        && n <= |wanted|
        && View() == old(View()).(cola := old(tareasChan) + wanted[..n], enCurso := old(enCurso) + Elems(wanted[..n]))
    {
      ghost var wanted := Unfollowed(pendientes, enCurso);
      ghost var done: nat := 0;
      var i := 0;
      while i < |pendientes|
        invariant 0 <= i <= |pendientes| && done <= |wanted|
        invariant wanted[done..] == Unfollowed(pendientes[i..], old(enCurso))
        invariant done == 0 || old(activo)
        invariant done == 0 || |tareasChan| <= buffer
        invariant forall k :: i <= k < |pendientes| ==> pendientes[k].id !in wanted[..done]
        invariant View() == old(View()).(cola := old(tareasChan) + wanted[..done], enCurso := old(enCurso) + Elems(wanted[..done]))
      {
        var fila := pendientes[i];
        i := i + 1;
        if fila.id in enCurso || !fila.legible {
          continue;
        }
        assert wanted[done] == fila.id && wanted[..done + 1] == wanted[..done] + [fila.id];
        var ok := Encolar(fila.id);
        if !ok {
          assert enCurso == old(enCurso) + Elems(wanted[..done]);
          return;
        }
        done := done + 1;
        assert tareasChan == old(tareasChan) + wanted[..done];
      }
      assert wanted[..done] == wanted;
    }

    /**
      Recovery marks the expired rows for their single query and queues the
      others; the rows that did not fit end up unmarked, for the reconciler.
     */
    method Recuperar(pendientes: seq<Pendiente>, ahora: int, ventana: int) returns (vencidas: seq<TaskId>)
      requires Distinct(pendientes)
      modifies this`tareasChan, this`enCurso
      ensures vencidas == Resumed(pendientes, ahora, ventana, true)
      ensures var again := Resumed(pendientes, ahora, ventana, false);
        var n := Fitting(old(View()), buffer, |again|);
        && n <= |again|
        && View() == old(View()).(cola := old(tareasChan) + again[..n],
             enCurso := old(enCurso) + Elems(vencidas) + Elems(again[..n]) - Elems(again[n..]))
    {
      var reanudadas;
      vencidas, reanudadas := Clasificar(pendientes, ahora, ventana);
      enCurso := enCurso + Elems(vencidas);
      ResumedDistinct(pendientes, ahora, ventana);
      EncolarReanudadas(reanudadas);
    }

    /** The first loop of recuperar: expired rows on one side, rows to resume on the other. */
    method Clasificar(pendientes: seq<Pendiente>, ahora: int, ventana: int) returns (vencidas: seq<TaskId>, reanudadas: seq<TaskId>)
      ensures vencidas == Resumed(pendientes, ahora, ventana, true)
      ensures reanudadas == Resumed(pendientes, ahora, ventana, false)
      ensures forall id :: id in vencidas <==>
        exists i :: 0 <= i < |pendientes| && pendientes[i].id == id && pendientes[i].legible && ahora - pendientes[i].fechaCreacion > ventana
      ensures forall id :: id in reanudadas <==>
        exists i :: 0 <= i < |pendientes| && pendientes[i].id == id && pendientes[i].legible && ahora - pendientes[i].fechaCreacion <= ventana
    {
      vencidas, reanudadas := [], [];
      var i := 0;
      while i < |pendientes|
        invariant 0 <= i <= |pendientes|
        invariant vencidas == Resumed(pendientes[..i], ahora, ventana, true)
        invariant reanudadas == Resumed(pendientes[..i], ahora, ventana, false)
      {
        ResumedSnoc(pendientes[..i], pendientes[i], ahora, ventana, true);
        ResumedSnoc(pendientes[..i], pendientes[i], ahora, ventana, false);
        assert pendientes[..i + 1] == pendientes[..i] + [pendientes[i]];
        var fila := pendientes[i];
        if fila.legible {
          if ahora - fila.fechaCreacion > ventana {
            vencidas := vencidas + [fila.id];
          } else {
            reanudadas := reanudadas + [fila.id];
          }
        }
        i := i + 1;
      }
      assert pendientes[..i] == pendientes;
      forall id
        ensures id in vencidas <==>
          exists i :: 0 <= i < |pendientes| && pendientes[i].id == id && pendientes[i].legible && ahora - pendientes[i].fechaCreacion > ventana
        ensures id in reanudadas <==>
          exists i :: 0 <= i < |pendientes| && pendientes[i].id == id && pendientes[i].legible && ahora - pendientes[i].fechaCreacion <= ventana
      {
        AgeDecides(pendientes, ahora, ventana, id);
      }
    }

    /** The last loop of recuperar: every row is offered, also after the queue has filled up. */
    method EncolarReanudadas(reanudadas: seq<TaskId>)
      requires NoDuplicates(reanudadas)
      modifies this`tareasChan, this`enCurso
      ensures var n := Fitting(old(View()), buffer, |reanudadas|);
        && n <= |reanudadas|
        && View() == old(View()).(cola := old(tareasChan) + reanudadas[..n],
             enCurso := old(enCurso) + Elems(reanudadas[..n]) - Elems(reanudadas[n..]))
    {
      ghost var marked := enCurso;
      ghost var n := Fitting(View(), buffer, |reanudadas|);
      var j := 0;
      while j < |reanudadas|
        invariant 0 <= j <= |reanudadas|
        invariant activo == old(activo)
        invariant tareasChan == old(tareasChan) + reanudadas[..if j < n then j else n]
        invariant enCurso == marked + Elems(reanudadas[..if j < n then j else n]) - (if j <= n then {} else Elems(reanudadas[n..j]))
      {
        var ok := Encolar(reanudadas[j]);
        if j < n {
          assert reanudadas[..j + 1] == reanudadas[..j] + [reanudadas[j]];
        } else {
          assert reanudadas[n..j + 1] == reanudadas[n..j] + [reanudadas[j]];
        }
        j := j + 1;
      }
      assert reanudadas[n..j] == reanudadas[n..];
    }
  }

  lemma {:induction false} ResumedDistinct(filas: seq<Pendiente>, ahora: int, ventana: int)
    requires Distinct(filas)
    ensures NoDuplicates(Resumed(filas, ahora, ventana, false))
  {
    if filas != [] {
      ResumedDistinct(filas[1..], ahora, ventana);
      AgeClassesPartition(filas[1..], ahora, ventana, filas[0].id);
    }
  }
}
