/**
  What one copy of a task does between its creation and its closure: the
  classification of the exit status, the decision of consultar, and the
  exponential back-off with its 64-bit arithmetic.  Times are in nanoseconds.
 */
module Tracking {
  import opened Int64

  const SECOND := 1_000_000_000

  // ---------- Exit statuses ----------

  datatype Motivo = SinMotivo | ProxmoxError | Timeout

  /** ResultadoTarea; an empty text is the null of the source. */
  datatype Resultado = Resultado(completada: bool, exitStatus: string, motivo: Motivo, error: string)

  predicate IsSpace(ch: char) {
    var c := ch as int;
    9 <= c <= 13 || c in {0x20, 0x85, 0xA0, 0x1680, 0x2028, 0x2029, 0x202F, 0x205F, 0x3000} || 0x2000 <= c <= 0x200A
  }

  function TrimLeft(s: string): string {
    if s != [] && IsSpace(s[0]) then TrimLeft(s[1..]) else s
  }

  function TrimRight(s: string): string {
    if s != [] && IsSpace(s[|s| - 1]) then TrimRight(s[..|s| - 1]) else s
  }

  function Lower(s: string): string {
    seq(|s|, i requires 0 <= i < |s| => if 'A' <= s[i] <= 'Z' then s[i] + ('a' - 'A') else s[i])
  }

  /** TipoRecursoCreacion: both spellings of the two provisioning actions. */
  predicate EsCreacion(accion: string) {
    Lower(TrimLeft(TrimRight(accion))) in {"crear_vm", "qmcreate", "crear_lxc", "vzcreate"}
  }

  function ClasificarExitStatus(accion: string, exitStatus: string): Resultado {
    if exitStatus == "OK" then Resultado(true, "OK", SinMotivo, "")
    else if !EsCreacion(accion) && "WARNINGS" <= exitStatus then Resultado(true, exitStatus, SinMotivo, "")
    else Resultado(false, exitStatus, ProxmoxError, exitStatus)
  }

  function Vencida(mensaje: string): Resultado {
    Resultado(false, "", Timeout, mensaje)
  }

  /** A creation is completed by "OK" alone; everything else tolerates warnings. */
  lemma CreationNeedsExactOK(accion: string, exitStatus: string)
    ensures EsCreacion(accion) ==> (ClasificarExitStatus(accion, exitStatus).completada <==> exitStatus == "OK")
    ensures !EsCreacion(accion) ==>
      (ClasificarExitStatus(accion, exitStatus).completada <==> exitStatus == "OK" || "WARNINGS" <= exitStatus)
    ensures EsCreacion("QMCREATE ") && EsCreacion("CREAR_LXC") && !EsCreacion("start")
    ensures ClasificarExitStatus(accion, exitStatus).exitStatus == exitStatus
    ensures ClasificarExitStatus(accion, exitStatus).completada <==> ClasificarExitStatus(accion, exitStatus).motivo == SinMotivo
  {
    var a := "QMCREATE ";
    assert TrimRight(a) == TrimRight(a[..8]) && a[..8] == "QMCREATE";
    assert Lower("QMCREATE") == "qmcreate";
    assert Lower("CREAR_LXC") == "crear_lxc";
    assert Lower("start") == "start";
  }

  // ---------- Which actions are creations ----------

  /** The code points of Unicode white space, one by one. */
  predicate Blank(ch: char) {
    ch as int in {0x9, 0xA, 0xB, 0xC, 0xD, 0x20, 0x85, 0xA0, 0x1680, 0x2000, 0x2001, 0x2002, 0x2003, 0x2004, 0x2005,
                  0x2006, 0x2007, 0x2008, 0x2009, 0x200A, 0x2028, 0x2029, 0x202F, 0x205F, 0x3000}
  }

  /** The word, letter by letter in either case. */
  predicate Spells(w: string, lower: string, upper: string)
    requires |lower| == |upper|
  {
    |w| == |lower| && forall k :: 0 <= k < |w| ==> w[k] == lower[k] || w[k] == upper[k]
  }

  /** One of the four names of a creation. */
  ghost predicate IsName(w: string) {
    || Spells(w, "crear_vm", "CREAR_VM") || Spells(w, "qmcreate", "QMCREATE")
    || Spells(w, "crear_lxc", "CREAR_LXC") || Spells(w, "vzcreate", "VZCREATE")
  }

  /** Between blanks, one of the four names of a creation. */
  ghost predicate Creates(accion: string) {
    exists i: nat, j: nat :: i <= j <= |accion| && Framed(accion, i, j) && IsName(accion[i..j])
  }

  ghost predicate Framed(s: string, i: nat, j: nat)
    requires i <= j <= |s|
  {
    (forall k :: 0 <= k < i ==> Blank(s[k])) && (forall k :: j <= k < |s| ==> Blank(s[k]))
  }

  lemma SpaceIsBlank(ch: char)
    ensures IsSpace(ch) <==> Blank(ch)
  {
  }

  /** What is left after both trims, and where it was. */
  lemma {:induction false} RightTrimmed(s: string) returns (j: nat)
    ensures j <= |s| && TrimRight(s) == s[..j] && (j > 0 ==> !Blank(s[j - 1])) && forall k :: j <= k < |s| ==> Blank(s[k])
  {
    hide Blank, IsSpace;
    if s != [] { SpaceIsBlank(s[|s| - 1]); }
    if s != [] && IsSpace(s[|s| - 1]) {
      j := RightTrimmed(s[..|s| - 1]);
      assert s[..|s| - 1][..j] == s[..j];
    } else {
      j := |s|;
      assert s[..j] == s;
    }
  }

  lemma {:induction false} LeftTrimmed(s: string) returns (i: nat)
    ensures i <= |s| && TrimLeft(s) == s[i..] && (i < |s| ==> !Blank(s[i])) && forall k :: 0 <= k < i ==> Blank(s[k])
  {
    hide Blank, IsSpace;
    if s != [] { SpaceIsBlank(s[0]); }
    if s != [] && IsSpace(s[0]) {
      var i' := LeftTrimmed(s[1..]);
      i := i' + 1;
      assert s[1..][i'..] == s[i..];
      assert forall k :: 0 < k < i ==> s[k] == s[1..][k - 1];
    } else {
      i := 0;
      assert s[0..] == s;
    }
  }

  /** A letter and its capital, and the underscore with itself. */
  predicate CasePair(low: char, up: char) {
    ('a' <= low <= 'z' && up as int == low as int - 32) || (low == '_' && up == '_')
  }

  lemma LowerSpells(w: string, lower: string, upper: string)
    requires |lower| == |upper| && forall k :: 0 <= k < |lower| ==> CasePair(lower[k], upper[k])
    ensures Lower(w) == lower <==> Spells(w, lower, upper)
  {
    if Spells(w, lower, upper) {
      assert forall k :: 0 <= k < |w| ==> Lower(w)[k] == lower[k];
    }
    if Lower(w) == lower {
      assert forall k :: 0 <= k < |w| ==> Lower(w)[k] == lower[k];
    }
  }

  lemma NamesSpelled(w: string)
    ensures Lower(w) in {"crear_vm", "qmcreate", "crear_lxc", "vzcreate"} <==> IsName(w)
  {
    LowerSpells(w, "crear_vm", "CREAR_VM");
    LowerSpells(w, "qmcreate", "QMCREATE");
    LowerSpells(w, "crear_lxc", "CREAR_LXC");
    LowerSpells(w, "vzcreate", "VZCREATE");
  }

  lemma LetterIsNotBlank(ch: char, low: char, up: char)
    requires CasePair(low, up) && (ch == low || ch == up)
    ensures !Blank(ch)
  {
  }

  lemma LettersAreNotBlank(w: string, lower: string, upper: string)
    requires |lower| == |upper| > 0 && Spells(w, lower, upper) && forall k :: 0 <= k < |lower| ==> CasePair(lower[k], upper[k])
    ensures !Blank(w[0]) && !Blank(w[|w| - 1])
  {
    hide Blank;
    LetterIsNotBlank(w[0], lower[0], upper[0]);
    LetterIsNotBlank(w[|w| - 1], lower[|w| - 1], upper[|w| - 1]);
  }

  lemma NameIsNotBlank(w: string)
    requires IsName(w)
    ensures w != "" && !Blank(w[0]) && !Blank(w[|w| - 1])
  {
    hide Blank;
    if Spells(w, "crear_vm", "CREAR_VM") {
      LettersAreNotBlank(w, "crear_vm", "CREAR_VM");
    } else if Spells(w, "qmcreate", "QMCREATE") {
      LettersAreNotBlank(w, "qmcreate", "QMCREATE");
    } else if Spells(w, "crear_lxc", "CREAR_LXC") {
      LettersAreNotBlank(w, "crear_lxc", "CREAR_LXC");
    } else {
      LettersAreNotBlank(w, "vzcreate", "VZCREATE");
    }
  }

  /** A framed text that neither begins nor ends with a blank is what is left of the trims. */
  lemma FrameIsUnique(s: string, i: nat, j: nat, i': nat, j': nat)
    requires i < j <= |s| && i' <= j' <= |s| && Framed(s, i, j) && Framed(s, i', j')
    requires !Blank(s[i]) && !Blank(s[j - 1]) && (i' < j' ==> !Blank(s[i']) && !Blank(s[j' - 1]))
    ensures i == i' && j == j'
  {
  }

  lemma Trimmed(s: string) returns (i: nat, j: nat)
    ensures i <= j <= |s| && TrimLeft(TrimRight(s)) == s[i..j] && Framed(s, i, j)
    ensures i < j ==> !Blank(s[i]) && !Blank(s[j - 1])
  {
    hide Blank, TrimLeft, TrimRight;
    j := RightTrimmed(s);
    i := LeftTrimmed(s[..j]);
    assert s[..j][i..] == s[i..j] && forall k :: 0 <= k < j ==> s[..j][k] == s[k];
  }

  lemma NamedIsTrimmed(s: string, i: nat, j: nat, i': nat, j': nat)
    requires i <= j <= |s| && Framed(s, i, j) && (i < j ==> !Blank(s[i]) && !Blank(s[j - 1]))
    requires i' <= j' <= |s| && Framed(s, i', j') && IsName(s[i'..j'])
    ensures i == i' && j == j'
  {
    hide Blank, IsName;
    var w := s[i'..j'];
    NameIsNotBlank(w);
    assert s[i'] == w[0] && s[j' - 1] == w[|w| - 1];
    FrameIsUnique(s, i', j', i, j);
  }

  /** An action is a creation exactly when it spells one of the four names between blanks. */
  lemma CreationIffNamed(accion: string)
    ensures EsCreacion(accion) <==> Creates(accion)
  {
    hide Blank, IsName, Lower, TrimLeft, TrimRight, Framed;
    var i, j := Trimmed(accion);
    NamesSpelled(accion[i..j]);
    if Creates(accion) {
      var i': nat, j': nat :| i' <= j' <= |accion| && Framed(accion, i', j') && IsName(accion[i'..j']);
      NamedIsTrimmed(accion, i, j, i', j');
    }
  }

  // ---------- Back-off ----------

  function Pow2(n: nat): nat {
    if n == 0 then 1 else 2 * Pow2(n - 1)
  }

  /** The wait before the next query: `1 << (fallos - 1)` seconds in 64 bits, capped at five. */
  function Espera(fallos: nat, intervalo: int): int {
    if fallos == 0 then intervalo
    else
      var espera := Wrap64(Wrap64(Pow2(fallos - 1)) * SECOND);
      if espera > 5 * SECOND then 5 * SECOND else espera
  }

  lemma {:induction false} Pow2Monotone(a: nat, b: nat)
    requires a <= b
    ensures Pow2(a) <= Pow2(b)
    decreases b - a
  {
    if a < b {
      Pow2Monotone(a + 1, b);
    }
  }

  lemma {:induction false} Pow2Add(a: nat, b: nat)
    ensures Pow2(a + b) == Pow2(a) * Pow2(b)
  {
    if a > 0 {
      Pow2Add(a - 1, b);
    }
  }

  lemma Pow2Of33()
    ensures Pow2(33) == 8589934592 && Pow2(34) == 17179869184
  {
    assert Pow2(11) == 2048;
    Pow2Add(11, 11);
    Pow2Add(11, 22);
    Pow2Add(1, 33);
  }

  /** Up to 34 failures in a row, the wait is the promised 1, 2, 4, 5, 5, ... seconds. */
  lemma WaitIsCappedPower(fallos: nat, intervalo: int)
    requires 1 <= fallos <= 34
    ensures Espera(fallos, intervalo) == (if Pow2(fallos - 1) < 5 then Pow2(fallos - 1) else 5) * SECOND
  {
    Pow2Monotone(0, fallos - 1);
    Pow2Monotone(fallos - 1, 33);
    Pow2Of33();
    var p := Pow2(fallos - 1);
    assert Wrap64(p) == p;
    assert Wrap64(p * SECOND) == p * SECOND;
  }

  /** The waits one by one, in nanoseconds. */
  lemma FirstWaits(fallos: nat, intervalo: int)
    requires 1 <= fallos <= 34
    ensures Espera(fallos, intervalo)
      == match fallos case 1 => 1_000_000_000 case 2 => 2_000_000_000 case 3 => 4_000_000_000 case _ => 5_000_000_000
  {
    WaitIsCappedPower(fallos, intervalo);
    if fallos > 3 { Pow2Monotone(3, fallos - 1); }
    assert Pow2(1) == 2 && Pow2(2) == 4 && Pow2(3) == 8;
  }

  /** The 35th wait overflows: the timer would fire at once. */
  lemma WaitOverflowsAt35(intervalo: int)
    ensures Espera(35, intervalo) < 0
  {
    Pow2Of33();
  }

  // ---------- One holder's queries ----------

  datatype Respuesta = Terminada(exitStatus: string) | Corriendo | Fallo

  /** Proxmox says that it ended well: with exactly "OK", or with warnings if it was no creation. */
  ghost predicate Good(accion: string, respuesta: Respuesta) {
    respuesta.Terminada? && (respuesta.exitStatus == "OK" || ("WARNINGS" <= respuesta.exitStatus && !Creates(accion)))
  }

  datatype Decision = Cerrar(r: Resultado) | Reprogramar(espera: int)

  class Seguimiento {
    const accion: string
    const fechaCreacion: int
    var intentosFallo: nat

    constructor (accion: string, fechaCreacion: int)
      ensures this.accion == accion && this.fechaCreacion == fechaCreacion && intentosFallo == 0
    {
      this.accion, this.fechaCreacion, intentosFallo := accion, fechaCreacion, 0;
    }

    /** One query: a terminated task is closed with what Proxmox says even past the limit. */
    method Consultar(respuesta: Respuesta, ahora: int, upidTimeout: int, intervalo: int, mensaje: string) returns (d: Decision)
      modifies this
      ensures intentosFallo == NextFailures(old(intentosFallo), respuesta)
      ensures d.Cerrar? <==> respuesta.Terminada? || ahora - fechaCreacion > upidTimeout
      ensures respuesta.Terminada? ==> d == Cerrar(ClasificarExitStatus(accion, respuesta.exitStatus))
      ensures d.Cerrar? && !respuesta.Terminada? ==> d == Cerrar(Vencida(mensaje))
      ensures d.Cerrar? && !respuesta.Terminada? ==>
        !d.r.completada && d.r.motivo == Timeout && d.r.error == mensaje && d.r.exitStatus == ""
      ensures d.Cerrar? && d.r.completada <==> Good(accion, respuesta)
      ensures d.Cerrar? && d.r.completada ==> d.r.exitStatus == respuesta.exitStatus && d.r.motivo == SinMotivo && d.r.error == ""
      ensures respuesta.Terminada? && !d.r.completada ==>
        d.r.exitStatus == respuesta.exitStatus && d.r.motivo == ProxmoxError && d.r.error == respuesta.exitStatus
      ensures d.Reprogramar? ==> d.espera == Espera(intentosFallo, intervalo)
      ensures respuesta.Corriendo? ==> intentosFallo == 0 && (d.Reprogramar? ==> d.espera == intervalo)
      ensures respuesta.Fallo? ==> intentosFallo == old(intentosFallo) + 1
      ensures respuesta.Fallo? && d.Reprogramar? && intentosFallo <= 34 ==>
        d.espera == match intentosFallo case 1 => 1_000_000_000 case 2 => 2_000_000_000 case 3 => 4_000_000_000 case _ => 5_000_000_000
    {
      CreationIffNamed(accion);
      match respuesta {
        case Terminada(exit) => return Cerrar(ClasificarExitStatus(accion, exit));
        case Fallo => intentosFallo := intentosFallo + 1;
        case Corriendo => intentosFallo := 0;
      }
      if ahora - fechaCreacion > upidTimeout {
        return Cerrar(Vencida(mensaje));
      }
      if 1 <= intentosFallo <= 34 { FirstWaits(intentosFallo, intervalo); }
      d := Reprogramar(Espera(intentosFallo, intervalo));
    }

    /** verificarUnaVez: the only query of a task that recovery found expired. */
    method VerificarUnaVez(respuesta: Respuesta, mensaje: string) returns (r: Resultado)
      ensures r.completada <==> Good(accion, respuesta)
      ensures respuesta.Terminada? ==> r.exitStatus == respuesta.exitStatus
      ensures respuesta.Terminada? && !r.completada ==> r.motivo == ProxmoxError && r.error == respuesta.exitStatus
      ensures !respuesta.Terminada? ==> r == Resultado(false, "", Timeout, mensaje)
    {
      CreationIffNamed(accion);
      r := match respuesta
        case Terminada(exit) => ClasificarExitStatus(accion, exit)
        case _ => Vencida(mensaje);
    }
  }

  function NextFailures(fallos: nat, respuesta: Respuesta): nat {
    match respuesta
    case Terminada(_) => fallos
    case Corriendo => 0
    case Fallo => fallos + 1
  }

  /** A query that rescheduled itself: when, counted from the creation, and whether Proxmox failed to answer. */
  datatype Consulta = Consulta(edad: int, fallo: bool)

  /** Failures in a row up to and including query `i`. */
  function Fallos(h: seq<Consulta>, i: nat): nat
    requires i < |h|
  {
    NextFailures(if i == 0 then 0 else Fallos(h, i - 1), if h[i].fallo then Fallo else Corriendo)
  }

  /** A history of one holder that stayed within the limit: a timer never fires early. */
  ghost predicate Possible(h: seq<Consulta>, upidTimeout: int, intervalo: int) {
    && (forall i :: 0 <= i < |h| ==> 0 <= h[i].edad <= upidTimeout)
    && (forall i :: 0 < i < |h| ==> h[i].edad >= h[i - 1].edad + Espera(Fallos(h, i - 1), intervalo))
    && (forall i :: 0 < i < |h| ==> h[i].edad >= h[i - 1].edad)
  }

  // ---------- The waits, as the 64-bit arithmetic gives them ----------

  /** Doubling with wrap-around, from one second. */
  function Doblada(k: nat): int {
    if k == 0 then SECOND else Wrap64(2 * Doblada(k - 1))
  }

  lemma {:induction false} DoublingIsTheProduct(k: nat)
    ensures Doblada(k) == Wrap64(Pow2(k) * SECOND)
  {
    if k > 0 {
      DoublingIsTheProduct(k - 1);
      var p := Pow2(k - 1) * SECOND;
      assert Pow2(k) * SECOND == 2 * p;
      var m := (p + TWO63) / TWO64;
      assert p == Wrap64(p) + m * TWO64;
      WrapsAlike(2 * p, 2 * Wrap64(p), 2 * m);
    }
  }

  /** The wait of the n-th failure is n - 1 doublings of one second in 64 bits, capped at five. */
  lemma WaitIsDoubling(n: nat, intervalo: int)
    requires n >= 1
    ensures Espera(n, intervalo) == Min(Doblada(n - 1), 5 * SECOND)
  {
    var p := Pow2(n - 1);
    DoublingIsTheProduct(n - 1);
    var m := (p + TWO63) / TWO64;
    assert p == Wrap64(p) + m * TWO64;
    assert p * SECOND == Wrap64(p) * SECOND + (m * SECOND) * TWO64;
    WrapsAlike(p * SECOND, Wrap64(p) * SECOND, m * SECOND);
  }

  /** What the clock is held back by the n-th failure; a negative timer fires at once. */
  function Retardo(n: nat): int
    requires n >= 1
  {
    var w := Min(Doblada(n - 1), 5 * SECOND); if w > 0 then w else 0
  }

  lemma {:induction false} LongWaits(k: nat)
    requires 3 <= k <= 33
    ensures Doblada(k) > 5 * SECOND
  {
    WaitIsDoubling(k + 1, 0);
    WaitIsCappedPower(k + 1, 0);
    DoublingIsTheProduct(k);
    Pow2Monotone(k, 33);
    Pow2Monotone(3, k);
    Pow2Of33();
    assert Pow2(3) == 8;
  }

  /** The doublings from the 33rd on: the 34th is the first to wrap, the 55th leaves nothing. */
  function Tabla(k: nat): int {
    match k
    case 33 => 8589934592000000000
    case 34 => -1266874889709551616
    case 35 => -2533749779419103232
    case 36 => -5067499558838206464
    case 37 => 8311744956033138688
    case 38 => -1823254161643274240
    case 39 => -3646508323286548480
    case 40 => -7293016646573096960
    case 41 => 3860710780563357696
    case 42 => 7721421561126715392
    case 43 => -3003900951456120832
    case 44 => -6007801902912241664
    case 45 => 6431140267885068288
    case 46 => -5584463537939415040
    case 47 => 7277816997830721536
    case 48 => -3891110078048108544
    case 49 => -7782220156096217088
    case 50 => 2882303761517117440
    case 51 => 5764607523034234880
    case 52 => -6917529027641081856
    case 53 => 4611686018427387904
    case 54 => -9223372036854775808
    case _ => 0
  }

  lemma WrapsTo(x: int, y: int)
    requires Fits64(y) && (x == y || x == y + TWO64 || x == y - TWO64)
    ensures Wrap64(x) == y
  {
    WrapIsExactIff(y);
    WrapsAlike(x, y, if x == y then 0 else if x == y + TWO64 then 1 else -1);
  }

  lemma {:induction false} DoubledAt(k: nat)
    requires 33 <= k <= 55
    ensures Doblada(k) == Tabla(k)
  {
    if k == 33 {
      ThirtyThird(k);
    } else {
      DoubledAt(k - 1);
      hide Tabla, Wrap64;
      WrapsTo(2 * Tabla(k - 1), Tabla(k));
    }
  }

  lemma ThirtyThird(k: nat)
    requires k == 33
    ensures Doblada(k) == Tabla(k)
  {
    DoublingIsTheProduct(k);
    Pow2Of33();
    hide Doblada;
  }

  lemma {:induction false} ZeroForGood(k: nat)
    requires k >= 55
    ensures Doblada(k) == 0
  {
    if k == 55 { DoubledAt(k); } else { ZeroForGood(k - 1); }
  }

  // ---------- How long failures take ----------

  /** The least age at the n-th failure in a row. */
  function LeastAge(n: nat): int
    requires n > 0
  {
    if n == 1 then 0 else LeastAge(n - 1) + Retardo(n - 1)
  }

  lemma {:induction false} LeastAgeMonotone(a: nat, b: nat)
    requires 0 < a <= b
    ensures 0 <= LeastAge(a) <= LeastAge(b)
    decreases b
  {
    if a < b {
      LeastAgeMonotone(a, b - 1);
    } else if a > 1 {
      LeastAgeMonotone(a - 1, a - 1);
    }
  }

  lemma {:induction false} LeastAgeUpTo35(n: nat)
    requires 4 <= n <= 35
    ensures LeastAge(n) == (5 * n - 13) * SECOND
  {
    if n == 4 {
      assert LeastAge(2) == SECOND && LeastAge(3) == 3 * SECOND;
    } else {
      LeastAgeUpTo35(n - 1);
      LongWaits(n - 2);
    }
  }

  /** The least age at the n-th failure, in seconds, from the 35th on. */
  function Segundos(n: nat): nat {
    match n
    case 35 => 162
    case 36 => 162
    case 37 => 162
    case 38 => 162
    case 39 => 167
    case 40 => 167
    case 41 => 167
    case 42 => 167
    case 43 => 172
    case 44 => 177
    case 45 => 177
    case 46 => 177
    case 47 => 182
    case 48 => 182
    case 49 => 187
    case 50 => 187
    case 51 => 187
    case 52 => 192
    case 53 => 197
    case 54 => 197
    case _ => 202
  }

  lemma {:induction false} LeastAgeFrom35(n: nat)
    requires n >= 35
    ensures LeastAge(n) == Segundos(n) * SECOND
  {
    if n == 35 {
      LeastAgeUpTo35(n);
    } else {
      LeastAgeFrom35(n - 1);
      if n - 2 <= 54 { DoubledAt(n - 2); } else { ZeroForGood(n - 2); }
      SegundosAdd(n);
    }
  }

  lemma SegundosAdd(n: nat)
    requires n > 35
    ensures Segundos(n) == Segundos(n - 1) + if n <= 55 && Tabla(n - 2) > 0 then 5 else 0
    ensures n <= 55 && Tabla(n - 2) > 0 ==> Tabla(n - 2) > 5 * SECOND
  {
  }

  /** Failures take time: the count at a query bounds its age from below, in every history. */
  lemma {:induction false} FailuresTakeTime(h: seq<Consulta>, upidTimeout: int, intervalo: int, i: nat)
    requires Possible(h, upidTimeout, intervalo) && i < |h|
    ensures Fallos(h, i) > 0 ==> h[i].edad >= LeastAge(Fallos(h, i))
  {
    if i > 0 {
      FailuresTakeTime(h, upidTimeout, intervalo, i - 1);
      if Fallos(h, i) > 1 {
        WaitIsDoubling(Fallos(h, i - 1), intervalo);
      }
    }
  }

  /** The history that fails `n` times as fast as the timers allow. */
  function FastFailures(n: nat): (h: seq<Consulta>) {
    seq(n, i requires 0 <= i < n => Consulta(LeastAge(i + 1), true))
  }

  lemma {:induction false} FastFailuresCount(n: nat, i: nat)
    requires i < n
    ensures Fallos(FastFailures(n), i) == i + 1
  {
    if i > 0 {
      FastFailuresCount(n, i - 1);
    }
  }

  lemma FastFailuresSpacing(n: nat, intervalo: int, i: nat)
    requires 0 < i < n
    ensures var h := FastFailures(n); h[i].edad >= h[i - 1].edad + Espera(Fallos(h, i - 1), intervalo) && h[i].edad >= h[i - 1].edad
  {
    FastFailuresCount(n, i - 1);
    WaitIsDoubling(i, intervalo);
    assert LeastAge(i + 1) == LeastAge(i) + Retardo(i);
    hide Espera, Fallos, LeastAge;
  }

  lemma FastFailuresPossible(n: nat, upidTimeout: int, intervalo: int)
    requires n > 0 && upidTimeout >= LeastAge(n)
    ensures Possible(FastFailures(n), upidTimeout, intervalo)
  {
    var h := FastFailures(n);
    forall i | 0 < i < n
      ensures h[i].edad >= h[i - 1].edad + Espera(Fallos(h, i - 1), intervalo) && h[i].edad >= h[i - 1].edad
    {
      FastFailuresSpacing(n, intervalo, i);
    }
    hide Espera, LeastAge;
    forall i | 0 <= i < n
      ensures 0 <= h[i].edad <= upidTimeout
    {
      LeastAgeMonotone(i + 1, n);
    }
  }

  ghost predicate FailsInARow(h: seq<Consulta>, n: nat) {
    exists i :: 0 <= i < |h| && Fallos(h, i) == n
  }

  ghost predicate Fit(n: nat, upidTimeout: int, intervalo: int) {
    exists h :: Possible(h, upidTimeout, intervalo) && FailsInARow(h, n)
  }

  /** `n` failures in a row fit under a limit exactly when the least age of the n-th does. */
  lemma FailuresFitIff(n: nat, upidTimeout: int, intervalo: int)
    requires n > 0
    ensures Fit(n, upidTimeout, intervalo) <==> LeastAge(n) <= upidTimeout
  {
    if LeastAge(n) <= upidTimeout {
      FastFailuresPossible(n, upidTimeout, intervalo);
      FastFailuresCount(n, n - 1);
      assert FailsInARow(FastFailures(n), n);
    }
    forall h | Possible(h, upidTimeout, intervalo) && FailsInARow(h, n) ensures LeastAge(n) <= upidTimeout {
      var i :| 0 <= i < |h| && Fallos(h, i) == n;
      FailuresTakeTime(h, upidTimeout, intervalo, i);
    }
  }

  ghost predicate WaitsInRange(h: seq<Consulta>, intervalo: int) {
    forall i :: 0 <= i < |h| && h[i].fallo ==> SECOND <= Espera(Fallos(h, i), intervalo) <= 5 * SECOND
  }

  lemma AtMost34(h: seq<Consulta>, upidTimeout: int, intervalo: int, i: nat)
    requires Possible(h, upidTimeout, intervalo) && i < |h| && upidTimeout < 162 * SECOND
    ensures Fallos(h, i) <= 34
  {
    var n := Fallos(h, i);
    FailuresTakeTime(h, upidTimeout, intervalo, i);
    if n >= 35 { LeastAgeFrom35(n); }
  }

  lemma OverflowFits(upidTimeout: int, intervalo: int) returns (h: seq<Consulta>)
    requires upidTimeout >= 162 * SECOND
    ensures Possible(h, upidTimeout, intervalo) && !WaitsInRange(h, intervalo)
  {
    var n: nat := 35;
    h := FastFailures(n);
    LeastAgeUpTo35(n);
    FastFailuresPossible(n, upidTimeout, intervalo);
    FastFailuresCount(n, 34);
    WaitOverflowsAt35(intervalo);
    assert h[34].fallo;
  }

  /** The back-off stays within 1 and 5 seconds in every history exactly for limits below 162 seconds. */
  lemma BackoffSafeIff(upidTimeout: int, intervalo: int)
    ensures upidTimeout < 162 * SECOND <==>
      forall h :: Possible(h, upidTimeout, intervalo) ==> WaitsInRange(h, intervalo)
  {
    if upidTimeout < 162 * SECOND {
      forall h: seq<Consulta>, i: nat | Possible(h, upidTimeout, intervalo) && i < |h| && h[i].fallo
        ensures SECOND <= Espera(Fallos(h, i), intervalo) <= 5 * SECOND
      {
        AtMost34(h, upidTimeout, intervalo, i);
        ShortWait(Fallos(h, i), intervalo);
      }
    } else {
      var h := OverflowFits(upidTimeout, intervalo);
    }
  }

  lemma ShortWait(n: nat, intervalo: int)
    requires 1 <= n <= 34
    ensures SECOND <= Espera(n, intervalo) <= 5 * SECOND
  {
    WaitIsCappedPower(n, intervalo);
    Pow2Monotone(0, n - 1);
  }

  /** The default limit of three minutes is on the wrong side: up to 46 failures in a row fit under it. */
  lemma DefaultTimeoutOverflows(intervalo: int)
    ensures exists h :: Possible(h, 180 * SECOND, intervalo) && !WaitsInRange(h, intervalo)
    ensures forall n: nat :: n > 0 ==> (Fit(n, 180 * SECOND, intervalo) <==> n <= 46)
  {
    var h := OverflowFits(180 * SECOND, intervalo);
    forall n: nat | n > 0
      ensures Fit(n, 180 * SECOND, intervalo) <==> n <= 46
    {
      FailuresFitIff(n, 180 * SECOND, intervalo);
      LeastAgeUnder180Iff(n);
    }
  }

  lemma LeastAgeUnder180Iff(n: nat)
    requires n > 0
    ensures LeastAge(n) <= 180 * SECOND <==> n <= 46
  {
    if n >= 35 {
      LeastAgeFrom35(n);
    } else {
      var m: nat := 35;
      LeastAgeMonotone(n, m);
      LeastAgeUpTo35(m);
    }
  }

  // ---------- How many queries ----------

  function Min(a: int, b: int): int {
    if a < b then a else b
  }

  lemma AtMost54(h: seq<Consulta>, upidTimeout: int, intervalo: int, i: nat)
    requires Possible(h, upidTimeout, intervalo) && i < |h| && upidTimeout < 202 * SECOND
    ensures Fallos(h, i) <= 54
  {
    var n := Fallos(h, i);
    FailuresTakeTime(h, upidTimeout, intervalo, i);
    if n >= 55 { LeastAgeFrom35(n); }
  }

  /** The first failure of a streak already waits a second, so 55 queries in a row cost at least one full wait. */
  lemma {:induction false} QueriesAreSpaced(h: seq<Consulta>, upidTimeout: int, intervalo: int, i: nat)
    requires Possible(h, upidTimeout, intervalo) && upidTimeout < 202 * SECOND && intervalo > 0 && i < |h|
    ensures Fallos(h, i) <= 54
    ensures 55 * h[i].edad >= (i - Fallos(h, i) + if Fallos(h, i) >= 2 then 55 else 0) * Min(intervalo, SECOND)
  {
    AtMost54(h, upidTimeout, intervalo, i);
    if i > 0 {
      QueriesAreSpaced(h, upidTimeout, intervalo, i - 1);
      OneMoreQuery(h, upidTimeout, intervalo, i);
    }
  }

  lemma OneMoreQuery(h: seq<Consulta>, upidTimeout: int, intervalo: int, i: nat)
    requires Possible(h, upidTimeout, intervalo) && intervalo > 0 && 0 < i < |h| && Fallos(h, i - 1) <= 54
    requires 55 * h[i - 1].edad >= (i - 1 - Fallos(h, i - 1) + if Fallos(h, i - 1) >= 2 then 55 else 0) * Min(intervalo, SECOND)
    ensures 55 * h[i].edad >= (i - Fallos(h, i) + if Fallos(h, i) >= 2 then 55 else 0) * Min(intervalo, SECOND)
  {
    var m, f, f' := Min(intervalo, SECOND), Fallos(h, i - 1), Fallos(h, i);
    var before, after := i - 1 - f + if f >= 2 then 55 else 0, i - f' + if f' >= 2 then 55 else 0;
    if f <= 1 {
      assert Espera(f, intervalo) >= m by {
        if f == 1 { WaitIsDoubling(1, intervalo); }
      }
      assert after <= before + 55;
      MulMonotone(after, before + 55, m);
      assert (before + 55) * m == before * m + 55 * m;
    } else {
      assert after <= before;
      MulMonotone(after, before, m);
    }
  }

  lemma MulMonotone(a: int, b: int, m: int)
    requires a <= b && m > 0
    ensures a * m <= b * m
  {
    assert b * m == a * m + (b - a) * m;
  }

  /** Below 202 seconds one holder queries boundedly often before it closes the task. */
  lemma TrackingTerminates(h: seq<Consulta>, upidTimeout: int, intervalo: int)
    requires Possible(h, upidTimeout, intervalo) && 0 <= upidTimeout < 202 * SECOND && intervalo > 0
    ensures (|h| - 55) * Min(intervalo, SECOND) <= 55 * upidTimeout
    ensures |h| <= 55 * upidTimeout + 55
  {
    if h != [] {
      var i := |h| - 1;
      QueriesAreSpaced(h, upidTimeout, intervalo, i);
      MulMonotone(|h| - 55, i - Fallos(h, i) + if Fallos(h, i) >= 2 then 55 else 0, Min(intervalo, SECOND));
    } else {
      MulMonotone(-55, 0, Min(intervalo, SECOND));
    }
    if |h| > 55 { MulByPositive(|h| - 55, Min(intervalo, SECOND)); }
  }

  lemma MulByPositive(a: int, m: int)
    requires a >= 0 && m >= 1
    ensures a <= a * m
  {
    MulMonotone(0, a, m);
    assert a * m == a + a * (m - 1);
    assert a * (m - 1) >= 0;
  }

  ghost predicate Bounded(bound: nat, upidTimeout: int, intervalo: int) {
    forall h :: Possible(h, upidTimeout, intervalo) ==> |h| <= bound
  }

  /** The number of queries of one holder is bounded if and only if the limit is under 202 seconds. */
  lemma QueriesBoundedIff(upidTimeout: int, intervalo: int)
    requires upidTimeout >= 0 && intervalo > 0
    ensures upidTimeout < 202 * SECOND <==> exists bound :: Bounded(bound, upidTimeout, intervalo)
  {
    if upidTimeout < 202 * SECOND {
      forall h | Possible(h, upidTimeout, intervalo) ensures |h| <= 55 * upidTimeout + 55 {
        TrackingTerminates(h, upidTimeout, intervalo);
      }
      assert Bounded(55 * upidTimeout + 55, upidTimeout, intervalo);
    } else {
      forall bound: nat ensures !Bounded(bound, upidTimeout, intervalo) {
        LeastAgeFrom35(bound + 56);
        FastFailuresPossible(bound + 56, upidTimeout, intervalo);
        assert |FastFailures(bound + 56)| == bound + 56;
      }
    }
  }
}
