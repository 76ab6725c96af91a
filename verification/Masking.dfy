/**
  Hiding a VMID in free text and in JSON trees (referencia_instancia_port.go).
  The regular expression \b<vmid>\b is modelled by the engine's left-to-right
  scan; the specification is a substitution on the maximal word runs.
 */
module Masking {
  import opened Positional
  import InstanceRef

  /** What \b calls a word character. */
  predicate IsWord(ch: char) {
    '0' <= ch <= '9' || 'a' <= ch <= 'z' || 'A' <= ch <= 'Z' || ch == '_'
  }

  ghost predicate AllWord(s: string) {
    forall i :: 0 <= i < |s| ==> IsWord(s[i])
  }

  // ---------- The scan of the regular expression engine ----------

  /** The pattern matches at the start of `s`, which follows a word character or not. */
  predicate Matches(s: string, afterWord: bool, pat: string)
    requires pat != ""
  {
    && pat <= s
    && afterWord != IsWord(s[0])
    && IsWord(s[|pat| - 1]) != (|s| > |pat| && IsWord(s[|pat|]))
  }

  function ReplaceAll(s: string, afterWord: bool, pat: string, ref: string): string
    requires pat != ""
  {
    if s == "" then ""
    else if Matches(s, afterWord, pat) then
      ref + ReplaceAll(s[|pat|..], IsWord(s[|pat| - 1]), pat, ref)
    else [s[0]] + ReplaceAll(s[1..], IsWord(s[0]), pat, ref)
  }

  // ---------- Runs ----------

  /** The length of the maximal run of one class at the start of `s`. */
  function Span(s: string): (n: nat)
    requires s != ""
    ensures 0 < n <= |s|
    ensures forall i :: 0 <= i < n ==> IsWord(s[i]) == IsWord(s[0])
    ensures n < |s| ==> IsWord(s[n]) != IsWord(s[0])
  {
    if |s| == 1 || IsWord(s[1]) != IsWord(s[0]) then 1 else 1 + Span(s[1..])
  }

  lemma SpanIsLeast(s: string, n: nat)
    requires s != "" && 0 < n <= |s|
    requires forall i :: 0 <= i < n ==> IsWord(s[i]) == IsWord(s[0])
    requires n < |s| ==> IsWord(s[n]) != IsWord(s[0])
    ensures Span(s) == n
  {
  }

  function Run(s: string): string
    requires s != ""
  {
    s[..Span(s)]
  }

  function Rest(s: string): string
    requires s != ""
  {
    s[Span(s)..]
  }

  /** The text in which each run that equals the pattern is replaced, and each other run is kept. */
  function Substitute(s: string, pat: string, ref: string): string {
    if s == "" then "" else (if Run(s) == pat then ref else Run(s)) + Substitute(Rest(s), pat, ref)
  }

  /** Inside a run, and all along a non-word run, the engine copies. */
  lemma {:induction false} CopiesRest(s: string, afterWord: bool, n: nat, pat: string, ref: string)
    requires pat != "" && AllWord(pat) && n <= |s|
    requires forall i :: 0 <= i < n ==> IsWord(s[i]) == afterWord
    ensures ReplaceAll(s, afterWord, pat, ref) == s[..n] + ReplaceAll(s[n..], afterWord, pat, ref)
  {
    hide IsWord;
    if n == 0 {
      assert s[0..] == s;
    } else {
      CopiesRest(s[1..], afterWord, n - 1, pat, ref);
      assert s[1..][n - 1..] == s[n..];
      assert s[..n] == [s[0]] + s[1..][..n - 1];
    }
  }

  lemma CopiesTail(s: string, n: nat, pat: string, ref: string)
    requires pat != "" && AllWord(pat) && 0 < n <= |s|
    requires forall i :: 0 <= i < n ==> IsWord(s[i]) == IsWord(s[0])
    ensures [s[0]] + ReplaceAll(s[1..], IsWord(s[0]), pat, ref) == s[..n] + ReplaceAll(s[n..], IsWord(s[0]), pat, ref)
  {
    forall i | 0 <= i < n - 1 ensures IsWord(s[1..][i]) == IsWord(s[0]) {
      assert s[1..][i] == s[i + 1];
    }
    CopiesRest(s[1..], IsWord(s[0]), n - 1, pat, ref);
    Associative([s[0]], s[1..][..n - 1], ReplaceAll(s[n..], IsWord(s[0]), pat, ref));
  }

  lemma Associative<T>(a: seq<T>, b: seq<T>, c: seq<T>)
    ensures a + (b + c) == (a + b) + c
  {
  }

  lemma CopiesRun(s: string, afterWord: bool, pat: string, ref: string)
    requires pat != "" && AllWord(pat) && s != "" && (afterWord ==> !IsWord(s[0])) && Run(s) != pat
    ensures ReplaceAll(s, afterWord, pat, ref) == Run(s) + ReplaceAll(Rest(s), IsWord(s[0]), pat, ref)
  {
    CopiesTail(s, Span(s), pat, ref);
  }

  /** The scan replaces the runs that equal the pattern and keeps every other run, in order. */
  lemma {:induction false} ScanIsRunSubstitution(s: string, afterWord: bool, pat: string, ref: string)
    requires pat != "" && AllWord(pat)
    requires s != "" && afterWord ==> !IsWord(s[0])
    ensures ReplaceAll(s, afterWord, pat, ref) == Substitute(s, pat, ref)
  {
    if s != "" {
      ScanIsRunSubstitution(Rest(s), IsWord(s[0]), pat, ref);
      if Run(s) == pat {
        assert s[|pat| - 1] == Run(s)[|pat| - 1];
      } else {
        CopiesRun(s, afterWord, pat, ref);
      }
    }
  }

  // ---------- The word runs of the result ----------

  function WordRuns(s: string): seq<string> {
    if s == "" then [] else (if IsWord(s[0]) then [Run(s)] else []) + WordRuns(Rest(s))
  }

  /** No run crosses the seam between the two texts. */
  predicate Seam(a: string, b: string) {
    a == "" || b == "" || !IsWord(a[|a| - 1]) || !IsWord(b[0])
  }

  lemma SingleRun(s: string)
    requires s != "" && AllWord(s)
    ensures WordRuns(s) == [s]
  {
    SpanIsLeast(s, |s|);
    assert Run(s) == s && Rest(s) == "";
  }

  lemma FirstRunOfConcat(a: string, b: string)
    requires a != "" && (Span(a) < |a| || b == "" || IsWord(b[0]) != IsWord(a[0]))
    ensures a + b != "" && (a + b)[0] == a[0]
    ensures Run(a + b) == Run(a) && Rest(a + b) == Rest(a) + b
  {
    var s, n := a + b, Span(a);
    forall i | 0 <= i < n ensures IsWord(s[i]) == IsWord(s[0]) {
      assert s[i] == a[i];
    }
    if n < |s| {
      assert s[n] == if n < |a| then a[n] else b[0];
    }
    SpanIsLeast(s, n);
    SplitConcat(a, b, n);
  }

  lemma SplitConcat(a: string, b: string, n: nat)
    requires n <= |a|
    ensures (a + b)[..n] == a[..n] && (a + b)[n..] == a[n..] + b
  {
  }

  lemma {:induction false} WordRunsConcat(a: string, b: string)
    requires Seam(a, b)
    ensures WordRuns(a + b) == WordRuns(a) + WordRuns(b)
    decreases |a|
  {
    if a == "" {
      assert a + b == b;
    } else if Span(a) < |a| || IsWord(a[0]) {
      FirstRunOfConcat(a, b);
      WordRunsConcat(Rest(a), b);
      var first := if IsWord(a[0]) then [Run(a)] else [];
      Associative(first, WordRuns(Rest(a)), WordRuns(b));
    } else {
      NonWordPrefix(a, b);
      NonWordPrefix(a, "");
      assert a + "" == a;
    }
  }

  lemma {:induction false} NonWordPrefix(a: string, b: string)
    requires forall i :: 0 <= i < |a| ==> !IsWord(a[i])
    ensures WordRuns(a + b) == WordRuns(b)
    decreases |b|
  {
    var s := a + b;
    if a == "" {
      assert s == b;
    } else if b != "" && !IsWord(b[0]) {
      SpanIsLeast(s, |a| + Span(b));
      assert Rest(s) == Rest(b);
    } else {
      SpanIsLeast(s, |a|);
      assert Rest(s) == b;
    }
  }

  /** What masking does to the list of word runs. */
  function Masked(runs: seq<string>, pat: string, ref: string): seq<string> {
    if runs == [] then []
    else (if runs[0] == pat then WordRuns(ref) else [runs[0]]) + Masked(runs[1..], pat, ref)
  }

  lemma SubstitutedTailStart(s: string, pat: string, ref: string)
    requires pat != "" && AllWord(pat)
    requires s != "" ==> !IsWord(s[0])
    ensures var t := Substitute(s, pat, ref); t == "" || !IsWord(t[0])
  {
    if s != "" {
      assert Run(s)[0] == s[0];
    }
  }

  lemma {:induction false} WordRunsOfSubstitution(s: string, pat: string, ref: string)
    requires pat != "" && AllWord(pat)
    ensures WordRuns(Substitute(s, pat, ref)) == Masked(WordRuns(s), pat, ref)
  {
    if s != "" {
      WordRunsOfSubstitution(Rest(s), pat, ref);
      if IsWord(s[0]) {
        WordRunSubstituted(s, pat, ref);
      } else {
        assert Run(s)[0] == s[0];
        assert Run(s) != pat;
        NonWordPrefix(Run(s), Substitute(Rest(s), pat, ref));
        assert WordRuns(s) == WordRuns(Rest(s));
      }
    }
  }

  lemma WordRunSubstituted(s: string, pat: string, ref: string)
    requires pat != "" && AllWord(pat) && s != "" && IsWord(s[0])
    requires WordRuns(Substitute(Rest(s), pat, ref)) == Masked(WordRuns(Rest(s)), pat, ref)
    ensures WordRuns(Substitute(s, pat, ref)) == Masked(WordRuns(s), pat, ref)
  {
    var head := if Run(s) == pat then ref else Run(s);
    SubstitutedTailStart(Rest(s), pat, ref);
    WordRunsConcat(head, Substitute(Rest(s), pat, ref));
    SingleRun(Run(s));
    assert WordRuns(s)[1..] == WordRuns(Rest(s));
  }

  lemma {:induction false} MaskedMembership(runs: seq<string>, pat: string, ref: string)
    ensures pat in Masked(runs, pat, ref) <==> pat in runs && pat in WordRuns(ref)
  {
    if runs != [] {
      MaskedMembership(runs[1..], pat, ref);
      assert runs == [runs[0]] + runs[1..];
    }
  }

  /** The pattern survives as a whole word exactly if it was there and the replacement brings it back. */
  lemma SurvivesIff(s: string, pat: string, ref: string)
    requires pat != "" && AllWord(pat)
    ensures WordRuns(ReplaceAll(s, false, pat, ref)) == Masked(WordRuns(s), pat, ref)
    ensures pat in WordRuns(ReplaceAll(s, false, pat, ref)) <==> pat in WordRuns(s) && pat in WordRuns(ref)
  {
    ScanIsRunSubstitution(s, false, pat, ref);
    WordRunsOfSubstitution(s, pat, ref);
    MaskedMembership(WordRuns(s), pat, ref);
  }

  lemma {:induction false} AbsentIsUntouched(s: string, pat: string, ref: string)
    requires pat != "" && AllWord(pat) && pat !in WordRuns(s)
    ensures Substitute(s, pat, ref) == s
  {
    if s != "" {
      AbsentIsUntouched(Rest(s), pat, ref);
      assert s == Run(s) + Rest(s);
    }
  }

  // ---------- OcultarVmidEnTexto ----------

  const ANONYMOUS := "[instancia]"

  function Itoa(n: nat): (s: string)
    ensures s != "" && forall i :: 0 <= i < |s| ==> '0' <= s[i] <= '9'
  {
    var ds := Minimal(10, n);
    seq(|ds|, i requires 0 <= i < |ds| => '0' + ds[i] as char)
  }

  function Replacement(ref: string): string {
    if ref == "" then ANONYMOUS else ref
  }

  function OcultarVmidEnTexto(texto: string, vmid: int, ref: string): string {
    if vmid <= 0 || texto == "" then texto else ReplaceAll(texto, false, Itoa(vmid), Replacement(ref))
  }

  /** Every reference the codec produces, and no reference at all. */
  ghost predicate PublicRef(ref: string) {
    ref == "" || InstanceRef.WellFormed(ref)
  }

  lemma AnonymousRuns()
    ensures WordRuns(ANONYMOUS) == ["instancia"]
  {
    Bracketed("instancia");
    assert ANONYMOUS == "[" + ("instancia" + "]");
  }

  lemma Bracketed(word: string)
    requires word != "" && AllWord(word)
    ensures WordRuns("[" + (word + "]")) == [word]
  {
    NonWordPrefix("[", word + "]");
    WordRunsConcat(word, "]");
    SingleRun(word);
    NonWordPrefix("]", "");
    assert "]" + "" == "]";
  }

  lemma PublicRefHidesNumbers(ref: string, n: nat)
    requires PublicRef(ref)
    ensures Itoa(n) !in WordRuns(Replacement(ref))
  {
    if ref == "" {
      AnonymousRuns();
      assert Itoa(n)[0] != "instancia"[0];
    } else {
      assert forall i :: 0 <= i < 5 ==> ref[i] == InstanceRef.PREFIX[i];
      assert AllWord(ref);
      SingleRun(ref);
      assert Itoa(n)[0] != ref[0];
    }
  }

  /**
    With a public reference, no whole word of the result is the VMID, the other
    runs stay as they were and in order, and masking again changes nothing.
   */
  lemma MaskingHides(texto: string, vmid: int, ref: string)
    requires vmid > 0 && PublicRef(ref)
    ensures var r := OcultarVmidEnTexto(texto, vmid, ref);
      && Itoa(vmid) !in WordRuns(r)
      && r == Substitute(texto, Itoa(vmid), Replacement(ref))
      && OcultarVmidEnTexto(r, vmid, ref) == r
  {
    var pat, rep := Itoa(vmid), Replacement(ref);
    PublicRefHidesNumbers(ref, vmid);
    ScanIsRunSubstitution(texto, false, pat, rep);
    SurvivesIff(texto, pat, rep);
    UnrelatedTextUntouched(OcultarVmidEnTexto(texto, vmid, ref), vmid, ref);
  }

  /** A text that does not name the VMID as a whole word is returned as it is. */
  lemma UnrelatedTextUntouched(texto: string, vmid: int, ref: string)
    requires vmid > 0 ==> Itoa(vmid) !in WordRuns(texto)
    ensures OcultarVmidEnTexto(texto, vmid, ref) == texto
  {
    if vmid > 0 {
      ScanIsRunSubstitution(texto, false, Itoa(vmid), Replacement(ref));
      AbsentIsUntouched(texto, Itoa(vmid), Replacement(ref));
    }
  }

  // ---------- Place by place ----------

  /** Digits, capitals, the underscore and small letters, by their codes. */
  predicate LetterOrDigit(ch: char) {
    var c := ch as int; 48 <= c <= 57 || 65 <= c <= 90 || c == 95 || 97 <= c <= 122
  }

  /** The text from `i` to `j` has no letter, digit or underscore next to it. */
  predicate Alone(s: string, i: nat, j: nat)
    requires i <= j <= |s|
  {
    (i == 0 || !LetterOrDigit(s[i - 1])) && (j == |s| || !LetterOrDigit(s[j]))
  }

  predicate StandsAt(s: string, i: nat, word: string) {
    i + |word| <= |s| && s[i..i + |word|] == word && Alone(s, i, i + |word|)
  }

  /** Somewhere in the text the word stands alone. */
  ghost predicate Stands(s: string, word: string) {
    exists i: nat :: StandsAt(s, i, word)
  }

  lemma WordIsLetterOrDigit(ch: char)
    ensures IsWord(ch) <==> LetterOrDigit(ch)
  {
  }

  /** What stands alone is a whole run. */
  lemma AloneIsRun(s: string, pat: string)
    requires pat != "" && AllWord(pat) && Stands(s, pat)
    ensures pat in WordRuns(s)
  {
    hide LetterOrDigit, IsWord;
    var i: nat :| StandsAt(s, i, pat);
    var a, b := s[..i], s[i + |pat|..];
    if a != "" {
      WordIsLetterOrDigit(a[|a| - 1]);
      assert a[|a| - 1] == s[i - 1];
    }
    if b != "" {
      WordIsLetterOrDigit(b[0]);
      assert b[0] == s[i + |pat|];
    }
    assert s == a + (pat + b);
    WordRunsConcat(a, pat + b);
    WordRunsConcat(pat, b);
    SingleRun(pat);
  }

  /** A whole run that is a word stands alone. */
  lemma {:induction false} RunIsAlone(s: string, pat: string) returns (i: nat)
    requires pat in WordRuns(s)
    ensures StandsAt(s, i, pat)
  {
    hide LetterOrDigit, IsWord;
    var n := Span(s);
    if n < |s| { WordIsLetterOrDigit(s[n]); }
    if IsWord(s[0]) && Run(s) == pat {
      i := 0;
    } else {
      var k := RunIsAlone(Rest(s), pat);
      i := n + k;
      FirstOfRun(Rest(s), pat);
      WordIsLetterOrDigit(s[n - 1]);
      Shifted(s, n, k, pat);
    }
  }

  /** A place in what is left after the first run is a place in the text. */
  lemma Shifted(s: string, n: nat, k: nat, pat: string)
    requires 0 < n <= |s| && StandsAt(s[n..], k, pat) && pat != "" && IsWord(pat[0])
    requires n < |s| ==> IsWord(s[n]) != IsWord(s[n - 1])
    ensures StandsAt(s, n + k, pat)
  {
    hide LetterOrDigit, IsWord;
    var rest := s[n..];
    assert rest[k..k + |pat|] == s[n + k..n + k + |pat|];
    assert rest[k] == pat[0];
    WordIsLetterOrDigit(s[n - 1]);
    assert k > 0 ==> rest[k - 1] == s[n + k - 1];
    assert k + |pat| < |rest| ==> rest[k + |pat|] == s[n + k + |pat|];
  }

  lemma {:induction false} FirstOfRun(s: string, pat: string)
    requires pat in WordRuns(s)
    ensures pat != "" && IsWord(pat[0])
  {
    if !(IsWord(s[0]) && Run(s) == pat) { FirstOfRun(Rest(s), pat); }
  }

  lemma StandsIffRun(s: string, pat: string)
    requires pat != "" && AllWord(pat)
    ensures Stands(s, pat) <==> pat in WordRuns(s)
  {
    if Stands(s, pat) { AloneIsRun(s, pat); }
    if pat in WordRuns(s) { var i := RunIsAlone(s, pat); }
  }

  /** Two texts whose touching ends are of different classes are substituted apart. */
  lemma {:induction false} SubstituteConcat(a: string, b: string, pat: string, ref: string)
    requires a == "" || b == "" || IsWord(a[|a| - 1]) != IsWord(b[0])
    ensures Substitute(a + b, pat, ref) == Substitute(a, pat, ref) + Substitute(b, pat, ref)
    decreases |a|
  {
    if a == "" {
      assert a + b == b;
    } else if b == "" {
      assert a + b == a;
    } else {
      assert Span(a) == |a| ==> IsWord(a[|a| - 1]) == IsWord(a[0]);
      FirstRunOfConcat(a, b);
      assert Rest(a) != "" ==> Rest(a)[|Rest(a)| - 1] == a[|a| - 1];
      SubstituteConcat(Rest(a), b, pat, ref);
      Associative(if Run(a) == pat then ref else Run(a), Substitute(Rest(a), pat, ref), Substitute(b, pat, ref));
    }
  }

  lemma SubstituteSelf(pat: string, ref: string)
    requires pat != "" && AllWord(pat)
    ensures Substitute(pat, pat, ref) == ref
  {
    SpanIsLeast(pat, |pat|);
    assert Substitute("", pat, ref) == "" && Run(pat) == pat && Rest(pat) == "";
    assert ref + "" == ref;
  }

  /**
    OcultarVmidEnTexto, place by place.  The number is replaced wherever it stands
    alone, by the reference or by "[instancia]", and what is before and after it is
    masked on its own; a text in which it does not stand alone is unchanged; and with
    a public reference it stands alone nowhere in a result.
   */
  lemma MaskingByPlaces(a: string, b: string, vmid: int, ref: string)
    requires vmid > 0
    requires (a == "" || !LetterOrDigit(a[|a| - 1])) && (b == "" || !LetterOrDigit(b[0]))
    ensures OcultarVmidEnTexto(a + Itoa(vmid) + b, vmid, ref) ==
      OcultarVmidEnTexto(a, vmid, ref) + (if ref == "" then "[instancia]" else ref) + OcultarVmidEnTexto(b, vmid, ref)
  {
    hide LetterOrDigit, IsWord, Itoa, OcultarVmidEnTexto, Substitute;
    var pat, rep := Itoa(vmid), Replacement(ref);
    ItoaIsWord(vmid);
    if a != "" { WordIsLetterOrDigit(a[|a| - 1]); }
    if b != "" { WordIsLetterOrDigit(b[0]); }
    assert a + pat + b == a + (pat + b);
    SubstituteConcat(a, pat + b, pat, rep);
    SubstituteConcat(pat, b, pat, rep);
    SubstituteSelf(pat, rep);
    MaskingIsSubstitution(a + pat + b, vmid, ref);
    MaskingIsSubstitution(a, vmid, ref);
    MaskingIsSubstitution(b, vmid, ref);
  }

  lemma MaskingIsSubstitution(texto: string, vmid: int, ref: string)
    requires vmid > 0
    ensures OcultarVmidEnTexto(texto, vmid, ref) == Substitute(texto, Itoa(vmid), Replacement(ref))
  {
    ItoaIsWord(vmid);
    ScanIsRunSubstitution(texto, false, Itoa(vmid), Replacement(ref));
  }

  lemma ItoaIsWord(n: nat)
    ensures AllWord(Itoa(n))
  {
    hide Itoa;
  }

  lemma NowhereAlone(texto: string, vmid: int, ref: string)
    requires vmid > 0
    ensures !Stands(texto, Itoa(vmid)) ==> OcultarVmidEnTexto(texto, vmid, ref) == texto
    ensures PublicRef(ref) ==> !Stands(OcultarVmidEnTexto(texto, vmid, ref), Itoa(vmid))
  {
    ItoaIsWord(vmid);
    StandsIffRun(texto, Itoa(vmid));
    StandsIffRun(OcultarVmidEnTexto(texto, vmid, ref), Itoa(vmid));
    hide Stands, WordRuns, OcultarVmidEnTexto;
    if !Stands(texto, Itoa(vmid)) { UnrelatedTextUntouched(texto, vmid, ref); }
    if PublicRef(ref) { MaskingHides(texto, vmid, ref); }
  }

  /** The example of the source, and its counterpart. */
  lemma LockFileIsMasked()
    ensures OcultarVmidEnTexto("lock-110.conf", 110, "") == "lock-[instancia].conf"
  {
    hide Itoa, OcultarVmidEnTexto, LetterOrDigit;
    var a, b := "lock-", ".conf";
    OneHundredAndTen();
    HyphenAndPoint();
    MaskingByPlaces(a, b, 110, "");
    NoOne(a);
    NoOne(b);
    assert a + "110" + b == "lock-110.conf";
    assert a + "[instancia]" + b == "lock-[instancia].conf";
  }

  lemma HyphenAndPoint()
    ensures !LetterOrDigit('-') && !LetterOrDigit('.')
  {
  }

  lemma NoOne(s: string)
    requires Itoa(110) == "110" && forall i :: 0 <= i < |s| ==> s[i] != '1'
    ensures OcultarVmidEnTexto(s, 110, "") == s
  {
    forall i: nat ensures !StandsAt(s, i, "110") {
      if i + 3 <= |s| { assert s[i..i + 3][0] != '1'; }
    }
    NowhereAlone(s, 110, "");
  }

  lemma OneHundredAndTen()
    ensures Itoa(110) == "110"
  {
    assert Minimal(10, 1) == [1];
    assert Minimal(10, 11) == [1, 1] by { assert Quot(11, 10) == 1 && Rem(11, 10) == 1; }
    assert Minimal(10, 110) == [1, 1, 0] by { assert Quot(110, 10) == 11 && Rem(110, 10) == 0; }
  }

  // ---------- Trees ----------

  datatype Valor =
    | Texto(texto: string)
    | Objeto(campos: map<string, Valor>)
    | Lista(elementos: seq<Valor>)
    | Otro(crudo: int)

  /** The tree with every text leaf masked and nothing else changed. */
  function Oculto(v: Valor, vmid: int, ref: string): Valor {
    match v
    case Texto(s) => Texto(OcultarVmidEnTexto(s, vmid, ref))
    case Objeto(m) => Objeto(map k | k in m :: Oculto(m[k], vmid, ref))
    case Lista(xs) => Lista(seq(|xs|, i requires 0 <= i < |xs| => Oculto(xs[i], vmid, ref)))
    case Otro(_) => v
  }

  ghost predicate NoneNames(v: Valor, vmid: nat) {
    match v
    case Texto(s) => !Stands(s, Itoa(vmid))
    case Objeto(m) => forall k :: k in m ==> NoneNames(m[k], vmid)
    case Lista(xs) => forall i :: 0 <= i < |xs| ==> NoneNames(xs[i], vmid)
    case Otro(_) => true
  }

  /** Same keys, same lengths, same other leaves; text leaves may differ. */
  ghost predicate SameShape(v: Valor, w: Valor) {
    match v
    case Texto(_) => w.Texto?
    case Objeto(m) => w.Objeto? && w.campos.Keys == m.Keys && forall k :: k in m ==> SameShape(m[k], w.campos[k])
    case Lista(xs) => w.Lista? && |w.elementos| == |xs| && forall i :: 0 <= i < |xs| ==> SameShape(xs[i], w.elementos[i])
    case Otro(_) => w == v
  }

  lemma {:induction false} TreeMaskingHides(v: Valor, vmid: int, ref: string)
    requires vmid > 0 && PublicRef(ref)
    ensures NoneNames(Oculto(v, vmid, ref), vmid)
    ensures SameShape(v, Oculto(v, vmid, ref))
    ensures Oculto(Oculto(v, vmid, ref), vmid, ref) == Oculto(v, vmid, ref)
  {
    match v {
      case Texto(s) =>
        NowhereAlone(s, vmid, ref);
        MaskingHides(s, vmid, ref);
      case Objeto(m) =>
        forall k | k in m {
          TreeMaskingHides(m[k], vmid, ref);
        }
      case Lista(xs) =>
        forall i | 0 <= i < |xs| {
          TreeMaskingHides(xs[i], vmid, ref);
        }
      case Otro(_) =>
    }
  }

  /** The copying walk: a fresh tree, and whether anything in it differs from the original. */
  method OcultarEnValor(valor: Valor, vmid: int, ref: string, cambio: bool) returns (copia: Valor, c: bool)
    ensures copia == Oculto(valor, vmid, ref)
    ensures c <==> cambio || copia != valor
    decreases valor, 1
  {
    match valor {
      case Texto(s) =>
        var oculto := OcultarVmidEnTexto(s, vmid, ref);
        copia, c := Texto(oculto), cambio || oculto != s;
      case Objeto(_) => copia, c := OcultarEnCampos(valor, vmid, ref, cambio);
      case Lista(_) => copia, c := OcultarEnLista(valor, vmid, ref, cambio);
      case Otro(_) => copia, c := valor, cambio;
    }
  }

  /** Some field copied so far is not as it was. */
  ghost predicate Difieren(campos: map<string, Valor>, m: map<string, Valor>) {
    exists k :: k in campos && k in m && campos[k] != m[k]
  }

  /** The keys may come in any order. */
  method OcultarEnCampos(valor: Valor, vmid: int, ref: string, cambio: bool) returns (copia: Valor, c: bool)
    requires valor.Objeto?
    ensures copia == Oculto(valor, vmid, ref)
    ensures c <==> cambio || copia != valor
    decreases valor, 0
  {
    var m := valor.campos;
    var campos: map<string, Valor> := map[];
    var claves := m.Keys;
    c := cambio;
    while claves != {}
      invariant claves <= m.Keys && campos.Keys == m.Keys - claves
      invariant forall k :: k in campos ==> campos[k] == Oculto(m[k], vmid, ref)
      invariant c <==> cambio || Difieren(campos, m)
      decreases |claves|
    {
      var k :| k in claves;
      var elem;
      elem, c := OcultarEnValor(m[k], vmid, ref, c);
      campos, claves := campos[k := elem], claves - {k};
    }
    copia := Objeto(campos);
  }

  method OcultarEnLista(valor: Valor, vmid: int, ref: string, cambio: bool) returns (copia: Valor, c: bool)
    requires valor.Lista?
    ensures copia == Oculto(valor, vmid, ref)
    ensures c <==> cambio || copia != valor
    decreases valor, 0
  {
    var xs := valor.elementos;
    var elementos: seq<Valor> := [];
    c := cambio;
    var i := 0;
    while i < |xs|
      invariant 0 <= i <= |xs| && |elementos| == i
      invariant forall j :: 0 <= j < i ==> elementos[j] == Oculto(xs[j], vmid, ref)
      invariant c <==> cambio || exists j :: 0 <= j < i && elementos[j] != xs[j]
    {
      var elem;
      elem, c := OcultarEnValor(xs[i], vmid, ref, c);
      elementos, i := elementos + [elem], i + 1;
    }
    copia := Lista(elementos);
    assert elementos == xs <==> forall j :: 0 <= j < |xs| ==> elementos[j] == xs[j];
  }
}
