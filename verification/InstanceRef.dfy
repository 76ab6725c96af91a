/**
  Public instance references (instance_ref.go): a VMID padded to one AES block,
  enciphered, and written in 22 base-62 digits.  AES is any permutation of the
  blocks.  A Go string is modelled as the sequence of its bytes read as chars.
 */
module InstanceRef {
  import opened Positional

  type Byte = x: nat | x < 256
  type Block = s: seq<Byte> | |s| == 16 witness seq(16, _ => 0)

  const PREFIX := "inst_"
  const BODY_LENGTH := 22
  const MAX_UINT32 := 0xFFFF_FFFF

  datatype Cipher = Cipher(encrypt: Block -> Block, decrypt: Block -> Block) {
    ghost predicate IsPermutation() {
      && (forall b: Block :: decrypt(encrypt(b)) == b)
      && (forall b: Block :: encrypt(decrypt(b)) == b)
    }
  }

  datatype Error = ErrVMIDInvalido | ErrReferenciaInstanciaInvalida
  datatype Result<T> = Ok(value: T) | Err(error: Error)

  // ---------- The alphabet ----------

  const DIGITS := "0123456789"
  const LOWER := "abcdefghijklmnopqrstuvwxyz"
  const UPPER := "ABCDEFGHIJKLMNOPQRSTUVWXYZ"
  const ALPHABET := DIGITS + LOWER + UPPER

  predicate IsBase62(ch: char) {
    '0' <= ch <= '9' || 'a' <= ch <= 'z' || 'A' <= ch <= 'Z'
  }

  /** The value big.Int gives to a digit in base 62. */
  function DigitOf(ch: char): (d: nat)
    requires IsBase62(ch)
    ensures d < 62
  {
    if ch <= '9' then (ch - '0') as nat
    else if 'a' <= ch then (ch - 'a') as nat + 10
    else (ch - 'A') as nat + 36
  }

  function CharOf(d: nat): (ch: char)
    requires d < 62
    ensures IsBase62(ch) && DigitOf(ch) == d
  {
    if d < 10 then '0' + d as char
    else if d < 36 then 'a' + (d - 10) as char
    else 'A' + (d - 36) as char
  }

  lemma AlphabetAt(d: nat)
    requires d < 62
    ensures ALPHABET[d] == CharOf(d)
    ensures d < 10 ==> CharOf(d) == "0123456789"[d]
    ensures 10 <= d < 36 ==> CharOf(d) == "abcdefghijklmnopqrstuvwxyz"[d - 10]
    ensures 36 <= d ==> CharOf(d) == "ABCDEFGHIJKLMNOPQRSTUVWXYZ"[d - 36]
  {
  }

  /** The text that is searched and the digits that are read are the same 62 characters. */
  predicate EnAlfabeto(ch: char): (r: bool)
    ensures r <==> IsBase62(ch)
  {
    assert IsBase62(ch) ==> ch in ALPHABET by {
      if IsBase62(ch) {
        AlphabetAt(DigitOf(ch));
      }
    }
    assert ch in ALPHABET ==> IsBase62(ch) by {
      if ch in ALPHABET {
        var d :| 0 <= d < 62 && ALPHABET[d] == ch;
        AlphabetAt(d);
      }
    }
    ch in ALPHABET
  }

  function DigitsOf(s: string): (ds: seq<nat>)
    requires forall i :: 0 <= i < |s| ==> IsBase62(s[i])
    ensures |ds| == |s| && IsNumeral(62, ds)
  {
    seq(|s|, i requires 0 <= i < |s| => DigitOf(s[i]))
  }

  function TextOf(ds: seq<nat>): (s: string)
    requires IsNumeral(62, ds)
    ensures |s| == |ds| && forall i :: 0 <= i < |s| ==> IsBase62(s[i])
  {
    seq(|ds|, i requires 0 <= i < |ds| => CharOf(ds[i]))
  }

  lemma TextDigits(s: string, ds: seq<nat>)
    requires IsNumeral(62, ds)
    ensures DigitsOf(TextOf(ds)) == ds
    ensures (forall i :: 0 <= i < |s| ==> IsBase62(s[i])) ==> TextOf(DigitsOf(s)) == s
  {
  }

  // ---------- Blocks ----------

  function BlockOf(n: nat): Block {
    Fixed(256, n, 16)
  }

  function Number(b: seq<Byte>): nat {
    Value(256, b)
  }

  lemma BlockNumber(b: Block)
    ensures BlockOf(Number(b)) == b && Number(b) < Pow(256, 16)
  {
    FixedOfValue(256, b);
    ValueBound(256, b);
  }

  /** One enciphered block always fits in 22 base-62 digits, so the padding is never negative. */
  lemma BlockFits()
    ensures Pow(256, 16) < Pow(62, 22) && Pow(2, 128) == Pow(256, 16) && Pow(256, 4) == MAX_UINT32 + 1
  {
    assert Pow(2, 8) == 256;
    PowAdd(2, 8, 8); PowAdd(2, 16, 16); PowAdd(2, 32, 32); PowAdd(2, 64, 64);
    assert Pow(256, 2) == 65536;
    PowAdd(256, 2, 2); PowAdd(256, 4, 4); PowAdd(256, 8, 8);
    assert Pow(62, 2) == 3844;
    PowAdd(62, 2, 2); PowAdd(62, 4, 1); PowAdd(62, 5, 5); PowAdd(62, 10, 1); PowAdd(62, 11, 11);
  }

  // ---------- What the two operations compute ----------

  ghost function Reference(c: Cipher, vmid: nat): string {
    PREFIX + TextOf(Fixed(62, Number(c.encrypt(BlockOf(vmid))), BODY_LENGTH))
  }

  ghost function Ofuscar(c: Cipher, vmid: int): Result<string> {
    if 0 < vmid <= MAX_UINT32 then Ok(Reference(c, vmid)) else Err(ErrVMIDInvalido)
  }

  ghost predicate WellFormed(s: string) {
    PREFIX <= s && |s| == |PREFIX| + BODY_LENGTH && forall i :: |PREFIX| <= i < |s| ==> IsBase62(s[i])
  }

  ghost function Body(s: string): nat
    requires WellFormed(s)
  {
    Value(62, DigitsOf(s[|PREFIX|..]))
  }

  ghost function Desofuscar(c: Cipher, s: string): Result<nat> {
    if WellFormed(s) then Descifrado(c, Body(s)) else Err(ErrReferenciaInstanciaInvalida)
  }

  ghost function Descifrado(c: Cipher, n: nat): Result<nat> {
    if n < Pow(256, 16) then
      var vmid := Number(c.decrypt(BlockOf(n)));
      if 0 < vmid <= MAX_UINT32 then Ok(vmid) else Err(ErrReferenciaInstanciaInvalida)
    else Err(ErrReferenciaInstanciaInvalida)
  }

  // ---------- The codec is a bijection between VMIDs and accepted references ----------

  lemma ReferenceShape(c: Cipher, vmid: nat)
    ensures WellFormed(Reference(c, vmid)) && |Reference(c, vmid)| == 27
    ensures Body(Reference(c, vmid)) == Number(c.encrypt(BlockOf(vmid))) < Pow(256, 16)
  {
    var n := Number(c.encrypt(BlockOf(vmid)));
    BlockNumber(c.encrypt(BlockOf(vmid)));
    BlockFits();
    ValueOfFixed(62, n, BODY_LENGTH);
    TextDigits("", Fixed(62, n, BODY_LENGTH));
    assert Reference(c, vmid)[|PREFIX|..] == TextOf(Fixed(62, n, BODY_LENGTH));
  }

  lemma FourBytesFit()
    ensures Pow(256, 4) == MAX_UINT32 + 1 && Pow(256, 4) <= Pow(256, 16)
  {
    var b: nat := 256;
    assert Pow(b, 1) == b && Pow(b, 2) == 0x10000;
    PowAdd(b, 2, 2);
    PowAdd(b, 4, 12);
    PowPositive(b, 12);
    MulMonotone(1, Pow(b, 12), Pow(b, 4));
  }

  lemma SmallNumber(vmid: nat)
    requires vmid <= MAX_UINT32
    ensures Number(BlockOf(vmid)) == vmid
  {
    FourBytesFit();
    assert vmid < Pow(256, 4) <= Pow(256, 16);
    ValueOfFixed(256, vmid, 16);
  }

  lemma EncodedDecodes(c: Cipher, vmid: nat)
    requires c.IsPermutation() && 0 < vmid <= MAX_UINT32
    ensures Desofuscar(c, Reference(c, vmid)) == Ok(vmid)
  {
    ReferenceShape(c, vmid);
    BlockNumber(c.encrypt(BlockOf(vmid)));
    SmallNumber(vmid);
  }

  lemma DecodedEncodes(c: Cipher, s: string, vmid: nat)
    requires c.IsPermutation() && Desofuscar(c, s) == Ok(vmid)
    ensures s == Reference(c, vmid)
  {
    var body := s[|PREFIX|..];
    var plain := c.decrypt(BlockOf(Body(s)));
    BlockNumber(plain);
    assert c.encrypt(plain) == BlockOf(Body(s));
    ValueOfFixed(256, Body(s), 16);
    FixedOfValue(62, DigitsOf(body));
    TextDigits(body, []);
    assert s == PREFIX + body;
  }

  /**
    A reference decodes to a VMID exactly when it is the reference of that VMID:
    encoding and decoding undo each other, and no second spelling is accepted.
   */
  lemma DecodesIffEncodes(c: Cipher, s: string, vmid: nat)
    requires c.IsPermutation()
    ensures Desofuscar(c, s) == Ok(vmid) <==> Ofuscar(c, vmid) == Ok(s)
  {
    if Desofuscar(c, s) == Ok(vmid) {
      DecodedEncodes(c, s, vmid);
    }
    if Ofuscar(c, vmid) == Ok(s) {
      EncodedDecodes(c, vmid);
    }
  }

  lemma DifferentVmidsDifferentReferences(c: Cipher, a: nat, b: nat)
    requires c.IsPermutation() && 0 < a <= MAX_UINT32 && 0 < b <= MAX_UINT32
    ensures Reference(c, a) == Reference(c, b) <==> a == b
  {
    EncodedDecodes(c, a);
    EncodedDecodes(c, b);
  }

  // ---------- The operations over byte buffers ----------

  lemma PlainBlock(vmid: nat)
    requires vmid <= MAX_UINT32
    ensures Zeros(12) + Fixed(256, vmid, 4) == BlockOf(vmid)
  {
    BlockFits();
    ValueOfFixed(256, vmid, 4);
    ValueOfPadded(256, 12, Fixed(256, vmid, 4));
    FixedOfValue(256, Zeros(12) + Fixed(256, vmid, 4));
  }

  /** The four bytes of a 32-bit number, the most significant one first. */
  lemma FourBytes(v: nat)
    requires v <= 4_294_967_295
    ensures Fixed(256, v, 4) == [v / 16_777_216, v / 65_536 % 256, v / 256 % 256, v % 256]
  {
    var a, b, c := v / 256, v / 256 / 256, v / 256 / 256 / 256;
    Division256(v);
    Division256(a);
    Division256(b);
    Division256(c);
    assert c < 256 && Rem(c, 256) == c;
    assert Fixed(256, c, 1) == [c] && Fixed(256, b, 2) == Fixed(256, c, 1) + [b % 256];
    assert Fixed(256, a, 3) == Fixed(256, b, 2) + [a % 256] && Fixed(256, v, 4) == Fixed(256, a, 3) + [v % 256];
  }

  /** The first twelve bytes are zero exactly when the block's number fits in 32 bits. */
  lemma ZeroBytes(b: Block)
    ensures (forall i :: 0 <= i < 12 ==> b[i] == 0) <==> Number(b) <= MAX_UINT32
    ensures Number(b) <= MAX_UINT32 ==> Number(b[12..]) == Number(b)
  {
    BlockFits();
    if forall i :: 0 <= i < 12 ==> b[i] == 0 {
      assert b == Zeros(12) + b[12..];
      ValueOfPadded(256, 12, b[12..]);
      ValueBound(256, b[12..]);
    }
    if Number(b) <= MAX_UINT32 {
      BlockNumber(b);
      PlainBlock(Number(b));
      ValueOfFixed(256, Number(b), 4);
      assert b[12..] == Fixed(256, Number(b), 4);
    }
  }

  lemma PaddedText(k: nat, ds: seq<nat>)
    requires IsNumeral(62, ds)
    ensures IsNumeral(62, Zeros(k) + ds) && seq(k, _ => '0') + TextOf(ds) == TextOf(Zeros(k) + ds)
  {
    assert CharOf(0) == '0';
  }

  /** The block of a VMID, byte by byte. */
  function Bytes(vmid: nat): Block
    requires vmid <= 4_294_967_295
  {
    [0, 0, 0, 0, 0, 0, 0, 0, 0, 0, 0, 0, vmid / 16_777_216, vmid / 65_536 % 256, vmid / 256 % 256, vmid % 256]
  }

  lemma BytesAreTheBlock(vmid: nat)
    requires vmid <= 4_294_967_295
    ensures Bytes(vmid) == BlockOf(vmid)
  {
    PlainBlock(vmid);
    FourBytes(vmid);
    assert Bytes(vmid) == Zeros(12) + Fixed(256, vmid, 4);
  }

  lemma ReferenceByBytes(c: Cipher, vmid: nat)
    requires vmid <= 4_294_967_295
    ensures var s := Reference(c, vmid);
      && |s| == 27 && s[..5] == "inst_" && (forall i :: 5 <= i < 27 ==> IsBase62(s[i]))
      && Value(62, DigitsOf(s[5..])) == Value(256, c.encrypt(Bytes(vmid)))
  {
    ReferenceShape(c, vmid);
    BytesAreTheBlock(vmid);
    assert |PREFIX| == 5;
    hide BlockOf, Bytes, Reference;
  }

  class OfuscadorVMID {
    const bloque: Cipher

    constructor (bloque: Cipher)
      ensures this.bloque == bloque
    {
      this.bloque := bloque;
    }

    /**
      The reference is "inst_" and 22 characters that are the digits, in base 62, of
      the enciphered block of twelve zeros and the four bytes of the VMID.
     */
    method OfuscarVMID(vmid: int) returns (r: Result<string>)
      ensures r == Ofuscar(bloque, vmid)
      ensures r.Ok? <==> 1 <= vmid <= 4_294_967_295
      ensures r.Ok? ==> |r.value| == 27 && r.value[..5] == "inst_" && forall i :: 5 <= i < 27 ==> IsBase62(r.value[i])
      ensures r.Ok? ==> Value(62, DigitsOf(r.value[5..])) == Value(256, bloque.encrypt(Bytes(vmid)))
    {
      if vmid <= 0 || vmid > MAX_UINT32 {
        return Err(ErrVMIDInvalido);
      }
      var plano := new Byte[16](_ => 0);
      PutUint32(plano, vmid);
      PlainBlock(vmid);
      assert plano[..] == BlockOf(vmid);
      var cuerpo := Cuerpo(bloque.encrypt(plano[..]));
      r := Ok(PREFIX + cuerpo);
      ReferenceByBytes(bloque, vmid);
    }

    /** big.Int.Text, filled up with zeros on the left. */
    method Cuerpo(cifrado: Block) returns (cuerpo: string)
      ensures cuerpo == TextOf(Fixed(62, Number(cifrado), BODY_LENGTH))
    {
      var n := Value(256, cifrado);
      BlockNumber(cifrado);
      BlockFits();
      PaddedMinimal(62, n, BODY_LENGTH);
      var texto := TextOf(Minimal(62, n));
      var relleno := seq(BODY_LENGTH - |texto|, _ => '0');
      PaddedText(BODY_LENGTH - |texto|, Minimal(62, n));
      cuerpo := relleno + texto;
    }

    /** binary.BigEndian.PutUint32 on the last four bytes. */
    method PutUint32(plano: array<Byte>, v: nat)
      requires plano.Length == 16 && v <= MAX_UINT32
      modifies plano
      ensures plano[..] == old(plano[..12]) + Fixed(256, v, 4)
    {
      var resto, i := v, 4;
      while i > 0
        invariant 0 <= i <= 4
        invariant plano[..12] == old(plano[..12])
        invariant Fixed(256, v, 4) == Fixed(256, resto, i) + plano[12 + i..]
      {
        i := i - 1;
        Division256(resto);
        plano[12 + i] := resto % 256;
        resto := resto / 256;
        assert plano[12 + i..] == [plano[12 + i]] + plano[12 + i + 1..];
      }
    }

    /** big.Int.SetString would accept a sign: only the alphabet is let through. */
    method SoloBase62(cuerpo: string) returns (ok: bool)
      ensures ok <==> forall i :: 0 <= i < |cuerpo| ==> IsBase62(cuerpo[i])
    {
      hide IsBase62, EnAlfabeto;
      var i := 0;
      while i < |cuerpo|
        invariant 0 <= i <= |cuerpo|
        invariant forall k :: 0 <= k < i ==> IsBase62(cuerpo[k])
      {
        if !EnAlfabeto(cuerpo[i]) {
          return false;
        }
        i := i + 1;
      }
      ok := true;
    }

    /** The check bytes of a deciphered block. */
    method DoceCeros(plano: Block) returns (ok: bool)
      ensures ok <==> Number(plano) <= MAX_UINT32
    {
      ZeroBytes(plano);
      var i := 0;
      while i < 12
        invariant 0 <= i <= 12
        invariant forall k :: 0 <= k < i ==> plano[k] == 0
      {
        if plano[i] != 0 {
          return false;
        }
        i := i + 1;
      }
      ok := true;
    }

    method DesofuscarVMID(ref: string) returns (r: Result<nat>)
      ensures r == Desofuscar(bloque, ref)
    {
      if !(PREFIX <= ref) || |ref| - |PREFIX| != BODY_LENGTH {
        return Err(ErrReferenciaInstanciaInvalida);
      }
      var cuerpo := ref[|PREFIX|..];
      var base62 := SoloBase62(cuerpo);
      assert WellFormed(ref) <==> base62 by {
        assert forall k :: |PREFIX| <= k < |ref| ==> ref[k] == cuerpo[k - |PREFIX|];
        assert forall k :: 0 <= k < |cuerpo| ==> cuerpo[k] == ref[k + |PREFIX|];
      }
      if !base62 {
        return Err(ErrReferenciaInstanciaInvalida);
      }
      r := Descifrar(Value(62, DigitsOf(cuerpo)));
    }

    /** From the number of the body on: one block, its check bytes, and the VMID. */
    method Descifrar(n: nat) returns (r: Result<nat>)
      ensures r == Descifrado(bloque, n)
    {
      BitLenBound(n, 128);
      BlockFits();
      if BitLen(n) > 128 {
        return Err(ErrReferenciaInstanciaInvalida);
      }
      var plano := bloque.decrypt(BlockOf(n));
      var verificado := DoceCeros(plano);
      if !verificado {
        return Err(ErrReferenciaInstanciaInvalida);
      }
      ZeroBytes(plano);
      var vmid := Value(256, plano[12..]);
      if vmid == 0 {
        return Err(ErrReferenciaInstanciaInvalida);
      }
      r := Ok(vmid);
    }
  }
}
