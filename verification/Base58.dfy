/** base58btc and the DIDs of Ed25519 keys (sections 3 and 4 of
    draft-msporny-base58): one meaning, four decoders, one encoder. */
module Base58 {
  import opened Wrappers
  import opened Json
  import opened Radix

  // Bytes are digits in base 256, most significant first.
  type Bytes = Digits

  /** The letter of a digit: 1-9, A-H, J-N, P-Z, a-k, m-z. */
  function Letter(d: nat): CodePoint
    requires d < 58
  {
    if d < 9 then 0x31 + d
    else if d < 17 then 0x41 + d - 9
    else if d < 22 then 0x4A + d - 17
    else if d < 33 then 0x50 + d - 22
    else if d < 44 then 0x61 + d - 33
    else 0x6D + d - 44
  }

  const B58: string :=
    "123456789" + "ABCDEFGH" + "JKLMN" + "PQRSTU" + "VWXYZ" + "abcdef" + "ghijk" + "mnopqrs" + "tuvwxyz"

  predicate Spells(s: string, d: nat)
    requires d + |s| <= 58
  {
    s == "" || (s[0] as nat == Letter(d) && Spells(s[1..], d + 1))
  }

  lemma {:induction false} SpellsAt(s: string, d: nat, i: nat)
    requires d + |s| <= 58 && Spells(s, d) && i < |s|
    ensures s[i] as nat == Letter(d + i)
    decreases i
  {
    if i > 0 { SpellsAt(s[1..], d + 1, i - 1); }
  }

  lemma {:induction false} SpellsJoined(s: string, t: string, d: nat)
    requires d + |s| + |t| <= 58 && Spells(s, d) && Spells(t, d + |s|)
    ensures Spells(s + t, d)
    decreases |s|
  {
    if s == "" {
      assert s + t == t;
    } else {
      SpellsJoined(s[1..], t, d + 1);
      assert (s + t)[1..] == s[1..] + t;
    }
  }

  lemma SpelledDigits()
    ensures Spells("123456789", 0)
  {
  }

  lemma SpelledAToH()
    ensures Spells("ABCDEFGH", 9)
  {
  }

  lemma SpelledJToN()
    ensures Spells("JKLMN", 17)
  {
  }

  lemma SpelledPToU()
    ensures Spells("PQRSTU", 22)
  {
  }

  lemma SpelledVToZ()
    ensures Spells("VWXYZ", 28)
  {
  }

  lemma SpelledSmallAToF()
    ensures Spells("abcdef", 33)
  {
  }

  lemma SpelledSmallGToK()
    ensures Spells("ghijk", 39)
  {
  }

  lemma SpelledSmallMToS()
    ensures Spells("mnopqrs", 44)
  {
  }

  lemma SpelledSmallTToZ()
    ensures Spells("tuvwxyz", 51)
  {
  }

  /** Letter spells the source's alphabet. */
  lemma AlphabetSpelled(d: nat)
    requires d < 58
    ensures |B58| == 58 && B58[d] as nat == Letter(d)
  {
    hide Spells;
    SpelledDigits();
    SpelledAToH();
    SpelledJToN();
    SpelledPToU();
    SpelledVToZ();
    SpelledSmallAToF();
    SpelledSmallGToK();
    SpelledSmallMToS();
    SpelledSmallTToZ();
    SpellsJoined("123456789", "ABCDEFGH", 0);
    SpellsJoined("123456789" + "ABCDEFGH", "JKLMN", 0);
    SpellsJoined("123456789" + "ABCDEFGH" + "JKLMN", "PQRSTU", 0);
    SpellsJoined("123456789" + "ABCDEFGH" + "JKLMN" + "PQRSTU", "VWXYZ", 0);
    SpellsJoined("123456789" + "ABCDEFGH" + "JKLMN" + "PQRSTU" + "VWXYZ", "abcdef", 0);
    SpellsJoined("123456789" + "ABCDEFGH" + "JKLMN" + "PQRSTU" + "VWXYZ" + "abcdef", "ghijk", 0);
    SpellsJoined("123456789" + "ABCDEFGH" + "JKLMN" + "PQRSTU" + "VWXYZ" + "abcdef" + "ghijk", "mnopqrs", 0);
    SpellsJoined("123456789" + "ABCDEFGH" + "JKLMN" + "PQRSTU" + "VWXYZ" + "abcdef" + "ghijk" + "mnopqrs", "tuvwxyz", 0);
    SpellsAt(B58, 0, d);
  }

  /** B58.index: the position of the first occurrence, None when absent. */
  function IndexFrom(c: CodePoint, i: nat): (r: Option<nat>)
    requires i <= 58
    ensures r.Some? ==> i <= r.value < 58 && Letter(r.value) == c
    ensures r.None? ==> forall j | i <= j < 58 :: Letter(j) != c
    decreases 58 - i
  {
    if i == 58 then None else if Letter(i) == c then Some(i) else IndexFrom(c, i + 1)
  }

  function Index(c: CodePoint): Option<nat> {
    IndexFrom(c, 0)
  }

  predicate InAlphabet(s: Text) {
    forall i | 0 <= i < |s| :: Index(s[i]).Some?
  }

  function DigitsOf(s: Text): (ds: Digits)
    requires InAlphabet(s)
    ensures |ds| == |s| && InBase(58, ds)
    ensures forall i | 0 <= i < |s| :: Letter(ds[i]) == s[i]
  {
    seq(|s|, i requires 0 <= i < |s| => Index(s[i]).value)
  }

  function TextOf(ds: Digits): (s: Text)
    requires InBase(58, ds)
    ensures |s| == |ds| && forall i | 0 <= i < |ds| :: s[i] == Letter(ds[i])
  {
    seq(|ds|, i requires 0 <= i < |ds| => Letter(ds[i]))
  }

  /** Leading zero digits become zero bytes one for one; the rest is one number. */
  function Decode(s: Text): Option<Bytes> {
    if !InAlphabet(s) then None
    else
      var ds := DigitsOf(s);
      Some(Zeros(LeadingZeroCount(ds)) + Notation(256, Value(58, ds)))
  }

  function Encode(raw: Bytes): Text
    requires InBase(256, raw)
  {
    var n := LeadingZeroCount(raw);
    var ds := Zeros(n) + Notation(58, Value(256, raw));
    TextOf(ds)
  }

  // ---- The alphabet -----------------------------------------------------------------

  lemma AlphabetSorted(i: nat, j: nat)
    requires i < j < 58
    ensures Letter(i) < Letter(j)
  {
  }

  lemma IndexOfLetter(d: nat)
    requires d < 58
    ensures Index(Letter(d)) == Some(d)
  {
    var r := Index(Letter(d));
    if r.Some? && r.value < d { AlphabetSorted(r.value, d); }
    if r.Some? && d < r.value { AlphabetSorted(d, r.value); }
  }

  lemma TextReadsBack(ds: Digits)
    requires InBase(58, ds)
    ensures InAlphabet(TextOf(ds)) && DigitsOf(TextOf(ds)) == ds
  {
    forall i | 0 <= i < |ds|
      ensures Index(TextOf(ds)[i]) == Some(ds[i])
    {
      IndexOfLetter(ds[i]);
    }
  }

  // ---- Round trips --------------------------------------------------------------------

  /** Decoding undoes encoding on every byte string. */
  lemma DecodeUndoesEncode(raw: Bytes)
    requires InBase(256, raw)
    ensures Decode(Encode(raw)) == Some(raw)
  {
    var k := LeadingZeroCount(raw);
    var n := Value(256, raw);
    var ds := Zeros(k) + Notation(58, n);
    LeadingZeroSplit(raw);
    TextReadsBack(ds);
    ValueOfNotation(58, n);
    LeadingZeroCountUnique(k, Notation(58, n));
    LeadingZeros(58, k, Notation(58, n));
    LeadingZeros(256, k, raw[k..]);
    NotationOfValue(256, raw[k..]);
  }

  /** Encoding undoes decoding on every string over the alphabet, leading ones included. */
  lemma EncodeUndoesDecode(s: Text)
    requires Decode(s).Some?
    ensures InBase(256, Decode(s).value) && Encode(Decode(s).value) == s
  {
    var ds := DigitsOf(s);
    var k, n := LeadingZeroCount(ds), Value(58, ds);
    DecodedShape(ds, k, n);
    assert TextOf(ds) == s;
  }

  lemma DecodedShape(ds: Digits, k: nat, n: nat)
    requires InBase(58, ds) && k == LeadingZeroCount(ds) && n == Value(58, ds)
    ensures var raw := Zeros(k) + Notation(256, n);
            && InBase(256, raw) && LeadingZeroCount(raw) == k && Value(256, raw) == n
            && Zeros(k) + Notation(58, n) == ds
  {
    LeadingZeroSplit(ds);
    ValueOfNotation(256, n);
    LeadingZeroCountUnique(k, Notation(256, n));
    LeadingZeros(256, k, Notation(256, n));
    LeadingZeros(58, k, ds[k..]);
    NotationOfValue(58, ds[k..]);
  }

  // ---- The decoders and the encoder of the source, as loops ------------------------------

  /** The accumulating loop all four decoders share; None on a foreign character. */
  method Accumulate(value: Text) returns (number: Option<nat>)
    ensures number.Some? <==> InAlphabet(value)
    ensures number.Some? ==> number.value == Value(58, DigitsOf(value))
  {
    var total := 0;
    for i := 0 to |value|
      invariant InAlphabet(value[..i])
      invariant total == Value(58, DigitsOf(value[..i]))
    {
      var digit := Index(value[i]);
      if digit.None? {
        return None;
      }
      total := total * 58 + digit.value;
      assert value[..i + 1][..i] == value[..i];
      assert DigitsOf(value[..i + 1])[..i] == DigitsOf(value[..i]);
    }
    assert value[..|value|] == value;
    return Some(total);
  }

  /** len(value) - len(value.lstrip("1")) */
  method LeadingOnes(value: Text) returns (k: nat)
    requires InAlphabet(value)
    ensures k == LeadingZeroCount(DigitsOf(value))
  {
    k := 0;
    while k < |value| && value[k] == Letter(0)
      invariant k <= |value|
      invariant DigitsOf(value)[..k] == Zeros(k)
    {
      IndexOfLetter(0);
      assert DigitsOf(value)[k] == 0;
      assert DigitsOf(value)[..k + 1] == DigitsOf(value)[..k] + [0];
      k := k + 1;
    }
    var ds := DigitsOf(value);
    assert ds == Zeros(k) + ds[k..] by { assert ds == ds[..k] + ds[k..]; }
    assert Normal(ds[k..]) by { assert k < |value| ==> Letter(ds[k]) == value[k]; }
    LeadingZeroCountUnique(k, ds[k..]);
  }

  /** base58_decode and b58: the transcript and export validators. */
  method DecodeValidator(value: Text) returns (raw: Option<Bytes>)
    ensures raw == Decode(value)
  {
    var number := Accumulate(value);
    if number.None? {
      return None;
    }
    var ones := LeadingOnes(value);
    return Some(Zeros(ones) + Notation(256, number.value));
  }

  /** base58btc_decode: the envelope verifier, which refuses the empty payload. */
  method DecodeEnvelope(value: Text) returns (raw: Option<Bytes>)
    ensures raw == if value == [] then None else Decode(value)
  {
    if value == [] {
      return None;
    }
    raw := DecodeValidator(value);
  }

  /** decode_did of the Close Call verifier, which ignores leading ones. */
  method DecodeCloseCall(value: Text) returns (raw: Option<Bytes>)
    ensures raw == CloseCallDecode(value)
  {
    var number := Accumulate(value);
    if number.None? {
      return None;
    }
    return Some(Notation(256, number.value));
  }

  function CloseCallDecode(value: Text): Option<Bytes> {
    if !InAlphabet(value) then None else Some(Notation(256, Value(58, DigitsOf(value))))
  }

  /** base58: repeated division, prepending the remainder's letter. */
  method EncodeLoop(raw: Bytes) returns (encoded: Text)
    requires InBase(256, raw)
    ensures encoded == Encode(raw)
  {
    hide Notation;
    var number := Value(256, raw);
    var ds: Digits := [];
    while number > 0
      invariant InBase(58, ds)
      invariant Notation(58, number) + ds == Notation(58, Value(256, raw))
      decreases number
    {
      LastDigit(58, number);
      var quotient, remainder := number / 58, number % 58;
      assert Notation(58, number) + ds == Notation(58, quotient) + ([remainder] + ds);
      number, ds := quotient, [remainder] + ds;
    }
    LastDigit(58, 0);
    assert [] + ds == ds;
    return TextOf(Zeros(LeadingZeroCount(raw)) + ds);
  }

  /** The Close Call decoder agrees with the others exactly on strings without a leading 1. */
  lemma DecodersAgree(s: Text)
    requires InAlphabet(s)
    ensures CloseCallDecode(s) == Decode(s) <==> s == [] || s[0] != Letter(0)
  {
    var ds := DigitsOf(s);
    var k := LeadingZeroCount(ds);
    assert |Zeros(k) + Notation(256, Value(58, ds))| == k + |Notation(256, Value(58, ds))|;
    LeadingZeroSplit(ds);
    if s != [] {
      IndexOfLetter(0);
      assert Letter(ds[0]) == s[0];
    }
    if k == 0 { assert Zeros(k) + Notation(256, Value(58, ds)) == Notation(256, Value(58, ds)); }
  }

  // ---- did:key of an Ed25519 key ------------------------------------------------------------

  const DID_PREFIX: Text := Lit("did:key:z")

  /** The key a validator reads from a DID: 34 bytes behind the multicodec prefix ed 01. */
  function KeyOf(did: Text): Option<Bytes> {
    if |did| < 9 || did[..9] != DID_PREFIX then None
    else
      match Decode(did[9..])
      case None => None
      case Some(raw) => if |raw| == 34 && raw[0] == 0xED && raw[1] == 0x01 then Some(raw[2..]) else None
  }

  function DidOf(key: Bytes): Text
    requires InBase(256, key)
  {
    DID_PREFIX + Encode([0xED, 0x01] + key)
  }

  const LEAD: Digits := [5, 20, 43]  // the digits of "6Mk"

  lemma PowersOf58()
    ensures Power(58, 44) == 389790918707373377135528568990913592653094657612049369038476873218241589149696
  {
    assert Power(58, 4) == 11316496 by { assert Power(58, 2) == 3364; }
    PowerAdds(58, 4, 4);
    assert Power(58, 8) == 128063081718016;
    PowerAdds(58, 8, 3);
    assert Power(58, 3) == 195112;
    assert Power(58, 11) == 24986644000165537792;
    PowerAdds(58, 11, 11);
    assert Power(58, 22) == 624332378391008467754527498760580235264 by {
      assert 24986644000165537792 * 24986644000165537792 == 624332378391008467754527498760580235264;
    }
    PowerAdds(58, 22, 22);
  }

  lemma PowersOf256()
    ensures Power(256, 32) == 115792089237316195423570985008687907853269984665640564039457584007913129639936
  {
    PowerAdds(256, 4, 4);
    assert Power(256, 4) == 4294967296 by { assert Power(256, 2) == 65536; }
    PowerAdds(256, 8, 8);
    assert Power(256, 8) == 18446744073709551616;
    PowerAdds(256, 16, 16);
    assert Power(256, 16) == 340282366920938463463374607431768211456;
  }

  lemma LeadNotation()
    ensures Notation(58, 18023) == LEAD
  {
    assert Notation(58, 5) == [5] by { assert Notation(58, 0) == []; }
    assert Notation(58, 310) == [5, 20];
  }

  lemma KeyNumber(key: Bytes)
    requires InBase(256, key) && |key| == 32
    ensures Value(256, [0xED, 0x01] + key) == 60673 * Power(256, 32) + Value(256, key)
    ensures Value(256, key) < Power(256, 32)
  {
    ValueOfConcat(256, [0xED, 0x01], key);
    ValueBound(256, key);
    assert Value(256, [0xED, 0x01]) == 60673 by {
      assert [0xED, 0x01][..1] == [0xED] && [0xED][..0] == [];
      assert Value(256, [0xED]) == 237;
    }
  }

  /** The number of a prefixed key lies between 18023 and 18024 times 58 to the 44th. */
  lemma KeyNumberLeads(key: Bytes)
    requires InBase(256, key) && |key| == 32
    ensures 18023 * Power(58, 44) <= Value(256, [0xED, 0x01] + key) < 18024 * Power(58, 44)
  {
    hide Power, Value;
    KeyNumber(key);
    PowersOf256();
    PowersOf58();
  }

  lemma EncodeNormal(raw: Bytes)
    requires InBase(256, raw) && raw != [] && raw[0] != 0
    ensures Encode(raw) == TextOf(Notation(58, Value(256, raw)))
  {
    assert LeadingZeroCount(raw) == 0;
    assert Zeros(0) + Notation(58, Value(256, raw)) == Notation(58, Value(256, raw));
  }

  lemma LeadingLetters(ds: Digits, es: Digits)
    requires InBase(58, ds) && es <= ds
    ensures InBase(58, es) && TextOf(es) <= TextOf(ds)
  {
    forall i | 0 <= i < |es|
      ensures es[i] < 58 && TextOf(ds)[i] == Letter(es[i])
    {
      assert es[i] == ds[i];
    }
  }

  /** Every 32-byte key is written with 47 letters starting 6Mk. */
  lemma KeyLetters(key: Bytes)
    requires InBase(256, key) && |key| == 32
    ensures InBase(256, [0xED, 0x01] + key)
    ensures var s := Encode([0xED, 0x01] + key); |s| == 47 && TextOf(LEAD) <= s
  {
    hide Power, Value, Encode, Notation, TextOf;
    var raw := [0xED, 0x01] + key;
    KeyNumberLeads(key);
    LeadNotation();
    LeadingDigits(58, 18023, Value(256, raw) - 18023 * Power(58, 44), 44);
    EncodeNormal(raw);
    LeadingLetters(Notation(58, Value(256, raw)), LEAD);
  }

  /** Keys and their DIDs correspond one to one; every DID carries the fixed start. */
  lemma DidRoundTrip(key: Bytes)
    requires InBase(256, key) && |key| == 32
    ensures KeyOf(DidOf(key)) == Some(key)
    ensures |DidOf(key)| == 56 && DID_PREFIX + TextOf(LEAD) <= DidOf(key)
  {
    hide Encode, Decode, TextOf, Lit;
    var raw := [0xED, 0x01] + key;
    KeyLetters(key);
    DecodeUndoesEncode(raw);
    PrefixLength();
    assert DidOf(key)[9..] == Encode(raw) && DidOf(key)[..9] == DID_PREFIX;
    assert raw[2..] == key;
    assert DidOf(key)[..12] == DID_PREFIX + Encode(raw)[..3];
  }

  lemma PrefixLength()
    ensures |DID_PREFIX| == 9
  {
  }

  lemma DidOfKey(did: Text)
    requires KeyOf(did).Some?
    ensures InBase(256, KeyOf(did).value) && |KeyOf(did).value| == 32 && DidOf(KeyOf(did).value) == did
  {
    hide Encode, Decode, Lit;
    var raw := Decode(did[9..]).value;
    EncodeUndoesDecode(did[9..]);
    assert raw == [0xED, 0x01] + raw[2..];
    assert did == did[..9] + did[9..];
  }
}
