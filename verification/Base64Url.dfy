/** Unpadded base64url signatures (sections 3.5 and 5 of RFC 4648): the slow
    decode-and-re-encode test and the fast last-character test agree. */
module Base64Url {
  import opened Wrappers
  import opened Json
  import opened Radix

  /** The character of a six-bit value: A-Z, a-z, 0-9, dash, underscore. */
  function Char(v: nat): CodePoint
    requires v < 64
  {
    if v < 26 then 0x41 + v
    else if v < 52 then 0x61 + v - 26
    else if v < 62 then 0x30 + v - 52
    else if v == 62 then 0x2D
    else 0x5F
  }

  function Sextet(c: CodePoint): (r: Option<nat>)
    ensures r.Some? ==> r.value < 64
  {
    if 0x41 <= c <= 0x5A then Some(c - 0x41)
    else if 0x61 <= c <= 0x7A then Some(c - 0x61 + 26)
    else if 0x30 <= c <= 0x39 then Some(c - 0x30 + 52)
    else if c == 0x2D then Some(62)
    else if c == 0x5F then Some(63)
    else None
  }

  lemma SextetInverts(v: nat, c: CodePoint)
    ensures v < 64 ==> Sextet(Char(v)) == Some(v)
    ensures Sextet(c).Some? ==> Char(Sextet(c).value) == c
  {
  }

  predicate OverAlphabet(t: Text) {
    forall i | 0 <= i < |t| :: Sextet(t[i]).Some?
  }

  function Sextets(t: Text): (vs: Digits)
    requires OverAlphabet(t)
    ensures |vs| == |t| && InBase(64, vs)
  {
    seq(|t|, i requires 0 <= i < |t| => Sextet(t[i]).value)
  }

  function Spell(vs: Digits): (t: Text)
    requires InBase(64, vs)
    ensures |t| == |vs|
  {
    seq(|vs|, i requires 0 <= i < |vs| => Char(vs[i]))
  }

  function ThreeBytes(a: nat, b: nat, c: nat, d: nat): (bs: Digits)
    requires a < 64 && b < 64 && c < 64 && d < 64
    ensures |bs| == 3 && InBase(256, bs)
  {
    [a * 4 + b / 16, b % 16 * 16 + c / 4, c % 4 * 64 + d]
  }

  function FourSextets(x: nat, y: nat, z: nat): (vs: Digits)
    requires x < 256 && y < 256 && z < 256
    ensures |vs| == 4 && InBase(64, vs)
  {
    [x / 4, x % 4 * 16 + y / 16, y % 16 * 4 + z / 64, z % 64]
  }

  function OneByte(a: nat, b: nat): (x: nat)
    requires a < 64 && b < 64
    ensures x < 256
  {
    a * 4 + b / 16
  }

  function TwoSextets(x: nat): (vs: Digits)
    requires x < 256
    ensures |vs| == 2 && InBase(64, vs)
  {
    [x / 4, x % 4 * 16]
  }

  /** k whole quads give three bytes each; the final pair gives one byte and drops four bits. */
  function Unpack(vs: Digits, k: nat): (raw: Digits)
    requires InBase(64, vs) && |vs| == 4 * k + 2
    ensures InBase(256, raw) && |raw| == 3 * k + 1
    decreases k
  {
    if k == 0 then [OneByte(vs[0], vs[1])]
    else ThreeBytes(vs[0], vs[1], vs[2], vs[3]) + Unpack(vs[4..], k - 1)
  }

  function Pack(raw: Digits, k: nat): (vs: Digits)
    requires InBase(256, raw) && |raw| == 3 * k + 1
    ensures InBase(64, vs) && |vs| == 4 * k + 2
    decreases k
  {
    if k == 0 then TwoSextets(raw[0])
    else FourSextets(raw[0], raw[1], raw[2]) + Pack(raw[3..], k - 1)
  }

  lemma SameHead(head: Digits, xs: Digits, ys: Digits)
    ensures head + xs == head + ys <==> xs == ys
  {
    if head + xs == head + ys {
      assert xs == (head + xs)[|head|..] && ys == (head + ys)[|head|..];
    }
  }

  lemma PackTrio(bs: Digits, rest: Digits, k: nat)
    requires |bs| == 3 && InBase(256, bs) && InBase(256, rest) && |rest| == 3 * k + 1
    ensures Pack(bs + rest, k + 1) == FourSextets(bs[0], bs[1], bs[2]) + Pack(rest, k)
  {
    hide FourSextets;
    assert (bs + rest)[3..] == rest;
  }

  lemma UnpackQuad(q: Digits, rest: Digits, k: nat)
    requires |q| == 4 && InBase(64, q) && InBase(64, rest) && |rest| == 4 * k + 2
    ensures Unpack(q + rest, k + 1) == ThreeBytes(q[0], q[1], q[2], q[3]) + Unpack(rest, k)
  {
    hide ThreeBytes;
    assert (q + rest)[4..] == rest;
  }

  lemma PackQuad(q: Digits, rest: Digits, k: nat)
    requires |q| == 4 && InBase(64, q) && InBase(64, rest) && |rest| == 4 * k + 2
    ensures Pack(Unpack(q + rest, k + 1), k + 1) == q + Pack(Unpack(rest, k), k)
  {
    hide Pack, Unpack, ThreeBytes, FourSextets;
    UnpackQuad(q, rest, k);
    QuadBits(q[0], q[1], q[2], q[3]);
    PackTrio(ThreeBytes(q[0], q[1], q[2], q[3]), Unpack(rest, k), k);
    assert q == [q[0], q[1], q[2], q[3]];
  }

  lemma PackPair(vs: Digits)
    requires InBase(64, vs) && |vs| == 2
    ensures Pack(Unpack(vs, 0), 0) == vs <==> vs[1] % 16 == 0
  {
    hide OneByte, TwoSextets;
    PairBits(vs[0], vs[1]);
    assert vs == [vs[0], vs[1]];
  }

  /** Packing undoes unpacking exactly when the dropped bits were zero. */
  lemma {:induction false} PackUnpack(vs: Digits, k: nat)
    requires InBase(64, vs) && |vs| == 4 * k + 2
    ensures Pack(Unpack(vs, k), k) == vs <==> vs[|vs| - 1] % 16 == 0
    decreases k
  {
    hide Pack, Unpack;
    if k == 0 {
      PackPair(vs);
    } else {
      var head, rest := [vs[0], vs[1], vs[2], vs[3]], vs[4..];
      PackUnpack(rest, k - 1);
      PackQuad(head, rest, k - 1);
      assert vs == head + rest;
      SameHead(head, Pack(Unpack(rest, k - 1), k - 1), rest);
    }
  }

  lemma PairBits(a: nat, b: nat)
    requires a < 64 && b < 64
    ensures TwoSextets(OneByte(a, b)) == [a, b] <==> b % 16 == 0
  {
    SplitByte(a, b / 16);
    assert b == b / 16 * 16 + b % 16;
  }

  lemma QuadBits(a: nat, b: nat, c: nat, d: nat)
    requires a < 64 && b < 64 && c < 64 && d < 64
    ensures var bs := ThreeBytes(a, b, c, d); FourSextets(bs[0], bs[1], bs[2]) == [a, b, c, d]
  {
    hide FourSextets;
    var b1, b0, c1, c0 := b / 16, b % 16, c / 4, c % 4;
    assert b == b1 * 16 + b0 && c == c1 * 4 + c0 && b1 < 4 && c1 < 16;
    SplitQuad(a, b1, b0, c1, c0, d);
  }

  lemma SplitQuad(a: nat, b1: nat, b0: nat, c1: nat, c0: nat, d: nat)
    requires a < 64 && b1 < 4 && b0 < 16 && c1 < 16 && c0 < 4 && d < 64
    ensures FourSextets(a * 4 + b1, b0 * 16 + c1, c0 * 64 + d) == [a, b1 * 16 + b0, c1 * 4 + c0, d]
  {
    SplitByte(a, b1);
    SplitHalves(b0, c1);
    SplitTail(c0, d);
  }

  lemma SplitByte(q: nat, r: nat)
    requires r < 4
    ensures (q * 4 + r) / 4 == q && (q * 4 + r) % 4 == r
  {
  }

  lemma SplitHalves(q: nat, r: nat)
    requires r < 16
    ensures (q * 16 + r) / 16 == q && (q * 16 + r) % 16 == r
  {
  }

  lemma SplitTail(q: nat, r: nat)
    requires r < 64
    ensures (q * 64 + r) / 64 == q && (q * 64 + r) % 64 == r
  {
  }

  lemma ByteBits(x: nat, y: nat, z: nat)
    requires x < 256 && y < 256 && z < 256
    ensures var vs := FourSextets(x, y, z); ThreeBytes(vs[0], vs[1], vs[2], vs[3]) == [x, y, z]
  {
    hide ThreeBytes;
    var x1, x0, y1, y0, z1, z0 := x / 4, x % 4, y / 16, y % 16, z / 64, z % 64;
    assert x == x1 * 4 + x0 && y == y1 * 16 + y0 && z == z1 * 64 + z0 && x1 < 64 && y1 < 16 && z1 < 4;
    JoinBytes(x1, x0, y1, y0, z1, z0);
  }

  lemma JoinBytes(x1: nat, x0: nat, y1: nat, y0: nat, z1: nat, z0: nat)
    requires x1 < 64 && x0 < 4 && y1 < 16 && y0 < 16 && z1 < 4 && z0 < 64
    ensures ThreeBytes(x1, x0 * 16 + y1, y0 * 4 + z1, z0) == [x1 * 4 + x0, y1 * 16 + y0, z1 * 64 + z0]
  {
    SplitHalves(x0, y1);
    SplitByte(y0, z1);
  }

  lemma {:induction false} UnpackPack(raw: Digits, k: nat)
    requires InBase(256, raw) && |raw| == 3 * k + 1
    ensures Unpack(Pack(raw, k), k) == raw
    decreases k
  {
    hide ThreeBytes, FourSextets;
    if k > 0 {
      var q := FourSextets(raw[0], raw[1], raw[2]);
      UnpackPack(raw[3..], k - 1);
      ByteBits(raw[0], raw[1], raw[2]);
      UnpackQuad(q, Pack(raw[3..], k - 1), k - 1);
      assert raw == [raw[0], raw[1], raw[2]] + raw[3..];
    }
  }

  // ---- What the bytes are, without the packing ------------------------------------------

  /** The alphabet in order: capitals, small letters, digits, the dash and the underscore. */
  lemma AlphabetOrder(v: nat)
    requires v < 64
    ensures v < 26 ==> Char(v) == 'A' as nat + v
    ensures 26 <= v < 52 ==> Char(v) == 'a' as nat + v - 26
    ensures 52 <= v < 62 ==> Char(v) == '0' as nat + v - 52
    ensures v == 62 ==> Char(v) == '-' as nat
    ensures v == 63 ==> Char(v) == '_' as nat
  {
  }

  lemma {:induction false} PowersMeet(k: nat)
    ensures Power(64, 4 * k + 2) == Power(256, 3 * k + 1) * 16
  {
    if k == 0 {
      assert Power(64, 2) == 4096 && Power(256, 1) == 256;
    } else {
      PowersMeet(k - 1);
      PowerAdds(64, 4, 4 * (k - 1) + 2);
      PowerAdds(256, 3, 3 * (k - 1) + 1);
      assert Power(64, 4) == 16777216 by { assert Power(64, 2) == 4096; }
      assert Power(256, 3) == 16777216 by { assert Power(256, 1) == 256; }
    }
  }

  lemma TwoDigits(b: nat, x: nat, y: nat)
    ensures Value(b, [x, y]) == x * b + y
  {
    assert [x, y][..1] == [x] && [x][..0] == [];
    assert Value(b, [x]) == Value(b, []) * b + x;
  }

  lemma ThreeDigits(b: nat, x: nat, y: nat, z: nat)
    ensures Value(b, [x, y, z]) == (x * b + y) * b + z
  {
    TwoDigits(b, x, y);
    assert [x, y, z][..2] == [x, y];
  }

  lemma FourDigits(b: nat, w: nat, x: nat, y: nat, z: nat)
    ensures Value(b, [w, x, y, z]) == ((w * b + x) * b + y) * b + z
  {
    ThreeDigits(b, w, x, y);
    assert [w, x, y, z][..3] == [w, x, y];
  }

  /** The halves of the two middle sextets, regrouped. */
  lemma QuadSum(a: nat, b1: nat, b0: nat, c1: nat, c0: nat, d: nat)
    ensures ((a * 64 + (b1 * 16 + b0)) * 64 + (c1 * 4 + c0)) * 64 + d
            == ((a * 4 + b1) * 256 + (b0 * 16 + c1)) * 256 + (c0 * 64 + d)
  {
  }

  lemma QuadValue(a: nat, b: nat, c: nat, d: nat)
    requires a < 64 && b < 64 && c < 64 && d < 64
    ensures Value(64, [a, b, c, d]) == Value(256, ThreeBytes(a, b, c, d))
  {
    hide Value;
    FourDigits(64, a, b, c, d);
    ThreeDigits(256, a * 4 + b / 16, b % 16 * 16 + c / 4, c % 4 * 64 + d);
    QuadSum(a, b / 16, b % 16, c / 4, c % 4, d);
  }

  /** The decoded bytes are the number the characters spell, most significant first, without its
      last four bits. */
  lemma {:induction false} UnpackValue(vs: Digits, k: nat)
    requires InBase(64, vs) && |vs| == 4 * k + 2
    ensures Value(64, vs) == Value(256, Unpack(vs, k)) * 16 + vs[|vs| - 1] % 16
    decreases k
  {
    hide ThreeBytes, FourSextets, Value;
    if k == 0 {
      PairValue(vs[0], vs[1]);
      assert vs == [vs[0], vs[1]];
    } else {
      UnpackValue(vs[4..], k - 1);
      UnpackMore(vs, k);
    }
  }

  lemma UnpackMore(vs: Digits, k: nat)
    requires InBase(64, vs) && |vs| == 4 * k + 2 && k > 0
    requires Value(64, vs[4..]) == Value(256, Unpack(vs[4..], k - 1)) * 16 + vs[|vs| - 1] % 16
    ensures Value(64, vs) == Value(256, Unpack(vs, k)) * 16 + vs[|vs| - 1] % 16
  {
    hide ThreeBytes, FourSextets, Value, Power;
    var quad, rest := vs[..4], vs[4..];
    assert vs == quad + rest && quad == [vs[0], vs[1], vs[2], vs[3]];
    var bytes, more := ThreeBytes(vs[0], vs[1], vs[2], vs[3]), Unpack(rest, k - 1);
    assert Unpack(vs, k) == bytes + more;
    QuadValue(vs[0], vs[1], vs[2], vs[3]);
    ValueOfConcat(64, quad, rest);
    ValueOfConcat(256, bytes, more);
    PowersMeet(k - 1);
    Regrouped(Value(64, quad), Power(64, |rest|), Power(256, |more|), Value(64, rest), Value(256, more), vs[|vs| - 1] % 16);
  }

  lemma PairValue(a: nat, b: nat)
    requires a < 64 && b < 64
    ensures Value(64, [a, b]) == Value(256, [OneByte(a, b)]) * 16 + b % 16
  {
    assert [a, b][..1] == [a] && [a][..0] == [] && [OneByte(a, b)][..0] == [];
    assert Value(64, [a]) == a;
  }

  lemma Regrouped(q: nat, p: nat, p': nat, v: nat, w: nat, low: nat)
    requires p == p' * 16 && v == w * 16 + low
    ensures q * p + v == (q * p' + w) * 16 + low
  {
    assert q * (p' * 16) == q * p' * 16;
  }

  // ---- The two tests for a retained signature -------------------------------------------

  /** The pattern of 86 unpadded base64url characters. */
  predicate SignatureShaped(t: Text) {
    |t| == 86 && OverAlphabet(t)
  }

  /** Decode to 64 bytes and compare the re-encoding. */
  function DecodeSignature(t: Text): Option<Digits> {
    if !SignatureShaped(t) then None
    else
      var raw := Unpack(Sextets(t), 21);
      if Spell(Pack(raw, 21)) == t then Some(raw) else None
  }

  /** The pattern with the last character restricted to A, Q, g or w. */
  predicate FastCanonical(t: Text) {
    SignatureShaped(t) && t[85] in {0x41, 0x51, 0x67, 0x77}
  }

  lemma LastCharacter(c: CodePoint)
    requires Sextet(c).Some?
    ensures Sextet(c).value % 16 == 0 <==> c in {0x41, 0x51, 0x67, 0x77}
  {
  }

  lemma SpellInverts(t: Text)
    requires OverAlphabet(t)
    ensures Spell(Sextets(t)) == t
  {
    forall i | 0 <= i < |t|
      ensures Spell(Sextets(t))[i] == t[i]
    {
      SextetInverts(0, t[i]);
    }
  }

  lemma SpellInjective(vs: Digits, ws: Digits)
    requires InBase(64, vs) && InBase(64, ws) && Spell(vs) == Spell(ws)
    ensures vs == ws
  {
    forall i | 0 <= i < |vs|
      ensures vs[i] == ws[i]
    {
      SextetInverts(vs[i], 0);
      SextetInverts(ws[i], 0);
      assert Spell(vs)[i] == Spell(ws)[i];
    }
  }

  /** The fast test accepts exactly the strings that survive decoding and re-encoding. */
  lemma FastTestIsExact(t: Text)
    ensures FastCanonical(t) <==> DecodeSignature(t).Some?
    ensures DecodeSignature(t).Some? ==> |DecodeSignature(t).value| == 64
  {
    if SignatureShaped(t) {
      var vs := Sextets(t);
      PackUnpack(vs, 21);
      LastCharacter(t[85]);
      SpellInverts(t);
      if Spell(Pack(Unpack(vs, 21), 21)) == t { SpellInjective(Pack(Unpack(vs, 21), 21), vs); }
    }
  }

  lemma SpellReads(vs: Digits)
    requires InBase(64, vs)
    ensures OverAlphabet(Spell(vs)) && Sextets(Spell(vs)) == vs
  {
    forall i | 0 <= i < |vs|
      ensures Sextet(Spell(vs)[i]) == Some(vs[i])
    {
      SextetInverts(vs[i], 0);
    }
  }

  /** Every 64-byte signature has exactly one accepted text. */
  lemma SignatureRoundTrip(raw: Digits, t: Text)
    requires InBase(256, raw) && |raw| == 64
    ensures DecodeSignature(t) == Some(raw) <==> t == Spell(Pack(raw, 21))
  {
    hide Spell, Sextets, Pack, Unpack, OverAlphabet;
    UnpackPack(raw, 21);
    SpellReads(Pack(raw, 21));
  }
}
