/** The regular expressions of the source, as data with a matcher of their own, and the character
    tests of the model that stand for them. */
module Patterns {
  import opened Wrappers
  import opened Json
  import opened Frames
  import opened Base64Url
  import CrossRoom
  import CloseCall

  // A literal word, or a bracketed class repeated between two bounds (no upper bound if None).
  datatype Piece = Word(text: string) | Class(ranges: seq<(char, char)>, least: nat, most: Option<nat>)

  predicate InClass(c: CodePoint, ranges: seq<(char, char)>) {
    exists k :: 0 <= k < |ranges| && ranges[k].0 as nat <= c <= ranges[k].1 as nat
  }

  predicate AllIn(t: Text, ranges: seq<(char, char)>) {
    forall i | 0 <= i < |t| :: InClass(t[i], ranges)
  }

  /** fullmatch */
  predicate FullMatch(ps: seq<Piece>, t: Text) {
    if ps == [] then t == []
    else
      match ps[0]
      case Word(w) => |w| <= |t| && t[..|w|] == Lit(w) && FullMatch(ps[1..], t[|w|..])
      case Class(ranges, least, most) =>
        exists n: nat :: n <= |t| && least <= n && (most.Some? ==> n <= most.value) && AllIn(t[..n], ranges) && FullMatch(ps[1..], t[n..])
  }

  const DIGIT := [('0', '9')]
  const HEX := [('0', '9'), ('a', 'f')]
  const BASE58 := [('1', '9'), ('A', 'H'), ('J', 'N'), ('P', 'Z'), ('a', 'k'), ('m', 'z')]
  const WORD_OR_DASH := [('A', 'Z'), ('a', 'z'), ('0', '9'), ('_', '_'), ('-', '-')]
  const LOWER := [('a', 'z'), ('0', '9')]
  const LOWER_DOTTED := [('a', 'z'), ('0', '9'), ('.', '.'), ('_', '_'), ('-', '-')]
  const LOWER_DASHED := [('a', 'z'), ('0', '9'), ('_', '_'), ('-', '-')]

  // ---- Classes ----------------------------------------------------------------------------------

  lemma SmallClasses(c: CodePoint)
    ensures IsDigit(c) <==> InClass(c, DIGIT)
    ensures 0x31 <= c <= 0x39 <==> InClass(c, [('1', '9')])
    ensures LowerHex(c) <==> InClass(c, HEX)
    ensures LowerOrDigit(c) <==> InClass(c, LOWER)
  {
    assert DIGIT[0] == ('0', '9') && [('1', '9')][0] == ('1', '9');
    assert HEX[0] == ('0', '9') && HEX[1] == ('a', 'f');
    assert LOWER[0] == ('a', 'z') && LOWER[1] == ('0', '9');
  }

  lemma Base58Class(c: CodePoint)
    ensures Base58Char(c) <==> InClass(c, BASE58)
  {
    assert BASE58[0] == ('1', '9') && BASE58[1] == ('A', 'H') && BASE58[2] == ('J', 'N');
    assert BASE58[3] == ('P', 'Z') && BASE58[4] == ('a', 'k') && BASE58[5] == ('m', 'z');
  }

  lemma WordClasses(c: CodePoint)
    ensures WordOrDash(c) <==> InClass(c, WORD_OR_DASH)
    ensures Sextet(c).Some? <==> InClass(c, WORD_OR_DASH)
  {
    assert WORD_OR_DASH[0] == ('A', 'Z') && WORD_OR_DASH[1] == ('a', 'z') && WORD_OR_DASH[2] == ('0', '9');
    assert WORD_OR_DASH[3] == ('_', '_') && WORD_OR_DASH[4] == ('-', '-');
  }

  lemma LowerClasses(c: CodePoint)
    ensures LowerOrDigit(c) || c in {0x2E, 0x5F, 0x2D} <==> InClass(c, LOWER_DOTTED)
    ensures LowerOrDigit(c) || c in {0x5F, 0x2D} <==> InClass(c, LOWER_DASHED)
  {
    assert LOWER_DOTTED[0] == ('a', 'z') && LOWER_DOTTED[1] == ('0', '9') && LOWER_DOTTED[2] == ('.', '.');
    assert LOWER_DOTTED[3] == ('_', '_') && LOWER_DOTTED[4] == ('-', '-');
    assert LOWER_DASHED[0] == ('a', 'z') && LOWER_DASHED[1] == ('0', '9') && LOWER_DASHED[2] == ('_', '_') && LOWER_DASHED[3] == ('-', '-');
  }

  // ---- Shapes -------------------------------------------------------------------------------------

  lemma Last(ranges: seq<(char, char)>, least: nat, most: Option<nat>, t: Text)
    ensures FullMatch([Class(ranges, least, most)], t)
            <==> least <= |t| && (most.Some? ==> |t| <= most.value) && AllIn(t, ranges)
  {
    hide AllIn;
    var ps := [Class(ranges, least, most)];
    assert ps[1..] == [];
    assert t[..|t|] == t && t[|t|..] == [];
    if FullMatch(ps, t) {
      var n: nat :| n <= |t| && least <= n && (most.Some? ==> n <= most.value) && AllIn(t[..n], ranges) && FullMatch(ps[1..], t[n..]);
      assert n == |t|;
    }
  }

  lemma FirstThenLast(first: seq<(char, char)>, ranges: seq<(char, char)>, least: nat, most: Option<nat>, t: Text)
    ensures FullMatch([Class(first, 1, Some(1)), Class(ranges, least, most)], t)
            <==> 1 + least <= |t| && (most.Some? ==> |t| <= 1 + most.value) && InClass(t[0], first) && AllIn(t[1..], ranges)
  {
    hide InClass;
    var ps := [Class(first, 1, Some(1)), Class(ranges, least, most)];
    assert ps[1..] == [Class(ranges, least, most)];
    if |t| >= 1 {
      Last(ranges, least, most, t[1..]);
      assert AllIn(t[..1], first) <==> InClass(t[0], first);
    }
    if FullMatch(ps, t) {
      var n: nat :| n <= |t| && 1 <= n && n <= 1 && AllIn(t[..n], first) && FullMatch(ps[1..], t[n..]);
    }
  }

  lemma WordThenLast(w: string, ranges: seq<(char, char)>, least: nat, most: Option<nat>, t: Text)
    ensures FullMatch([Word(w), Class(ranges, least, most)], t)
            <==> |w| <= |t| && t[..|w|] == Lit(w)
                 && |w| + least <= |t| && (most.Some? ==> |t| <= |w| + most.value) && AllIn(t[|w|..], ranges)
  {
    hide AllIn, Lit;
    var ps := [Word(w), Class(ranges, least, most)];
    assert ps[1..] == [Class(ranges, least, most)];
    if |w| <= |t| { Last(ranges, least, most, t[|w|..]); }
  }

  // ---- The patterns, as written in the source --------------------------------------------------------

  /** did:key:z6Mk[1-9A-HJ-NP-Za-km-z]{44} */
  lemma DidPattern(t: Text)
    ensures IsDid(t) <==> FullMatch([Word("did:key:z6Mk"), Class(BASE58, 44, Some(44))], t)
  {
    hide InClass, FullMatch, Base58Char, Lit;
    WordThenLast("did:key:z6Mk", BASE58, 44, Some(44), t);
    if |t| == 56 {
      var rest := t[12..];
      forall i | 0 <= i < 44
        ensures Base58Char(t[i + 12]) <==> InClass(rest[i], BASE58)
      {
        Base58Class(rest[i]);
      }
      if AllIn(rest, BASE58) {
        forall i | 12 <= i < 56
          ensures Base58Char(t[i])
        {
          assert InClass(rest[i - 12], BASE58);
        }
      }
    }
  }

  /** 0x[0-9a-f]{64} */
  lemma Hex32Pattern(t: Text)
    ensures IsHex32(t) <==> FullMatch([Word("0x"), Class(HEX, 64, Some(64))], t)
  {
    hide InClass, FullMatch, LowerHex;
    WordThenLast("0x", HEX, 64, Some(64), t);
    assert Lit("0x") == [0x30, 0x78];
    if |t| == 66 {
      var rest := t[2..];
      forall i | 0 <= i < 64
        ensures LowerHex(t[i + 2]) <==> InClass(rest[i], HEX)
      {
        SmallClasses(rest[i]);
      }
      if AllIn(rest, HEX) {
        forall i | 2 <= i < 66
          ensures LowerHex(t[i])
        {
          assert InClass(rest[i - 2], HEX);
        }
      }
    }
  }

  /** [1-9][0-9]* */
  lemma AmountPattern(t: Text)
    ensures IsAmount(t) <==> FullMatch([Class([('1', '9')], 1, Some(1)), Class(DIGIT, 0, None)], t)
  {
    hide InClass, FullMatch, IsDigit;
    FirstThenLast([('1', '9')], DIGIT, 0, None, t);
    if t != [] {
      SmallClasses(t[0]);
      var rest := t[1..];
      forall i | 0 <= i < |rest|
        ensures IsDigit(t[i + 1]) <==> InClass(rest[i], DIGIT)
      {
        SmallClasses(rest[i]);
      }
      if AllIn(rest, DIGIT) {
        forall i | 1 <= i < |t|
          ensures IsDigit(t[i])
        {
          assert InClass(rest[i - 1], DIGIT);
        }
      }
    }
  }

  /** [A-Za-z0-9_-]{1,32} */
  lemma AssetPattern(t: Text)
    ensures IsAsset(t) <==> FullMatch([Class(WORD_OR_DASH, 1, Some(32))], t)
  {
    hide InClass, FullMatch, WordOrDash;
    Last(WORD_OR_DASH, 1, Some(32), t);
    forall i | 0 <= i < |t|
      ensures WordOrDash(t[i]) <==> InClass(t[i], WORD_OR_DASH)
    {
      WordClasses(t[i]);
    }
  }

  /** [0-9a-f]{8,64} */
  lemma NoncePattern(t: Text)
    ensures IsNonce(t) <==> FullMatch([Class(HEX, 8, Some(64))], t)
  {
    hide InClass, FullMatch, LowerHex;
    Last(HEX, 8, Some(64), t);
    forall i | 0 <= i < |t|
      ensures LowerHex(t[i]) <==> InClass(t[i], HEX)
    {
      SmallClasses(t[i]);
    }
  }

  /** [A-Za-z0-9_-]{86} */
  lemma SignaturePattern(t: Text)
    ensures SignatureShaped(t) <==> FullMatch([Class(WORD_OR_DASH, 86, Some(86))], t)
  {
    hide InClass, FullMatch, Sextet;
    Last(WORD_OR_DASH, 86, Some(86), t);
    forall i | 0 <= i < |t|
      ensures Sextet(t[i]).Some? <==> InClass(t[i], WORD_OR_DASH)
    {
      WordClasses(t[i]);
    }
  }

  /** [0-9a-f]{64} */
  lemma HashPattern(t: Text)
    ensures CloseCall.IsHash(t) <==> FullMatch([Class(HEX, 64, Some(64))], t)
  {
    hide InClass, FullMatch, LowerHex;
    Last(HEX, 64, Some(64), t);
    forall i | 0 <= i < |t|
      ensures LowerHex(t[i]) <==> InClass(t[i], HEX)
    {
      SmallClasses(t[i]);
    }
  }

  lemma LowerRest(t: Text, ranges: seq<(char, char)>, extra: set<nat>)
    requires t != [] && forall c: CodePoint :: LowerOrDigit(c) || c in extra <==> InClass(c, ranges)
    ensures AllIn(t[1..], ranges) <==> forall i | 1 <= i < |t| :: LowerOrDigit(t[i]) || t[i] in extra
  {
    hide InClass, LowerOrDigit;
    var rest := t[1..];
    if AllIn(rest, ranges) {
      forall i | 1 <= i < |t|
        ensures LowerOrDigit(t[i]) || t[i] in extra
      {
        assert InClass(rest[i - 1], ranges);
      }
    }
  }

  /** [a-z0-9][a-z0-9._-]{0,63}, and the same with 31 for a job's protocol */
  lemma RailPattern(t: Text)
    ensures IsRail(t) <==> FullMatch([Class(LOWER, 1, Some(1)), Class(LOWER_DOTTED, 0, Some(63))], t)
    ensures IsProto(t) <==> FullMatch([Class(LOWER, 1, Some(1)), Class(LOWER_DOTTED, 0, Some(31))], t)
  {
    hide InClass, FullMatch, LowerOrDigit, AllIn;
    FirstThenLast(LOWER, LOWER_DOTTED, 0, Some(63), t);
    FirstThenLast(LOWER, LOWER_DOTTED, 0, Some(31), t);
    if t != [] {
      SmallClasses(t[0]);
      forall c: CodePoint
        ensures LowerOrDigit(c) || c in {0x2E, 0x5F, 0x2D} <==> InClass(c, LOWER_DOTTED)
      {
        LowerClasses(c);
      }
      LowerRest(t, LOWER_DOTTED, {0x2E, 0x5F, 0x2D});
    }
  }

  /** [a-z0-9][a-z0-9_-]{0,47} */
  lemma RoomPattern(t: Text)
    ensures CrossRoom.IsRoom(t) <==> FullMatch([Class(LOWER, 1, Some(1)), Class(LOWER_DASHED, 0, Some(47))], t)
  {
    hide InClass, FullMatch, LowerOrDigit, AllIn;
    FirstThenLast(LOWER, LOWER_DASHED, 0, Some(47), t);
    if t != [] {
      SmallClasses(t[0]);
      forall c: CodePoint
        ensures LowerOrDigit(c) || c in {0x5F, 0x2D} <==> InClass(c, LOWER_DASHED)
      {
        LowerClasses(c);
      }
      LowerRest(t, LOWER_DASHED, {0x5F, 0x2D});
    }
  }

  /** The bounds on times and text: 1 to 9007199254740991, and 4096 characters. */
  lemma Bounds(n: int)
    ensures IsMs(n) <==> 1 <= n <= 9_007_199_254_740_991
    ensures MAX_CHARS == 4096
  {
  }
}
