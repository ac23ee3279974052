/** The exact text json.dumps writes, given character by character and without the writer. */
module Spelling {
  import opened Wrappers
  import opened Json
  import opened CanonicalJson

  const DIGITS: string := "0123456789"
  const LOWER_HEX: string := "0123456789abcdef"

  /** One UTF-16 unit as a lower-case escape. */
  function Escaped(u: nat): Text
    requires u < 0x10000
  {
    Lit("\\u") + [LOWER_HEX[u / 4096] as nat, LOWER_HEX[u / 256 % 16] as nat, LOWER_HEX[u / 16 % 16] as nat, LOWER_HEX[u % 16] as nat]
  }

  /** The seven short escapes, printable ASCII as itself, a lower-case escape for anything else, and
      two of them, a surrogate pair, above U+FFFF (section 7 of RFC 8259). */
  function Spelled(c: CodePoint): Text {
    if c == '"' as nat then Lit("\\\"")
    else if c == '\\' as nat then Lit("\\\\")
    else if c == 8 then Lit("\\b")
    else if c == 9 then Lit("\\t")
    else if c == 10 then Lit("\\n")
    else if c == 12 then Lit("\\f")
    else if c == 13 then Lit("\\r")
    else if ' ' as nat <= c <= '~' as nat then [c]
    else if c < 0x10000 then Escaped(c)
    else Escaped(0xD800 + (c - 0x10000) / 1024) + Escaped(0xDC00 + (c - 0x10000) % 1024)
  }

  function SpelledAll(s: Text): Text {
    if s == [] then [] else Spelled(s[0]) + SpelledAll(s[1..])
  }

  function Quoted(s: Text): Text {
    Lit("\"") + SpelledAll(s) + Lit("\"")
  }

  function Decimal(n: nat): Text {
    if n < 10 then [DIGITS[n] as nat] else Decimal(n / 10) + [DIGITS[n % 10] as nat]
  }

  function Number(n: int): Text {
    if n < 0 then Lit("-") + Decimal(-n) else Decimal(n)
  }

  /** The compact text of a value, without a space anywhere. */
  function TextOf(v: Json): Text {
    match v
    case JStr(s) => Quoted(s)
    case JInt(n) => Number(n)
    case JArr(items) => Lit("[") + Listed(items) + Lit("]")
    case JObj(fields) => Lit("{") + Paired(fields) + Lit("}")
  }

  function Listed(items: Items): Text {
    match items
    case NoItems => []
    case Item(v, rest) => TextOf(v) + if rest == NoItems then [] else Lit(",") + Listed(rest)
  }

  function Paired(fs: Fields): Text {
    match fs
    case NoFields => []
    case Field(k, v, rest) => Quoted(k) + Lit(":") + TextOf(v) + if rest == NoFields then [] else Lit(",") + Paired(rest)
  }

  // ---- The writer writes exactly this --------------------------------------------------------

  lemma HexDigitSpelled(d: nat)
    requires d < 16
    ensures HexDigit(d) == LOWER_HEX[d] as nat
  {
  }

  lemma UnitSpelled(u: nat, rest: Text)
    requires u < 0x10000
    ensures WriteUnit(u, rest) == Escaped(u) + rest
  {
    hide HexDigit;
    HexDigitSpelled(u / 4096);
    HexDigitSpelled(u / 256 % 16);
    HexDigitSpelled(u / 16 % 16);
    HexDigitSpelled(u % 16);
    assert Lit("\\u") == [BACKSLASH, LETTER_U];
  }

  lemma ShortSpelled(c: CodePoint)
    requires ShortEscape(c).Some?
    ensures Spelled(c) == [BACKSLASH, ShortEscape(c).value]
  {
    assert Lit("\\\"") == [BACKSLASH, QUOTE] && Lit("\\\\") == [BACKSLASH, BACKSLASH];
    assert Lit("\\b") == [BACKSLASH, 0x62] && Lit("\\t") == [BACKSLASH, 0x74] && Lit("\\n") == [BACKSLASH, 0x6E];
    assert Lit("\\f") == [BACKSLASH, 0x66] && Lit("\\r") == [BACKSLASH, 0x72];
  }

  lemma OthersSpelled(c: CodePoint)
    requires ShortEscape(c).None?
    ensures 0x20 <= c <= 0x7E ==> Spelled(c) == [c]
    ensures !(0x20 <= c <= 0x7E) && c < 0x10000 ==> Spelled(c) == Escaped(c)
    ensures c >= 0x10000 ==> Spelled(c) == Escaped(High(c)) + Escaped(Low(c))
  {
    hide Lit, Escaped;
  }

  lemma CharSpelled(c: CodePoint, rest: Text)
    ensures WriteChar(c, rest) == Spelled(c) + rest
  {
    hide Lit, Spelled, Escaped, WriteUnit, ShortEscape;
    if ShortEscape(c).Some? {
      ShortSpelled(c);
    } else {
      OthersSpelled(c);
      if c < 0x10000 {
        UnitSpelled(c, rest);
      } else {
        UnitSpelled(High(c), WriteUnit(Low(c), rest));
        UnitSpelled(Low(c), rest);
        assert Escaped(High(c)) + (Escaped(Low(c)) + rest) == Escaped(High(c)) + Escaped(Low(c)) + rest;
      }
    }
  }

  lemma {:induction false} CharsSpelled(s: Text, rest: Text)
    ensures WriteChars(s, rest) == SpelledAll(s) + rest
  {
    hide Spelled, WriteChar;
    if s == [] {
      assert [] + rest == rest;
    } else {
      CharsSpelled(s[1..], rest);
      CharSpelled(s[0], SpelledAll(s[1..]) + rest);
      assert Spelled(s[0]) + (SpelledAll(s[1..]) + rest) == SpelledAll(s) + rest;
    }
  }

  lemma StringSpelled(s: Text, rest: Text)
    ensures WriteString(s, rest) == Quoted(s) + rest
  {
    hide SpelledAll, WriteChars;
    CharsSpelled(s, [QUOTE] + rest);
    assert Lit("\"") == [QUOTE];
    assert [QUOTE] + (SpelledAll(s) + ([QUOTE] + rest)) == [QUOTE] + SpelledAll(s) + [QUOTE] + rest;
  }

  lemma {:induction false} NatSpelled(n: nat, rest: Text)
    ensures WriteNat(n, rest) == Decimal(n) + rest
  {
    assert DIGITS[n % 10] as nat == 0x30 + n % 10;
    if n >= 10 {
      NatSpelled(n / 10, [0x30 + n % 10] + rest);
      assert Decimal(n / 10) + ([0x30 + n % 10] + rest) == Decimal(n) + rest;
    }
  }

  lemma IntSpelled(n: int, rest: Text)
    ensures WriteInt(n, rest) == Number(n) + rest
  {
    hide WriteNat, Decimal;
    assert Lit("-") == [MINUS];
    if n < 0 {
      NatSpelled(-n, rest);
      assert [MINUS] + (Decimal(-n) + rest) == [MINUS] + Decimal(-n) + rest;
    } else {
      NatSpelled(n, rest);
    }
  }

  lemma Punctuation()
    ensures Lit("[") == [OPEN_ARRAY] && Lit("]") == [CLOSE_ARRAY] && Lit("{") == [OPEN_OBJECT] && Lit("}") == [CLOSE_OBJECT]
    ensures Lit(",") == [COMMA] && Lit(":") == [COLON]
  {
  }

  /** The text of a value is fixed character by character. */
  lemma {:induction false} ValueSpelled(v: Json, rest: Text)
    ensures Write(v, rest) == TextOf(v) + rest
    decreases v, 1
  {
    hide Lit, WriteString, WriteInt, Quoted, Number, Paired, Listed, WriteItems, WriteFields;
    Punctuation();
    match v
    case JStr(s) => StringSpelled(s, rest);
    case JInt(n) => IntSpelled(n, rest);
    case JArr(items) => ArraySpelled(items, rest);
    case JObj(fields) => ObjectSpelled(fields, rest);
  }

  lemma {:induction false} ArraySpelled(items: Items, rest: Text)
    ensures Write(JArr(items), rest) == Lit("[") + Listed(items) + Lit("]") + rest
    decreases items, 1
  {
    hide Lit;
    Punctuation();
    match items
    case NoItems => assert [OPEN_ARRAY] + [] + [CLOSE_ARRAY] == [OPEN_ARRAY, CLOSE_ARRAY];
    case Item(v, tail) =>
      hide Write, WriteItems, TextOf, Listed;
      ListHead(v, tail);
      WriteArray(v, tail, rest);
      ItemsSpelled(tail, rest);
      ValueSpelled(v, WriteItems(tail, rest));
      var more := if tail == NoItems then [] else Lit(",") + Listed(tail);
      assert [OPEN_ARRAY] + (TextOf(v) + (more + [CLOSE_ARRAY] + rest)) == [OPEN_ARRAY] + (TextOf(v) + more) + [CLOSE_ARRAY] + rest;
  }

  lemma ListHead(v: Json, tail: Items)
    ensures Listed(Item(v, tail)) == TextOf(v) + if tail == NoItems then [] else Lit(",") + Listed(tail)
  {
  }

  lemma WriteArray(v: Json, tail: Items, rest: Text)
    ensures Write(JArr(Item(v, tail)), rest) == [OPEN_ARRAY] + Write(v, WriteItems(tail, rest))
  {
  }

  lemma {:induction false} ItemsSpelled(items: Items, rest: Text)
    ensures WriteItems(items, rest) == (if items == NoItems then [] else Lit(",") + Listed(items)) + [CLOSE_ARRAY] + rest
    decreases items, 0
  {
    hide Lit;
    Punctuation();
    match items
    case NoItems =>
    case Item(v, tail) =>
      assert WriteItems(items, rest) == [COMMA] + Write(v, WriteItems(tail, rest));
      hide Write, WriteItems, TextOf, Listed;
      ListHead(v, tail);
      ItemsSpelled(tail, rest);
      ValueSpelled(v, WriteItems(tail, rest));
      var more := if tail == NoItems then [] else Lit(",") + Listed(tail);
      assert [COMMA] + (TextOf(v) + (more + [CLOSE_ARRAY] + rest)) == [COMMA] + (TextOf(v) + more) + [CLOSE_ARRAY] + rest;
  }

  lemma PairHead(k: Text, v: Json, tail: Fields)
    ensures Paired(Field(k, v, tail)) == Quoted(k) + Lit(":") + TextOf(v) + if tail == NoFields then [] else Lit(",") + Paired(tail)
  {
  }

  lemma WriteObject(k: Text, v: Json, tail: Fields, rest: Text)
    ensures Write(JObj(Field(k, v, tail)), rest) == [OPEN_OBJECT] + WriteString(k, [COLON] + Write(v, WriteFields(tail, rest)))
  {
  }

  lemma Joined(head: Text, q: Text, t: Text, more: Text, end: Text, rest: Text)
    ensures head + (q + ([COLON] + (t + (more + end + rest)))) == head + (q + [COLON] + t + more) + end + rest
  {
  }

  lemma {:induction false} ObjectSpelled(fields: Fields, rest: Text)
    ensures Write(JObj(fields), rest) == Lit("{") + Paired(fields) + Lit("}") + rest
    decreases fields, 1
  {
    hide Lit;
    Punctuation();
    match fields
    case NoFields => assert [OPEN_OBJECT] + [] + [CLOSE_OBJECT] == [OPEN_OBJECT, CLOSE_OBJECT];
    case Field(k, v, tail) =>
      hide Write, WriteFields, TextOf, Paired, Quoted, WriteString;
      PairHead(k, v, tail);
      WriteObject(k, v, tail, rest);
      FieldsSpelled(tail, rest);
      ValueSpelled(v, WriteFields(tail, rest));
      StringSpelled(k, [COLON] + Write(v, WriteFields(tail, rest)));
      Joined([OPEN_OBJECT], Quoted(k), TextOf(v), if tail == NoFields then [] else Lit(",") + Paired(tail), [CLOSE_OBJECT], rest);
  }

  lemma {:induction false} FieldsSpelled(fields: Fields, rest: Text)
    ensures WriteFields(fields, rest) == (if fields == NoFields then [] else Lit(",") + Paired(fields)) + [CLOSE_OBJECT] + rest
    decreases fields, 0
  {
    hide Lit;
    Punctuation();
    match fields
    case NoFields =>
    case Field(k, v, tail) =>
      assert WriteFields(fields, rest) == [COMMA] + WriteString(k, [COLON] + Write(v, WriteFields(tail, rest)));
      hide Write, WriteFields, TextOf, Paired, Quoted, WriteString;
      PairHead(k, v, tail);
      FieldsSpelled(tail, rest);
      ValueSpelled(v, WriteFields(tail, rest));
      StringSpelled(k, [COLON] + Write(v, WriteFields(tail, rest)));
      Joined([COMMA], Quoted(k), TextOf(v), if tail == NoFields then [] else Lit(",") + Paired(tail), [CLOSE_OBJECT], rest);
  }

  /** The canonical text is the compact text of the value with its keys sorted. */
  lemma CanonicalSpelled(v: Json)
    ensures Canonical(v) == TextOf(Canon(v))
  {
    ValueSpelled(Canon(v), []);
    assert TextOf(Canon(v)) + [] == TextOf(Canon(v));
  }

  lemma {:induction false} SpelledConcat(s: Text, t: Text)
    ensures SpelledAll(s + t) == SpelledAll(s) + SpelledAll(t)
  {
    hide Spelled;
    if s == [] {
      assert s + t == t;
    } else {
      assert (s + t)[1..] == s[1..] + t;
      SpelledConcat(s[1..], t);
    }
  }

  /** Text of letters, digits and other printable characters but the quote and the backslash. */
  predicate Plain(s: Text) {
    forall i | 0 <= i < |s| :: ' ' as nat <= s[i] <= '~' as nat && s[i] != '"' as nat && s[i] != '\\' as nat
  }

  lemma {:induction false} PlainSpelled(s: Text)
    requires Plain(s)
    ensures SpelledAll(s) == s
  {
    if s != [] {
      hide Lit, Escaped;
      PlainSpelled(s[1..]);
      assert [s[0]] + s[1..] == s;
    }
  }

  lemma EAcute()
    ensures Escaped(0xE9) == Lit("\\u00e9")
  {
  }

  lemma HighOfGrin()
    ensures Escaped(0xD83D) == Lit("\\ud83d")
  {
  }

  lemma LowOfGrin()
    ensures Escaped(0xDE00) == Lit("\\ude00")
  {
  }

  lemma AccentsSpelled()
    ensures SpelledAll([0xE9, 0x1F600]) == Lit("\\u00e9") + (Lit("\\ud83d") + Lit("\\ude00"))
  {
    hide Lit, Escaped;
    EAcute();
    HighOfGrin();
    LowOfGrin();
    assert Spelled(0xE9) == Escaped(0xE9) && Spelled(0x1F600) == Escaped(0xD83D) + Escaped(0xDE00);
    var s: Text, t: Text := [0xE9, 0x1F600], [0x1F600];
    assert s[1..] == t && t[1..] == [];
    assert SpelledAll(t) == Spelled(0x1F600) by { assert Spelled(0x1F600) + [] == Spelled(0x1F600); }
  }

  lemma CafIsPlain()
    ensures Plain(Lit("caf"))
  {
  }

  /** For example, a word with U+00E9 and U+1F600. */
  lemma AccentSpelled()
    ensures Canonical(JStr(Lit("caf") + [0xE9, 0x1F600]))
            == Lit("\"") + (Lit("caf") + (Lit("\\u00e9") + (Lit("\\ud83d") + Lit("\\ude00")))) + Lit("\"")
  {
    hide Lit, SpelledAll, Plain, Write;
    CanonicalSpelled(JStr(Lit("caf") + [0xE9, 0x1F600]));
    SpelledConcat(Lit("caf"), [0xE9, 0x1F600]);
    CafIsPlain();
    PlainSpelled(Lit("caf"));
    AccentsSpelled();
  }
}
