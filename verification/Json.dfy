/** Canonical JSON text: the writer the protocol hashes and signs, the reader
    that refuses duplicate keys, and the exact condition under which they undo
    each other (section 7 of RFC 8259 for the escapes). */
module Json {
  import opened Wrappers

  // A Python str is a sequence of code points and may hold lone surrogates,
  // which a Dafny char cannot.
  type CodePoint = n: nat | n < 0x110000
  type Text = seq<CodePoint>

  function Lit(s: string): Text {
    seq(|s|, i requires 0 <= i < |s| => s[i] as nat)
  }

  const QUOTE: CodePoint := 0x22
  const BACKSLASH: CodePoint := 0x5C
  const COMMA: CodePoint := 0x2C
  const COLON: CodePoint := 0x3A
  const MINUS: CodePoint := 0x2D
  const OPEN_ARRAY: CodePoint := 0x5B
  const CLOSE_ARRAY: CodePoint := 0x5D
  const OPEN_OBJECT: CodePoint := 0x7B
  const CLOSE_OBJECT: CodePoint := 0x7D
  const LETTER_U: CodePoint := 0x75

  /** The JSON values that can occur in a frame. */
  datatype Json =
    | JStr(s: Text)
    | JInt(n: int)
    | JArr(items: Items)
    | JObj(fields: Fields)

  datatype Items = NoItems | Item(head: Json, rest: Items)

  // A dict in insertion order.
  datatype Fields = NoFields | Field(key: Text, value: Json, rest: Fields)

  // ---- Order on keys and canonical key order --------------------------------

  predicate Less(a: Text, b: Text) {
    if b == [] then false
    else if a == [] then true
    else a[0] < b[0] || (a[0] == b[0] && Less(a[1..], b[1..]))
  }

  predicate HasKey(fs: Fields, k: Text) {
    match fs
    case NoFields => false
    case Field(key, _, rest) => key == k || HasKey(rest, k)
  }

  predicate NoDuplicates(fs: Fields) {
    match fs
    case NoFields => true
    case Field(key, _, rest) => !HasKey(rest, key) && NoDuplicates(rest)
  }

  /** dict.get */
  function Get(fs: Fields, k: Text): (r: Option<Json>)
    ensures r.Some? <==> HasKey(fs, k)
  {
    match fs
    case NoFields => None
    case Field(key, v, rest) => if key == k then Some(v) else Get(rest, k)
  }

  function Insert(k: Text, v: Json, fs: Fields): Fields {
    match fs
    case NoFields => Field(k, v, NoFields)
    case Field(key, w, rest) =>
      if Less(key, k) then Field(key, w, Insert(k, v, rest)) else Field(k, v, fs)
  }

  /** What sort_keys=True does at every level. */
  function Canon(v: Json): Json {
    match v
    case JStr(_) => v
    case JInt(_) => v
    case JArr(items) => JArr(CanonItems(items))
    case JObj(fields) => JObj(CanonFields(fields))
  }

  function CanonItems(items: Items): Items {
    match items
    case NoItems => NoItems
    case Item(v, rest) => Item(Canon(v), CanonItems(rest))
  }

  function CanonFields(fs: Fields): Fields {
    match fs
    case NoFields => NoFields
    case Field(k, v, rest) => Insert(k, Canon(v), CanonFields(rest))
  }

  // ---- Writing ---------------------------------------------------------------
  // Each writer puts its text in front of `rest`, so that no proof has to
  // re-associate concatenations.

  function HexDigit(d: nat): CodePoint
    requires d < 16
  {
    if d < 10 then 0x30 + d else 0x61 + d - 10
  }

  function WriteUnit(u: nat, rest: Text): Text
    requires u < 0x10000
  {
    [BACKSLASH, LETTER_U, HexDigit(u / 4096), HexDigit(u / 256 % 16), HexDigit(u / 16 % 16), HexDigit(u % 16)] + rest
  }

  function ShortEscape(c: CodePoint): Option<CodePoint> {
    if c == QUOTE then Some(QUOTE)
    else if c == BACKSLASH then Some(BACKSLASH)
    else if c == 0x0A then Some(0x6E)
    else if c == 0x0D then Some(0x72)
    else if c == 0x09 then Some(0x74)
    else if c == 0x0C then Some(0x66)
    else if c == 0x08 then Some(0x62)
    else None
  }

  function WriteChar(c: CodePoint, rest: Text): Text {
    match ShortEscape(c)
    case Some(e) => [BACKSLASH, e] + rest
    case None =>
      if 0x20 <= c <= 0x7E then [c] + rest
      else if c < 0x10000 then WriteUnit(c, rest)
      else WriteUnit(High(c), WriteUnit(Low(c), rest))
  }

  function High(c: CodePoint): (u: nat)
    requires 0x10000 <= c
    ensures 0xD800 <= u <= 0xDBFF
  {
    0xD800 + (c - 0x10000) / 0x400
  }

  function Low(c: CodePoint): (u: nat)
    requires 0x10000 <= c
    ensures 0xDC00 <= u <= 0xDFFF
  {
    0xDC00 + (c - 0x10000) % 0x400
  }

  function WriteChars(s: Text, rest: Text): Text {
    if s == [] then rest else WriteChar(s[0], WriteChars(s[1..], rest))
  }

  function WriteString(s: Text, rest: Text): Text {
    [QUOTE] + WriteChars(s, [QUOTE] + rest)
  }

  function WriteNat(n: nat, rest: Text): Text {
    if n < 10 then [0x30 + n] + rest else WriteNat(n / 10, [0x30 + n % 10] + rest)
  }

  function WriteInt(n: int, rest: Text): Text {
    if n < 0 then [MINUS] + WriteNat(-n, rest) else WriteNat(n, rest)
  }

  function Write(v: Json, rest: Text): Text {
    match v
    case JStr(s) => WriteString(s, rest)
    case JInt(n) => WriteInt(n, rest)
    case JArr(NoItems) => [OPEN_ARRAY, CLOSE_ARRAY] + rest
    case JArr(Item(head, tail)) => [OPEN_ARRAY] + Write(head, WriteItems(tail, rest))
    case JObj(NoFields) => [OPEN_OBJECT, CLOSE_OBJECT] + rest
    case JObj(Field(k, w, tail)) => [OPEN_OBJECT] + WriteString(k, [COLON] + Write(w, WriteFields(tail, rest)))
  }

  function WriteItems(items: Items, rest: Text): Text {
    match items
    case NoItems => [CLOSE_ARRAY] + rest
    case Item(v, tail) => [COMMA] + Write(v, WriteItems(tail, rest))
  }

  function WriteFields(fs: Fields, rest: Text): Text {
    match fs
    case NoFields => [CLOSE_OBJECT] + rest
    case Field(k, v, tail) => [COMMA] + WriteString(k, [COLON] + Write(v, WriteFields(tail, rest)))
  }

  /** json.dumps(value, ensure_ascii=True, sort_keys=True, separators=(",", ":")) */
  function Canonical(v: Json): Text {
    Write(Canon(v), [])
  }

  // ---- Reading ---------------------------------------------------------------

  datatype Parse<+T> = Bad | Good(value: T, rest: Text)

  function SkipSpace(s: Text): (r: Text)
    ensures |r| <= |s|
  {
    if s != [] && s[0] in {0x20, 0x09, 0x0A, 0x0D} then SkipSpace(s[1..]) else s
  }

  function HexValue(c: CodePoint): (r: Option<nat>)
    ensures r.Some? ==> r.value < 16
  {
    if 0x30 <= c <= 0x39 then Some(c - 0x30)
    else if 0x61 <= c <= 0x66 then Some(c - 0x61 + 10)
    else if 0x41 <= c <= 0x46 then Some(c - 0x41 + 10)
    else None
  }

  /** The four hexadecimal digits after a backslash and a u. */
  function ReadUnit(s: Text): (r: Parse<nat>)
    ensures r.Good? ==> r.value < 0x10000 && |r.rest| < |s|
  {
    if |s| < 4 then Bad
    else match (HexValue(s[0]), HexValue(s[1]), HexValue(s[2]), HexValue(s[3]))
         case (Some(a), Some(b), Some(c), Some(d)) => Good(a * 4096 + b * 256 + c * 16 + d, s[4..])
         case _ => Bad
  }

  function ShortUnescape(c: CodePoint): Option<CodePoint> {
    if c == QUOTE || c == BACKSLASH || c == 0x2F then Some(c)
    else if c == 0x6E then Some(0x0A)
    else if c == 0x72 then Some(0x0D)
    else if c == 0x74 then Some(0x09)
    else if c == 0x66 then Some(0x0C)
    else if c == 0x62 then Some(0x08)
    else None
  }

  predicate IsHigh(c: nat) { 0xD800 <= c <= 0xDBFF }

  predicate IsLow(c: nat) { 0xDC00 <= c <= 0xDFFF }

  function Combine(hi: nat, lo: nat): CodePoint
    requires IsHigh(hi) && IsLow(lo)
  {
    0x10000 + (hi - 0xD800) * 0x400 + (lo - 0xDC00)
  }

  /** One character of a string body; a high surrogate escape swallows a low one behind it. */
  function ReadChar(s: Text): (r: Parse<CodePoint>)
    ensures r.Good? ==> |r.rest| < |s|
  {
    if s == [] || s[0] < 0x20 || s[0] == QUOTE then Bad
    else if s[0] != BACKSLASH then Good(s[0], s[1..])
    else if |s| < 2 then Bad
    else if s[1] == LETTER_U then
      match ReadUnit(s[2..])
      case Bad => Bad
      case Good(u, t) =>
        if IsHigh(u) && |t| >= 2 && t[0] == BACKSLASH && t[1] == LETTER_U then
          match ReadUnit(t[2..])
          case Bad => Bad
          case Good(v, t') => if IsLow(v) then Good(Combine(u, v), t') else Good(u, t)
        else Good(u, t)
    else
      match ShortUnescape(s[1])
      case None => Bad
      case Some(c) => Good(c, s[2..])
  }

  /** The rest of a string literal, up to and including its closing quote. */
  function ReadChars(s: Text): (r: Parse<Text>)
    ensures r.Good? ==> |r.rest| < |s|
    decreases |s|
  {
    if s != [] && s[0] == QUOTE then Good([], s[1..])
    else
      match ReadChar(s)
      case Bad => Bad
      case Good(c, t) =>
        match ReadChars(t)
        case Bad => Bad
        case Good(cs, t') => Good([c] + cs, t')
  }

  function ReadString(s: Text): (r: Parse<Text>)
    ensures r.Good? ==> |r.rest| < |s|
  {
    if s == [] || s[0] != QUOTE then Bad else ReadChars(s[1..])
  }

  predicate IsDigit(c: nat) { 0x30 <= c <= 0x39 }

  function ReadDigits(acc: nat, s: Text): (r: Parse<nat>)
    ensures r.Good? && |r.rest| <= |s|
    decreases |s|
  {
    if s != [] && IsDigit(s[0]) then ReadDigits(acc * 10 + (s[0] - 0x30), s[1..]) else Good(acc, s)
  }

  /** True when a number literal goes on into a fraction or an exponent. */
  predicate Continues(s: Text) {
    s != [] && s[0] in {0x2E, 0x45, 0x65}
  }

  /** An integer literal without leading zeros; a float is no frame value, so it is refused here. */
  function ReadNat(s: Text): (r: Parse<nat>)
    ensures r.Good? ==> |r.rest| < |s|
  {
    if s == [] || !IsDigit(s[0]) then Bad
    else
      var p := if s[0] == 0x30 then Good(0, s[1..]) else ReadDigits(s[0] - 0x30, s[1..]);
      if Continues(p.rest) then Bad else p
  }

  function Negative(n: nat): int {
    0 - n
  }

  function ReadInt(s: Text): (r: Parse<int>)
    ensures r.Good? ==> |r.rest| < |s|
  {
    if s != [] && s[0] == MINUS then
      match ReadNat(s[1..])
      case Bad => Bad
      case Good(n, t) => Good(Negative(n), t)
    else
      match ReadNat(s)
      case Bad => Bad
      case Good(n, t) => Good(n, t)
  }

  function ReadValue(s: Text): (r: Parse<Json>)
    ensures r.Good? ==> |r.rest| < |s|
    decreases |s|, 1
  {
    if s == [] then Bad
    else if s[0] == QUOTE then
      match ReadString(s)
      case Bad => Bad
      case Good(cs, t) => Good(JStr(cs), t)
    else if s[0] == OPEN_ARRAY then
      var t := SkipSpace(s[1..]);
      if t != [] && t[0] == CLOSE_ARRAY then Good(JArr(NoItems), t[1..])
      else
        match ReadItems(t)
        case Bad => Bad
        case Good(items, t') => Good(JArr(items), t')
    else if s[0] == OPEN_OBJECT then
      var t := SkipSpace(s[1..]);
      if t != [] && t[0] == CLOSE_OBJECT then Good(JObj(NoFields), t[1..])
      else
        match ReadFields(t)
        case Bad => Bad
        case Good(fields, t') => if NoDuplicates(fields) then Good(JObj(fields), t') else Bad
    else
      match ReadInt(s)
      case Bad => Bad
      case Good(n, t) => Good(JInt(n), t)
  }

  /** One or more array items and the closing bracket. */
  function ReadItems(s: Text): (r: Parse<Items>)
    ensures r.Good? ==> |r.rest| < |s|
    decreases |s|, 2
  {
    match ReadValue(s)
    case Bad => Bad
    case Good(v, t) =>
      var t := SkipSpace(t);
      if t == [] then Bad
      else if t[0] == CLOSE_ARRAY then Good(Item(v, NoItems), t[1..])
      else if t[0] != COMMA then Bad
      else
        match ReadItems(SkipSpace(t[1..]))
        case Bad => Bad
        case Good(items, t') => Good(Item(v, items), t')
  }

  /** One or more object fields and the closing brace. */
  function ReadFields(s: Text): (r: Parse<Fields>)
    ensures r.Good? ==> |r.rest| < |s|
    decreases |s|, 2
  {
    match ReadString(s)
    case Bad => Bad
    case Good(k, t) =>
      var t := SkipSpace(t);
      if t == [] || t[0] != COLON then Bad
      else
        match ReadValue(SkipSpace(t[1..]))
        case Bad => Bad
        case Good(v, t) =>
          var t := SkipSpace(t);
          if t == [] then Bad
          else if t[0] == CLOSE_OBJECT then Good(Field(k, v, NoFields), t[1..])
          else if t[0] != COMMA then Bad
          else
            match ReadFields(SkipSpace(t[1..]))
            case Bad => Bad
            case Good(fields, t') => Good(Field(k, v, fields), t')
  }

  /** json.loads with the duplicate-refusing hook. */
  function Loads(s: Text): Option<Json> {
    match ReadValue(SkipSpace(s))
    case Bad => None
    case Good(v, t) => if SkipSpace(t) == [] then Some(v) else None
  }

  // ---- Surrogates: what a written string reads back as -------------------------

  /** No high surrogate stands directly before a low one. */
  predicate Clean(s: Text) {
    forall i :: 0 <= i < |s| - 1 ==> !(IsHigh(s[i]) && IsLow(s[i + 1]))
  }

  /** The string with every split surrogate pair joined. */
  function Join(s: Text): Text {
    if |s| >= 2 && IsHigh(s[0]) && IsLow(s[1]) then [Combine(s[0], s[1])] + Join(s[2..])
    else if s == [] then []
    else [s[0]] + Join(s[1..])
  }

  predicate CleanValue(v: Json) {
    match v
    case JStr(s) => Clean(s)
    case JInt(_) => true
    case JArr(items) => CleanItems(items)
    case JObj(fields) => NoDuplicates(fields) && CleanFields(fields)
  }

  predicate CleanItems(items: Items) {
    match items
    case NoItems => true
    case Item(v, rest) => CleanValue(v) && CleanItems(rest)
  }

  predicate CleanFields(fs: Fields) {
    match fs
    case NoFields => true
    case Field(k, v, rest) => Clean(k) && CleanValue(v) && CleanFields(rest)
  }

  lemma HexRoundTrip(d: nat)
    requires d < 16
    ensures HexValue(HexDigit(d)) == Some(d)
  {
  }

  lemma FourDigits(u: nat)
    requires u < 0x10000
    ensures u / 4096 < 16
    ensures u == u / 4096 * 4096 + u / 256 % 16 * 256 + u / 16 % 16 * 16 + u % 16
  {
    assert u / 256 == u / 4096 * 16 + u / 256 % 16;
    assert u / 16 == u / 256 * 16 + u / 16 % 16;
  }

  lemma UnitRoundTrip(u: nat, rest: Text)
    requires u < 0x10000
    ensures ReadUnit(WriteUnit(u, rest)[2..]) == Good(u, rest)
  {
    FourDigits(u);
    var a, b, c, d := u / 4096, u / 256 % 16, u / 16 % 16, u % 16;
    UnitReads(a, b, c, d, rest);
    assert WriteUnit(u, rest)[2..] == [HexDigit(a), HexDigit(b), HexDigit(c), HexDigit(d)] + rest;
  }

  lemma UnitReads(a: nat, b: nat, c: nat, d: nat, rest: Text)
    requires a < 16 && b < 16 && c < 16 && d < 16
    ensures ReadUnit([HexDigit(a), HexDigit(b), HexDigit(c), HexDigit(d)] + rest) ==
              Good(a * 4096 + b * 256 + c * 16 + d, rest)
  {
    HexRoundTrip(a);
    HexRoundTrip(b);
    HexRoundTrip(c);
    HexRoundTrip(d);
    var t := [HexDigit(a), HexDigit(b), HexDigit(c), HexDigit(d)] + rest;
    assert t[4..] == rest;
  }

  /** A written character that is not a high surrogate reads back as itself. */
  lemma CharRoundTrip(c: CodePoint, rest: Text)
    requires !IsHigh(c)
    ensures ReadChar(WriteChar(c, rest)) == Good(c, rest)
  {
    var w := WriteChar(c, rest);
    match ShortEscape(c)
    case Some(e) => assert w[2..] == rest;
    case None =>
      if 0x20 <= c <= 0x7E {
        assert w[1..] == rest;
      } else if c < 0x10000 {
        UnitRoundTrip(c, rest);
      } else {
        var low := WriteUnit(Low(c), rest);
        UnitRoundTrip(High(c), low);
        UnitRoundTrip(Low(c), rest);
        assert Combine(High(c), Low(c)) == c;
      }
  }

  /** A lone high surrogate reads back as itself unless a low surrogate escape follows. */
  lemma HighRoundTrip(c: CodePoint, rest: Text)
    requires IsHigh(c)
    requires rest != []
    requires |rest| >= 2 && rest[0] == BACKSLASH && rest[1] == LETTER_U ==>
               ReadUnit(rest[2..]).Good? && !IsLow(ReadUnit(rest[2..]).value)
    ensures ReadChar(WriteChar(c, rest)) == Good(c, rest)
  {
    UnitRoundTrip(c, rest);
  }

  lemma UnitStarts(u: nat, rest: Text)
    requires u < 0x10000
    ensures var w := WriteUnit(u, rest); |w| >= 6 && w[0] == BACKSLASH && w[1] == LETTER_U
  {
  }

  lemma PairRoundTrip(hi: CodePoint, lo: CodePoint, rest: Text)
    requires IsHigh(hi) && IsLow(lo)
    ensures ReadChar(WriteChar(hi, WriteChar(lo, rest))) == Good(Combine(hi, lo), rest)
  {
    hide ReadUnit, WriteUnit;
    var low := WriteUnit(lo, rest);
    UnitStarts(hi, low);
    UnitStarts(lo, rest);
    UnitRoundTrip(hi, low);
    UnitRoundTrip(lo, rest);
  }

  /** A written character other than a low surrogate never starts with a low surrogate escape. */
  lemma FirstUnit(c: CodePoint, rest: Text)
    requires !IsLow(c)
    ensures var w := WriteChar(c, rest);
            |w| >= 1 && w[0] != QUOTE && (|w| >= 2 && w[0] == BACKSLASH && w[1] == LETTER_U ==>
              ReadUnit(w[2..]).Good? && !IsLow(ReadUnit(w[2..]).value))
  {
    if ShortEscape(c) == None && !(0x20 <= c <= 0x7E) {
      if c < 0x10000 {
        UnitRoundTrip(c, rest);
      } else {
        UnitRoundTrip(High(c), WriteUnit(Low(c), rest));
      }
    }
  }

  lemma FirstOfWritten(c: CodePoint, rest: Text)
    ensures WriteChar(c, rest) != [] && WriteChar(c, rest)[0] != QUOTE
  {
  }

  /** Every string reads back as itself with its split surrogate pairs joined. */
  lemma {:induction false} StringReadsJoined(s: Text, rest: Text)
    ensures ReadChars(WriteChars(s, [QUOTE] + rest)) == Good(Join(s), rest)
    decreases |s|
  {
    var tail := [QUOTE] + rest;
    if s == [] {
      assert tail[1..] == rest;
    } else if |s| >= 2 && IsHigh(s[0]) && IsLow(s[1]) {
      StringReadsJoined(s[2..], rest);
      assert s[1..][1..] == s[2..];
      PairRoundTrip(s[0], s[1], WriteChars(s[2..], tail));
      FirstOfWritten(s[0], WriteChars(s[1..], tail));
    } else {
      StringReadsJoined(s[1..], rest);
      var t := WriteChars(s[1..], tail);
      FirstOfWritten(s[0], t);
      if IsHigh(s[0]) {
        if |s| >= 2 {
          assert s[1..][0] == s[1];
          FirstUnit(s[1], WriteChars(s[1..][1..], tail));
        }
        HighRoundTrip(s[0], t);
      } else {
        CharRoundTrip(s[0], t);
      }
    }
  }

  lemma {:induction false} JoinShortens(s: Text)
    ensures |Join(s)| <= |s|
    ensures |Join(s)| == |s| <==> Clean(s)
    ensures Clean(s) ==> Join(s) == s
    decreases |s|
  {
    if |s| >= 2 && IsHigh(s[0]) && IsLow(s[1]) {
      JoinShortens(s[2..]);
    } else if s != [] {
      JoinShortens(s[1..]);
      if Clean(s[1..]) {
        forall i | 0 <= i < |s| - 1
          ensures !(IsHigh(s[i]) && IsLow(s[i + 1]))
        {
          if i > 0 { assert s[1..][i - 1] == s[i] && s[1..][i] == s[i + 1]; }
        }
      }
      if Clean(s) {
        forall i | 0 <= i < |s[1..]| - 1
          ensures !(IsHigh(s[1..][i]) && IsLow(s[1..][i + 1]))
        {
          assert s[1..][i] == s[i + 1] && s[1..][i + 1] == s[i + 2];
        }
      }
    }
  }

  /** The exact condition: a string survives writing and reading if and only if
      it holds no split surrogate pair. */
  lemma StringRoundTrip(s: Text, rest: Text)
    ensures ReadString(WriteString(s, rest)) == Good(s, rest) <==> Clean(s)
  {
    var body := WriteChars(s, [QUOTE] + rest);
    assert WriteString(s, rest)[1..] == body;
    StringReadsJoined(s, rest);
    JoinShortens(s);
  }

  /** U+D83D U+DE00 written as two escapes comes back as U+1F600. */
  lemma SplitPairDoesNotSurvive()
    ensures Loads(Canonical(JStr([0xD83D, 0xDE00]))) == Some(JStr([0x1F600]))
  {
    hide WriteUnit, ReadUnit, WriteChar, ReadChar, ReadChars, WriteChars;
    var s: Text := [0xD83D, 0xDE00];
    StringReadsJoined(s, []);
    assert s[2..] == [];
    assert Join(s) == [0x1F600];
    assert WriteString(s, [])[1..] == WriteChars(s, [QUOTE] + []);
  }

  // ---- Numbers -----------------------------------------------------------------

  predicate Ends(rest: Text) {
    rest == [] || !(IsDigit(rest[0]) || Continues(rest))
  }

  lemma {:induction false} DigitsRoundTrip(n: nat, rest: Text)
    requires n > 0
    ensures WriteNat(n, rest) != [] && 0x31 <= WriteNat(n, rest)[0] <= 0x39
    ensures ReadDigits(0, WriteNat(n, rest)) == ReadDigits(n, rest)
    decreases n
  {
    if n < 10 {
      assert WriteNat(n, rest)[1..] == rest;
    } else {
      var t := [0x30 + n % 10] + rest;
      DigitsRoundTrip(n / 10, t);
      assert t[1..] == rest;
    }
  }

  lemma NatRoundTrip(n: nat, rest: Text)
    requires Ends(rest)
    ensures ReadNat(WriteNat(n, rest)) == Good(n, rest)
    ensures WriteNat(n, rest) != [] && IsDigit(WriteNat(n, rest)[0])
  {
    if n == 0 {
      assert WriteNat(n, rest)[1..] == rest;
    } else {
      DigitsRoundTrip(n, rest);
    }
  }

  lemma IntRoundTrip(n: int, rest: Text)
    requires Ends(rest)
    ensures ReadInt(WriteInt(n, rest)) == Good(n, rest)
    ensures WriteInt(n, rest) != [] && (IsDigit(WriteInt(n, rest)[0]) || WriteInt(n, rest)[0] == MINUS)
  {
    if n < 0 {
      NatRoundTrip(-n, rest);
      assert WriteInt(n, rest)[1..] == WriteNat(-n, rest);
    } else {
      NatRoundTrip(n, rest);
    }
  }

  // ---- Values ------------------------------------------------------------------

  predicate Solid(s: Text) {
    s != [] && s[0] !in {0x20, 0x09, 0x0A, 0x0D}
  }

  lemma WrittenIsSolid(v: Json, rest: Text)
    ensures Solid(Write(v, rest)) && Write(v, rest)[0] !in {CLOSE_ARRAY, CLOSE_OBJECT}
  {
    match v
    case JInt(n) => WrittenNatIsDigit(if n < 0 then -n else n, rest);
    case _ =>
  }

  lemma {:induction false} WrittenNatIsDigit(n: nat, rest: Text)
    ensures WriteNat(n, rest) != [] && IsDigit(WriteNat(n, rest)[0])
    decreases n
  {
    if n >= 10 { WrittenNatIsDigit(n / 10, [0x30 + n % 10] + rest); }
  }

  lemma StringIsSolid(s: Text, rest: Text)
    ensures WriteString(s, rest) != [] && WriteString(s, rest)[0] == QUOTE
  {
  }

  /** Any value without repeated keys or split pairs reads back as itself. */
  lemma {:induction false} ValueRoundTrip(v: Json, rest: Text)
    requires CleanValue(v) && Ends(rest)
    ensures ReadValue(Write(v, rest)) == Good(v, rest)
    decreases v, 0
  {
    var w := Write(v, rest);
    match v
    case JStr(s) => StringRoundTrip(s, rest);
    case JInt(n) => IntRoundTrip(n, rest);
    case JArr(items) =>
      if items == NoItems {
        assert w[1..] == [CLOSE_ARRAY] + rest;
        assert w[1..][1..] == rest;
      } else {
        ItemsRoundTrip(items, rest);
        WrittenIsSolid(items.head, WriteItems(items.rest, rest));
        assert w[1..] == Write(items.head, WriteItems(items.rest, rest));
      }
    case JObj(fields) =>
      if fields == NoFields {
        assert w[1..] == [CLOSE_OBJECT] + rest;
        assert w[1..][1..] == rest;
      } else {
        FieldsRoundTrip(fields, rest);
        assert w[1..] == WriteString(fields.key, [COLON] + Write(fields.value, WriteFields(fields.rest, rest)));
      }
  }

  lemma {:induction false} ItemsRoundTrip(items: Items, rest: Text)
    requires items.Item? && CleanItems(items) && Ends(rest)
    ensures ReadItems(Write(items.head, WriteItems(items.rest, rest))) == Good(items, rest)
    decreases items, 0
  {
    var t := WriteItems(items.rest, rest);
    ValueRoundTrip(items.head, t);
    if items.rest == NoItems {
      assert t[1..] == rest;
    } else {
      ItemsRoundTrip(items.rest, rest);
      var next := Write(items.rest.head, WriteItems(items.rest.rest, rest));
      WrittenIsSolid(items.rest.head, WriteItems(items.rest.rest, rest));
      assert t[1..] == next;
    }
  }

  lemma {:induction false} FieldsRoundTrip(fs: Fields, rest: Text)
    requires fs.Field? && CleanFields(fs) && Ends(rest)
    ensures ReadFields(WriteString(fs.key, [COLON] + Write(fs.value, WriteFields(fs.rest, rest)))) == Good(fs, rest)
    decreases fs, 0
  {
    hide WriteString, ReadString;
    var t := WriteFields(fs.rest, rest);
    var colon := [COLON] + Write(fs.value, t);
    StringRoundTrip(fs.key, colon);
    assert colon[1..] == Write(fs.value, t);
    WrittenIsSolid(fs.value, t);
    ValueRoundTrip(fs.value, t);
    if fs.rest == NoFields {
      assert t[1..] == rest;
    } else {
      FieldsRoundTrip(fs.rest, rest);
      var g := fs.rest;
      StringIsSolid(g.key, [COLON] + Write(g.value, WriteFields(g.rest, rest)));
      assert t[1..] == WriteString(g.key, [COLON] + Write(g.value, WriteFields(g.rest, rest)));
    }
  }

  /** Reading undoes writing on every value without repeated keys or split pairs. */
  lemma LoadsUndoesWrite(v: Json)
    requires CleanValue(v)
    ensures Loads(Write(v, [])) == Some(v)
  {
    ValueRoundTrip(v, []);
    WrittenIsSolid(v, []);
  }
}
