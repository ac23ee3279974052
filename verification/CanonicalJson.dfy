/** Sorting keys is a normal form, canonical text is injective on it, and what
    is read from ASCII text is always fit to be written again. */
module CanonicalJson {
  import opened Wrappers
  import opened Json

  // ---- The order on keys ------------------------------------------------------

  lemma {:induction false} LessIrreflexive(a: Text)
    ensures !Less(a, a)
  {
    if a != [] { LessIrreflexive(a[1..]); }
  }

  lemma {:induction false} LessTotal(a: Text, b: Text)
    ensures Less(a, b) || Less(b, a) || a == b
    ensures !(Less(a, b) && Less(b, a))
    ensures !Less(a, a)
  {
    LessIrreflexive(a);
    if a != [] && b != [] {
      LessTotal(a[1..], b[1..]);
      if a[0] == b[0] && a[1..] == b[1..] { assert a == [a[0]] + a[1..] && b == [b[0]] + b[1..]; }
    }
  }

  lemma {:induction false} LessTransitive(a: Text, b: Text, c: Text)
    requires Less(a, b) && Less(b, c)
    ensures Less(a, c)
  {
    if a != [] && a[0] == b[0] && b[0] == c[0] { LessTransitive(a[1..], b[1..], c[1..]); }
  }

  // ---- Sorted field lists ------------------------------------------------------

  predicate Below(k: Text, fs: Fields) {
    fs.Field? ==> Less(k, fs.key)
  }

  predicate Sorted(fs: Fields) {
    match fs
    case NoFields => true
    case Field(k, _, rest) => Below(k, rest) && Sorted(rest)
  }

  lemma {:induction false} BelowAll(k: Text, fs: Fields, q: Text)
    requires Sorted(fs) && Below(k, fs) && HasKey(fs, q)
    ensures Less(k, q)
    decreases fs
  {
    if fs.key != q {
      BelowAll(fs.key, fs.rest, q);
      LessTransitive(k, fs.key, q);
    }
  }

  lemma {:induction false} SortedHasNoDuplicates(fs: Fields)
    requires Sorted(fs)
    ensures NoDuplicates(fs)
  {
    if fs.Field? {
      SortedHasNoDuplicates(fs.rest);
      if HasKey(fs.rest, fs.key) {
        BelowAll(fs.key, fs.rest, fs.key);
        LessTotal(fs.key, fs.key);
      }
    }
  }

  lemma {:induction false} InsertKeeps(k: Text, v: Json, fs: Fields)
    requires Sorted(fs) && !HasKey(fs, k)
    ensures Sorted(Insert(k, v, fs))
    ensures forall q :: Get(Insert(k, v, fs), q) == if q == k then Some(v) else Get(fs, q)
    ensures forall p :: Below(p, fs) && Less(p, k) ==> Below(p, Insert(k, v, fs))
  {
    if fs.Field? {
      if Less(fs.key, k) {
        InsertKeeps(k, v, fs.rest);
      } else {
        LessTotal(fs.key, k);
      }
    }
  }

  /** Keys and values of a sorted object: those of the original, each value canonical. */
  lemma {:induction false} CanonFieldsMeaning(fs: Fields)
    requires NoDuplicates(fs)
    ensures Sorted(CanonFields(fs))
    ensures forall q :: Get(CanonFields(fs), q) == if HasKey(fs, q) then Some(Canon(Get(fs, q).value)) else None
  {
    if fs.Field? {
      CanonFieldsMeaning(fs.rest);
      assert Get(CanonFields(fs.rest), fs.key) == None;
      InsertKeeps(fs.key, Canon(fs.value), CanonFields(fs.rest));
    }
  }

  /** A sorted object is determined by its lookups. */
  lemma {:induction false} SortedUnique(a: Fields, b: Fields)
    requires Sorted(a) && Sorted(b)
    requires forall q :: Get(a, q) == Get(b, q)
    ensures a == b
  {
    if a.Field? { assert HasKey(b, a.key) by { assert Get(a, a.key) == Get(b, a.key); } }
    if b.Field? { assert HasKey(a, b.key) by { assert Get(a, b.key) == Get(b, b.key); } }
    if a.Field? && b.Field? {
      assert Get(a, a.key) == Get(b, a.key);
      if a.key != b.key {
        BelowAll(b.key, b.rest, a.key);
        BelowAll(a.key, a.rest, b.key);
        LessTotal(a.key, b.key);
      }
      SortedHasNoDuplicates(a);
      SortedHasNoDuplicates(b);
      forall q
        ensures Get(a.rest, q) == Get(b.rest, q)
      {
        assert Get(a, q) == Get(b, q);
      }
      SortedUnique(a.rest, b.rest);
    }
  }

  // ---- Canonical values ----------------------------------------------------------

  lemma {:induction false} CanonIsClean(v: Json)
    requires CleanValue(v)
    ensures CleanValue(Canon(v))
    decreases v, 1
  {
    match v
    case JArr(items) => CanonItemsAreClean(items);
    case JObj(fields) =>
      CanonFieldsAreClean(fields);
      CanonFieldsMeaning(fields);
      SortedHasNoDuplicates(CanonFields(fields));
    case _ =>
  }

  lemma {:induction false} CanonItemsAreClean(items: Items)
    requires CleanItems(items)
    ensures CleanItems(CanonItems(items))
    decreases items, 0
  {
    if items.Item? {
      CanonIsClean(items.head);
      CanonItemsAreClean(items.rest);
    }
  }

  lemma {:induction false} InsertIsClean(k: Text, v: Json, fs: Fields)
    requires Clean(k) && CleanValue(v) && CleanFields(fs)
    ensures CleanFields(Insert(k, v, fs))
  {
    if fs.Field? { InsertIsClean(k, v, fs.rest); }
  }

  lemma {:induction false} CanonFieldsAreClean(fs: Fields)
    requires CleanFields(fs)
    ensures CleanFields(CanonFields(fs))
    decreases fs, 0
  {
    if fs.Field? {
      CanonIsClean(fs.value);
      CanonFieldsAreClean(fs.rest);
      InsertIsClean(fs.key, Canon(fs.value), CanonFields(fs.rest));
    }
  }

  /** Reading a canonical text gives the value back with its keys sorted. */
  lemma CanonicalRoundTrip(v: Json)
    requires CleanValue(v)
    ensures Loads(Canonical(v)) == Some(Canon(v))
  {
    CanonIsClean(v);
    LoadsUndoesWrite(Canon(v));
  }

  /** Two values have one canonical text exactly when they differ in key order alone. */
  lemma CanonicalInjective(v: Json, w: Json)
    requires CleanValue(v) && CleanValue(w)
    ensures Canonical(v) == Canonical(w) <==> Canon(v) == Canon(w)
  {
    CanonicalRoundTrip(v);
    CanonicalRoundTrip(w);
  }

  // ---- Written text is printable ASCII -------------------------------------------

  predicate Printable(s: Text) {
    forall i :: 0 <= i < |s| ==> 0x20 <= s[i] <= 0x7E
  }

  lemma {:induction false} WrittenCharsPrintable(s: Text, rest: Text)
    requires Printable(rest)
    ensures Printable(WriteChars(s, rest))
  {
    if s != [] {
      WrittenCharsPrintable(s[1..], rest);
      WrittenCharPrintable(s[0], WriteChars(s[1..], rest));
    }
  }

  lemma WrittenCharPrintable(c: CodePoint, rest: Text)
    requires Printable(rest)
    ensures Printable(WriteChar(c, rest))
  {
    if ShortEscape(c).None? && !(0x20 <= c <= 0x7E) {
      if c < 0x10000 {
        WrittenUnitPrintable(c, rest);
      } else {
        WrittenUnitPrintable(Low(c), rest);
        WrittenUnitPrintable(High(c), WriteUnit(Low(c), rest));
      }
    }
  }

  lemma WrittenUnitPrintable(u: nat, rest: Text)
    requires u < 0x10000 && Printable(rest)
    ensures Printable(WriteUnit(u, rest))
  {
    forall d: nat | d < 16
      ensures 0x20 <= HexDigit(d) <= 0x7E
    {
    }
    FourDigits(u);
    var head: Text := [BACKSLASH, LETTER_U, HexDigit(u / 4096), HexDigit(u / 256 % 16), HexDigit(u / 16 % 16), HexDigit(u % 16)];
    assert Printable(head);
  }

  lemma {:induction false} WrittenNatPrintable(n: nat, rest: Text)
    requires Printable(rest)
    ensures Printable(WriteNat(n, rest))
    decreases n
  {
    if n >= 10 { WrittenNatPrintable(n / 10, [0x30 + n % 10] + rest); }
  }

  lemma WrittenStringPrintable(s: Text, rest: Text)
    requires Printable(rest)
    ensures Printable(WriteString(s, rest))
  {
    WrittenCharsPrintable(s, [QUOTE] + rest);
  }

  lemma {:induction false} WrittenPrintable(v: Json, rest: Text)
    requires Printable(rest)
    ensures Printable(Write(v, rest))
    decreases v, 1
  {
    match v
    case JStr(s) => WrittenStringPrintable(s, rest);
    case JInt(n) => WrittenNatPrintable(if n < 0 then -n else n, rest);
    case JArr(items) =>
      if items.Item? {
        WrittenItemsPrintable(items.rest, rest);
        WrittenPrintable(items.head, WriteItems(items.rest, rest));
      }
    case JObj(fields) =>
      if fields.Field? {
        WrittenFieldsPrintable(fields.rest, rest);
        WrittenPrintable(fields.value, WriteFields(fields.rest, rest));
        WrittenStringPrintable(fields.key, [COLON] + Write(fields.value, WriteFields(fields.rest, rest)));
      }
  }

  lemma {:induction false} WrittenItemsPrintable(items: Items, rest: Text)
    requires Printable(rest)
    ensures Printable(WriteItems(items, rest))
    decreases items, 0
  {
    if items.Item? {
      WrittenItemsPrintable(items.rest, rest);
      WrittenPrintable(items.head, WriteItems(items.rest, rest));
    }
  }

  lemma {:induction false} WrittenFieldsPrintable(fs: Fields, rest: Text)
    requires Printable(rest)
    ensures Printable(WriteFields(fs, rest))
    decreases fs, 0
  {
    if fs.Field? {
      WrittenFieldsPrintable(fs.rest, rest);
      WrittenPrintable(fs.value, WriteFields(fs.rest, rest));
      WrittenStringPrintable(fs.key, [COLON] + Write(fs.value, WriteFields(fs.rest, rest)));
    }
  }

  // ---- What is read from printable text is clean -----------------------------------

  predicate Suffix(t: Text, s: Text) {
    |t| <= |s| && t == s[|s| - |t|..]
  }

  lemma SuffixOfSuffix(u: Text, t: Text, s: Text)
    requires Suffix(u, t) && Suffix(t, s)
    ensures Suffix(u, s)
  {
    assert u == s[|s| - |t|..][|t| - |u|..];
  }

  lemma SuffixPrintable(t: Text, s: Text)
    requires Suffix(t, s) && Printable(s)
    ensures Printable(t)
  {
  }

  lemma {:induction false} SpaceSuffix(s: Text)
    ensures Suffix(SkipSpace(s), s)
  {
    if s != [] && s[0] in {0x20, 0x09, 0x0A, 0x0D} {
      SpaceSuffix(s[1..]);
      SuffixOfSuffix(SkipSpace(s[1..]), s[1..], s);
    }
  }

  lemma CharSuffix(s: Text)
    ensures ReadChar(s).Good? ==> Suffix(ReadChar(s).rest, s)
  {
    var r := ReadChar(s);
    if r.Good? && s[0] == BACKSLASH && s[1] == LETTER_U {
      var t := ReadUnit(s[2..]).rest;
      assert t == s[2..][4..] == s[6..];
      if r.rest != t {
        assert r.rest == t[2..][4..] == s[12..];
      }
    }
  }

  /** After a character that was read as a high surrogate, no low one is read. */
  lemma HighNotFollowed(s: Text)
    requires Printable(s) && ReadChar(s).Good? && IsHigh(ReadChar(s).value)
    ensures var t := ReadChar(s).rest; ReadChar(t).Good? ==> !IsLow(ReadChar(t).value)
  {
    CharSuffix(s);
    var t := ReadChar(s).rest;
    SuffixPrintable(t, s);
    assert s[0] == BACKSLASH && s[1] == LETTER_U;
  }

  lemma {:induction false} ReadCharsClean(s: Text)
    requires Printable(s) && ReadChars(s).Good?
    ensures Clean(ReadChars(s).value) && Suffix(ReadChars(s).rest, s)
    decreases |s|
  {
    if s[0] != QUOTE {
      CharSuffix(s);
      var t := ReadChar(s).rest;
      SuffixPrintable(t, s);
      ReadCharsClean(t);
      SuffixOfSuffix(ReadChars(t).rest, t, s);
      var c, cs := ReadChar(s).value, ReadChars(t).value;
      if IsHigh(c) { HighNotFollowed(s); }
      ConsClean(c, cs);
    }
  }

  lemma ConsClean(c: CodePoint, cs: Text)
    requires Clean(cs)
    requires cs != [] ==> !(IsHigh(c) && IsLow(cs[0]))
    ensures Clean([c] + cs)
  {
    var s := [c] + cs;
    forall i | 0 <= i < |s| - 1
      ensures !(IsHigh(s[i]) && IsLow(s[i + 1]))
    {
      if i > 0 { assert s[i] == cs[i - 1] && s[i + 1] == cs[i]; }
    }
  }

  lemma ReadStringClean(s: Text)
    requires Printable(s) && ReadString(s).Good?
    ensures Clean(ReadString(s).value) && Suffix(ReadString(s).rest, s)
  {
    SuffixPrintable(s[1..], s);
    ReadCharsClean(s[1..]);
    SuffixOfSuffix(ReadString(s).rest, s[1..], s);
  }

  lemma {:induction false} DigitsSuffix(acc: nat, s: Text)
    ensures Suffix(ReadDigits(acc, s).rest, s)
    decreases |s|
  {
    if s != [] && IsDigit(s[0]) {
      DigitsSuffix(acc * 10 + (s[0] - 0x30), s[1..]);
      SuffixOfSuffix(ReadDigits(acc, s).rest, s[1..], s);
    }
  }

  lemma NatSuffix(s: Text)
    requires ReadNat(s).Good?
    ensures Suffix(ReadNat(s).rest, s)
  {
    DigitsSuffix(s[0] - 0x30, s[1..]);
    SuffixOfSuffix(ReadNat(s).rest, s[1..], s);
  }

  lemma IntSuffix(s: Text)
    requires ReadInt(s).Good?
    ensures Suffix(ReadInt(s).rest, s)
  {
    if s[0] == MINUS {
      NatSuffix(s[1..]);
      SuffixOfSuffix(ReadInt(s).rest, s[1..], s);
    } else {
      NatSuffix(s);
    }
  }

  /** s is printable and t is what remains of it. */
  predicate Tail(t: Text, s: Text) {
    Suffix(t, s) && Printable(t)
  }

  lemma StepTail(s: Text, t: Text)
    requires Printable(s) && Tail(t, s) && t != []
    ensures Tail(t[1..], s) && Tail(SkipSpace(t[1..]), s)
  {
    SuffixOfSuffix(t[1..], t, s);
    SpaceSuffix(t[1..]);
    SuffixOfSuffix(SkipSpace(t[1..]), t[1..], s);
  }

  lemma SpaceTail(s: Text, t: Text)
    requires Printable(s) && Tail(t, s)
    ensures Tail(SkipSpace(t), s)
  {
    SpaceSuffix(t);
    SuffixOfSuffix(SkipSpace(t), t, s);
  }

  lemma Onward(s: Text, t: Text, u: Text)
    requires Printable(s) && Tail(t, s) && Tail(u, t)
    ensures Tail(u, s)
  {
    SuffixOfSuffix(u, t, s);
  }

  lemma {:induction false} ReadValueClean(s: Text)
    requires Printable(s) && ReadValue(s).Good?
    ensures CleanValue(ReadValue(s).value) && Tail(ReadValue(s).rest, s)
    decreases |s|, 1
  {
    if s[0] == QUOTE {
      ReadStringClean(s);
    } else if s[0] == OPEN_ARRAY || s[0] == OPEN_OBJECT {
      StepTail(s, s);
      var t := SkipSpace(s[1..]);
      if t[0] == CLOSE_ARRAY || t[0] == CLOSE_OBJECT { StepTail(s, t); }
      if s[0] == OPEN_ARRAY && t[0] != CLOSE_ARRAY {
        ReadItemsClean(t);
        Onward(s, t, ReadValue(s).rest);
      } else if s[0] == OPEN_OBJECT && t[0] != CLOSE_OBJECT {
        ReadFieldsClean(t);
        Onward(s, t, ReadValue(s).rest);
      }
    } else {
      IntSuffix(s);
    }
  }

  lemma {:induction false} ReadItemsClean(s: Text)
    requires Printable(s) && ReadItems(s).Good?
    ensures CleanItems(ReadItems(s).value) && Tail(ReadItems(s).rest, s)
    decreases |s|, 2
  {
    ReadValueClean(s);
    SpaceTail(s, ReadValue(s).rest);
    var t := SkipSpace(ReadValue(s).rest);
    StepTail(s, t);
    if t[0] == COMMA {
      ReadItemsClean(SkipSpace(t[1..]));
      Onward(s, SkipSpace(t[1..]), ReadItems(s).rest);
    }
  }

  lemma {:induction false} ReadFieldsClean(s: Text)
    requires Printable(s) && ReadFields(s).Good?
    ensures CleanFields(ReadFields(s).value) && Tail(ReadFields(s).rest, s)
    decreases |s|, 2
  {
    ReadStringClean(s);
    SpaceTail(s, ReadString(s).rest);
    var t := SkipSpace(ReadString(s).rest);
    StepTail(s, t);
    var u := SkipSpace(t[1..]);
    ReadValueClean(u);
    Onward(s, u, ReadValue(u).rest);
    SpaceTail(s, ReadValue(u).rest);
    var x := SkipSpace(ReadValue(u).rest);
    StepTail(s, x);
    if x[0] == COMMA {
      ReadFieldsClean(SkipSpace(x[1..]));
      Onward(s, SkipSpace(x[1..]), ReadFields(s).rest);
    }
  }

  /** Whatever is read from printable ASCII has no repeated key and no split pair,
      so writing it canonically and reading again loses nothing but key order. */
  lemma ReadFromPrintable(s: Text)
    requires Printable(s) && Loads(s).Some?
    ensures CleanValue(Loads(s).value)
    ensures Loads(Canonical(Loads(s).value)) == Some(Canon(Loads(s).value))
  {
    SpaceTail(s, s);
    ReadValueClean(SkipSpace(s));
    CanonicalRoundTrip(Loads(s).value);
  }
}
