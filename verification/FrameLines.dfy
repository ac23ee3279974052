/** Frames and their canonical lines determine each other. */
module FrameLines {
  import opened Wrappers
  import opened Json
  import opened CanonicalJson
  import opened Frames

  // ---- The order of the field names ---------------------------------------------

  predicate Precedes(a: string, b: string) {
    if b == "" then false
    else if a == "" then true
    else a[0] < b[0] || (a[0] == b[0] && Precedes(a[1..], b[1..]))
  }

  lemma {:induction false} PrecedesIsLess(a: string, b: string)
    requires Precedes(a, b)
    ensures Less(Lit(a), Lit(b))
  {
    assert Lit(b)[0] == b[0] as nat;
    if a != "" && a[0] == b[0] {
      PrecedesIsLess(a[1..], b[1..]);
      assert Lit(a)[1..] == Lit(a[1..]) && Lit(b)[1..] == Lit(b[1..]);
    }
  }

  lemma NextNameLess(n: nat)
    requires n < 26
    ensures Less(KeyText(Ranked(n)), KeyText(Ranked(n + 1)))
  {
    assert Precedes(Name(Ranked(n)), Name(Ranked(n + 1))) by { NextNamePrecedes(n); }
    PrecedesIsLess(Name(Ranked(n)), Name(Ranked(n + 1)));
  }

  lemma NextNamePrecedes(n: nat)
    requires n < 26
    ensures Precedes(Name(Ranked(n)), Name(Ranked(n + 1)))
  {
    hide Name, Ranked, Precedes;
    if n < 5 { NamesAToE(n); }
    else if n < 12 { NamesEToN(n); }
    else if n < 16 { NamesNToP(n); }
    else if n < 20 { NamesPToR(n); }
    else if n < 23 { NamesRToR(n); }
    else { NamesRToT(n); }
  }

  lemma NamesAToE(n: nat)
    requires 0 <= n < 5
    ensures Precedes(Name(Ranked(n)), Name(Ranked(n + 1)))
  {
    match n
    case 0 => assert Precedes("accept", "amount");
    case 1 => assert Precedes("amount", "asset");
    case 2 => assert Precedes("asset", "claimByMs");
    case 3 => assert Precedes("claimByMs", "context");
    case _ => assert Precedes("context", "contract");
  }

  lemma NamesEToN(n: nat)
    requires 5 <= n < 12
    ensures Precedes(Name(Ranked(n)), Name(Ranked(n + 1)))
  {
    match n
    case 5 => assert Precedes("contract", "expiresMs");
    case 6 => assert Precedes("expiresMs", "from");
    case 7 => assert Precedes("from", "id");
    case 8 => assert Precedes("id", "job");
    case 9 => assert Precedes("job", "lock");
    case 10 => assert Precedes("lock", "nonce");
    case _ => assert Precedes("nonce", "note");
  }

  lemma NamesNToP(n: nat)
    requires 12 <= n < 16
    ensures Precedes(Name(Ranked(n)), Name(Ranked(n + 1)))
  {
    match n
    case 12 => assert Precedes("note", "offer");
    case 13 => assert Precedes("offer", "outcome");
    case 14 => assert Precedes("outcome", "paymentKey");
    case _ => assert Precedes("paymentKey", "presig");
  }

  lemma NamesPToR(n: nat)
    requires 16 <= n < 20
    ensures Precedes(Name(Ranked(n)), Name(Ranked(n + 1)))
  {
    match n
    case 16 => assert Precedes("presig", "proto");
    case 17 => assert Precedes("proto", "rail");
    case 18 => assert Precedes("rail", "rails");
    case _ => assert Precedes("rails", "reason");
  }

  lemma NamesRToR(n: nat)
    requires 20 <= n < 23
    ensures Precedes(Name(Ranked(n)), Name(Ranked(n + 1)))
  {
    match n
    case 20 => assert Precedes("reason", "ref");
    case 21 => assert Precedes("ref", "refundAfterMs");
    case _ => assert Precedes("refundAfterMs", "role");
  }

  lemma NamesRToT(n: nat)
    requires 23 <= n < 26
    ensures Precedes(Name(Ranked(n)), Name(Ranked(n + 1)))
  {
    match n
    case 23 => assert Precedes("role", "secret");
    case 24 => assert Precedes("secret", "statement");
    case _ => assert Precedes("statement", "type");
  }

  lemma {:induction false} RankedNamesLess(i: nat, j: nat)
    requires i < j < 27
    ensures Less(KeyText(Ranked(i)), KeyText(Ranked(j)))
    decreases j
  {
    NextNameLess(j - 1);
    if i < j - 1 {
      RankedNamesLess(i, j - 1);
      LessTransitive(KeyText(Ranked(i)), KeyText(Ranked(j - 1)), KeyText(Ranked(j)));
    }
  }

  function Rank(k: Key): (n: nat)
    ensures n < 27 && Ranked(n) == k
  {
    match k
    case KAccept => 0 case KAmount => 1 case KAsset => 2 case KClaimBy => 3 case KContext => 4 case KContract => 5
    case KExpires => 6 case KFrom => 7 case KId => 8 case KJob => 9 case KLock => 10 case KNonce => 11 case KNote => 12
    case KOffer => 13 case KOutcome => 14 case KPaymentKey => 15 case KPresig => 16 case KProto => 17 case KRail => 18
    case KRails => 19 case KReason => 20 case KRef => 21 case KRefundAfter => 22 case KRole => 23 case KSecret => 24
    case KStatement => 25 case KType => 26
  }

  lemma RankInverts(n: nat)
    requires n < 27
    ensures Rank(Ranked(n)) == n
  {
  }

  lemma NamesDistinct(a: Key, b: Key)
    ensures KeyText(a) == KeyText(b) <==> a == b
  {
    if a != b {
      var i, j := Rank(a), Rank(b);
      if i < j { RankedNamesLess(i, j); } else { RankedNamesLess(j, i); }
      LessIrreflexive(KeyText(a));
    }
  }

  // ---- Objects given by their entries -------------------------------------------------

  /** The object with entries t is sorted and its lookups are exactly t. */
  lemma {:induction false} BuildMeaning(t: Entries, n: nat)
    requires n <= 27
    ensures Sorted(Build(t, n))
    ensures forall m: nat | m < n && m < 27 :: Below(KeyText(Ranked(m)), Build(t, n))
    ensures forall k: Key :: At(Build(t, n), k) == if Rank(k) >= n then t(k) else None
    ensures forall q :: HasKey(Build(t, n), q) ==> exists k: Key :: KeyText(k) == q && t(k).Some?
    decreases 27 - n
  {
    hide KeyText, Ranked, Rank;
    if n < 27 {
      RankInverts(n);
      BuildMeaning(t, n + 1);
      forall m: nat | m < n
        ensures Less(KeyText(Ranked(m)), KeyText(Ranked(n)))
      {
        RankedNamesLess(m, n);
      }
      forall k: Key
        ensures At(Build(t, n), k) == if Rank(k) >= n then t(k) else None
      {
        NamesDistinct(k, Ranked(n));
      }
    }
  }

  function CanonEntry(fs: Fields, k: Key): Option<Json> {
    match At(fs, k) case None => None case Some(v) => Some(Canon(v))
  }

  lemma {:induction false} OnlyKeysMeaning(fs: Fields, allowed: set<Key>)
    ensures OnlyKeys(fs, allowed) <==> forall q | HasKey(fs, q) :: Named(q, allowed)
  {
    hide Named;
    if fs.Field? {
      OnlyKeysMeaning(fs.rest, allowed);
      assert HasKey(fs, fs.key);
      assert forall q | HasKey(fs.rest, q) :: HasKey(fs, q);
    }
  }

  lemma NotAllowed(fs: Fields, allowed: set<Key>, k: Key)
    requires OnlyKeys(fs, allowed) && k !in allowed
    ensures At(fs, k) == None
  {
    OnlyKeysMeaning(fs, allowed);
    if HasKey(fs, KeyText(k)) {
      assert Named(KeyText(k), allowed);
      var j :| j in allowed && KeyText(j) == KeyText(k);
      NamesDistinct(j, k);
    }
  }

  /** An object whose keys are known and whose lookups, made canonical, are t
      has t's object as its canonical form. */
  lemma CanonIsObject(fs: Fields, allowed: set<Key>, t: Entries)
    requires NoDuplicates(fs) && OnlyKeys(fs, allowed)
    requires forall k: Key :: CanonEntry(fs, k) == t(k)
    ensures Canon(JObj(fs)) == Object(t)
  {
    hide KeyText;
    CanonFieldsMeaning(fs);
    BuildMeaning(t, 0);
    OnlyKeysMeaning(fs, allowed);
    forall q
      ensures Get(CanonFields(fs), q) == Get(Build(t, 0), q)
    {
      if HasKey(Build(t, 0), q) {
        var k: Key :| KeyText(k) == q && t(k).Some?;
        assert CanonEntry(fs, k) == t(k);
      }
      if HasKey(fs, q) {
        assert Named(q, allowed);
        var k :| k in allowed && KeyText(k) == q;
        assert At(Build(t, 0), k) == t(k) == CanonEntry(fs, k);
      }
    }
    SortedUnique(CanonFields(fs), Build(t, 0));
  }

  /** Every key, for objects about whose keys nothing else is needed. */
  const ANY_KEY: set<Key> := set n | 0 <= n < 27 :: Ranked(n)

  lemma BuiltKeys(t: Entries, required: set<Key>, allowed: set<Key>)
    requires forall k: Key | t(k).Some? :: k in allowed
    requires forall k: Key | k in required :: t(k).Some?
    ensures OnlyKeys(Build(t, 0), allowed) && HasKeys(Build(t, 0), required)
    ensures NoDuplicates(Build(t, 0))
    ensures forall k: Key :: At(Build(t, 0), k) == t(k)
  {
    hide KeyText, Rank;
    BuildMeaning(t, 0);
    SortedHasNoDuplicates(Build(t, 0));
    OnlyKeysMeaning(Build(t, 0), allowed);
    forall q | HasKey(Build(t, 0), q)
      ensures Named(q, allowed)
    {
      var k: Key :| KeyText(k) == q && t(k).Some?;
    }
    forall k: Key | k in required
      ensures HasKey(Build(t, 0), KeyText(k))
    {
      assert At(Build(t, 0), k) == t(k);
    }
  }

  lemma EveryKeyBuilt(t: Entries)
    ensures OnlyKeys(Build(t, 0), ANY_KEY) && NoDuplicates(Build(t, 0))
    ensures forall k: Key :: At(Build(t, 0), k) == t(k)
  {
    hide KeyText, Rank;
    forall k: Key
      ensures k in ANY_KEY
    {
      assert Ranked(Rank(k)) == k;
    }
    BuiltKeys(t, {}, ANY_KEY);
  }

  /** An object whose entries are canonical is canonical. */
  lemma ObjectIsCanonical(t: Entries)
    requires forall k: Key | t(k).Some? :: Canon(t(k).value) == t(k).value
    ensures Canon(Object(t)) == Object(t)
  {
    hide KeyText;
    EveryKeyBuilt(t);
    forall k: Key
      ensures CanonEntry(Build(t, 0), k) == t(k)
    {
      assert At(Build(t, 0), k) == t(k);
    }
    CanonIsObject(Build(t, 0), ANY_KEY, t);
  }
}
