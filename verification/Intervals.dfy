/** Closed integer intervals: merging into canonical form, and the holes between. */
module Intervals {

  datatype Range = Range(lo: int, hi: int)

  predicate In(r: Range, x: int) {
    r.lo <= x <= r.hi
  }

  predicate Covers(rs: seq<Range>, x: int) {
    exists i :: 0 <= i < |rs| && In(rs[i], x)
  }

  predicate Proper(rs: seq<Range>) {
    forall i | 0 <= i < |rs| :: rs[i].lo <= rs[i].hi
  }

  /** Sorted, disjoint and not even adjacent. */
  predicate IsCanonical(rs: seq<Range>) {
    Proper(rs) && forall i, j | 0 <= i < j < |rs| :: rs[i].hi + 1 < rs[j].lo
  }

  function Max(x: int, y: int): int {
    if x < y then y else x
  }

  // ---- sorted(ranges): lexicographic, as Python compares pairs ----------------------

  predicate AtMost(a: Range, b: Range) {
    a.lo < b.lo || (a.lo == b.lo && a.hi <= b.hi)
  }

  predicate Ordered(rs: seq<Range>) {
    forall i, j | 0 <= i < j < |rs| :: AtMost(rs[i], rs[j])
  }

  function Insert(r: Range, rs: seq<Range>): seq<Range> {
    if rs == [] || AtMost(r, rs[0]) then [r] + rs else [rs[0]] + Insert(r, rs[1..])
  }

  function Sort(rs: seq<Range>): seq<Range> {
    if rs == [] then [] else Insert(rs[0], Sort(rs[1..]))
  }

  lemma {:induction false} InsertPermutes(r: Range, rs: seq<Range>)
    ensures multiset(Insert(r, rs)) == multiset{r} + multiset(rs)
  {
    if rs == [] || AtMost(r, rs[0]) {
      assert multiset([r] + rs) == multiset([r]) + multiset(rs);
    } else {
      InsertPermutes(r, rs[1..]);
      assert rs == [rs[0]] + rs[1..];
      assert multiset(rs) == multiset{rs[0]} + multiset(rs[1..]);
    }
  }

  lemma InsertMembers(r: Range, rs: seq<Range>, q: Range)
    requires q in Insert(r, rs)
    ensures q == r || q in rs
  {
    InsertPermutes(r, rs);
    assert q in multiset(Insert(r, rs));
  }

  lemma {:induction false} InsertOrders(r: Range, rs: seq<Range>)
    requires Ordered(rs)
    ensures Ordered(Insert(r, rs))
  {
    if rs != [] && !AtMost(r, rs[0]) {
      InsertOrders(r, rs[1..]);
      var t := Insert(r, rs[1..]);
      forall j | 0 <= j < |t|
        ensures AtMost(rs[0], t[j])
      {
        InsertMembers(r, rs[1..], t[j]);
      }
    }
  }

  /** Sorting orders and loses nothing. */
  lemma {:induction false} SortKeeps(rs: seq<Range>)
    ensures Ordered(Sort(rs)) && multiset(Sort(rs)) == multiset(rs)
  {
    if rs != [] {
      SortKeeps(rs[1..]);
      InsertOrders(rs[0], Sort(rs[1..]));
      InsertPermutes(rs[0], Sort(rs[1..]));
      assert rs == [rs[0]] + rs[1..];
    }
  }

  lemma SameMembers(as': seq<Range>, bs: seq<Range>)
    requires multiset(as') == multiset(bs)
    ensures forall x :: Covers(as', x) <==> Covers(bs, x)
    ensures Proper(as') <==> Proper(bs)
  {
    assert forall r :: r in as' <==> r in multiset(as');
    assert forall r :: r in bs <==> r in multiset(bs);
    forall x
      ensures Covers(as', x) <==> Covers(bs, x)
    {
      if Covers(as', x) {
        var i :| 0 <= i < |as'| && In(as'[i], x);
        assert as'[i] in bs;
      }
      if Covers(bs, x) {
        var i :| 0 <= i < |bs| && In(bs[i], x);
        assert bs[i] in as';
      }
    }
    if Proper(as') {
      forall i | 0 <= i < |bs|
        ensures bs[i].lo <= bs[i].hi
      {
        assert bs[i] in as';
      }
    }
    if Proper(bs) {
      forall i | 0 <= i < |as'|
        ensures as'[i].lo <= as'[i].hi
      {
        assert as'[i] in bs;
      }
    }
  }

  // ---- merge ---------------------------------------------------------------------------

  /** The loop body: widen the last interval or start a new one. */
  function Extend(acc: seq<Range>, r: Range): seq<Range> {
    var n := |acc|;
    if n > 0 && r.lo <= acc[n - 1].hi + 1 then acc[n - 1 := Range(acc[n - 1].lo, Max(acc[n - 1].hi, r.hi))]
    else acc + [r]
  }

  function MergeOrdered(rs: seq<Range>): seq<Range> {
    if rs == [] then [] else Extend(MergeOrdered(rs[..|rs| - 1]), rs[|rs| - 1])
  }

  function Merge(rs: seq<Range>): seq<Range> {
    MergeOrdered(Sort(rs))
  }

  method MergeLoop(ranges: seq<Range>) returns (result: seq<Range>)
    ensures result == Merge(ranges)
  {
    result := [];
    var sorted := Sort(ranges);
    for k := 0 to |sorted|
      invariant result == MergeOrdered(sorted[..k])
    {
      var r, n := sorted[k], |result|;
      if n > 0 && r.lo <= result[n - 1].hi + 1 {
        result := result[n - 1 := Range(result[n - 1].lo, Max(result[n - 1].hi, r.hi))];
      } else {
        result := result + [r];
      }
      assert sorted[..k + 1][..k] == sorted[..k];
    }
    assert sorted[..|sorted|] == sorted;
  }

  lemma ExtendKeeps(acc: seq<Range>, r: Range)
    requires IsCanonical(acc) && r.lo <= r.hi && (acc != [] ==> acc[|acc| - 1].lo <= r.lo)
    ensures IsCanonical(Extend(acc, r))
    ensures Extend(acc, r) != [] && Extend(acc, r)[|Extend(acc, r)| - 1].lo <= r.lo
  {
  }

  lemma ExtendCovers(acc: seq<Range>, r: Range, x: int)
    requires r.lo <= r.hi && (acc != [] ==> acc[|acc| - 1].lo <= r.lo && acc[|acc| - 1].lo <= acc[|acc| - 1].hi)
    ensures Covers(Extend(acc, r), x) <==> Covers(acc, x) || In(r, x)
  {
    var out, n := Extend(acc, r), |acc|;
    if n > 0 && r.lo <= acc[n - 1].hi + 1 {
      assert forall i | 0 <= i < n - 1 :: out[i] == acc[i];
      assert In(out[n - 1], x) <==> In(acc[n - 1], x) || In(r, x);
      if Covers(out, x) {
        var i :| 0 <= i < |out| && In(out[i], x);
        if i < n - 1 { assert In(acc[i], x); }
      }
      if Covers(acc, x) {
        var i :| 0 <= i < |acc| && In(acc[i], x);
        assert In(out[i], x);
      }
    } else {
      assert out[n] == r;
      if Covers(out, x) {
        var i :| 0 <= i < |out| && In(out[i], x);
        if i < n { assert In(acc[i], x); }
      }
      if Covers(acc, x) {
        var i :| 0 <= i < |acc| && In(acc[i], x);
        assert In(out[i], x);
      }
    }
  }

  lemma {:induction false} MergeOrderedMeaning(rs: seq<Range>)
    requires Ordered(rs) && Proper(rs)
    ensures IsCanonical(MergeOrdered(rs))
    ensures forall x :: Covers(MergeOrdered(rs), x) <==> Covers(rs, x)
    ensures rs != [] ==> var m := MergeOrdered(rs); m != [] && m[|m| - 1].lo <= rs[|rs| - 1].lo
  {
    if rs != [] {
      var init, r := rs[..|rs| - 1], rs[|rs| - 1];
      MergeOrderedMeaning(init);
      var acc := MergeOrdered(init);
      if init != [] { assert AtMost(rs[|rs| - 2], r); }
      if acc != [] && init == [] { assert false; }
      ExtendKeeps(acc, r);
      forall x
        ensures Covers(MergeOrdered(rs), x) <==> Covers(rs, x)
      {
        ExtendCovers(acc, r, x);
        CoversLast(rs, x);
      }
    }
  }

  lemma CoversLast(rs: seq<Range>, x: int)
    requires rs != []
    ensures Covers(rs, x) <==> Covers(rs[..|rs| - 1], x) || In(rs[|rs| - 1], x)
  {
    if Covers(rs, x) {
      var i :| 0 <= i < |rs| && In(rs[i], x);
      if i < |rs| - 1 { assert In(rs[..|rs| - 1][i], x); }
    }
    if Covers(rs[..|rs| - 1], x) {
      var i :| 0 <= i < |rs| - 1 && In(rs[..|rs| - 1][i], x);
      assert In(rs[i], x);
    }
  }

  /** Merging keeps the covered points and puts them in canonical form. */
  lemma MergeMeaning(rs: seq<Range>)
    requires Proper(rs)
    ensures IsCanonical(Merge(rs))
    ensures forall x :: Covers(Merge(rs), x) <==> Covers(rs, x)
  {
    SortKeeps(rs);
    SameMembers(Sort(rs), rs);
    MergeOrderedMeaning(Sort(rs));
  }

  /** A set of points has one canonical form. */
  lemma {:induction false} CanonicalUnique(as': seq<Range>, bs: seq<Range>)
    requires IsCanonical(as') && IsCanonical(bs)
    requires forall x :: Covers(as', x) <==> Covers(bs, x)
    ensures as' == bs
    decreases |as'|
  {
    if as' != [] {
      assert In(as'[0], as'[0].lo);
      assert Covers(as', as'[0].lo);
    }
    if bs != [] {
      assert In(bs[0], bs[0].lo);
      assert Covers(bs, bs[0].lo);
    }
    if as' != [] && bs != [] {
      LastsAgree(as', bs);
      var p, q := as'[..|as'| - 1], bs[..|bs| - 1];
      forall x
        ensures Covers(p, x) <==> Covers(q, x)
      {
        InitCovers(as', x);
        InitCovers(bs, x);
      }
      CanonicalUnique(p, q);
      assert as' == p + [as'[|as'| - 1]] && bs == q + [bs[|bs| - 1]];
    }
  }

  lemma InitCovers(rs: seq<Range>, x: int)
    requires IsCanonical(rs) && rs != []
    ensures Covers(rs[..|rs| - 1], x) <==> Covers(rs, x) && x < rs[|rs| - 1].lo
  {
    CoversLast(rs, x);
  }

  lemma CoveredBelow(rs: seq<Range>, x: int)
    requires IsCanonical(rs) && rs != [] && Covers(rs, x)
    ensures x <= rs[|rs| - 1].hi
    ensures x < rs[|rs| - 1].lo ==> x + 1 < rs[|rs| - 1].lo
  {
  }

  lemma LastsAgree(as': seq<Range>, bs: seq<Range>)
    requires IsCanonical(as') && IsCanonical(bs) && as' != [] && bs != []
    requires forall x :: Covers(as', x) <==> Covers(bs, x)
    ensures as'[|as'| - 1] == bs[|bs| - 1]
  {
    var a, b := as'[|as'| - 1], bs[|bs| - 1];
    assert In(a, a.hi) && In(b, b.hi);
    assert Covers(as', a.hi) && Covers(bs, b.hi);
    CoveredBelow(bs, a.hi);
    CoveredBelow(as', b.hi);
    if a.lo < b.lo {
      assert In(a, b.lo - 1);
      assert Covers(as', b.lo - 1);
      CoveredBelow(bs, b.lo - 1);
    }
    if b.lo < a.lo {
      assert In(b, a.lo - 1);
      assert Covers(bs, a.lo - 1);
      CoveredBelow(as', a.lo - 1);
    }
  }

  // ---- holes -----------------------------------------------------------------------------

  function Cursor(rs: seq<Range>, after: int): int {
    if rs == [] then after + 1 else Max(Cursor(rs[..|rs| - 1], after), rs[|rs| - 1].hi + 1)
  }

  function Holes(rs: seq<Range>, after: int): seq<Range> {
    if rs == [] then []
    else
      var init, r := rs[..|rs| - 1], rs[|rs| - 1];
      Holes(init, after) + (if r.lo > Cursor(init, after) then [Range(Cursor(init, after), r.lo - 1)] else [])
  }

  method HolesLoop(ranges: seq<Range>, after: int) returns (result: seq<Range>)
    ensures result == Holes(ranges, after)
  {
    result := [];
    var cursor := after + 1;
    for k := 0 to |ranges|
      invariant cursor == Cursor(ranges[..k], after) && result == Holes(ranges[..k], after)
    {
      assert ranges[..k + 1][..k] == ranges[..k];
      if ranges[k].lo > cursor {
        result := result + [Range(cursor, ranges[k].lo - 1)];
      }
      cursor := Max(cursor, ranges[k].hi + 1);
    }
    assert ranges[..|ranges|] == ranges;
  }

  predicate Above(rs: seq<Range>, after: int) {
    forall i | 0 <= i < |rs| :: after < rs[i].lo
  }

  /** The highest covered point, or the starting mark when nothing is covered. */
  function HighWater(rs: seq<Range>, after: int): int {
    if rs == [] then after else rs[|rs| - 1].hi
  }

  function Length(rs: seq<Range>): int {
    if rs == [] then 0 else Length(rs[..|rs| - 1]) + rs[|rs| - 1].hi - rs[|rs| - 1].lo + 1
  }

  lemma {:induction false} LengthAppend(rs: seq<Range>, r: Range)
    ensures Length(rs + [r]) == Length(rs) + r.hi - r.lo + 1
  {
    assert (rs + [r])[..|rs|] == rs;
  }

  lemma CoversAppend(rs: seq<Range>, r: Range, x: int)
    ensures Covers(rs + [r], x) <==> Covers(rs, x) || In(r, x)
  {
    assert (rs + [r])[..|rs|] == rs;
    CoversLast(rs + [r], x);
  }

  lemma {:induction false} CursorIsMark(rs: seq<Range>, after: int)
    requires IsCanonical(rs) && Above(rs, after)
    ensures Cursor(rs, after) == HighWater(rs, after) + 1 && after <= HighWater(rs, after)
    ensures rs != [] ==> var init := rs[..|rs| - 1];
              HighWater(init, after) < rs[|rs| - 1].lo && Cursor(init, after) == HighWater(init, after) + 1
    ensures forall x :: Covers(rs, x) ==> after < x <= HighWater(rs, after)
  {
    if rs != [] { CursorIsMark(rs[..|rs| - 1], after); }
  }

  /** The hole, if any, in front of the last interval. */
  function Gap(rs: seq<Range>, after: int): Range
    requires rs != []
  {
    Range(HighWater(rs[..|rs| - 1], after) + 1, rs[|rs| - 1].lo - 1)
  }

  lemma HolesStep(rs: seq<Range>, after: int)
    requires IsCanonical(rs) && Above(rs, after) && rs != []
    ensures var old', gap := Holes(rs[..|rs| - 1], after), Gap(rs, after);
            && Holes(rs, after) == (if gap.lo <= gap.hi then old' + [gap] else old')
            && Length(Holes(rs, after)) == Length(old') + gap.hi - gap.lo + 1
            && gap.lo <= gap.hi + 1
            && forall x :: Covers(Holes(rs, after), x) <==> Covers(old', x) || In(gap, x)
  {
    hide Covers, IsCanonical;
    CursorIsMark(rs, after);
    var old', gap := Holes(rs[..|rs| - 1], after), Gap(rs, after);
    LengthAppend(old', gap);
    forall x
      ensures Covers(old' + [gap], x) <==> Covers(old', x) || In(gap, x)
    {
      CoversAppend(old', gap, x);
    }
  }

  lemma {:induction false} HolesAreCanonical(rs: seq<Range>, after: int)
    requires IsCanonical(rs) && Above(rs, after)
    ensures IsCanonical(Holes(rs, after))
    ensures forall i | 0 <= i < |Holes(rs, after)| :: Holes(rs, after)[i].hi < HighWater(rs, after)
  {
    if rs != [] {
      HolesAreCanonical(rs[..|rs| - 1], after);
      HolesStep(rs, after);
      CursorIsMark(rs, after);
    }
  }

  /** Coverage and holes split the range from the mark to the high water exactly. */
  lemma {:induction false} HolesPartition(rs: seq<Range>, after: int)
    requires IsCanonical(rs) && Above(rs, after)
    ensures forall x :: Covers(rs, x) || Covers(Holes(rs, after), x) <==> after < x <= HighWater(rs, after)
    ensures forall x :: !(Covers(rs, x) && Covers(Holes(rs, after), x))
    ensures Length(rs) + Length(Holes(rs, after)) == HighWater(rs, after) - after
  {
    hide Holes, Covers;
    if rs == [] {
      NothingPartitions(rs, after);
    } else {
      var init, r := rs[..|rs| - 1], rs[|rs| - 1];
      HolesPartition(init, after);
      HolesStep(rs, after);
      CursorIsMark(rs, after);
      CursorIsMark(init, after);
      forall x
        ensures Covers(rs, x) <==> Covers(init, x) || In(r, x)
      {
        CoversLast(rs, x);
      }
    }
  }

  lemma NothingPartitions(rs: seq<Range>, after: int)
    requires rs == []
    ensures forall x :: !Covers(rs, x) && !Covers(Holes(rs, after), x)
    ensures Length(rs) + Length(Holes(rs, after)) == 0
  {
  }
}
