/** Exports are accepted exactly when every room is the complete record of one common
    list of sweep commitments, signed by one referee. */
module CloseCallTheorems {
  import opened Wrappers
  import opened Json
  import opened CloseCall

  /** The j-th message of a room with `off` seeds in front of its sweeps. */
  function BodyAt(contest: Contest, roles: seq<Role>, kind: Kind, off: nat, hashes: seq<Text>, j: nat): Body {
    if j < off then Seed(contest.id, contest.manifestHash, Rooms(roles))
    else if j < off + |hashes| then Sweep(kind, Some(j - off + 1), Some(hashes[j - off]))
    else Final
  }

  /** Line j of the room, numbered from 1 without a gap. */
  function LineAt(contest: Contest, roles: seq<Role>, kind: Kind, referee: Text, off: nat, hashes: seq<Text>, j: nat): Option<Record> {
    Some(Record(j + 1, referee, BodyAt(contest, roles, kind, off, hashes, j)))
  }

  function One(b: bool): nat {
    if b then 1 else 0
  }

  predicate AllHashes(hashes: seq<Text>) {
    forall i | 0 <= i < |hashes| :: IsHash(hashes[i])
  }

  /** The lines are the seeds, the numbered sweeps, then the finals. */
  predicate Tells(contest: Contest, roles: seq<Role>, kind: Kind, referee: Text, off: nat, hashes: seq<Text>, fin: nat, lines: seq<Option<Record>>) {
    && |lines| == off + |hashes| + fin
    && forall j: nat | j < |lines| :: lines[j] == LineAt(contest, roles, kind, referee, off, hashes, j)
  }

  /** What a complete set of exports looks like. */
  predicate Complete(contest: Contest, roles: seq<Role>, paths: map<Text, Export>, referee: Text, hashes: seq<Text>, final: bool) {
    && paths.Keys == (set room | room in Rooms(roles))
    && hashes != [] && AllHashes(hashes)
    && forall i | 0 <= i < |roles| ::
         && roles[i].room in paths && paths[roles[i].room].terminated
         && Tells(contest, roles, roles[i].kind, referee, One(roles[i].kind == Price), hashes,
                  One(roles[i].kind == Price && final), paths[roles[i].room].lines)
  }

  // ---- One room -----------------------------------------------------------------------------

  /** n lines of a scan: numbered from 1; seeds, sweeps and finals in that order. */
  predicate Shaped(contest: Contest, roles: seq<Role>, kind: Kind, start: Scan, s: Scan, lines: seq<Option<Record>>, n: nat)
    requires n <= |lines|
  {
    var off, fin := One(s.seeded && !start.seeded), One(s.finalSeen && !start.finalSeen);
    && n == off + |s.sweeps| + fin && (fin == 1 ==> n == |lines|) && AllHashes(s.sweeps)
    && (start.seeded ==> s.seeded) && (start.finalSeen ==> s.finalSeen)
    && (kind != Price ==> s.seeded == start.seeded && s.finalSeen == start.finalSeen)
    && (start.referee.Some? ==> s.referee == start.referee) && (n > 0 ==> s.referee.Some?)
    && forall j: nat | j < n :: lines[j] == LineAt(contest, roles, kind, s.referee.value, off, s.sweeps, j)
  }

  lemma LineAtGrows(contest: Contest, roles: seq<Role>, kind: Kind, referee: Text, off: nat, hashes: seq<Text>, h: Text, j: nat)
    requires j < off + |hashes|
    ensures LineAt(contest, roles, kind, referee, off, hashes, j) == LineAt(contest, roles, kind, referee, off, hashes + [h], j)
  {
  }

  lemma TakeShapes(contest: Contest, roles: seq<Role>, kind: Kind, start: Scan, s: Scan, s': Scan, lines: seq<Option<Record>>, n: nat)
    requires n < |lines| && Shaped(contest, roles, kind, start, s, lines, n) && lines[n].Some?
    requires TakeLine(contest, roles, kind, s, n, lines[n].value, n + 1 == |lines|) == Some(s')
    ensures Shaped(contest, roles, kind, start, s', lines, n + 1)
  {
    hide IsHash, Rooms, LineAt;
    var r := lines[n].value;
    var off := One(s'.seeded && !start.seeded);
    TakenLine(contest, roles, kind, start, s, s', r, n, n + 1 == |lines|);
    if r.body.Sweep? {
      forall j: nat | j < n
        ensures lines[j] == LineAt(contest, roles, kind, s'.referee.value, off, s'.sweeps, j)
      {
        LineAtGrows(contest, roles, kind, s'.referee.value, off, s.sweeps, r.body.file.value, j);
      }
    }
  }

  lemma TakenLine(contest: Contest, roles: seq<Role>, kind: Kind, start: Scan, s: Scan, s': Scan, r: Record, n: nat, last: bool)
    requires TakeLine(contest, roles, kind, s, n, r, last) == Some(s')
    requires n == One(s.seeded && !start.seeded) + |s.sweeps| + One(s.finalSeen && !start.finalSeen)
    requires (start.seeded ==> s.seeded) && (start.finalSeen ==> s.finalSeen)
    requires r.body.Sweep? ==> !(s.finalSeen && !start.finalSeen)
    ensures Some(r) == LineAt(contest, roles, kind, s'.referee.value, One(s'.seeded && !start.seeded), s'.sweeps, n)
  {
    hide IsHash, Rooms;
  }

  lemma {:induction false} ScanShape(contest: Contest, roles: seq<Role>, kind: Kind, start: Scan, lines: seq<Option<Record>>, n: nat)
    requires n <= |lines| && start.sweeps == [] && ScanLines(contest, roles, kind, start, lines, n).Some?
    ensures Shaped(contest, roles, kind, start, ScanLines(contest, roles, kind, start, lines, n).value, lines, n)
  {
    if n > 0 {
      hide TakeLine, Shaped;
      ScanShape(contest, roles, kind, start, lines, n - 1);
      TakeShapes(contest, roles, kind, start, ScanLines(contest, roles, kind, start, lines, n - 1).value,
                 ScanLines(contest, roles, kind, start, lines, n).value, lines, n - 1);
    }
  }

  /** The sweeps among the first n lines. */
  function SweepsWithin(off: nat, hashes: seq<Text>, n: nat): (r: seq<Text>)
    ensures |r| == if n <= off then 0 else if n <= off + |hashes| then n - off else |hashes|
  {
    if n <= off then [] else if n <= off + |hashes| then hashes[..n - off] else hashes
  }

  /** The state after n lines of a room that tells these sweeps. */
  function Midway(start: Scan, referee: Text, off: nat, hashes: seq<Text>, fin: nat, n: nat): Scan {
    Scan(if n == 0 then start.referee else Some(referee),
         start.seeded || (off == 1 && n > 0), start.finalSeen || (fin == 1 && n > off + |hashes|),
         SweepsWithin(off, hashes, n))
  }

  lemma MidwayTakes(contest: Contest, roles: seq<Role>, kind: Kind, start: Scan, referee: Text,
                    off: nat, hashes: seq<Text>, fin: nat, n: nat)
    requires n < off + |hashes| + fin && off <= 1 && fin <= 1 && AllHashes(hashes)
    requires start.referee == None || start.referee == Some(referee)
    requires off == 1 ==> kind == Price && !start.seeded
    requires fin == 1 ==> kind == Price && !start.finalSeen
    ensures TakeLine(contest, roles, kind, Midway(start, referee, off, hashes, fin, n), n,
                     LineAt(contest, roles, kind, referee, off, hashes, n).value, n + 1 == off + |hashes| + fin)
            == Some(Midway(start, referee, off, hashes, fin, n + 1))
  {
    hide IsHash, Rooms;
    var before, after := SweepsWithin(off, hashes, n), SweepsWithin(off, hashes, n + 1);
    if n < off {
    } else if n < off + |hashes| {
      assert after == before + [hashes[n - off]];
    } else {
      assert after == before;
    }
  }

  lemma {:induction false} ShapeScans(contest: Contest, roles: seq<Role>, kind: Kind, start: Scan, referee: Text,
                                      off: nat, hashes: seq<Text>, fin: nat, lines: seq<Option<Record>>, n: nat)
    requires n <= |lines| && start.sweeps == [] && (start.referee == None || start.referee == Some(referee))
    requires off <= 1 && fin <= 1 && AllHashes(hashes)
    requires off == 1 ==> kind == Price && !start.seeded
    requires fin == 1 ==> kind == Price && !start.finalSeen
    requires Tells(contest, roles, kind, referee, off, hashes, fin, lines)
    ensures ScanLines(contest, roles, kind, start, lines, n) == Some(Midway(start, referee, off, hashes, fin, n))
  {
    if n > 0 {
      hide TakeLine, Midway, AllHashes;
      ShapeScans(contest, roles, kind, start, referee, off, hashes, fin, lines, n - 1);
      MidwayTakes(contest, roles, kind, start, referee, off, hashes, fin, n - 1);
      assert lines[n - 1] == LineAt(contest, roles, kind, referee, off, hashes, n - 1);
    }
  }

  // ---- All rooms ----------------------------------------------------------------------------

  predicate PriceWithin(roles: seq<Role>, k: nat)
    requires k <= |roles|
  {
    exists i :: 0 <= i < k && roles[i].kind == Price
  }

  lemma PriceStep(roles: seq<Role>, k: nat)
    requires 0 < k <= |roles|
    ensures PriceWithin(roles, k) <==> PriceWithin(roles, k - 1) || roles[k - 1].kind == Price
  {
  }

  lemma PriceOnce(roles: seq<Role>, k: nat)
    requires 0 < k <= |roles| && DistinctKinds(roles)
    ensures roles[k - 1].kind == Price ==> !PriceWithin(roles, k - 1)
  {
  }

  /** Room i tells its own list of sweeps, as signed by the survey's referee. */
  predicate RoomTells(contest: Contest, roles: seq<Role>, paths: map<Text, Export>, v: Survey, i: nat)
    requires i < |roles| && i < |v.sweeps|
  {
    && roles[i].room in paths && paths[roles[i].room].terminated && paths[roles[i].room].lines != [] && v.referee.Some?
    && AllHashes(v.sweeps[i])
    && Tells(contest, roles, roles[i].kind, v.referee.value, One(roles[i].kind == Price && v.seeded), v.sweeps[i],
             One(roles[i].kind == Price && v.finalSeen), paths[roles[i].room].lines)
  }

  lemma {:induction false} SurveyShape(contest: Contest, roles: seq<Role>, paths: map<Text, Export>, k: nat)
    requires k <= |roles| && DistinctKinds(roles) && SurveyRooms(contest, roles, paths, k).Some?
    ensures var v := SurveyRooms(contest, roles, paths, k).value;
            && |v.sweeps| == k == |v.counts|
            && (v.seeded || v.finalSeen ==> PriceWithin(roles, k))
            && (forall i: nat | i < k :: RoomTells(contest, roles, paths, v, i) && v.counts[i] == |paths[roles[i].room].lines|)
  {
    hide ScanLines, LineAt, IsHash, AllHashes, Rooms;
    if k > 0 {
      SurveyShape(contest, roles, paths, k - 1);
      var u, v := SurveyRooms(contest, roles, paths, k - 1).value, SurveyRooms(contest, roles, paths, k).value;
      var role, lines := roles[k - 1], paths[roles[k - 1].room].lines;
      ScanShape(contest, roles, role.kind, Scan(u.referee, u.seeded, u.finalSeen, []), lines, |lines|);
      PriceStep(roles, k);
      PriceOnce(roles, k);
      forall i: nat | i < k
        ensures RoomTells(contest, roles, paths, v, i)
      {
        if i < k - 1 { assert RoomTells(contest, roles, paths, u, i); }
      }
    }
  }

  function Repeat<T>(x: T, n: nat): seq<T> {
    seq(n, i => x)
  }

  function CountsOf(roles: seq<Role>, latest: nat, final: bool, k: nat): (counts: seq<nat>)
    requires k <= |roles|
    ensures |counts| == k
  {
    seq(k, i requires 0 <= i < k => latest + One(roles[i].kind == Price) + One(roles[i].kind == Price && final))
  }

  /** The survey of the first k rooms of a complete set of exports. */
  function ExpectedSurvey(roles: seq<Role>, referee: Text, hashes: seq<Text>, final: bool, k: nat): Survey
    requires k <= |roles|
  {
    Survey(if k == 0 then None else Some(referee), PriceWithin(roles, k), PriceWithin(roles, k) && final,
           Repeat(hashes, k), CountsOf(roles, |hashes|, final, k))
  }

  lemma ExpectedStep(roles: seq<Role>, referee: Text, hashes: seq<Text>, final: bool, k: nat)
    requires 0 < k <= |roles|
    ensures var u, v := ExpectedSurvey(roles, referee, hashes, final, k - 1), ExpectedSurvey(roles, referee, hashes, final, k);
            var price := roles[k - 1].kind == Price;
            && v.sweeps == u.sweeps + [hashes]
            && v.counts == u.counts + [|hashes| + One(price) + One(price && final)]
            && v.referee == Some(referee) && v.seeded == (u.seeded || price) && v.finalSeen == (u.finalSeen || (price && final))
  {
    PriceStep(roles, k);
  }

  lemma ExpectedStart(roles: seq<Role>, referee: Text, hashes: seq<Text>, final: bool)
    ensures ExpectedSurvey(roles, referee, hashes, final, 0) == Survey(None, false, false, [], [])
  {
  }

  /** A room of a complete set scans to its end. */
  lemma RoomScans(contest: Contest, roles: seq<Role>, paths: map<Text, Export>, referee: Text, hashes: seq<Text>, final: bool, k: nat, u: Survey)
    requires 0 < k <= |roles| && DistinctKinds(roles) && Complete(contest, roles, paths, referee, hashes, final)
    requires u == ExpectedSurvey(roles, referee, hashes, final, k - 1)
    ensures var role, v := roles[k - 1], ExpectedSurvey(roles, referee, hashes, final, k);
            && role.room in paths && paths[role.room].terminated && paths[role.room].lines != []
            && var lines := paths[role.room].lines;
               && |lines| == |hashes| + One(role.kind == Price) + One(role.kind == Price && final)
               && ScanLines(contest, roles, role.kind, Scan(u.referee, u.seeded, u.finalSeen, []), lines, |lines|)
                  == Some(Scan(v.referee, v.seeded, v.finalSeen, hashes))
  {
    hide ScanLines, LineAt, IsHash, Rooms;
    var role, lines := roles[k - 1], paths[roles[k - 1].room].lines;
    PriceOnce(roles, k);
    PriceStep(roles, k);
    ShapeScans(contest, roles, role.kind, Scan(u.referee, u.seeded, u.finalSeen, []), referee, One(role.kind == Price), hashes,
               One(role.kind == Price && final), lines, |lines|);
    assert hashes[..|hashes|] == hashes;
  }

  lemma {:induction false} ShapeSurveys(contest: Contest, roles: seq<Role>, paths: map<Text, Export>, referee: Text, hashes: seq<Text>, final: bool, k: nat)
    requires k <= |roles| && DistinctKinds(roles) && Complete(contest, roles, paths, referee, hashes, final)
    ensures SurveyRooms(contest, roles, paths, k) == Some(ExpectedSurvey(roles, referee, hashes, final, k))
  {
    hide ScanLines, Complete, ExpectedSurvey;
    if k > 0 {
      ShapeSurveys(contest, roles, paths, referee, hashes, final, k - 1);
      RoomScans(contest, roles, paths, referee, hashes, final, k, SurveyRooms(contest, roles, paths, k - 1).value);
      ExpectedStep(roles, referee, hashes, final, k);
    } else {
      ExpectedStart(roles, referee, hashes, final);
    }
  }

  // ---- Acceptance -----------------------------------------------------------------------------

  /** Accepted exports are complete and agree: one referee, sequences 1 to k in every room,
      sweeps 1 to latest with latest at least 1, the same file hash for a sweep in all rooms,
      one seed and possibly one final in the price room and nothing else anywhere. */
  lemma AcceptedAreComplete(contest: Contest, roles: seq<Role>, paths: map<Text, Export>) returns (hashes: seq<Text>)
    requires DistinctKinds(roles) && AllKinds(roles) && VerifyExports(contest, roles, paths).Some?
    ensures var e := VerifyExports(contest, roles, paths).value;
            && Complete(contest, roles, paths, e.referee, hashes, e.finalPresent)
            && e.latest == |hashes| && e.counts == CountsOf(roles, e.latest, e.finalPresent, |roles|)
  {
    hide SurveyRooms, IsHash, RoomTells, Tells, AllHashes, Rooms;
    SurveyShape(contest, roles, paths, |roles|);
    var v := SurveyRooms(contest, roles, paths, |roles|).value;
    hashes := v.sweeps[0];
    AllCommitAlike(v.sweeps);
    assert HasKind(roles, Flow);
    var f: nat :| f < |roles| && roles[f].kind == Flow;
    FlowHasSweeps(contest, roles, paths, v, f);
    FirstTells(contest, roles, paths, v, 0);
    forall i: nat | i < |roles|
      ensures roles[i].room in paths && paths[roles[i].room].terminated
      ensures v.counts[i] == CountsOf(roles, |hashes|, v.finalSeen, |roles|)[i]
      ensures Tells(contest, roles, roles[i].kind, v.referee.value, One(roles[i].kind == Price), hashes,
                    One(roles[i].kind == Price && v.finalSeen), paths[roles[i].room].lines)
    {
      FirstTells(contest, roles, paths, v, i);
    }
    assert v.counts == CountsOf(roles, |hashes|, v.finalSeen, |roles|);
  }

  lemma AllCommitAlike(sweeps: seq<seq<Text>>)
    requires sweeps != [] && SameLatest(sweeps, |sweeps[0]|) && Committed(sweeps, |sweeps[0]|)
    ensures forall i | 0 <= i < |sweeps| :: sweeps[i] == sweeps[0]
  {
    forall i | 0 <= i < |sweeps|
      ensures sweeps[i] == sweeps[0]
    {
      assert forall n | 0 <= n < |sweeps[0]| :: sweeps[i][n] == sweeps[0][n];
    }
  }

  /** A room without seed and final still has a line, so it has a sweep. */
  lemma FlowHasSweeps(contest: Contest, roles: seq<Role>, paths: map<Text, Export>, v: Survey, i: nat)
    requires i < |roles| && i < |v.sweeps| && RoomTells(contest, roles, paths, v, i) && roles[i].kind != Price
    ensures v.sweeps[i] != []
  {
    hide LineAt;
  }

  lemma FirstTells(contest: Contest, roles: seq<Role>, paths: map<Text, Export>, v: Survey, i: nat)
    requires i < |roles| && i < |v.sweeps| && RoomTells(contest, roles, paths, v, i) && v.seeded
    ensures roles[i].room in paths && paths[roles[i].room].terminated && AllHashes(v.sweeps[i])
    ensures Tells(contest, roles, roles[i].kind, v.referee.value, One(roles[i].kind == Price), v.sweeps[i],
                  One(roles[i].kind == Price && v.finalSeen), paths[roles[i].room].lines)
    ensures |paths[roles[i].room].lines|
            == One(roles[i].kind == Price) + |v.sweeps[i]| + One(roles[i].kind == Price && v.finalSeen)
  {
    hide LineAt;
  }

  /** Every complete set of exports is accepted, with its own evidence. */
  lemma CompleteAreAccepted(contest: Contest, roles: seq<Role>, paths: map<Text, Export>, referee: Text, hashes: seq<Text>, final: bool)
    requires DistinctKinds(roles) && AllKinds(roles) && Complete(contest, roles, paths, referee, hashes, final)
    ensures VerifyExports(contest, roles, paths)
            == Some(Evidence(referee, |hashes|, final, CountsOf(roles, |hashes|, final, |roles|)))
  {
    hide SurveyRooms, LineAt, IsHash, Tells, AllHashes, Rooms;
    assert HasKind(roles, Price);
    ShapeSurveys(contest, roles, paths, referee, hashes, final, |roles|);
    var v := SurveyRooms(contest, roles, paths, |roles|).value;
    assert v.sweeps[0] == hashes;
    assert SameLatest(v.sweeps, |hashes|);
  }

  /** Two accepted sets of exports with the same referee, commitments and final flag hold the
      same records: nothing in them is free. */
  lemma CompleteIsUnique(contest: Contest, roles: seq<Role>, paths: map<Text, Export>, paths': map<Text, Export>,
                         referee: Text, hashes: seq<Text>, final: bool)
    requires Complete(contest, roles, paths, referee, hashes, final) && Complete(contest, roles, paths', referee, hashes, final)
    ensures paths == paths'
  {
    hide LineAt, IsHash;
    forall room | room in paths
      ensures room in paths' && paths[room] == paths'[room]
    {
      assert room in Rooms(roles);
      var i :| 0 <= i < |roles| && roles[i].room == room;
      assert paths[room].lines == paths'[room].lines;
    }
  }
}
