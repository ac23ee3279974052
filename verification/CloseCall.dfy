/** Complete referee-room exports of a Close Call contest: classification of the rooms and
    the check that all five tell one story. */
module CloseCall {
  import opened Wrappers
  import opened Json
  import Frames

  datatype Kind = Price | Flow | Status | Positions | Pnl

  datatype Role = Role(kind: Kind, room: Text)

  // The signed inner message; a sweep has the type named after its room's kind.
  datatype Body =
    | Seed(season: Text, package: Text, rooms: seq<Text>)
    | Final
    | Sweep(kind: Kind, n: Option<int>, file: Option<Text>)
    | Other

  datatype Record = Record(sequence: int, sender: Text, body: Body)

  // The lines of an export, None where parsing or the signature check fails.
  datatype Export = Export(lines: seq<Option<Record>>, terminated: bool)

  datatype Contest = Contest(id: Text, manifestHash: Text)

  predicate IsHash(t: Text) {
    |t| == 64 && forall i | 0 <= i < 64 :: Frames.LowerHex(t[i])
  }

  // ---- classify_rooms -------------------------------------------------------------------

  const KINDS: seq<Kind> := [Price, Flow, Status, Positions, Pnl]

  function Suffix(k: Kind): Text {
    match k
    case Price => Lit("-price")
    case Flow => Lit("-flow")
    case Status => Lit("-state")
    case Positions => Lit("-positions")
    case Pnl => Lit("-pnl")
  }

  predicate EndsWith(t: Text, s: Text) {
    |s| <= |t| && t[|t| - |s|..] == s
  }

  function Matches(room: Text, n: nat): seq<Kind>
    requires n <= 5
  {
    if n == 0 then []
    else Matches(room, n - 1) + if EndsWith(room, Suffix(KINDS[n - 1])) then [KINDS[n - 1]] else []
  }

  /** Assigning to a dictionary key: replace in place, or append. */
  function Assign(roles: seq<Role>, role: Role): seq<Role> {
    if roles == [] then [role]
    else if roles[0].kind == role.kind then [role] + roles[1..]
    else [roles[0]] + Assign(roles[1..], role)
  }

  function Classify(rooms: seq<Text>, n: nat): Option<seq<Role>>
    requires n <= |rooms|
  {
    if n == 0 then Some([])
    else
      var roles :- Classify(rooms, n - 1);
      var matches := Matches(rooms[n - 1], 5);
      if |matches| != 1 then None else Some(Assign(roles, Role(matches[0], rooms[n - 1])))
  }

  predicate HasKind(roles: seq<Role>, k: Kind) {
    exists i :: 0 <= i < |roles| && roles[i].kind == k
  }

  predicate AllKinds(roles: seq<Role>) {
    forall k: Kind :: HasKind(roles, k)
  }

  predicate DistinctKinds(roles: seq<Role>) {
    forall i, j | 0 <= i < j < |roles| :: roles[i].kind != roles[j].kind
  }

  function ClassifyRooms(rooms: seq<Text>): Option<seq<Role>> {
    var roles :- Classify(rooms, |rooms|);
    if AllKinds(roles) then Some(roles) else None
  }

  lemma {:induction false} AssignHas(roles: seq<Role>, role: Role, k: Kind)
    ensures HasKind(Assign(roles, role), k) <==> HasKind(roles, k) || k == role.kind
  {
    var grown := Assign(roles, role);
    if roles == [] {
      assert grown[0] == role;
    } else if roles[0].kind == role.kind {
      assert grown[0] == role && grown[1..] == roles[1..];
      assert forall i | 0 < i < |roles| :: grown[i] == roles[i];
    } else {
      AssignHas(roles[1..], role, k);
      var tail := Assign(roles[1..], role);
      assert HasKind(grown, k) <==> roles[0].kind == k || HasKind(tail, k) by { HasKindCons(roles[0], tail, k); }
      assert HasKind(roles, k) <==> roles[0].kind == k || HasKind(roles[1..], k) by {
        HasKindCons(roles[0], roles[1..], k);
        assert roles == [roles[0]] + roles[1..];
      }
    }
  }

  lemma HasKindCons(role: Role, roles: seq<Role>, k: Kind)
    ensures HasKind([role] + roles, k) <==> role.kind == k || HasKind(roles, k)
  {
    var longer := [role] + roles;
    assert longer[0] == role && forall i | 0 <= i < |roles| :: longer[i + 1] == roles[i];
    if HasKind(longer, k) {
      var i :| 0 <= i < |longer| && longer[i].kind == k;
      if i > 0 { assert roles[i - 1].kind == k; }
    }
  }

  lemma {:induction false} AssignKeeps(roles: seq<Role>, role: Role)
    requires DistinctKinds(roles)
    ensures var grown := Assign(roles, role);
            && DistinctKinds(grown) && |roles| <= |grown| <= |roles| + 1
            && (|grown| == |roles| + 1 ==> grown == roles + [role])
  {
    if roles != [] && roles[0].kind != role.kind {
      AssignKeeps(roles[1..], role);
      assert roles == [roles[0]] + roles[1..];
      var tail := Assign(roles[1..], role);
      forall j | 0 <= j < |tail|
        ensures tail[j].kind != roles[0].kind
      {
        assert HasKind(tail, tail[j].kind);
        AssignHas(roles[1..], role, tail[j].kind);
        if HasKind(roles[1..], tail[j].kind) {
          var i :| 0 <= i < |roles[1..]| && roles[1..][i].kind == tail[j].kind;
          assert roles[i + 1].kind == tail[j].kind;
        }
      }
      DistinctCons(roles[0], tail);
    }
  }

  lemma DistinctCons(role: Role, roles: seq<Role>)
    requires DistinctKinds(roles) && forall j | 0 <= j < |roles| :: roles[j].kind != role.kind
    ensures DistinctKinds([role] + roles)
  {
  }

  lemma {:induction false} ClassifyKeeps(rooms: seq<Text>, n: nat)
    requires n <= |rooms| && Classify(rooms, n).Some?
    ensures var roles := Classify(rooms, n).value;
            && DistinctKinds(roles) && |roles| <= n
            && (|roles| == n ==> forall i | 0 <= i < n :: roles[i].room == rooms[i] && Matches(rooms[i], 5) == [roles[i].kind])
  {
    hide Matches;
    if n > 0 {
      ClassifyKeeps(rooms, n - 1);
      AssignKeeps(Classify(rooms, n - 1).value, Role(Matches(rooms[n - 1], 5)[0], rooms[n - 1]));
    }
  }

  function KindSet(roles: seq<Role>): set<Kind> {
    set i | 0 <= i < |roles| :: roles[i].kind
  }

  lemma {:induction false} KindSetSize(roles: seq<Role>)
    ensures |KindSet(roles)| <= |roles|
  {
    if roles != [] {
      var init := roles[..|roles| - 1];
      KindSetSize(init);
      assert KindSet(roles) == KindSet(init) + {roles[|roles| - 1].kind};
    }
  }

  lemma FiveKinds(roles: seq<Role>)
    requires AllKinds(roles)
    ensures |roles| >= 5
  {
    var five := {Price, Flow, Status, Positions, Pnl};
    forall k | k in five
      ensures k in KindSet(roles)
    {
      assert HasKind(roles, k);
    }
    assert five <= KindSet(roles);
    SubsetSize(five, KindSet(roles));
    KindSetSize(roles);
  }

  lemma {:induction false} SubsetSize(small: set<Kind>, large: set<Kind>)
    requires small <= large
    ensures |small| <= |large|
  {
    if k :| k in small { SubsetSize(small - {k}, large - {k}); }
  }

  /** Five configured rooms are classified exactly when every kind ends one of them, and then
      the roles list the rooms in their configured order. */
  lemma ClassifiedInOrder(rooms: seq<Text>)
    requires |rooms| == 5 && ClassifyRooms(rooms).Some?
    ensures var roles := ClassifyRooms(rooms).value;
            && |roles| == 5 && DistinctKinds(roles) && AllKinds(roles) && Rooms(roles) == rooms
            && forall i | 0 <= i < 5 :: roles[i].room == rooms[i] && Named(rooms[i], roles[i].kind)
  {
    hide Suffix, EndsWith, Named;
    ClassifyKeeps(rooms, 5);
    var roles := ClassifyRooms(rooms).value;
    FiveKinds(roles);
    forall i | 0 <= i < 5
      ensures Named(rooms[i], roles[i].kind)
    {
      MatchesEnd(rooms[i], 5, roles[i].kind);
      NamedExactly(rooms[i], roles[i].kind);
    }
  }

  lemma {:induction false} MatchesEnd(room: Text, n: nat, k: Kind)
    requires n <= 5 && k in Matches(room, n)
    ensures EndsWith(room, Suffix(k))
  {
    hide Suffix, EndsWith;
    if k in Matches(room, n - 1) { MatchesEnd(room, n - 1, k); }
  }

  // ---- Which rooms are classified, and as what -----------------------------------------------

  predicate Ends(room: Text, ending: string) {
    |ending| <= |room| && forall i: nat | i < |ending| :: room[|room| - |ending| + i] == ending[i] as nat
  }

  /** A room of this kind ends with a dash and the kind's name. */
  predicate Named(room: Text, k: Kind) {
    match k
    case Price => Ends(room, "-price")
    case Flow => Ends(room, "-flow")
    case Status => Ends(room, "-state")
    case Positions => Ends(room, "-positions")
    case Pnl => Ends(room, "-pnl")
  }

  lemma EndsExactly(room: Text, ending: string)
    ensures Ends(room, ending) <==> EndsWith(room, Lit(ending))
  {
    if |ending| <= |room| {
      var tail := room[|room| - |ending|..];
      assert Ends(room, ending) <==> forall i: nat | i < |ending| :: tail[i] == ending[i] as nat;
      assert EndsWith(room, Lit(ending)) <==> tail == Lit(ending);
    }
  }

  lemma NamedExactly(room: Text, k: Kind)
    ensures Named(room, k) <==> EndsWith(room, Suffix(k))
  {
    hide Ends, EndsWith, Lit;
    EndsExactly(room, "-price");
    EndsExactly(room, "-flow");
    EndsExactly(room, "-state");
    EndsExactly(room, "-positions");
    EndsExactly(room, "-pnl");
  }

  lemma OneName(room: Text, j: Kind, k: Kind)
    requires Named(room, j) && Named(room, k)
    ensures j == k
  {
    LastLetters(room, j);
    LastLetters(room, k);
  }

  /** The last two letters tell the kinds apart. */
  lemma LastLetters(room: Text, k: Kind)
    requires Named(room, k)
    ensures |room| >= 2
    ensures var x, y := room[|room| - 2], room[|room| - 1];
            match k
            case Price => x == 'c' as nat && y == 'e' as nat
            case Flow => y == 'w' as nat
            case Status => x == 't' as nat && y == 'e' as nat
            case Positions => y == 's' as nat
            case Pnl => y == 'l' as nat
  {
    hide Ends;
    match k
    case Price => LastTwo(room, "-price");
    case Flow => LastTwo(room, "-flow");
    case Status => LastTwo(room, "-state");
    case Positions => LastTwo(room, "-positions");
    case Pnl => LastTwo(room, "-pnl");
  }

  lemma LastTwo(room: Text, ending: string)
    requires |ending| >= 2 && Ends(room, ending)
    ensures |room| >= 2 && room[|room| - 2] == ending[|ending| - 2] as nat && room[|room| - 1] == ending[|ending| - 1] as nat
  {
    var n := |ending|;
    assert room[|room| - n + (n - 1)] == ending[n - 1] as nat && room[|room| - n + (n - 2)] == ending[n - 2] as nat;
  }

  lemma {:induction false} MatchesNamed(room: Text, n: nat, k: Kind)
    requires n <= 5
    ensures k in Matches(room, n) <==> Named(room, k) && exists i: nat :: i < n && KINDS[i] == k
    ensures |Matches(room, n)| <= 1
  {
    hide Named, EndsWith, Suffix;
    if n > 0 {
      MatchesNamed(room, n - 1, k);
      NamedExactly(room, KINDS[n - 1]);
      if Matches(room, n - 1) != [] && Named(room, KINDS[n - 1]) {
        var other := Matches(room, n - 1)[0];
        MatchesNamed(room, n - 1, other);
        OneName(room, other, KINDS[n - 1]);
        assert false;
      }
    }
  }

  predicate Classifiable(room: Text) {
    exists k: Kind :: Named(room, k)
  }

  /** The one kind a room is classified as, if it has a kind's name at all. */
  lemma MatchesExactly(room: Text)
    ensures |Matches(room, 5)| == 1 <==> Classifiable(room)
    ensures forall k: Kind :: Named(room, k) <==> Matches(room, 5) == [k]
  {
    hide Named, Matches;
    forall k: Kind
      ensures k in Matches(room, 5) <==> Named(room, k)
    {
      MatchesNamed(room, 5, k);
      var at: nat := match k case Price => 0 case Flow => 1 case Status => 2 case Positions => 3 case Pnl => 4;
      assert KINDS[at] == k;
    }
    MatchesNamed(room, 5, Price);
    if |Matches(room, 5)| == 1 { assert Matches(room, 5)[0] in Matches(room, 5); }
    forall k: Kind
      ensures Named(room, k) <==> Matches(room, 5) == [k]
    {
      if Matches(room, 5) == [k] { assert k in Matches(room, 5); }
    }
  }

  /** One of the first n rooms has the name of this kind. */
  predicate Present(rooms: seq<Text>, n: nat, k: Kind)
    requires n <= |rooms|
  {
    exists i: nat :: i < n && Named(rooms[i], k)
  }

  lemma {:induction false} ClassifyExactly(rooms: seq<Text>, n: nat)
    requires n <= |rooms|
    ensures Classify(rooms, n).Some? <==> forall i: nat | i < n :: Classifiable(rooms[i])
    ensures Classify(rooms, n).Some? ==> forall k :: HasKind(Classify(rooms, n).value, k) <==> Present(rooms, n, k)
  {
    hide Named, Matches, HasKind, Assign, Classifiable;
    if n == 0 {
      NoKind();
    } else {
      ClassifyExactly(rooms, n - 1);
      MatchesExactly(rooms[n - 1]);
      if Classify(rooms, n).Some? {
        var roles, kind := Classify(rooms, n - 1).value, Matches(rooms[n - 1], 5)[0];
        assert Matches(rooms[n - 1], 5) == [kind];
        forall k
          ensures HasKind(Classify(rooms, n).value, k) <==> Present(rooms, n, k)
        {
          AssignHas(roles, Role(kind, rooms[n - 1]), k);
          assert Present(rooms, n, k) <==> Present(rooms, n - 1, k) || Named(rooms[n - 1], k);
        }
      }
    }
  }

  lemma NoKind()
    ensures forall k :: !HasKind([], k)
  {
  }

  /** The rooms are classified exactly when each has the name of a kind and each kind names one of them. */
  lemma ClassifiedExactly(rooms: seq<Text>)
    ensures ClassifyRooms(rooms).Some? <==>
              (forall i: nat | i < |rooms| :: Classifiable(rooms[i])) && forall k: Kind :: Present(rooms, |rooms|, k)
  {
    hide Named, HasKind, Classify, Classifiable, Present;
    ClassifyExactly(rooms, |rooms|);
  }

  // ---- verify_exports: one room ----------------------------------------------------------

  // Since sweep numbers must be 1, 2, 3 and so on, the per-room dictionary is kept as the
  // list of its values.
  datatype Scan = Scan(referee: Option<Text>, seeded: bool, finalSeen: bool, sweeps: seq<Text>)

  function TakeLine(contest: Contest, roles: seq<Role>, kind: Kind, s: Scan, previous: int, r: Record, last: bool): Option<Scan> {
    if s.referee.Some? && r.sender != s.referee.value then None
    else if r.sequence != previous + 1 then None
    else
      var t := s.(referee := Some(r.sender));
      match r.body
      case Seed(season, package, rooms) =>
        if kind != Price || s.seeded || r.sequence != 1 || season != contest.id || package != contest.manifestHash || rooms != Rooms(roles)
        then None else Some(t.(seeded := true))
      case Final =>
        if kind != Price || s.finalSeen || !last then None else Some(t.(finalSeen := true))
      case Sweep(k, n, file) =>
        if k != kind || n != Some(|s.sweeps| + 1) || file.None? || !IsHash(file.value) then None
        else Some(t.(sweeps := s.sweeps + [file.value]))
      case Other => None
  }

  function Rooms(roles: seq<Role>): seq<Text> {
    seq(|roles|, i requires 0 <= i < |roles| => roles[i].room)
  }

  function ScanLines(contest: Contest, roles: seq<Role>, kind: Kind, start: Scan, lines: seq<Option<Record>>, n: nat): Option<Scan>
    requires n <= |lines|
  {
    if n == 0 then Some(start)
    else
      var s :- ScanLines(contest, roles, kind, start, lines, n - 1);
      var r :- lines[n - 1];
      TakeLine(contest, roles, kind, s, n - 1, r, n == |lines|)
  }

  // ---- verify_exports: all rooms ------------------------------------------------------------

  // What is known after some rooms; `sweeps` and `counts` hold one entry a room.
  datatype Survey = Survey(referee: Option<Text>, seeded: bool, finalSeen: bool, sweeps: seq<seq<Text>>, counts: seq<nat>)

  function SurveyRooms(contest: Contest, roles: seq<Role>, paths: map<Text, Export>, k: nat): Option<Survey>
    requires k <= |roles|
  {
    if k == 0 then Some(Survey(None, false, false, [], []))
    else
      var v :- SurveyRooms(contest, roles, paths, k - 1);
      var role := roles[k - 1];
      if role.room !in paths then None
      else
        var e := paths[role.room];
        if e.lines == [] || !e.terminated then None
        else
          var s :- ScanLines(contest, roles, role.kind, Scan(v.referee, v.seeded, v.finalSeen, []), e.lines, |e.lines|);
          Some(Survey(s.referee, s.seeded, s.finalSeen, v.sweeps + [s.sweeps], v.counts + [|e.lines|]))
  }

  datatype Evidence = Evidence(referee: Text, latest: nat, finalPresent: bool, counts: seq<nat>)

  predicate SameLatest(sweeps: seq<seq<Text>>, latest: nat) {
    forall i | 0 <= i < |sweeps| :: |sweeps[i]| == latest
  }

  predicate Committed(sweeps: seq<seq<Text>>, latest: nat)
    requires SameLatest(sweeps, latest)
  {
    forall n | 0 <= n < latest :: forall i | 0 <= i < |sweeps| :: sweeps[i][n] == sweeps[0][n]
  }

  function VerifyExports(contest: Contest, roles: seq<Role>, paths: map<Text, Export>): Option<Evidence> {
    if paths.Keys != (set room | room in Rooms(roles)) then None
    else
      var v :- SurveyRooms(contest, roles, paths, |roles|);
      if !v.seeded || v.referee.None? || v.sweeps == [] then None
      else
        var latest := |v.sweeps[0]|;
        if !SameLatest(v.sweeps, latest) || !Committed(v.sweeps, latest) then None
        else Some(Evidence(v.referee.value, latest, v.finalSeen, v.counts))
  }

  /** The lines of one room. */
  method ScanLoop(contest: Contest, roles: seq<Role>, kind: Kind, start: Scan, lines: seq<Option<Record>>) returns (result: Option<Scan>)
    ensures result == ScanLines(contest, roles, kind, start, lines, |lines|)
  {
    hide TakeLine;
    var scan, previous := start, 0;
    for i := 0 to |lines|
      invariant ScanLines(contest, roles, kind, start, lines, i) == Some(scan)
      invariant previous == i
    {
      var s := if lines[i].None? then None else TakeLine(contest, roles, kind, scan, previous, lines[i].value, i + 1 == |lines|);
      if s.None? {
        ScanStaysNone(contest, roles, kind, start, lines, i + 1, |lines|);
        return None;
      }
      scan, previous := s.value, i + 1;
    }
    return Some(scan);
  }

  /** The comparison of the commitments, sweep by sweep and room by room. */
  method CommittedLoop(sweeps: seq<seq<Text>>, latest: nat) returns (same: bool)
    requires SameLatest(sweeps, latest)
    ensures same == Committed(sweeps, latest)
  {
    for n := 0 to latest
      invariant forall m | 0 <= m < n :: forall i | 0 <= i < |sweeps| :: sweeps[i][m] == sweeps[0][m]
    {
      for i := 0 to |sweeps|
        invariant forall j | 0 <= j < i :: sweeps[j][n] == sweeps[0][n]
      {
        if sweeps[i][n] != sweeps[0][n] {
          return false;
        }
      }
    }
    return true;
  }

  method VerifyExportsLoop(contest: Contest, roles: seq<Role>, paths: map<Text, Export>) returns (result: Option<Evidence>)
    ensures result == VerifyExports(contest, roles, paths)
  {
    hide ScanLines, Committed;
    if paths.Keys != (set room | room in Rooms(roles)) {
      return None;
    }
    var referee: Option<Text>, seeded, finalSeen := None, false, false;
    var sweeps: seq<seq<Text>>, counts: seq<nat> := [], [];
    for k := 0 to |roles|
      invariant SurveyRooms(contest, roles, paths, k) == Some(Survey(referee, seeded, finalSeen, sweeps, counts))
    {
      var kind, room := roles[k].kind, roles[k].room;
      if room !in paths || paths[room].lines == [] || !paths[room].terminated {
        SurveyStaysNone(contest, roles, paths, k + 1, |roles|);
        return None;
      }
      var lines := paths[room].lines;
      var s := ScanLoop(contest, roles, kind, Scan(referee, seeded, finalSeen, []), lines);
      if s.None? {
        SurveyStaysNone(contest, roles, paths, k + 1, |roles|);
        return None;
      }
      referee, seeded, finalSeen := s.value.referee, s.value.seeded, s.value.finalSeen;
      sweeps, counts := sweeps + [s.value.sweeps], counts + [|lines|];
    }
    if !seeded || referee.None? || sweeps == [] {
      return None;
    }
    var latest := |sweeps[0]|;
    if !SameLatest(sweeps, latest) {
      return None;
    }
    var same := CommittedLoop(sweeps, latest);
    return if same then Some(Evidence(referee.value, latest, finalSeen, counts)) else None;
  }

  lemma {:induction false} ScanStaysNone(contest: Contest, roles: seq<Role>, kind: Kind, start: Scan, lines: seq<Option<Record>>, m: nat, n: nat)
    requires m <= n <= |lines| && ScanLines(contest, roles, kind, start, lines, m) == None
    ensures ScanLines(contest, roles, kind, start, lines, n) == None
    decreases n
  {
    hide TakeLine;
    if m < n { ScanStaysNone(contest, roles, kind, start, lines, m, n - 1); }
  }

  lemma {:induction false} SurveyStaysNone(contest: Contest, roles: seq<Role>, paths: map<Text, Export>, m: nat, n: nat)
    requires m <= n <= |roles| && SurveyRooms(contest, roles, paths, m) == None
    ensures SurveyRooms(contest, roles, paths, n) == None
    decreases n
  {
    hide ScanLines;
    if m < n { SurveyStaysNone(contest, roles, paths, m, n - 1); }
  }
}
