/** The append-only snapshot recorder: inspection of one export, the hash chain
    over snapshots, and staged publication under crashes. */
module Recorder {
  import opened Wrappers
  import opened Json
  import opened Frames
  import opened Intervals

  type Bytes = seq<nat>

  const MAX_EXPORT: nat := 33_554_432
  const MAX_SNAPSHOTS: nat := 1000
  const NEWLINE: nat := 10

  datatype SignatureCheck = Unsigned | ValidSignature | InvalidSignature

  // A field of a payload that is compared with a configured string; `Odd` is any other value.
  datatype TextField = Absent | Present(text: Text) | Odd

  datatype Disposition = Accepted | Rejected

  datatype StatusField = NoStatus | Disposed(disposition: Disposition) | OddStatus

  // An entry of a receipt batch, or the payload read as its own only entry.
  datatype Entry =
    | NotObject
    | Entry(contest: TextField, request: TextField, sender: TextField, participant: TextField, status: StatusField)

  // The type field of a payload: one receipt, a batch with its list if it has one, or neither.
  datatype PayloadType = SingleReceipt | ReceiptBatch(entries: Option<seq<Entry>>) | OtherType

  // The signed text read as JSON.
  datatype Payload = Unreadable | NoObject | Payload(kind: PayloadType, own: Entry)

  // One export line that parses and has the record shape.
  datatype Row = Row(sequence: int, sender: Text, check: SignatureCheck, payload: Payload)

  // A receipt of the configured participant, with the line that carries it.
  datatype Found = Found(sequence: int, disposition: Disposition, row: Row)

  datatype Config = Config(
    room: Text, generation: int, after: int, contestId: Text, requestId: Text, participant: Text, referee: Text)

  datatype Hashes = Hashes(exported: Text, transport: Text, receipts: Text)

  datatype Warning =
    | GenerationMismatch | EmptyOrRegressedWindow | InvalidSignaturesPresent | UnrecognizedRefereePayload
    | InvalidExport | CoverageGap

  // Lines by signature, and referee payloads that could not be read.
  datatype Counts = Counts(signedValid: nat, unsigned: nat, invalid: nat, unrecognized: nat)

  datatype Manifest = Manifest(
    config: Config, capturedAt: Text, previous: Option<Text>, artifacts: Hashes,
    coverage: seq<Range>, missing: seq<Range>, warnings: seq<Warning>, counts: Option<Counts>, matching: nat)

  // A snapshot or staging directory: each file, if it exists.
  datatype Dir = Dir(exported: Option<Bytes>, transport: Option<Bytes>, receipts: Option<Bytes>, manifest: Option<Bytes>)

  datatype Snapshot = Snapshot(number: nat, dir: Dir)

  // What one fetch returned.
  datatype Capture = Capture(raw: Bytes, generation: int, headers: Text)

  // `rows` splits and decodes the lines of an export, None for a line of the wrong shape.
  datatype Env = Env(
    digest: Bytes -> Text,
    encode: Manifest -> Bytes,
    decode: Bytes -> Option<Manifest>,
    encodeTransport: Capture -> Bytes,
    encodeReceipts: seq<Found> -> Bytes,
    rows: (Bytes, Config) -> seq<Option<Row>>)

  // ---- Receipts of one line -------------------------------------------------------------

  /** The entries a payload offers: None where it is passed over, Some(None) where reading it raises. */
  function Offered(config: Config, p: Payload): Option<Option<seq<Entry>>> {
    match p
    case Unreadable => Some(None)
    case NoObject => None
    case Payload(kind, own) =>
      if own.NotObject? || own.contest != Present(config.contestId) then None
      else
        match kind
        case SingleReceipt => Some(Some([own]))
        case ReceiptBatch(entries) => Some(entries)
        case OtherType => None
  }

  /** The entry is for the configured contest, request and participant; it must name someone. */
  predicate Concerns(config: Config, e: Entry) {
    && e.Entry?
    && (e.contest == Absent || e.contest == Present(config.contestId))
    && e.request == Present(config.requestId)
    && !(e.sender == Absent && e.participant == Absent)
    && (e.sender == Absent || e.sender == Present(config.participant))
    && (e.participant == Absent || e.participant == Present(config.participant))
  }

  /** An entry without a status takes the one of the whole batch. */
  function StatusOf(p: Payload, e: Entry): StatusField
    requires p.Payload? && p.own.Entry? && e.Entry?
  {
    if e.status == NoStatus then p.own.status else e.status
  }

  function Reported(config: Config, r: Row, e: Entry): seq<Found>
    requires r.payload.Payload? && r.payload.own.Entry?
  {
    if Concerns(config, e) && StatusOf(r.payload, e).Disposed? then [Found(r.sequence, StatusOf(r.payload, e).disposition, r)] else []
  }

  // What one line adds: receipts, and whether its payload could not be read to the end.
  datatype Reading = Reading(found: seq<Found>, failed: bool)

  /** The entries up to the first one that is not an object. */
  function ReadEntries(config: Config, r: Row, es: seq<Entry>, n: nat): Reading
    requires n <= |es| && r.payload.Payload? && r.payload.own.Entry?
  {
    if n == 0 then Reading([], false)
    else
      var before := ReadEntries(config, r, es, n - 1);
      if before.failed then before
      else if es[n - 1].NotObject? then Reading(before.found, true)
      else Reading(before.found + Reported(config, r, es[n - 1]), false)
  }

  predicate FromReferee(config: Config, r: Row) {
    r.check == ValidSignature && r.sender == config.referee
  }

  function ReadRow(config: Config, r: Row): Reading {
    if !FromReferee(config, r) then Reading([], false)
    else
      match Offered(config, r.payload)
      case None => Reading([], false)
      case Some(None) => Reading([], true)
      case Some(Some(es)) => ReadEntries(config, r, es, |es|)
  }

  method ReadRowLoop(config: Config, r: Row) returns (found: seq<Found>, failed: bool)
    ensures Reading(found, failed) == ReadRow(config, r)
  {
    hide Reported;
    found, failed := [], false;
    if !FromReferee(config, r) {
      return;
    }
    var offered := Offered(config, r.payload);
    if offered == None {
      return;
    }
    if offered.value == None {
      failed := true;
      return;
    }
    var es := offered.value.value;
    for n := 0 to |es|
      invariant ReadEntries(config, r, es, n) == Reading(found, false)
    {
      if es[n].NotObject? {
        failed := true;
        ReadingStopped(config, r, es, n + 1, |es|);
        return;
      }
      found := found + Reported(config, r, es[n]);
    }
  }

  lemma {:induction false} ReadingStopped(config: Config, r: Row, es: seq<Entry>, m: nat, n: nat)
    requires m <= n <= |es| && r.payload.Payload? && r.payload.own.Entry? && ReadEntries(config, r, es, m).failed
    ensures ReadEntries(config, r, es, n) == ReadEntries(config, r, es, m)
    decreases n
  {
    if m < n { ReadingStopped(config, r, es, m, n - 1); }
  }

  // ---- inspect ------------------------------------------------------------------------

  datatype Tally = Tally(
    previous: int, points: seq<Range>, signedValid: nat, unsigned: nat, invalid: nat, unrecognized: nat, found: seq<Found>)

  function TallyRow(t: Tally, r: Row, config: Config): Tally {
    var u := t.(previous := r.sequence,
                points := if r.sequence > config.after then t.points + [Range(r.sequence, r.sequence)] else t.points);
    match r.check
    case Unsigned => u.(unsigned := u.unsigned + 1)
    case InvalidSignature => u.(invalid := u.invalid + 1)
    case ValidSignature =>
      var reading := ReadRow(config, r);
      u.(signedValid := u.signedValid + 1, found := u.found + reading.found,
         unrecognized := u.unrecognized + if reading.failed then 1 else 0)
  }

  /** The loop over the first n lines; None where the source raises. */
  function TallyRows(rows: seq<Option<Row>>, config: Config, n: nat): Option<Tally>
    requires n <= |rows|
  {
    if n == 0 then Some(Tally(0, [], 0, 0, 0, 0, []))
    else
      match TallyRows(rows, config, n - 1)
      case None => None
      case Some(t) =>
        match rows[n - 1]
        case None => None
        case Some(r) => if t.previous < r.sequence <= MAX_SAFE_INTEGER then Some(TallyRow(t, r, config)) else None
  }

  datatype Inspection = Inspection(
    observed: seq<Range>, signedValid: nat, unsigned: nat, invalid: nat, unrecognized: nat, found: seq<Found>)

  function Inspect(env: Env, raw: Bytes, config: Config): Option<Inspection> {
    if raw != [] && raw[|raw| - 1] != NEWLINE then None
    else
      var rows := env.rows(raw, config);
      match TallyRows(rows, config, |rows|)
      case None => None
      case Some(t) => Some(Inspection(Merge(t.points), t.signedValid, t.unsigned, t.invalid, t.unrecognized, t.found))
  }

  method InspectLoop(env: Env, raw: Bytes, config: Config) returns (result: Option<Inspection>)
    ensures result == Inspect(env, raw, config)
  {
    hide ReadRow, Merge;
    if raw != [] && raw[|raw| - 1] != NEWLINE {
      return None;
    }
    var rows := env.rows(raw, config);
    var previous, points, receipts: seq<Found> := 0, [], [];
    var signedValid, unsigned, invalid, unrecognized := 0, 0, 0, 0;
    for k := 0 to |rows|
      invariant TallyRows(rows, config, k)
                == Some(Tally(previous, points, signedValid, unsigned, invalid, unrecognized, receipts))
    {
      if rows[k].None? || !(previous < rows[k].value.sequence <= MAX_SAFE_INTEGER) {
        TallyStaysNone(rows, config, k + 1, |rows|);
        return None;
      }
      var row := rows[k].value;
      previous := row.sequence;
      if row.sequence > config.after {
        points := points + [Range(row.sequence, row.sequence)];
      }
      match row.check {
        case Unsigned => unsigned := unsigned + 1;
        case InvalidSignature => invalid := invalid + 1;
        case ValidSignature =>
          signedValid := signedValid + 1;
          var found, failed := ReadRowLoop(config, row);
          receipts := receipts + found;
          if failed {
            unrecognized := unrecognized + 1;
          }
      }
    }
    var merged := MergeLoop(points);
    return Some(Inspection(merged, signedValid, unsigned, invalid, unrecognized, receipts));
  }

  lemma {:induction false} TallyStaysNone(rows: seq<Option<Row>>, config: Config, m: nat, n: nat)
    requires m <= n <= |rows| && TallyRows(rows, config, m) == None
    ensures TallyRows(rows, config, n) == None
    decreases n
  {
    if m < n { TallyStaysNone(rows, config, m, n - 1); }
  }

  /** Some line of the export carries this sequence number. */
  predicate Carries(rows: seq<Option<Row>>, n: nat, x: int)
    requires n <= |rows|
  {
    exists i: nat :: i < n && rows[i].Some? && rows[i].value.sequence == x
  }

  lemma {:induction false} TallyMeaning(rows: seq<Option<Row>>, config: Config, n: nat)
    requires n <= |rows| && TallyRows(rows, config, n).Some?
    ensures var t := TallyRows(rows, config, n).value;
            && t.signedValid + t.unsigned + t.invalid == n
            && t.previous >= 0 && Proper(t.points)
            && (forall x :: Covers(t.points, x) <==> x > config.after && Carries(rows, n, x))
            && (forall x :: Carries(rows, n, x) ==> 0 < x <= t.previous)
  {
    if n > 0 {
      TallyMeaning(rows, config, n - 1);
      var s := TallyRows(rows, config, n - 1).value;
      var r := rows[n - 1].value;
      forall x
        ensures Carries(rows, n, x) <==> Carries(rows, n - 1, x) || r.sequence == x
      {
        CarriesStep(rows, n, x);
      }
      forall x
        ensures Covers(s.points + [Range(r.sequence, r.sequence)], x) <==> Covers(s.points, x) || r.sequence == x
      {
        CoversAppend(s.points, Range(r.sequence, r.sequence), x);
      }
    }
  }

  predicate Increasing(rows: seq<Option<Row>>, n: nat)
    requires n <= |rows|
  {
    forall i: nat | i < n ::
      && rows[i].Some? && 0 < rows[i].value.sequence <= MAX_SAFE_INTEGER
      && (i > 0 ==> rows[i - 1].Some? && rows[i - 1].value.sequence < rows[i].value.sequence)
  }

  /** The lines among the first n with this signature check. */
  function Lines(rows: seq<Option<Row>>, check: SignatureCheck, n: nat): set<nat>
    requires n <= |rows|
  {
    set i: nat | i < n && rows[i].Some? && rows[i].value.check == check
  }

  function Number(rows: seq<Option<Row>>, check: SignatureCheck, n: nat): nat
    requires n <= |rows|
  {
    |Lines(rows, check, n)|
  }

  lemma NumberStep(rows: seq<Option<Row>>, check: SignatureCheck, n: nat)
    requires n < |rows| && rows[n].Some?
    ensures Number(rows, check, n + 1) == Number(rows, check, n) + if rows[n].value.check == check then 1 else 0
  {
    var before := Lines(rows, check, n);
    assert Lines(rows, check, n + 1) == if rows[n].value.check == check then before + {n} else before;
  }

  lemma {:induction false} TallyAccepts(rows: seq<Option<Row>>, config: Config, n: nat)
    requires n <= |rows|
    ensures TallyRows(rows, config, n).Some? <==> Increasing(rows, n)
    ensures Increasing(rows, n) ==>
              var t := TallyRows(rows, config, n).value;
              && (n > 0 ==> t.previous == rows[n - 1].value.sequence) && (n == 0 ==> t.previous == 0)
              && t.signedValid == Number(rows, ValidSignature, n) && t.unsigned == Number(rows, Unsigned, n)
              && t.invalid == Number(rows, InvalidSignature, n)
  {
    hide Number;
    if n > 0 {
      TallyAccepts(rows, config, n - 1);
      if rows[n - 1].Some? {
        NumberStep(rows, ValidSignature, n - 1);
        NumberStep(rows, Unsigned, n - 1);
        NumberStep(rows, InvalidSignature, n - 1);
      }
    } else {
      NothingCounted(rows);
    }
  }

  lemma NothingCounted(rows: seq<Option<Row>>)
    ensures forall check :: Number(rows, check, 0) == 0
  {
    forall check
      ensures Number(rows, check, 0) == 0
    {
      assert Lines(rows, check, 0) == {};
    }
  }

  /** An export is accepted exactly when it ends a line, every line parses and the sequences
      strictly increase from at least 1; each count is the number of lines of its kind. */
  lemma InspectAccepts(env: Env, raw: Bytes, config: Config)
    ensures var rows := env.rows(raw, config);
            && (Inspect(env, raw, config).Some? <==>
                  (raw != [] ==> raw[|raw| - 1] == NEWLINE) && Increasing(rows, |rows|))
            && (Inspect(env, raw, config).Some? ==>
                  var i := Inspect(env, raw, config).value;
                  && i.signedValid == Number(rows, ValidSignature, |rows|) && i.unsigned == Number(rows, Unsigned, |rows|)
                  && i.invalid == Number(rows, InvalidSignature, |rows|))
  {
    hide Number, Increasing;
    TallyAccepts(env.rows(raw, config), config, |env.rows(raw, config)|);
  }

  lemma CarriesStep(rows: seq<Option<Row>>, n: nat, x: int)
    requires 0 < n <= |rows| && rows[n - 1].Some?
    ensures Carries(rows, n, x) <==> Carries(rows, n - 1, x) || rows[n - 1].value.sequence == x
  {
    if Carries(rows, n - 1, x) {
      var i: nat :| i < n - 1 && rows[i].Some? && rows[i].value.sequence == x;
    }
  }

  /** The sequence numbers above the mark that a valid export of the right generation shows. */
  predicate Shows(env: Env, config: Config, c: Capture, x: int) {
    && c.generation == config.generation && x > config.after
    && Inspect(env, c.raw, config).Some?
    && var rows := env.rows(c.raw, config); Carries(rows, |rows|, x)
  }

  /** An accepted export is covered exactly by what inspection reports. */
  lemma InspectMeaning(env: Env, raw: Bytes, config: Config)
    requires Inspect(env, raw, config).Some?
    ensures var i := Inspect(env, raw, config).value; var rows := env.rows(raw, config);
            && IsCanonical(i.observed)
            && (forall x :: Covers(i.observed, x) <==> x > config.after && Carries(rows, |rows|, x))
            && i.signedValid + i.unsigned + i.invalid == |rows|
  {
    var rows := env.rows(raw, config);
    TallyMeaning(rows, config, |rows|);
    MergeMeaning(TallyRows(rows, config, |rows|).value.points);
  }

  // ---- What receipts are reported -----------------------------------------------------------

  /** The entries a referee's valid line offers, none for any other line. */
  function EntriesOf(config: Config, row: Option<Row>): seq<Entry> {
    match row
    case None => []
    case Some(r) =>
      if !FromReferee(config, r) then []
      else match Offered(config, r.payload) case Some(Some(es)) => es case _ => []
  }

  /** Entry j of the line concerns the participant and is disposed of, and every entry before it
      is an object. */
  predicate Reports(config: Config, row: Option<Row>, j: nat, f: Found) {
    && j < |EntriesOf(config, row)|
    && row.Some? && f.row == row.value && f.sequence == f.row.sequence
    && Concerns(config, EntriesOf(config, row)[j])
    && StatusOf(f.row.payload, EntriesOf(config, row)[j]) == Disposed(f.disposition)
    && forall i: nat | i < j :: EntriesOf(config, row)[i].Entry?
  }

  /** Entry j is reported as f, and nothing before it stops the loop. */
  predicate ReachedAs(config: Config, r: Row, es: seq<Entry>, j: nat, f: Found)
    requires j < |es| && r.payload.Payload? && r.payload.own.Entry?
  {
    f in Reported(config, r, es[j]) && forall i: nat | i < j :: es[i].Entry?
  }

  lemma {:induction false} EntriesReported(config: Config, r: Row, es: seq<Entry>, n: nat, f: Found)
    requires n <= |es| && r.payload.Payload? && r.payload.own.Entry?
    ensures f in ReadEntries(config, r, es, n).found <==> exists j: nat :: j < n && ReachedAs(config, r, es, j, f)
    ensures ReadEntries(config, r, es, n).failed <==> exists j: nat :: j < n && es[j].NotObject?
  {
    if n > 0 {
      EntriesReported(config, r, es, n - 1, f);
      hide Reported;
      NoObjectNoReport(config, r, es[n - 1]);
      var before := ReadEntries(config, r, es, n - 1);
      if before.failed {
        var k: nat :| k < n - 1 && es[k].NotObject?;
        assert !ReachedAs(config, r, es, n - 1, f);
      } else {
        assert ReachedAs(config, r, es, n - 1, f) <==> f in Reported(config, r, es[n - 1]);
      }
    }
  }

  lemma NoObjectNoReport(config: Config, r: Row, e: Entry)
    requires r.payload.Payload? && r.payload.own.Entry?
    ensures e.NotObject? ==> Reported(config, r, e) == []
  {
  }

  lemma RowReported(config: Config, r: Row, f: Found)
    ensures f in ReadRow(config, r).found <==> exists j: nat :: Reports(config, Some(r), j, f)
  {
    hide Concerns;
    var es := EntriesOf(config, Some(r));
    if FromReferee(config, r) && Offered(config, r.payload).Some? && Offered(config, r.payload).value.Some? {
      EntriesReported(config, r, es, |es|, f);
      forall j: nat | j < |es|
        ensures ReachedAs(config, r, es, j, f) <==> Reports(config, Some(r), j, f)
      {
        assert Concerns(config, es[j]) ==> es[j].Entry? by { ConcernedIsObject(config, es[j]); }
      }
    }
  }

  lemma ConcernedIsObject(config: Config, e: Entry)
    ensures Concerns(config, e) ==> e.Entry?
  {
  }

  ghost predicate ReportedWithin(rows: seq<Option<Row>>, config: Config, n: nat, f: Found)
    requires n <= |rows|
  {
    exists i: nat, j: nat :: i < n && Reports(config, rows[i], j, f)
  }

  lemma {:induction false} TallyFinds(rows: seq<Option<Row>>, config: Config, n: nat, f: Found)
    requires n <= |rows| && TallyRows(rows, config, n).Some?
    ensures f in TallyRows(rows, config, n).value.found <==> ReportedWithin(rows, config, n, f)
  {
    hide ReadRow, Reports;
    if n > 0 {
      TallyFinds(rows, config, n - 1, f);
      var r := rows[n - 1].value;
      RowReported(config, r, f);
      OnlyRefereeReports(config, r);
      if ReportedWithin(rows, config, n, f) && !ReportedWithin(rows, config, n - 1, f) {
        var i: nat, j: nat :| i < n && Reports(config, rows[i], j, f);
        assert i == n - 1;
      }
    }
  }

  lemma OnlyRefereeReports(config: Config, r: Row)
    ensures r.check != ValidSignature ==> ReadRow(config, r) == Reading([], false)
  {
  }

  /** The referee's valid lines whose payload could not be read to the end. */
  function Failures(rows: seq<Option<Row>>, config: Config, n: nat): set<nat>
    requires n <= |rows|
  {
    set i: nat | i < n && rows[i].Some? && ReadRow(config, rows[i].value).failed
  }

  lemma {:induction false} UnrecognizedLines(rows: seq<Option<Row>>, config: Config, n: nat)
    requires n <= |rows| && TallyRows(rows, config, n).Some?
    ensures TallyRows(rows, config, n).value.unrecognized == |Failures(rows, config, n)|
  {
    hide ReadRow;
    if n > 0 {
      UnrecognizedLines(rows, config, n - 1);
      OnlyRefereeReports(config, rows[n - 1].value);
      var before := Failures(rows, config, n - 1);
      assert Failures(rows, config, n) == if ReadRow(config, rows[n - 1].value).failed then before + {n - 1} else before;
    } else {
      assert Failures(rows, config, 0) == {};
    }
  }

  /** A receipt is reported exactly when some line, validly signed by the configured referee,
      holds an entry for the configured contest, request and participant with an accepted or
      rejected status, with nothing but objects before it in its batch; the unrecognized count is
      the number of the referee's valid lines that raise while being read. */
  lemma ReceiptsExactly(env: Env, raw: Bytes, config: Config, f: Found)
    requires Inspect(env, raw, config).Some?
    ensures var rows := env.rows(raw, config);
            f in Inspect(env, raw, config).value.found <==> ReportedWithin(rows, config, |rows|, f)
    ensures var rows := env.rows(raw, config);
            Inspect(env, raw, config).value.unrecognized == |Failures(rows, config, |rows|)|
  {
    hide Merge, ReadRow;
    TallyFinds(env.rows(raw, config), config, |env.rows(raw, config)|, f);
    UnrecognizedLines(env.rows(raw, config), config, |env.rows(raw, config)|);
  }

  // ---- The hash chain --------------------------------------------------------------------

  datatype Head = Head(previous: Option<Text>, coverage: seq<Range>)

  function Hashed(env: Env, d: Dir): Option<Hashes> {
    if d.exported.None? || d.transport.None? || d.receipts.None? then None
    else Some(Hashes(env.digest(d.exported.value), env.digest(d.transport.value), env.digest(d.receipts.value)))
  }

  /** The manifest of snapshot i, if it links to `head` and fixes its own artifacts. */
  function Linked(env: Env, config: Config, head: Head, s: Snapshot, i: nat): Option<Head> {
    if s.number != i + 1 || s.dir.manifest.None? then None
    else
      match env.decode(s.dir.manifest.value)
      case None => None
      case Some(m) =>
        if m.previous != head.previous || m.config != config || Hashed(env, s.dir) != Some(m.artifacts) then None
        else Some(Head(Some(env.digest(s.dir.manifest.value)), m.coverage))
  }

  /** The verification loop over the first n snapshots. */
  function Chain(env: Env, config: Config, ss: seq<Snapshot>, n: nat): Option<Head>
    requires n <= |ss|
  {
    if n == 0 then Some(Head(None, []))
    else
      match Chain(env, config, ss, n - 1)
      case None => None
      case Some(h) => Linked(env, config, h, ss[n - 1], n - 1)
  }

  ghost predicate Injective(env: Env) {
    forall a: Bytes, b: Bytes :: env.digest(a) == env.digest(b) ==> a == b
  }

  lemma LinkedAgree(env: Env, config: Config, g: Head, h: Head, s: Snapshot, t: Snapshot, i: nat, j: nat)
    requires Injective(env)
    requires Linked(env, config, g, s, i).Some? && Linked(env, config, h, t, j).Some?
    requires Linked(env, config, g, s, i).value.previous == Linked(env, config, h, t, j).value.previous
    ensures s.dir == t.dir && g.previous == h.previous
  {
    var a, b := s.dir, t.dir;
    assert a.manifest.value == b.manifest.value;
    assert a.exported.value == b.exported.value;
    assert a.transport.value == b.transport.value;
    assert a.receipts.value == b.receipts.value;
  }

  /** The head hash fixes the archive: two archives that pass the chain check with the same
      last manifest digest are equal, snapshot by snapshot and byte by byte. */
  lemma {:induction false} HeadFixesArchive(env: Env, config: Config, ss: seq<Snapshot>, n: nat, ts: seq<Snapshot>, m: nat)
    requires Injective(env) && n <= |ss| && m <= |ts|
    requires Chain(env, config, ss, n).Some? && Chain(env, config, ts, m).Some?
    requires Chain(env, config, ss, n).value.previous == Chain(env, config, ts, m).value.previous
    ensures n == m && ss[..n] == ts[..m]
    decreases n
  {
    hide Linked, Injective;
    if n > 0 { LinkedHasHead(env, config, Chain(env, config, ss, n - 1).value, ss[n - 1], n - 1); }
    if m > 0 { LinkedHasHead(env, config, Chain(env, config, ts, m - 1).value, ts[m - 1], m - 1); }
    if n > 0 && m > 0 {
      var g, h := Chain(env, config, ss, n - 1).value, Chain(env, config, ts, m - 1).value;
      LinkedAgree(env, config, g, h, ss[n - 1], ts[m - 1], n - 1, m - 1);
      HeadFixesArchive(env, config, ss, n - 1, ts, m - 1);
      assert ss[..n] == ss[..n - 1] + [ss[n - 1]] && ts[..m] == ts[..m - 1] + [ts[m - 1]];
    }
  }

  lemma LinkedHasHead(env: Env, config: Config, h: Head, s: Snapshot, i: nat)
    requires Linked(env, config, h, s, i).Some?
    ensures Linked(env, config, h, s, i).value.previous.Some? && s.number == i + 1
  {
  }

  /** Removing the tail goes unnoticed: every prefix of a verified archive verifies. */
  lemma {:induction false} PrefixVerifies(env: Env, config: Config, ss: seq<Snapshot>, m: nat, n: nat)
    requires m <= n <= |ss| && Chain(env, config, ss, n).Some?
    ensures Chain(env, config, ss[..m], m).Some?
    decreases n
  {
    hide Linked;
    if m < n {
      PrefixVerifies(env, config, ss, m, n - 1);
    } else {
      ChainPrefix(env, config, ss, m, m);
    }
  }

  lemma {:induction false} ChainPrefix(env: Env, config: Config, ss: seq<Snapshot>, m: nat, k: nat)
    requires k <= m <= |ss|
    ensures Chain(env, config, ss[..m], k) == Chain(env, config, ss, k)
  {
    hide Linked;
    if k > 0 { ChainPrefix(env, config, ss, m, k - 1); }
  }
}
