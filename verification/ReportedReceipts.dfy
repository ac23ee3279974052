/** The receipts an inspection reports: which lines and entries, in which order, how often. */
module ReportedReceipts {
  import opened Wrappers
  import opened Json
  import opened Frames
  import opened Intervals
  import opened Recorder

  // ---- What a line bears, read off its fields ------------------------------------------------

  /** The entries of a payload: itself for a single receipt, its list for a batch. */
  function Listing(p: Payload): Option<seq<Entry>> {
    match p
    case Payload(SingleReceipt, own) => Some([own])
    case Payload(ReceiptBatch(entries), _) => entries
    case _ => None
  }

  /** Signed by the referee, about the configured contest, and a single receipt or a batch. */
  predicate FromContest(config: Config, row: Option<Row>) {
    && row.Some? && row.value.check == ValidSignature && row.value.sender == config.referee
    && row.value.payload.Payload? && row.value.payload.own.Entry?
    && row.value.payload.own.contest == Present(config.contestId)
    && Listing(row.value.payload).Some?
  }

  /** The entry names the configured request and participant, and nobody and no contest else. */
  predicate Names(config: Config, e: Entry) {
    && e.Entry? && e.request == Present(config.requestId)
    && e.contest in {Absent, Present(config.contestId)}
    && e.sender in {Absent, Present(config.participant)} && e.participant in {Absent, Present(config.participant)}
    && Present(config.participant) in {e.sender, e.participant}
  }

  /** Entry j of the line is a receipt of the participant with this disposition, its own or else its
      batch's, and no entry up to it is anything but an object. */
  predicate Bears(config: Config, row: Option<Row>, j: nat, d: Disposition) {
    && FromContest(config, row)
    && var es := Listing(row.value.payload).value;
       && j < |es| && (forall i: nat | i <= j :: es[i].Entry?) && Names(config, es[j])
       && (es[j].status == Disposed(d) || (es[j].status == NoStatus && row.value.payload.own.status == Disposed(d)))
  }

  lemma EntriesAreListed(config: Config, r: Row)
    ensures if FromContest(config, Some(r)) then EntriesOf(config, Some(r)) == Listing(r.payload).value
            else EntriesOf(config, Some(r)) == []
  {
  }

  lemma NamesExactly(config: Config, e: Entry)
    ensures Names(config, e) <==> Concerns(config, e)
  {
  }

  lemma BearsExactly(config: Config, row: Option<Row>, j: nat, f: Found)
    ensures Reports(config, row, j, f) <==>
              Bears(config, row, j, f.disposition) && f == Found(row.value.sequence, f.disposition, row.value)
  {
    hide Names, Concerns, EntriesOf;
    if row.Some? {
      EntriesAreListed(config, row.value);
      var es := EntriesOf(config, row);
      if j < |es| {
        NamesExactly(config, es[j]);
        ConcernedIsObject(config, es[j]);
      }
    }
  }

  // ---- Order and multiplicity -----------------------------------------------------------------

  lemma ReportedOnce(config: Config, r: Row, e: Entry)
    requires r.payload.Payload? && r.payload.own.Entry?
    ensures |Reported(config, r, e)| <= 1
    ensures e.NotObject? ==> Reported(config, r, e) == []
  {
  }

  /** The entries behind the receipts of one line: increasing, one for each. */
  lemma {:induction false} EntriesInOrder(config: Config, r: Row, es: seq<Entry>, n: nat) returns (js: seq<nat>)
    requires n <= |es| && r.payload.Payload? && r.payload.own.Entry?
    ensures var found := ReadEntries(config, r, es, n).found;
            && |js| == |found|
            && (forall k: nat | k < |js| :: js[k] < n && ReachedAs(config, r, es, js[k], found[k]))
            && (forall k: nat, m: nat | k < m < |js| :: js[k] < js[m])
    ensures forall j: nat, f | j < n && ReachedAs(config, r, es, j, f) :: j in js
  {
    hide Reported;
    js := [];
    if n > 0 {
      js := EntriesInOrder(config, r, es, n - 1);
      ReportedOnce(config, r, es[n - 1]);
      EntriesReported(config, r, es, n - 1, Found(0, Disposition.Accepted, r));
      var before := ReadEntries(config, r, es, n - 1);
      if !before.failed && Reported(config, r, es[n - 1]) != [] {
        js := js + [n - 1];
      }
    }
  }

  /** A line's receipts, as pairs of this line and the bearing entries. */
  lemma RowInOrder(config: Config, r: Row) returns (js: seq<nat>)
    ensures var found := ReadRow(config, r).found;
            && |js| == |found|
            && (forall k: nat | k < |js| :: Reports(config, Some(r), js[k], found[k]))
            && (forall k: nat, m: nat | k < m < |js| :: js[k] < js[m])
    ensures forall j: nat, f | Reports(config, Some(r), j, f) :: j in js
  {
    hide Concerns;
    var es := EntriesOf(config, Some(r));
    js := [];
    if FromReferee(config, r) && Offered(config, r.payload).Some? && Offered(config, r.payload).value.Some? {
      js := EntriesInOrder(config, r, es, |es|);
      forall j: nat, f | j < |es|
        ensures ReachedAs(config, r, es, j, f) <==> Reports(config, Some(r), j, f)
      {
        ConcernedIsObject(config, es[j]);
      }
    }
  }

  predicate Before(p: (nat, nat), q: (nat, nat)) {
    p.0 < q.0 || (p.0 == q.0 && p.1 < q.1)
  }

  /** found lists, line by line and entry by entry, exactly the receipts the first n lines bear. */
  ghost predicate InOrder(config: Config, rows: seq<Option<Row>>, n: nat, found: seq<Found>, places: seq<(nat, nat)>)
    requires n <= |rows|
  {
    && |places| == |found|
    && (forall k: nat | k < |places| :: places[k].0 < n && Reports(config, rows[places[k].0], places[k].1, found[k]))
    && (forall k: nat, m: nat | k < m < |places| :: Before(places[k], places[m]))
    && (forall i: nat, j: nat, f | i < n && Reports(config, rows[i], j, f) :: (i, j) in places)
  }

  lemma InOrderGrows(config: Config, rows: seq<Option<Row>>, n: nat, found: seq<Found>, places: seq<(nat, nat)>, js: seq<nat>)
    returns (longer: seq<(nat, nat)>)
    requires n < |rows| && rows[n].Some? && InOrder(config, rows, n, found, places)
    requires var more := ReadRow(config, rows[n].value).found;
             && |js| == |more| && (forall k: nat | k < |js| :: Reports(config, rows[n], js[k], more[k]))
             && (forall k: nat, m: nat | k < m < |js| :: js[k] < js[m])
    requires forall j: nat, f | Reports(config, rows[n], j, f) :: j in js
    ensures InOrder(config, rows, n + 1, found + ReadRow(config, rows[n].value).found, longer)
  {
    hide Reports, ReadRow;
    var added := seq(|js|, k requires 0 <= k < |js| => (n, js[k]));
    longer := places + added;
    var more := ReadRow(config, rows[n].value).found;
    forall k: nat | k < |longer|
      ensures longer[k].0 < n + 1 && Reports(config, rows[longer[k].0], longer[k].1, (found + more)[k])
    {
      if k >= |places| { assert longer[k] == added[k - |places|]; }
    }
    OrderGrows(places, added, n, js);
    forall i: nat, j: nat, f | i < n + 1 && Reports(config, rows[i], j, f)
      ensures (i, j) in longer
    {
      if i == n {
        var k :| 0 <= k < |js| && js[k] == j;
        assert added[k] == (i, j);
      } else {
        assert (i, j) in places;
      }
    }
  }

  lemma OrderGrows(places: seq<(nat, nat)>, added: seq<(nat, nat)>, n: nat, js: seq<nat>)
    requires forall k: nat | k < |places| :: places[k].0 < n
    requires forall k: nat, m: nat | k < m < |places| :: Before(places[k], places[m])
    requires |added| == |js| && forall k: nat | k < |js| :: added[k] == (n, js[k])
    requires forall k: nat, m: nat | k < m < |js| :: js[k] < js[m]
    ensures forall k: nat, m: nat | k < m < |places + added| :: Before((places + added)[k], (places + added)[m])
  {
  }

  lemma {:induction false} TallyInOrder(rows: seq<Option<Row>>, config: Config, n: nat) returns (places: seq<(nat, nat)>)
    requires n <= |rows| && TallyRows(rows, config, n).Some?
    ensures InOrder(config, rows, n, TallyRows(rows, config, n).value.found, places)
  {
    hide ReadRow, Reports;
    places := [];
    if n > 0 {
      var before := TallyInOrder(rows, config, n - 1);
      var r := rows[n - 1].value;
      var js := RowInOrder(config, r);
      OnlyRefereeReports(config, r);
      var found := TallyRows(rows, config, n - 1).value.found;
      places := InOrderGrows(config, rows, n - 1, found, before, js);
      assert found + [] == found;
    }
  }

  /** The receipts a list of lines bears: one for each place, line and entry, in the order of the lines
      and then of the entries, each with its line's number and content. */
  ghost predicate Lists(config: Config, rows: seq<Option<Row>>, found: seq<Found>, places: seq<(nat, nat)>) {
    && |places| == |found|
    && (forall k: nat, m: nat | k < m < |places| :: Before(places[k], places[m]))
    && (forall k: nat | k < |places| ::
          && places[k].0 < |rows| && Bears(config, rows[places[k].0], places[k].1, found[k].disposition)
          && rows[places[k].0] == Some(found[k].row) && found[k].sequence == found[k].row.sequence)
    && (forall i: nat, j: nat, d | i < |rows| && Bears(config, rows[i], j, d) :: (i, j) in places)
  }

  /** An accepted export reports exactly the receipts its lines bear, each once. */
  lemma ReceiptsInOrder(env: Env, raw: Bytes, config: Config) returns (places: seq<(nat, nat)>)
    requires Inspect(env, raw, config).Some?
    ensures Lists(config, env.rows(raw, config), Inspect(env, raw, config).value.found, places)
  {
    hide Reports, Merge, TallyRows, Bears;
    var rows, found := env.rows(raw, config), Inspect(env, raw, config).value.found;
    places := TallyInOrder(rows, config, |rows|);
    forall k: nat | k < |places|
      ensures Bears(config, rows[places[k].0], places[k].1, found[k].disposition)
      ensures rows[places[k].0] == Some(found[k].row) && found[k].sequence == found[k].row.sequence
    {
      BearsExactly(config, rows[places[k].0], places[k].1, found[k]);
      BornByALine(config, rows[places[k].0], places[k].1, found[k].disposition);
    }
    forall i: nat, j: nat, d | i < |rows| && Bears(config, rows[i], j, d)
      ensures (i, j) in places
    {
      BornByALine(config, rows[i], j, d);
      BearsExactly(config, rows[i], j, Found(rows[i].value.sequence, d, rows[i].value));
    }
  }

  lemma BornByALine(config: Config, row: Option<Row>, j: nat, d: Disposition)
    ensures Bears(config, row, j, d) ==> row.Some?
  {
  }

  /** The referee's line cannot be read to the end: no JSON, or a batch of the contest without a list or
      with an entry that is not an object. */
  predicate Breaks(config: Config, r: Row) {
    && r.check == ValidSignature && r.sender == config.referee
    && match r.payload
       case Unreadable => true
       case NoObject => false
       case Payload(kind, own) =>
         && own.Entry? && own.contest == Present(config.contestId) && kind.ReceiptBatch?
         && (kind.entries == None || exists j: nat :: j < |kind.entries.value| && kind.entries.value[j].NotObject?)
  }

  lemma BreaksExactly(config: Config, r: Row)
    ensures ReadRow(config, r).failed <==> Breaks(config, r)
  {
    hide Reported;
    if FromReferee(config, r) && Offered(config, r.payload).Some? && Offered(config, r.payload).value.Some? {
      var es := Offered(config, r.payload).value.value;
      EntriesReported(config, r, es, |es|, Found(0, Disposition.Accepted, r));
    }
  }

  /** The unrecognized count is the number of lines that break. */
  lemma UnrecognizedExactly(env: Env, raw: Bytes, config: Config)
    requires Inspect(env, raw, config).Some?
    ensures var rows := env.rows(raw, config);
            Inspect(env, raw, config).value.unrecognized
              == |set i: nat | i < |rows| && rows[i].Some? && Breaks(config, rows[i].value)|
  {
    hide ReadRow, Breaks, Merge;
    var rows := env.rows(raw, config);
    UnrecognizedLines(rows, config, |rows|);
    forall i: nat | i < |rows| && rows[i].Some?
      ensures ReadRow(config, rows[i].value).failed <==> Breaks(config, rows[i].value)
    {
      BreaksExactly(config, rows[i].value);
    }
    assert Failures(rows, config, |rows|) == set i: nat | i < |rows| && rows[i].Some? && Breaks(config, rows[i].value);
  }
}
