/**
 Record accounting: every source record is usable, quarantined or a duplicate, and every counter of the
 report counts exactly the records it names.
*/
module RecordQuality {
  import opened Basics
  import opened Options

  /** A value of a record; `Data` stands for numbers, lists and the like. */
  datatype Value = Nothing | Text(text: string) | Data(id: int, truthy: bool)

  type Row = map<string, Value>

  datatype Item = NotARecord | Record(fields: Row)

  /** `Empty`: `value in (None, "")`. */
  predicate Empty(v: Value) {
    v == Nothing || v == Text("")
  }

  predicate Truthy(v: Value) {
    match v
    case Nothing => false
    case Text(text) => text != ""
    case Data(_, truthy) => truthy
  }

  function Get(row: Row, field: string): Value {
    if field in row then row[field] else Nothing
  }

  /******* Timestamps *******/

  datatype Quality = Missing | Invalid | AssumedUtc | Verified | Future

  /** A parsed time: its zone if it has one, the instant in microseconds, and the canonical UTC text. */
  datatype Parsed = Parsed(zone: Option<string>, instant: int, iso: string)

  datatype Stamp = Stamp(eventTime: Option<Parsed>, original: Option<string>, zone: Option<string>, quality: Quality)

  const FUTURE_TOLERANCE := 5 * 60 * 1_000_000

  /**
   What the accounting is told: `redact` is redaction of a row, `parse` reads a time and `show` prints a
   value, `encode` prints a row for its identity; all are arbitrary functions.
  */
  datatype Rules = Rules(
    timestampFields: seq<string>, requiredFields: seq<string>, quarantineInvalid: bool, errorField: string,
    received: int, receivedText: string,
    redact: Row -> Row, parse: Value -> Option<Parsed>, show: Value -> string, encode: Row -> string)

  function Shown(r: Rules, v: Value): Option<string> {
    match v
    case Nothing => None
    case Text(text) => Some(text)
    case Data(_, _) => Some(r.show(v))
  }

  /** `normalize_timestamp`; nothing and the empty string never parse. */
  function Normalize(r: Rules, v: Value): Stamp {
    var original := Shown(r, v);
    var parsed := if Empty(v) then None else r.parse(v);
    if parsed.None? then
      Stamp(None, original, None, if original.Some? && original.value != "" then Invalid else Missing)
    else
      var p := parsed.value;
      var zone := if original.Some? && original.value != "" && original.value[|original.value| - 1] == 'Z' then "Z"
                  else if p.zone.Some? then p.zone.value else "naive";
      if p.instant > r.received + FUTURE_TOLERANCE then Stamp(None, original, Some(zone), Future)
      else Stamp(Some(p), original, Some(zone), if p.zone.Some? then Verified else AssumedUtc)
  }

  function FirstField(row: Row, fields: seq<string>): Option<string> {
    if fields == [] then None
    else if !Empty(Get(row, fields[0])) then Some(fields[0])
    else FirstField(row, fields[1..])
  }

  function SourceField(r: Rules, row: Row): Option<string> {
    FirstField(row, r.timestampFields)
  }

  /** A field named by the empty string is found, but its value is not read. */
  function RawTime(r: Rules, row: Row): Value {
    var source := SourceField(r, row);
    if source.Some? && source.value != "" then Get(row, source.value) else Nothing
  }

  function StampOf(r: Rules, row: Row): Stamp {
    Normalize(r, RawTime(r, row))
  }

  predicate LacksRequired(r: Rules, row: Row) {
    exists field :: field in r.requiredFields && Empty(Get(row, field))
  }

  /******* The fate of one record *******/

  datatype Fate = Unparsed | LacksField | Untimed | Emitted

  function FateOf(r: Rules, item: Item): (fate: Fate)
    ensures fate.Unparsed? <==> item.NotARecord?
  {
    if item.NotARecord? then Unparsed
    else if LacksRequired(r, r.redact(item.fields)) then LacksField
    else if r.quarantineInvalid && StampOf(r, r.redact(item.fields)).eventTime.None? then Untimed
    else Emitted
  }

  function QualityName(q: Quality): string {
    match q
    case Missing => "missing"
    case Invalid => "invalid"
    case AssumedUtc => "assumed_utc"
    case Verified => "verified"
    case Future => "future"
  }

  function OrNothing(text: Option<string>): Value {
    if text.Some? then Text(text.value) else Nothing
  }

  /** The six fields every usable row carries. */
  function SixFields(r: Rules, row: Row): Row {
    var s := StampOf(r, row);
    map[
      "event_time" := if s.eventTime.Some? then Text(s.eventTime.value.iso) else Nothing,
      "original_timestamp" := OrNothing(s.original),
      "original_timezone" := OrNothing(s.zone),
      "clock_quality" := Text(QualityName(s.quality)),
      "timestamp_source_field" := OrNothing(SourceField(r, row)),
      "received_at" := Text(r.receivedText)]
  }

  /** `record.update({...})` */
  function Stamped(r: Rules, row: Row): Row {
    row + SixFields(r, row)
  }

  function RowOf(r: Rules, item: Item): Row
    requires item.Record?
  {
    Stamped(r, r.redact(item.fields))
  }

  /** `_identity`: connector metadata does not count. */
  function Identity(r: Rules, row: Row): string {
    r.encode(r.redact(row - {"connector_metadata"}))
  }

  /******* A whole batch *******/

  /** Rows that reach the duplicate check, in order. */
  function EmittedRows(r: Rules, items: seq<Item>): seq<Row> {
    if items == [] then []
    else
      var rest, last := EmittedRows(r, items[..|items| - 1]), items[|items| - 1];
      if FateOf(r, last) == Emitted then rest + [RowOf(r, last)] else rest
  }

  predicate Seen(r: Rules, rows: seq<Row>, row: Row) {
    exists x :: x in rows && Identity(r, x) == Identity(r, row)
  }

  /** The first row of each identity, in order. */
  function Firsts(r: Rules, rows: seq<Row>): seq<Row> {
    if rows == [] then []
    else
      var rest, last := Firsts(r, rows[..|rows| - 1]), rows[|rows| - 1];
      if Seen(r, rows[..|rows| - 1], last) then rest else rest + [last]
  }

  function Usable(r: Rules, items: seq<Item>): seq<Row> {
    Firsts(r, EmittedRows(r, items))
  }

  /** Records whose clock is judged: those with all required fields. */
  predicate Judged(r: Rules, item: Item): (judged: bool)
    ensures judged ==> item.Record?
  {
    FateOf(r, item).Untimed? || FateOf(r, item).Emitted?
  }

  function TimeOf(r: Rules, item: Item): Stamp
    requires item.Record?
  {
    StampOf(r, r.redact(item.fields))
  }

  function RawOf(r: Rules, item: Item): Value
    requires item.Record?
  {
    RawTime(r, r.redact(item.fields))
  }

  /** What the counters of the report count. */
  datatype Kind = Is(fate: Fate) | WithError | WithClock(quality: Quality) | NoTimestamp | BadTimestamp

  predicate Holds(r: Rules, item: Item, kind: Kind) {
    match kind
    case Is(fate) => FateOf(r, item) == fate
    case WithError => item.Record? && r.errorField != "" && Truthy(Get(r.redact(item.fields), r.errorField))
    case WithClock(quality) => Judged(r, item) && TimeOf(r, item).quality == quality
    case NoTimestamp => Judged(r, item) && Empty(RawOf(r, item))
    case BadTimestamp => Judged(r, item) && !Empty(RawOf(r, item)) && TimeOf(r, item).eventTime.None?
  }

  /** How many records of the batch are of a kind. */
  function Count(r: Rules, items: seq<Item>, kind: Kind): nat {
    if items == [] then 0
    else Count(r, items[..|items| - 1], kind) + if Holds(r, items[|items| - 1], kind) then 1 else 0
  }

  /** The event times found, in order. */
  function Times(r: Rules, items: seq<Item>): seq<int> {
    if items == [] then []
    else
      var rest, last := Times(r, items[..|items| - 1]), items[|items| - 1];
      if Judged(r, last) && TimeOf(r, last).eventTime.Some? then rest + [TimeOf(r, last).eventTime.value.instant] else rest
  }

  datatype Report = Report(
    input: nat, usable: nat, quarantined: nat, parseFailures: nat, sourceErrors: nat, duplicates: nat,
    missingFields: nat, missingTimestamps: nat, invalidTimestamps: nat, qualities: map<Quality, nat>)

  function Tallied(qualities: map<Quality, nat>, q: Quality): nat {
    if q in qualities then qualities[q] else 0
  }

  /** Every counter of the report counts the records of its kind. */
  ghost predicate Reports(r: Rules, items: seq<Item>, report: Report) {
    && report.input == |items|
    && report.parseFailures == Count(r, items, Is(Unparsed))
    && report.missingFields == Count(r, items, Is(LacksField))
    && report.quarantined == Count(r, items, Is(Unparsed)) + Count(r, items, Is(LacksField)) + Count(r, items, Is(Untimed))
    && report.usable + report.duplicates == Count(r, items, Is(Emitted))
    && report.usable == |Usable(r, items)|
    && report.sourceErrors == Count(r, items, WithError)
    && report.missingTimestamps == Count(r, items, NoTimestamp)
    && report.invalidTimestamps == Count(r, items, BadTimestamp)
    && forall q :: Tallied(report.qualities, q) == Count(r, items, WithClock(q))
  }

  /******* The loop *******/

  lemma Appended(r: Rules, items: seq<Item>, item: Item)
    ensures forall kind :: Count(r, items + [item], kind) == Count(r, items, kind) + if Holds(r, item, kind) then 1 else 0
    ensures EmittedRows(r, items + [item]) == EmittedRows(r, items) + if FateOf(r, item) == Emitted then [RowOf(r, item)] else []
    ensures Times(r, items + [item]) == Times(r, items) +
      if Judged(r, item) && TimeOf(r, item).eventTime.Some? then [TimeOf(r, item).eventTime.value.instant] else []
  {
    assert (items + [item])[..|items|] == items;
    hide Holds, FateOf, RowOf, Judged, TimeOf;
  }

  lemma FirstsAppended(r: Rules, rows: seq<Row>, row: Row)
    ensures Firsts(r, rows + [row]) == if Seen(r, rows, row) then Firsts(r, rows) else Firsts(r, rows) + [row]
  {
    assert (rows + [row])[..|rows|] == rows;
  }

  /** The set `seen` of identities. */
  ghost predicate Remembers(r: Rules, seen: set<string>, rows: seq<Row>) {
    forall identity :: identity in seen <==> exists x :: x in rows && Identity(r, x) == identity
  }

  lemma RemembersOneMore(r: Rules, seen: set<string>, rows: seq<Row>, row: Row)
    requires Remembers(r, seen, rows)
    ensures Remembers(r, seen + {Identity(r, row)}, rows + [row])
    ensures Identity(r, row) in seen <==> Seen(r, rows, row)
  {
    hide Identity;
    assert row in rows + [row];
    forall x | x in rows ensures x in rows + [row] {}
  }

  const EMPTY_REPORT := Report(0, 0, 0, 0, 0, 0, 0, 0, 0, map[])

  method CountClock(qualities: map<Quality, nat>, q: Quality) returns (counted: map<Quality, nat>)
    ensures forall x :: Tallied(counted, x) == Tallied(qualities, x) + if x == q then 1 else 0
  {
    counted := qualities[q := Tallied(qualities, q) + 1];
  }

  function One(condition: bool): nat {
    if condition then 1 else 0
  }

  lemma KindsOf(r: Rules, item: Item)
    ensures forall fate :: Holds(r, item, Is(fate)) <==> FateOf(r, item) == fate
    ensures forall q :: Holds(r, item, WithClock(q)) <==> Judged(r, item) && q == TimeOf(r, item).quality
    ensures !Judged(r, item) ==> !Holds(r, item, NoTimestamp) && !Holds(r, item, BadTimestamp)
    ensures item.NotARecord? ==> !Holds(r, item, WithError)
    ensures Judged(r, item) <==> FateOf(r, item).Untimed? || FateOf(r, item).Emitted?
  {
    hide FateOf, TimeOf, RawOf;
  }

  lemma AfterUnparsed(r: Rules, items: seq<Item>, item: Item, report: Report)
    requires Reports(r, items, report) && item.NotARecord?
    ensures Reports(r, items + [item], report.(
      input := report.input + 1, parseFailures := report.parseFailures + 1, quarantined := report.quarantined + 1))
  {
    hide Count, EmittedRows, Firsts, Tallied, Holds, FateOf, Judged, TimeOf, RowOf;
    Appended(r, items, item);
    KindsOf(r, item);
    assert EmittedRows(r, items) + [] == EmittedRows(r, items);
  }

  lemma AfterLacking(r: Rules, items: seq<Item>, item: Item, report: Report)
    requires Reports(r, items, report) && FateOf(r, item).LacksField?
    ensures Reports(r, items + [item], report.(
      input := report.input + 1, sourceErrors := report.sourceErrors + One(Holds(r, item, WithError)),
      missingFields := report.missingFields + 1, quarantined := report.quarantined + 1))
  {
    hide Count, EmittedRows, Firsts, Tallied, Holds, FateOf, Judged, TimeOf, RowOf;
    Appended(r, items, item);
    KindsOf(r, item);
    assert EmittedRows(r, items) + [] == EmittedRows(r, items);
  }

  /** The counters after a record whose clock was judged; `new_` says that its row is usable and new. */
  function AfterClock(r: Rules, item: Item, report: Report, qualities: map<Quality, nat>, new_: bool): Report {
    var emitted := FateOf(r, item).Emitted?;
    report.(
      input := report.input + 1, sourceErrors := report.sourceErrors + One(Holds(r, item, WithError)),
      missingTimestamps := report.missingTimestamps + One(Holds(r, item, NoTimestamp)),
      invalidTimestamps := report.invalidTimestamps + One(Holds(r, item, BadTimestamp)),
      quarantined := report.quarantined + One(!emitted),
      usable := report.usable + One(emitted && new_), duplicates := report.duplicates + One(emitted && !new_), qualities := qualities)
  }

  lemma AfterJudged(r: Rules, items: seq<Item>, item: Item, report: Report, qualities: map<Quality, nat>, new_: bool)
    requires Reports(r, items, report) && Judged(r, item)
    requires FateOf(r, item).Emitted? ==> (new_ <==> !Seen(r, EmittedRows(r, items), RowOf(r, item)))
    requires forall x :: Tallied(qualities, x) == Tallied(report.qualities, x) + One(x == TimeOf(r, item).quality)
    ensures Reports(r, items + [item], AfterClock(r, item, report, qualities, new_))
  {
    hide Count, EmittedRows, Firsts, Tallied, LacksRequired, FateOf, Holds, Judged, TimeOf, RowOf, Seen;
    Appended(r, items, item);
    KindsOf(r, item);
    if FateOf(r, item).Emitted? {
      FirstsAppended(r, EmittedRows(r, items), RowOf(r, item));
    } else {
      assert EmittedRows(r, items) + [] == EmittedRows(r, items);
    }
    hide Usable;
    var after := AfterClock(r, item, report, qualities, new_);
    forall q ensures Tallied(after.qualities, q) == Count(r, items + [item], WithClock(q)) {}
  }

  method LacksAny(row: Row, required: seq<string>) returns (lacking: bool)
    ensures lacking <==> exists field :: field in required && Empty(Get(row, field))
  {
    lacking := false;
    for i := 0 to |required|
      invariant lacking <==> exists field :: field in required[..i] && Empty(Get(row, field))
    {
      assert required[..i + 1] == required[..i] + [required[i]];
      if Empty(Get(row, required[i])) {
        assert required[i] in required[..i + 1];
        lacking := true;
      }
    }
    assert required[..|required|] == required;
  }

  /** What the loop body finds out about one record. */
  datatype Finding = Finding(fate: Fate, error: bool, noTime: bool, badTime: bool, stamp: Stamp, row: Row)

  method Examine(r: Rules, item: Item) returns (f: Finding)
    requires item.Record?
    ensures f.fate == FateOf(r, item) && f.error == Holds(r, item, WithError)
    ensures Judged(r, item) ==>
      && f.stamp == TimeOf(r, item) && f.noTime == Holds(r, item, NoTimestamp) && f.badTime == Holds(r, item, BadTimestamp)
      && (f.stamp.eventTime.None? <==> f.noTime || f.badTime) && !(f.noTime && f.badTime)
    ensures f.fate.Emitted? ==> f.row == RowOf(r, item)
  {
    var row := r.redact(item.fields);
    var error := r.errorField != "" && Truthy(Get(row, r.errorField));
    var lacking := LacksAny(row, r.requiredFields);
    var raw := RawTime(r, row);
    var stamp := Normalize(r, raw);
    var noTime, badTime := Empty(raw), !Empty(raw) && stamp.eventTime.None?;
    assert noTime ==> stamp.eventTime.None?;
    hide Normalize, RawTime, Truthy, Get, Stamped, Empty;
    if lacking {
      f := Finding(LacksField, error, false, false, stamp, row);
    } else if r.quarantineInvalid && stamp.eventTime.None? {
      f := Finding(Untimed, error, noTime, badTime, stamp, row);
    } else {
      f := Finding(Emitted, error, noTime, badTime, stamp, Stamped(r, row));
    }
  }

  /** What the loop holds after the given records. */
  ghost predicate Progress(r: Rules, items: seq<Item>, usable: seq<Row>, report: Report, times: seq<int>, seen: set<string>) {
    Reports(r, items, report) && usable == Usable(r, items) && times == Times(r, items) && Remembers(r, seen, EmittedRows(r, items))
  }

  lemma StartsEmpty(r: Rules)
    ensures Progress(r, [], [], EMPTY_REPORT, [], {})
  {
  }

  lemma NothingEmitted(r: Rules, items: seq<Item>, item: Item)
    requires !FateOf(r, item).Emitted?
    ensures EmittedRows(r, items + [item]) == EmittedRows(r, items) && Usable(r, items + [item]) == Usable(r, items)
    ensures !Judged(r, item) ==> Times(r, items + [item]) == Times(r, items)
  {
    Appended(r, items, item);
    hide EmittedRows, Times, Firsts, FateOf, Judged, TimeOf;
    assert EmittedRows(r, items) + [] == EmittedRows(r, items);
    assert Times(r, items) + [] == Times(r, items);
  }

  lemma TimesAppended(r: Rules, items: seq<Item>, item: Item)
    requires Judged(r, item)
    ensures Times(r, items + [item]) ==
      if TimeOf(r, item).eventTime.Some? then Times(r, items) + [TimeOf(r, item).eventTime.value.instant] else Times(r, items)
  {
    Appended(r, items, item);
    hide EmittedRows, Times, FateOf, Judged, TimeOf;
    assert Times(r, items) + [] == Times(r, items);
  }

  lemma EmittedAppended(r: Rules, items: seq<Item>, item: Item, seen: set<string>)
    requires FateOf(r, item).Emitted? && Remembers(r, seen, EmittedRows(r, items))
    ensures
      var row := RowOf(r, item);
      && Remembers(r, seen + {Identity(r, row)}, EmittedRows(r, items + [item]))
      && (Identity(r, row) in seen <==> Seen(r, EmittedRows(r, items), row))
      && Usable(r, items + [item]) == if Identity(r, row) in seen then Usable(r, items) else Usable(r, items) + [row]
  {
    Appended(r, items, item);
    hide EmittedRows, Firsts, FateOf, RowOf, Identity, Seen, Remembers;
    FirstsAppended(r, EmittedRows(r, items), RowOf(r, item));
    RemembersOneMore(r, seen, EmittedRows(r, items), RowOf(r, item));
  }

  /** The first and latest event time, and how far the latest lies before the end of the window. */
  datatype Bounds = Bounds(first: Option<int>, latest: Option<int>, freshness: Option<int>)

  ghost predicate Bound(b: Bounds, times: seq<int>, windowEnd: Option<int>) {
    && (b.first.Some? <==> times != []) && (b.latest.Some? <==> times != [])
    && (b.first.Some? ==> b.first.value in times && forall t :: t in times ==> b.first.value <= t)
    && (b.latest.Some? ==> b.latest.value in times && forall t :: t in times ==> t <= b.latest.value)
    && (b.freshness.Some? <==> b.latest.Some? && windowEnd.Some?)
    && (b.freshness.Some? ==> b.freshness.value == Max(windowEnd.value - b.latest.value, 0))
  }

  /** `min`, `max` and the freshness of the report. */
  method TimeBounds(times: seq<int>, windowEnd: Option<int>) returns (b: Bounds)
    ensures Bound(b, times, windowEnd)
  {
    b := Bounds(None, None, None);
    for i := 0 to |times|
      invariant Bound(b, times[..i], None)
    {
      assert times[..i + 1] == times[..i] + [times[i]];
      var t := times[i];
      b := Bounds(Some(if b.first.Some? then Min(b.first.value, t) else t), Some(if b.latest.Some? then Max(b.latest.value, t) else t), None);
    }
    assert times[..|times|] == times;
    if windowEnd.Some? && b.latest.Some? {
      b := b.(freshness := Some(Max(windowEnd.value - b.latest.value, 0)));
    }
  }

  /** `assess_records`: usable rows, the counters, and the time bounds; `windowEnd` is the parsed end of the window. */
  method AssessRecords(r: Rules, items: seq<Item>, windowEnd: Option<int>) returns (usable: seq<Row>, report: Report, bounds: Bounds)
    ensures usable == Usable(r, items)
    ensures Reports(r, items, report)
    ensures Bound(bounds, Times(r, items), windowEnd)
  {
    var times: seq<int>;
    usable, times, report := [], [], EMPTY_REPORT;
    var seen: set<string> := {};
    StartsEmpty(r);
    for i := 0 to |items|
      invariant Progress(r, items[..i], usable, report, times, seen)
    {
      assert items[..i + 1] == items[..i] + [items[i]];
      usable, report, times, seen := AssessOne(r, items[..i], items[i], usable, report, times, seen);
    }
    assert items[..|items|] == items;
    bounds := TimeBounds(times, windowEnd);
  }

  /** The loop body. */
  method AssessOne(r: Rules, ghost items: seq<Item>, item: Item, usable: seq<Row>, report: Report, times: seq<int>, seen: set<string>)
    returns (usable': seq<Row>, report': Report, times': seq<int>, seen': set<string>)
    requires Progress(r, items, usable, report, times, seen)
    ensures Progress(r, items + [item], usable', report', times', seen')
  {
    hide FateOf, Holds, Judged, Reports, Remembers, Usable, Times, EmittedRows;
    usable', report', times', seen' := usable, report.(input := report.input + 1), times, seen;
    if item.NotARecord? {
      AfterUnparsed(r, items, item, report);
      UnparsedEmitsNothing(r, items, item);
      report' := report'.(parseFailures := report.parseFailures + 1, quarantined := report.quarantined + 1);
      return;
    }
    var f := Examine(r, item);
    if f.error {
      report' := report'.(sourceErrors := report.sourceErrors + 1);
    }
    if f.fate.LacksField? {
      AfterLacking(r, items, item, report);
      LackingEmitsNothing(r, items, item);
      report' := report'.(missingFields := report.missingFields + 1, quarantined := report.quarantined + 1);
      return;
    }
    JudgedWhen(r, item);
    usable', report', times', seen' := AssessJudged(r, items, item, f, usable, report, report', times, seen);
  }

  lemma JudgedWhen(r: Rules, item: Item)
    ensures Judged(r, item) <==> FateOf(r, item).Untimed? || FateOf(r, item).Emitted?
  {
  }

  lemma UnparsedEmitsNothing(r: Rules, items: seq<Item>, item: Item)
    requires item.NotARecord?
    ensures EmittedRows(r, items + [item]) == EmittedRows(r, items) && Usable(r, items + [item]) == Usable(r, items)
    ensures Times(r, items + [item]) == Times(r, items)
  {
    NothingEmitted(r, items, item);
  }

  lemma LackingEmitsNothing(r: Rules, items: seq<Item>, item: Item)
    requires FateOf(r, item).LacksField?
    ensures EmittedRows(r, items + [item]) == EmittedRows(r, items) && Usable(r, items + [item]) == Usable(r, items)
    ensures Times(r, items + [item]) == Times(r, items)
  {
    NothingEmitted(r, items, item);
  }

  /** The rest of the loop body, for a record that has every required field. */
  method AssessJudged(
    r: Rules, ghost items: seq<Item>, item: Item, f: Finding,
    usable: seq<Row>, ghost report: Report, counted: Report, times: seq<int>, seen: set<string>)
    returns (usable': seq<Row>, report': Report, times': seq<int>, seen': set<string>)
    requires Progress(r, items, usable, report, times, seen)
    requires Judged(r, item) && f.fate == FateOf(r, item)
    requires counted == report.(input := report.input + 1, sourceErrors := report.sourceErrors + One(Holds(r, item, WithError)))
    requires f.stamp == TimeOf(r, item) && f.noTime == Holds(r, item, NoTimestamp) && f.badTime == Holds(r, item, BadTimestamp)
    requires (f.stamp.eventTime.None? <==> f.noTime || f.badTime) && !(f.noTime && f.badTime)
    requires f.fate.Emitted? ==> f.row == RowOf(r, item)
    ensures Progress(r, items + [item], usable', report', times', seen')
  {
    JudgedWhen(r, item);
    hide FateOf, Holds, Judged, TimeOf, RowOf, Identity, Reports, Remembers, Usable, Times, EmittedRows, Seen, Tallied;
    usable', times', seen' := usable, times, seen;
    var qualities := CountClock(counted.qualities, f.stamp.quality);
    report' := counted.(qualities := qualities);
    if f.noTime {
      report' := report'.(missingTimestamps := counted.missingTimestamps + 1);
    } else if f.badTime {
      report' := report'.(invalidTimestamps := counted.invalidTimestamps + 1);
    } else {
      times' := times + [f.stamp.eventTime.value.instant];
    }
    TimesAppended(r, items, item);
    if f.fate.Untimed? {
      NothingEmitted(r, items, item);
      AfterJudged(r, items, item, report, qualities, false);
      report' := report'.(quarantined := counted.quarantined + 1);
      return;
    }
    EmittedAppended(r, items, item, seen);
    AfterJudged(r, items, item, report, qualities, Identity(r, f.row) !in seen);
    var identity := Identity(r, f.row);
    if identity in seen {
      assert seen + {identity} == seen;
      report' := report'.(duplicates := counted.duplicates + 1);
      return;
    }
    seen' := seen + {identity};
    usable' := usable + [f.row];
    report' := report'.(usable := counted.usable + 1);
  }
}
