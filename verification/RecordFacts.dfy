/**
 What the report and the usable rows say, in terms of the records themselves: which records each counter
 counts, which clock quality a time has, and what is written into a row.
*/
module RecordFacts {
  import opened Options
  import opened RecordQuality
  import opened RecordLaws

  /******* The fate of a record *******/

  ghost predicate Blank(v: Value) {
    v == Nothing || v == Text("")
  }

  /** The record is one and, after redaction, has a value in every required field. */
  ghost predicate Complete(r: Rules, item: Item) {
    item.Record? && forall field :: field in r.requiredFields ==> !Blank(ValueAt(r.redact(item.fields), field))
  }

  ghost function ValueAt(row: Row, field: string): Value {
    if field in row then row[field] else Nothing
  }

  /** The first time field with a value decides; a record without one has no time. */
  ghost predicate Source(r: Rules, row: Row, i: nat)
    requires i < |r.timestampFields|
  {
    !Blank(ValueAt(row, r.timestampFields[i])) && forall k :: 0 <= k < i ==> Blank(ValueAt(row, r.timestampFields[k]))
  }

  lemma {:induction false} FirstFieldMeans(row: Row, fields: seq<string>)
    ensures FirstField(row, fields) == None <==> forall k :: 0 <= k < |fields| ==> Blank(ValueAt(row, fields[k]))
    ensures forall i :: 0 <= i < |fields| && !Blank(ValueAt(row, fields[i])) && (forall k :: 0 <= k < i ==> Blank(ValueAt(row, fields[k])))
              ==> FirstField(row, fields) == Some(fields[i])
  {
    if fields != [] {
      FirstFieldMeans(row, fields[1..]);
      if !Empty(Get(row, fields[0])) {
        assert !Blank(ValueAt(row, fields[0]));
      } else {
        forall i | 0 <= i < |fields| && !Blank(ValueAt(row, fields[i])) && (forall k :: 0 <= k < i ==> Blank(ValueAt(row, fields[k])))
          ensures FirstField(row, fields) == Some(fields[i])
        {
          assert i > 0 && fields[1..][i - 1] == fields[i];
          forall k | 0 <= k < i - 1 ensures Blank(ValueAt(row, fields[1..][k])) { assert fields[1..][k] == fields[k + 1]; }
        }
      }
    }
  }

  /** The value the time of a row is read from. */
  lemma RawTimeMeans(r: Rules, row: Row)
    ensures forall i :: 0 <= i < |r.timestampFields| && Source(r, row, i) && r.timestampFields[i] != "" ==>
      RawTime(r, row) == ValueAt(row, r.timestampFields[i]) && SourceField(r, row) == Some(r.timestampFields[i])
    ensures (forall k :: 0 <= k < |r.timestampFields| ==> Blank(ValueAt(row, r.timestampFields[k]))) ==>
      RawTime(r, row) == Nothing && SourceField(r, row) == None
  {
    FirstFieldMeans(row, r.timestampFields);
    hide Blank, FirstField;
  }

  /** What `parse` makes of the record's time, if it has one. */
  ghost function TimeRead(r: Rules, item: Item): Option<Parsed>
    requires item.Record?
  {
    if Blank(RawOf(r, item)) then None else r.parse(RawOf(r, item))
  }

  /** Within five minutes of the time of receipt. */
  ghost predicate Plausible(r: Rules, p: Parsed) {
    p.instant <= r.received + 300_000_000
  }

  ghost predicate Timed(r: Rules, item: Item)
    requires item.Record?
  {
    TimeRead(r, item).Some? && Plausible(r, TimeRead(r, item).value)
  }

  lemma FateMeans(r: Rules, item: Item)
    ensures FateOf(r, item) == Unparsed <==> item == NotARecord
    ensures FateOf(r, item) == LacksField <==> item.Record? && !Complete(r, item)
    ensures FateOf(r, item) == Untimed <==> Complete(r, item) && r.quarantineInvalid && !Timed(r, item)
    ensures FateOf(r, item) == Emitted <==> Complete(r, item) && (r.quarantineInvalid ==> Timed(r, item))
    ensures Judged(r, item) <==> Complete(r, item)
  {
    hide RawTime;
  }

  /******* Clock qualities *******/

  /** The quality of a record's clock, read off what its time parses to. */
  lemma ClockMeans(r: Rules, item: Item)
    requires Prints(r) && item.Record?
    ensures
      var quality, read := TimeOf(r, item).quality, TimeRead(r, item);
      && (quality == Missing <==> Blank(RawOf(r, item)))
      && (quality == Invalid <==> !Blank(RawOf(r, item)) && read == None)
      && (quality == Future <==> read.Some? && read.value.instant > r.received + 300_000_000)
      && (quality == Verified <==> read.Some? && Plausible(r, read.value) && read.value.zone.Some?)
      && (quality == AssumedUtc <==> read.Some? && Plausible(r, read.value) && read.value.zone.None?)
      && TimeOf(r, item).eventTime == (if Timed(r, item) then read else None)
  {
    NormalizeMeans(r, RawOf(r, item));
    hide RawTime;
  }

  /******* Counters *******/

  /** How many of the records have the property. */
  ghost function HowMany(items: seq<Item>, holds: Item -> bool): nat {
    |set i | 0 <= i < |items| && holds(items[i])|
  }

  lemma {:induction false} CountIs(r: Rules, items: seq<Item>, kind: Kind, holds: Item -> bool)
    requires forall item :: holds(item) <==> Holds(r, item, kind)
    ensures Count(r, items, kind) == HowMany(items, holds)
  {
    if items != [] {
      hide Holds, HowMany;
      CountIs(r, items[..|items| - 1], kind, holds);
      HowManyMore(items, holds);
    } else {
      assert HowMany(items, holds) == 0;
    }
  }

  lemma HowManyMore(items: seq<Item>, holds: Item -> bool)
    requires items != []
    ensures HowMany(items, holds) == HowMany(items[..|items| - 1], holds) + if holds(items[|items| - 1]) then 1 else 0
  {
    var n := |items| - 1;
    var all, before := set i | 0 <= i < |items| && holds(items[i]), set i | 0 <= i < n && holds(items[..n][i]);
    forall i ensures i in before <==> i in all && i != n { assert i in before <==> 0 <= i < n && holds(items[i]); }
    assert before == all - {n};
  }

  ghost predicate Untimely(r: Rules, item: Item) {
    Complete(r, item) && !Timed(r, item)
  }

  /** Every counter of the report, by the records it counts. */
  lemma CountersMean(r: Rules, items: seq<Item>, report: Report)
    requires Reports(r, items, report)
    ensures report.input == |items| && report.parseFailures == HowMany(items, (item: Item) => item == NotARecord)
    ensures report.missingFields == HowMany(items, (item: Item) => item.Record? && !Complete(r, item))
    ensures report.quarantined == report.parseFailures + report.missingFields
                                  + (if r.quarantineInvalid then HowMany(items, (item: Item) => Untimely(r, item)) else 0)
  {
    forall item ensures KindsMean(r, item) { HoldsMeans(r, item); }
    hide Holds, Complete, Timed, Blank, Count, Usable, SourceError, RawOf, HowMany, Tallied;
    CountIs(r, items, Is(Unparsed), (item: Item) => item == NotARecord);
    CountIs(r, items, Is(LacksField), (item: Item) => item.Record? && !Complete(r, item));
    if r.quarantineInvalid {
      CountIs(r, items, Is(Untimed), (item: Item) => Untimely(r, item));
    } else {
      NoneCounted(r, items, Is(Untimed));
    }
  }

  /** The counters that overlap the others: records without a time, with an unusable one, and with an error. */
  lemma TimestampCountersMean(r: Rules, items: seq<Item>, report: Report)
    requires Reports(r, items, report)
    ensures report.missingTimestamps == HowMany(items, (item: Item) => Complete(r, item) && Blank(RawOf(r, item)))
    ensures report.invalidTimestamps == HowMany(items, (item: Item) => Untimely(r, item) && !Blank(RawOf(r, item)))
    ensures report.sourceErrors == HowMany(items, (item: Item) => SourceError(r, item))
  {
    forall item ensures KindsMean(r, item) { HoldsMeans(r, item); }
    hide Holds, Complete, Timed, Blank, Count, Usable, SourceError, RawOf, HowMany, Tallied;
    CountIs(r, items, NoTimestamp, (item: Item) => Complete(r, item) && Blank(RawOf(r, item)));
    CountIs(r, items, BadTimestamp, (item: Item) => Untimely(r, item) && !Blank(RawOf(r, item)));
    CountIs(r, items, WithError, (item: Item) => SourceError(r, item));
  }

  lemma {:induction false} NoneCounted(r: Rules, items: seq<Item>, kind: Kind)
    requires forall item :: item in items ==> !Holds(r, item, kind)
    ensures Count(r, items, kind) == 0
  {
    if items != [] {
      hide Holds;
      NoneCounted(r, items[..|items| - 1], kind);
      assert items[|items| - 1] in items;
    }
  }

  /** The error field, where one is configured, holds something that counts as true. */
  ghost predicate SourceError(r: Rules, item: Item) {
    item.Record? && r.errorField != "" &&
    match ValueAt(r.redact(item.fields), r.errorField)
    case Nothing => false
    case Text(text) => |text| > 0
    case Data(_, truthy) => truthy
  }

  ghost predicate KindsMean(r: Rules, item: Item) {
    && (Holds(r, item, Is(Unparsed)) <==> item == NotARecord)
    && (Holds(r, item, Is(LacksField)) <==> item.Record? && !Complete(r, item))
    && (Holds(r, item, Is(Untimed)) <==> Complete(r, item) && r.quarantineInvalid && !Timed(r, item))
    && (Holds(r, item, Is(Emitted)) <==> Complete(r, item) && (r.quarantineInvalid ==> Timed(r, item)))
    && (Holds(r, item, NoTimestamp) <==> Complete(r, item) && Blank(RawOf(r, item)))
    && (Holds(r, item, BadTimestamp) <==> Complete(r, item) && !Blank(RawOf(r, item)) && !Timed(r, item))
    && (Holds(r, item, WithError) <==> SourceError(r, item))
  }

  lemma HoldsMeans(r: Rules, item: Item)
    ensures KindsMean(r, item)
  {
    FateMeans(r, item);
    hide RawTime, LacksRequired;
  }

  /** The clock counters: each counts the complete records whose time reads that way. */
  lemma QualitiesMean(r: Rules, items: seq<Item>, report: Report)
    requires Reports(r, items, report) && Prints(r)
    ensures Tallied(report.qualities, Verified) ==
            HowMany(items, (item: Item) => Complete(r, item) && Timed(r, item) && TimeRead(r, item).value.zone.Some?)
    ensures Tallied(report.qualities, AssumedUtc) ==
            HowMany(items, (item: Item) => Complete(r, item) && Timed(r, item) && TimeRead(r, item).value.zone.None?)
    ensures Tallied(report.qualities, Future) == HowMany(items, (item: Item) => Untimely(r, item) && TimeRead(r, item).Some?)
    ensures Tallied(report.qualities, Invalid) ==
            HowMany(items, (item: Item) => Untimely(r, item) && !Blank(RawOf(r, item)) && TimeRead(r, item) == None)
    ensures Tallied(report.qualities, Missing) == HowMany(items, (item: Item) => Complete(r, item) && Blank(RawOf(r, item)))
  {
    forall item ensures ClocksMean(r, item) { ClockKindsMean(r, item); }
    hide Holds, Complete, Timed, Blank, Count, Usable, RawOf, TimeRead, HowMany;
    CountIs(r, items, WithClock(Verified), (item: Item) => Complete(r, item) && Timed(r, item) && TimeRead(r, item).value.zone.Some?);
    CountIs(r, items, WithClock(AssumedUtc), (item: Item) => Complete(r, item) && Timed(r, item) && TimeRead(r, item).value.zone.None?);
    CountIs(r, items, WithClock(Future), (item: Item) => Untimely(r, item) && TimeRead(r, item).Some?);
    CountIs(r, items, WithClock(Invalid), (item: Item) => Untimely(r, item) && !Blank(RawOf(r, item)) && TimeRead(r, item) == None);
    CountIs(r, items, WithClock(Missing), (item: Item) => Complete(r, item) && Blank(RawOf(r, item)));
  }

  ghost predicate ClocksMean(r: Rules, item: Item) {
    && (Holds(r, item, WithClock(Verified)) <==> Complete(r, item) && Timed(r, item) && TimeRead(r, item).value.zone.Some?)
    && (Holds(r, item, WithClock(AssumedUtc)) <==> Complete(r, item) && Timed(r, item) && TimeRead(r, item).value.zone.None?)
    && (Holds(r, item, WithClock(Future)) <==> Complete(r, item) && TimeRead(r, item).Some? && !Timed(r, item))
    && (Holds(r, item, WithClock(Invalid)) <==> Complete(r, item) && !Blank(RawOf(r, item)) && TimeRead(r, item) == None)
    && (Holds(r, item, WithClock(Missing)) <==> Complete(r, item) && Blank(RawOf(r, item)))
  }

  lemma ClockKindsMean(r: Rules, item: Item)
    requires Prints(r)
    ensures ClocksMean(r, item)
  {
    FateMeans(r, item);
    if item.Record? { ClockMeans(r, item); }
    hide RawOf, FateOf, TimeOf, Blank, Prints;
  }

  /******* What is written *******/

  /** The six fields of a row, from the time read and the value it was read from; all other fields are kept. */
  lemma StampedMeans(r: Rules, item: Item)
    requires Prints(r) && item.Record?
    ensures
      var row, raw, read := RowOf(r, item), RawOf(r, item), TimeRead(r, item);
      && Get(row, "event_time") == (if Timed(r, item) then Text(read.value.iso) else Nothing)
      && Get(row, "clock_quality") == Text(
           if Blank(raw) then "missing" else if read == None then "invalid" else if !Plausible(r, read.value) then "future"
           else if read.value.zone.Some? then "verified" else "assumed_utc")
      && Get(row, "original_timestamp") == Printed(r, raw)
      && Get(row, "original_timezone") == (if read == None then Nothing
                                           else if Zulu(Printed(r, raw)) then Text("Z")
                                           else if read.value.zone.Some? then Text(read.value.zone.value) else Text("naive"))
      && Get(row, "timestamp_source_field") == (if SourceField(r, r.redact(item.fields)) == None then Nothing
                                                else Text(SourceField(r, r.redact(item.fields)).value))
      && Get(row, "received_at") == Text(r.receivedText)
      && forall field :: field !in STAMPED_FIELDS ==> Get(row, field) == ValueAt(r.redact(item.fields), field)
  {
    var fields := r.redact(item.fields);
    WrittenTime(r, fields);
    WrittenFields(r, fields);
    ClockMeans(r, item);
    ZoneMeans(r, RawOf(r, item));
    forall field | field !in STAMPED_FIELDS ensures Get(RowOf(r, item), field) == ValueAt(fields, field) { StampedElsewhere(r, fields, field); }
    hide Stamped, Normalize, RawTime, SourceField, Get, Timed, Plausible, Zulu, Prints;
  }

  ghost function Printed(r: Rules, v: Value): Value {
    if v == Nothing then Nothing else if v.Text? then v else Text(r.show(v))
  }

  /** A text that ends in a capital Z. */
  ghost predicate Zulu(v: Value) {
    v.Text? && exists front :: v.text == front + "Z"
  }

  lemma ZoneMeans(r: Rules, v: Value)
    ensures OrNothing(Normalize(r, v).original) == Printed(r, v)
    ensures
      var read := if Blank(v) then None else r.parse(v);
      OrNothing(Normalize(r, v).zone) ==
        if read == None then Nothing else if Zulu(Printed(r, v)) then Text("Z")
        else if read.value.zone.Some? then Text(read.value.zone.value) else Text("naive")
  {
    var printed := Printed(r, v);
    if printed.Text? && printed.text != "" {
      var n := |printed.text| - 1;
      assert printed.text == printed.text[..n] + [printed.text[n]];
    }
  }

  /******* What is emitted *******/

  /** Complete and, where quarantine is on, with a plausible time. */
  ghost predicate Passes(r: Rules, item: Item) {
    Complete(r, item) && (r.quarantineInvalid ==> Timed(r, item))
  }

  /** The rows are the stamped records at the given positions, which are those of all records that pass, in order. */
  ghost predicate EmittedAt(r: Rules, items: seq<Item>, rows: seq<Row>, at: seq<nat>) {
    && |at| == |rows|
    && (forall k :: 0 <= k < |at| ==> at[k] < |items| && Passes(r, items[at[k]]) && rows[k] == RowOf(r, items[at[k]]))
    && (forall j, k :: 0 <= j < k < |at| ==> at[j] < at[k])
    && forall i :: 0 <= i < |items| && Passes(r, items[i]) ==> i in at
  }

  lemma EmitsOneMore(r: Rules, front: seq<Item>, last: Item, rows: seq<Row>, at: seq<nat>)
    requires EmittedAt(r, front, rows, at)
    ensures Passes(r, last) ==> EmittedAt(r, front + [last], rows + [RowOf(r, last)], at + [|front|])
    ensures !Passes(r, last) ==> EmittedAt(r, front + [last], rows, at)
  {
    assert forall item :: Passes(r, item) ==> item.Record?;
    hide Passes, RowOf;
  }

  /** The emitted rows are the stamped records that pass, in order. */
  lemma {:induction false} EmittedMean(r: Rules, items: seq<Item>) returns (at: seq<nat>)
    ensures EmittedAt(r, items, EmittedRows(r, items), at)
  {
    at := [];
    if items != [] {
      var front, last := items[..|items| - 1], items[|items| - 1];
      FateMeans(r, last);
      assert FateOf(r, last) == Emitted <==> Passes(r, last);
      assert EmittedRows(r, items) == if FateOf(r, last) == Emitted then EmittedRows(r, front) + [RowOf(r, last)] else EmittedRows(r, front);
      hide Passes, EmittedRows, RowOf, FateOf, EmittedAt;
      var before := EmittedMean(r, front);
      EmitsOneMore(r, front, last, EmittedRows(r, front), before);
      assert items == front + [last];
      at := if Passes(r, last) then before + [|front|] else before;
    }
  }

  /** The bounds of the report are taken over the plausible times of all complete records. */
  lemma {:induction false} TimesMean(r: Rules, items: seq<Item>, t: int)
    requires Prints(r)
    ensures t in Times(r, items) <==>
      exists item :: item in items && Complete(r, item) && Timed(r, item) && TimeRead(r, item).value.instant == t
  {
    if items != [] {
      var front, last := items[..|items| - 1], items[|items| - 1];
      TimesMean(r, front, t);
      FateMeans(r, last);
      if last.Record? { ClockMeans(r, last); }
      assert items == front + [last];
      hide Complete, Timed, TimeRead, FateOf, TimeOf, Judged, Prints, RawOf;
      assert forall x :: x in items <==> x in front || x == last;
      assert t in Times(r, items) <==>
             t in Times(r, front) || (Complete(r, last) && Timed(r, last) && TimeRead(r, last).value.instant == t);
    }
  }

  /******* Duplicates *******/

  /** Rows that differ in their connector metadata alone are the same record. */
  lemma ConnectorDoesNotCount(r: Rules, a: Row, b: Row)
    requires forall field :: field != "connector_metadata" ==> (field in a <==> field in b) && (field in a ==> a[field] == b[field])
    ensures Identity(r, a) == Identity(r, b)
  {
    assert a - {"connector_metadata"} == b - {"connector_metadata"};
  }

  /** Where redaction is off and rows print differently, no other rows are. */
  lemma EverythingElseCounts(r: Rules, a: Row, b: Row)
    requires (forall row :: r.redact(row) == row) && (forall x, y :: r.encode(x) == r.encode(y) ==> x == y)
    requires Identity(r, a) == Identity(r, b)
    ensures forall field :: field != "connector_metadata" ==> (field in a <==> field in b) && (field in a ==> a[field] == b[field])
  {
    var x, y := a - {"connector_metadata"}, b - {"connector_metadata"};
    assert x == y;
    forall field | field != "connector_metadata"
      ensures field in a <==> field in b
      ensures field in a ==> a[field] == b[field]
    {
      assert field in a <==> field in x;
      assert field in b <==> field in y;
    }
  }
}
