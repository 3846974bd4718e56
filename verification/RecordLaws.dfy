/** What the record accounting guarantees for every batch, and when assessing its rows again changes nothing. */
module RecordLaws {
  import opened Options
  import opened RecordQuality

  /******* Conservation *******/

  lemma {:induction false} FatesPartition(r: Rules, items: seq<Item>)
    ensures |items| ==
      Count(r, items, Is(Unparsed)) + Count(r, items, Is(LacksField)) + Count(r, items, Is(Untimed)) + Count(r, items, Is(Emitted))
  {
    if items != [] {
      var front, item := items[..|items| - 1], items[|items| - 1];
      FatesPartition(r, front);
      KindsOf(r, item);
      hide Holds, FateOf;
    }
  }

  /** Each judged record has exactly one clock quality. */
  lemma {:induction false} QualitiesPartition(r: Rules, items: seq<Item>)
    ensures
      Count(r, items, WithClock(Missing)) + Count(r, items, WithClock(Invalid)) + Count(r, items, WithClock(AssumedUtc))
      + Count(r, items, WithClock(Verified)) + Count(r, items, WithClock(Future))
      == |items| - Count(r, items, Is(Unparsed)) - Count(r, items, Is(LacksField))
  {
    if items != [] {
      var front, item := items[..|items| - 1], items[|items| - 1];
      QualitiesPartition(r, front);
      KindsOf(r, item);
      hide Holds, FateOf, TimeOf, Judged;
    }
  }

  /** Printing a value that is not a string never gives the empty string. */
  ghost predicate Prints(r: Rules) {
    forall v: Value :: v.Data? ==> r.show(v) != ""
  }

  /** What a clock quality says about the value and about the event time. */
  lemma NormalizeMeans(r: Rules, v: Value)
    requires Prints(r)
    ensures
      var s := Normalize(r, v);
      var parsed := if v == Nothing || v == Text("") then None else r.parse(v);
      && (s.quality == Missing <==> v == Nothing || v == Text(""))
      && (s.quality == Invalid <==> v != Nothing && v != Text("") && r.parse(v) == None)
      && (s.quality == Future <==> parsed.Some? && parsed.value.instant > r.received + 300_000_000)
      && (s.quality == Verified <==> parsed.Some? && parsed.value.instant <= r.received + 300_000_000 && parsed.value.zone.Some?)
      && (s.quality == AssumedUtc <==> parsed.Some? && parsed.value.instant <= r.received + 300_000_000 && parsed.value.zone.None?)
      && (s.eventTime.Some? ==> s.eventTime == parsed)
      && (s.eventTime.None? <==> s.quality == Missing || s.quality == Invalid || s.quality == Future)
      && (s.eventTime.Some? ==> s.eventTime.value.instant <= r.received + FUTURE_TOLERANCE)
      && (s.original.None? <==> v == Nothing)
  {
  }

  lemma ClockKinds(r: Rules, item: Item)
    requires Prints(r)
    ensures Holds(r, item, NoTimestamp) <==> Holds(r, item, WithClock(Missing))
    ensures Holds(r, item, BadTimestamp) <==> Holds(r, item, WithClock(Invalid)) || Holds(r, item, WithClock(Future))
    ensures Holds(r, item, Is(Untimed)) <==> r.quarantineInvalid && (Holds(r, item, NoTimestamp) || Holds(r, item, BadTimestamp))
    ensures !(Holds(r, item, NoTimestamp) && Holds(r, item, BadTimestamp))
  {
    if item.Record? { NormalizeMeans(r, RawOf(r, item)); }
    hide Normalize, RawTime, Empty, LacksRequired;
  }

  /** The two timestamp counters agree with the clock qualities, and say how many rows quarantine removed. */
  lemma {:induction false} TimestampCountersAgree(r: Rules, items: seq<Item>)
    requires Prints(r)
    ensures Count(r, items, NoTimestamp) == Count(r, items, WithClock(Missing))
    ensures Count(r, items, BadTimestamp) == Count(r, items, WithClock(Invalid)) + Count(r, items, WithClock(Future))
    ensures Count(r, items, Is(Untimed)) ==
            if r.quarantineInvalid then Count(r, items, NoTimestamp) + Count(r, items, BadTimestamp) else 0
  {
    if items != [] {
      var front, item := items[..|items| - 1], items[|items| - 1];
      TimestampCountersAgree(r, front);
      ClockKinds(r, item);
      assert !(Holds(r, item, WithClock(Invalid)) && Holds(r, item, WithClock(Future)));
      hide Holds;
    }
  }

  /** Every record is usable, quarantined or a duplicate, and the clock qualities cover the rest. */
  lemma ReportConserves(r: Rules, items: seq<Item>, report: Report)
    requires Reports(r, items, report)
    ensures report.input == report.usable + report.quarantined + report.duplicates
    ensures
      Tallied(report.qualities, Missing) + Tallied(report.qualities, Invalid) + Tallied(report.qualities, AssumedUtc)
      + Tallied(report.qualities, Verified) + Tallied(report.qualities, Future)
      == report.input - report.parseFailures - report.missingFields
    ensures Prints(r) ==>
      && report.missingTimestamps == Tallied(report.qualities, Missing)
      && report.invalidTimestamps == Tallied(report.qualities, Invalid) + Tallied(report.qualities, Future)
      && report.quarantined == report.parseFailures + report.missingFields
                               + if r.quarantineInvalid then report.missingTimestamps + report.invalidTimestamps else 0
  {
    FatesPartition(r, items);
    QualitiesPartition(r, items);
    if Prints(r) { TimestampCountersAgree(r, items); }
    hide Count, Tallied, Prints, Usable;
  }

  /** A bad clock never moves the bounds of the report past the tolerated future. */
  lemma {:induction false} TimesAreNotFuture(r: Rules, items: seq<Item>)
    requires Prints(r)
    ensures forall t :: t in Times(r, items) ==> t <= r.received + FUTURE_TOLERANCE
  {
    if items != [] {
      var front, item := items[..|items| - 1], items[|items| - 1];
      TimesAreNotFuture(r, front);
      if item.Record? { NormalizeMeans(r, RawOf(r, item)); }
      hide Normalize, RawTime, LacksRequired;
    }
  }

  /******* Usable rows *******/

  ghost predicate DistinctIdentities(r: Rules, rows: seq<Row>) {
    forall i, j :: 0 <= i < j < |rows| ==> Identity(r, rows[i]) != Identity(r, rows[j])
  }

  /** Where each row of `Firsts` comes from. */
  ghost function Origins(r: Rules, rows: seq<Row>): seq<nat> {
    if rows == [] then []
    else
      var front := rows[..|rows| - 1];
      if Seen(r, front, rows[|rows| - 1]) then Origins(r, front) else Origins(r, front) + [|front|]
  }

  /** Firsts are the first rows of their identity, in order of appearance. */
  ghost predicate FromOrigins(r: Rules, rows: seq<Row>) {
    var firsts, origins := Firsts(r, rows), Origins(r, rows);
    && |firsts| == |origins| <= |rows|
    && (forall i :: 0 <= i < |origins| ==>
          origins[i] < |rows| && firsts[i] == rows[origins[i]] && !Seen(r, rows[..origins[i]], firsts[i]))
    && (forall i, j :: 0 <= i < j < |origins| ==> origins[i] < origins[j])
  }

  lemma {:induction false} FirstsAreFirst(r: Rules, rows: seq<Row>)
    ensures FromOrigins(r, rows)
  {
    if rows != [] {
      var front, row := rows[..|rows| - 1], rows[|rows| - 1];
      FirstsAreFirst(r, front);
      hide Seen;
      var firsts, origins := Firsts(r, rows), Origins(r, rows);
      forall i | 0 <= i < |origins|
        ensures origins[i] < |rows| && firsts[i] == rows[origins[i]] && !Seen(r, rows[..origins[i]], firsts[i])
      {
        assert rows[..origins[i]] == front[..origins[i]];
      }
    }
  }

  /** Every row has a row of its identity among the firsts. */
  ghost predicate Covers(r: Rules, firsts: seq<Row>, rows: seq<Row>) {
    forall row :: row in rows ==> Seen(r, firsts, row)
  }

  lemma CoversSeen(r: Rules, firsts: seq<Row>, front: seq<Row>, row: Row)
    requires Covers(r, firsts, front) && Seen(r, front, row)
    ensures Covers(r, firsts, front + [row])
  {
    hide Identity;
    var x :| x in front && Identity(r, x) == Identity(r, row);
    assert Seen(r, firsts, x);
  }

  lemma CoversNew(r: Rules, firsts: seq<Row>, front: seq<Row>, row: Row)
    requires Covers(r, firsts, front)
    ensures Covers(r, firsts + [row], front + [row])
  {
    hide Identity;
    forall x | x in front + [row] ensures Seen(r, firsts + [row], x) {
      if x in front {
        assert Seen(r, firsts, x);
        var y :| y in firsts && Identity(r, y) == Identity(r, x);
        assert y in firsts + [row];
      } else {
        assert row in firsts + [row];
      }
    }
  }

  lemma DistinctNew(r: Rules, firsts: seq<Row>, front: seq<Row>, row: Row)
    requires DistinctIdentities(r, firsts) && !Seen(r, front, row) && forall x :: x in firsts ==> x in front
    ensures DistinctIdentities(r, firsts + [row])
  {
    hide Identity;
    forall i | 0 <= i < |firsts| ensures Identity(r, firsts[i]) != Identity(r, row) { assert firsts[i] in front; }
  }

  lemma {:induction false} FirstsMembers(r: Rules, rows: seq<Row>)
    ensures Covers(r, Firsts(r, rows), rows)
    ensures forall row :: row in Firsts(r, rows) ==> row in rows
    ensures DistinctIdentities(r, Firsts(r, rows))
  {
    if rows != [] {
      hide Seen, Identity, Covers, DistinctIdentities;
      var front, row := rows[..|rows| - 1], rows[|rows| - 1];
      FirstsMembers(r, front);
      assert rows == front + [row];
      if Seen(r, front, row) {
        CoversSeen(r, Firsts(r, front), front, row);
      } else {
        CoversNew(r, Firsts(r, front), front, row);
        DistinctNew(r, Firsts(r, front), front, row);
      }
    }
  }

  /** Usable rows have distinct identities, stand for every emitted row, and keep the order of first occurrence. */
  lemma UsableRows(r: Rules, items: seq<Item>)
    ensures DistinctIdentities(r, Usable(r, items)) && FromOrigins(r, EmittedRows(r, items))
    ensures Covers(r, Usable(r, items), EmittedRows(r, items))
  {
    FirstsMembers(r, EmittedRows(r, items));
    FirstsAreFirst(r, EmittedRows(r, items));
  }

  /******* Assessing usable rows again *******/

  function Again(rows: seq<Row>): (items: seq<Item>)
    ensures |items| == |rows|
  {
    seq(|rows|, i requires 0 <= i < |rows| => Record(rows[i]))
  }

  /** A row that passes the filters again and receives the stamp it already carries. */
  predicate Settled(r: Rules, row: Row) {
    FateOf(r, Record(row)) == Emitted && RowOf(r, Record(row)) == row
  }

  lemma {:induction false} FirstsOfDistinct(r: Rules, rows: seq<Row>)
    requires DistinctIdentities(r, rows)
    ensures Firsts(r, rows) == rows
  {
    if rows != [] {
      var front, row := rows[..|rows| - 1], rows[|rows| - 1];
      FirstsOfDistinct(r, front);
      assert rows == front + [row];
      hide Identity;
    }
  }

  lemma {:induction false} FirstsKeepingAll(r: Rules, rows: seq<Row>)
    ensures |Firsts(r, rows)| <= |rows|
    ensures |Firsts(r, rows)| == |rows| ==> Firsts(r, rows) == rows
  {
    if rows != [] {
      FirstsKeepingAll(r, rows[..|rows| - 1]);
      assert rows == rows[..|rows| - 1] + [rows[|rows| - 1]];
    }
  }

  lemma SnocEqual<T>(front: seq<T>, last: T, rows: seq<T>)
    requires rows != [] && |front| < |rows|
    ensures front + [last] == rows <==> front == rows[..|rows| - 1] && last == rows[|rows| - 1]
  {
    if front + [last] == rows {
      assert |front| == |rows| - 1;
      assert rows[|rows| - 1] == last;
      assert rows[..|rows| - 1] == front;
    }
  }

  ghost predicate AllSettled(r: Rules, rows: seq<Row>) {
    forall row :: row in rows ==> Settled(r, row)
  }

  lemma AllSettledSnoc(r: Rules, rows: seq<Row>)
    requires rows != []
    ensures AllSettled(r, rows) <==> AllSettled(r, rows[..|rows| - 1]) && Settled(r, rows[|rows| - 1])
  {
    assert rows == rows[..|rows| - 1] + [rows[|rows| - 1]];
    hide Settled;
  }

  lemma EmittedSnoc(r: Rules, rows: seq<Row>)
    requires rows != []
    ensures
      var front, row := rows[..|rows| - 1], rows[|rows| - 1];
      EmittedRows(r, Again(rows)) ==
        if FateOf(r, Record(row)) == Emitted then EmittedRows(r, Again(front)) + [RowOf(r, Record(row))]
        else EmittedRows(r, Again(front))
  {
    assert Again(rows)[..|rows| - 1] == Again(rows[..|rows| - 1]);
    hide FateOf, RowOf;
  }

  lemma {:induction false} EmittedAgain(r: Rules, rows: seq<Row>)
    ensures |EmittedRows(r, Again(rows))| <= |rows|
    ensures EmittedRows(r, Again(rows)) == rows <==> AllSettled(r, rows)
  {
    if rows != [] {
      var front, row := rows[..|rows| - 1], rows[|rows| - 1];
      assert Settled(r, row) <==> FateOf(r, Record(row)) == Emitted && RowOf(r, Record(row)) == row;
      hide *;
      EmittedAgain(r, front);
      EmittedSnoc(r, rows);
      AllSettledSnoc(r, rows);
      if FateOf(r, Record(row)) == Emitted {
        SnocEqual(EmittedRows(r, Again(front)), RowOf(r, Record(row)), rows);
      }
    }
  }

  /** Assessing usable rows again returns them unchanged exactly when each of them is settled. */
  lemma ReassessedExactlyWhenSettled(r: Rules, items: seq<Item>)
    ensures
      var rows := Usable(r, items);
      Usable(r, Again(rows)) == rows <==> AllSettled(r, rows)
  {
    var rows := Usable(r, items);
    var emitted := EmittedRows(r, Again(rows));
    UsableRows(r, items);
    EmittedAgain(r, rows);
    FirstsKeepingAll(r, emitted);
    hide Settled, EmittedRows, Firsts, Identity;
    if emitted == rows { FirstsOfDistinct(r, rows); }
  }

  const STAMPED_FIELDS := {
    "event_time", "original_timestamp", "original_timezone", "clock_quality", "timestamp_source_field", "received_at"}

  /** Neither timestamps nor required fields are read from the six fields the assessment writes. */
  ghost predicate Separate(r: Rules) {
    && (forall field :: field in r.timestampFields ==> field !in STAMPED_FIELDS)
    && (forall field :: field in r.requiredFields ==> field !in STAMPED_FIELDS)
  }

  /** Redacting a row the assessment emitted changes nothing. */
  ghost predicate RedactsOnce(r: Rules) {
    forall row: Row :: r.redact(Stamped(r, r.redact(row))) == Stamped(r, r.redact(row))
  }

  /** The six fields give back everything the assessment found out about the time of a record. */
  lemma ProvenanceIsKept(r: Rules, a: Row, b: Row)
    requires forall field :: field in STAMPED_FIELDS ==> Get(Stamped(r, a), field) == Get(Stamped(r, b), field)
    ensures StampOf(r, a).original == StampOf(r, b).original && StampOf(r, a).zone == StampOf(r, b).zone
    ensures StampOf(r, a).quality == StampOf(r, b).quality && SourceField(r, a) == SourceField(r, b)
    ensures StampOf(r, a).eventTime.Some? <==> StampOf(r, b).eventTime.Some?
    ensures StampOf(r, a).eventTime.Some? ==> StampOf(r, a).eventTime.value.iso == StampOf(r, b).eventTime.value.iso
  {
    hide StampOf, SourceField, Stamped, Get;
    WrittenTime(r, a);
    WrittenTime(r, b);
    WrittenFields(r, a);
    WrittenFields(r, b);
    NamesDiffer(StampOf(r, a).quality, StampOf(r, b).quality);
    assert "event_time" in STAMPED_FIELDS && "original_timestamp" in STAMPED_FIELDS && "original_timezone" in STAMPED_FIELDS;
    assert "clock_quality" in STAMPED_FIELDS && "timestamp_source_field" in STAMPED_FIELDS;
  }

  lemma NamesDiffer(p: Quality, q: Quality)
    ensures QualityName(p) == QualityName(q) <==> p == q
  {
    assert "missing"[0] == 'm' && "invalid"[0] == 'i' && "assumed_utc"[0] == 'a' && "verified"[0] == 'v' && "future"[0] == 'f';
  }

  lemma StampedElsewhere(r: Rules, row: Row, field: string)
    requires field !in STAMPED_FIELDS
    ensures Get(Stamped(r, row), field) == Get(row, field)
  {
  }

  lemma {:induction false} SameFirstField(r: Rules, row: Row, fields: seq<string>)
    requires forall field :: field in fields ==> field !in STAMPED_FIELDS
    ensures FirstField(Stamped(r, row), fields) == FirstField(row, fields)
    ensures FirstField(row, fields).Some? ==> FirstField(row, fields).value in fields
  {
    if fields != [] {
      StampedElsewhere(r, row, fields[0]);
      SameFirstField(r, row, fields[1..]);
      hide Stamped;
    }
  }

  lemma SameStamp(r: Rules, row: Row)
    requires Separate(r)
    ensures SourceField(r, Stamped(r, row)) == SourceField(r, row)
    ensures StampOf(r, Stamped(r, row)) == StampOf(r, row)
    ensures LacksRequired(r, Stamped(r, row)) == LacksRequired(r, row)
  {
    SameFirstField(r, row, r.timestampFields);
    forall field | field !in STAMPED_FIELDS ensures Get(Stamped(r, row), field) == Get(row, field) { StampedElsewhere(r, row, field); }
    hide Stamped, Normalize, FirstField, Get;
  }

  lemma StampedTwice(r: Rules, row: Row)
    requires Separate(r)
    ensures Stamped(r, Stamped(r, row)) == Stamped(r, row)
  {
    SameStamp(r, row);
    RestampedWhenSame(r, row);
    hide *;
  }

  lemma EmittedIsSettled(r: Rules, item: Item)
    requires Separate(r) && RedactsOnce(r) && FateOf(r, item) == Emitted
    ensures Settled(r, RowOf(r, item))
  {
    var row := r.redact(item.fields);
    assert r.redact(Stamped(r, row)) == Stamped(r, row);
    SameStamp(r, row);
    StampedTwice(r, row);
    hide Stamped, StampOf, LacksRequired;
  }

  lemma {:induction false} EmittedAreSettled(r: Rules, items: seq<Item>)
    requires Separate(r) && RedactsOnce(r)
    ensures AllSettled(r, EmittedRows(r, items))
  {
    if items != [] {
      var front, item := items[..|items| - 1], items[|items| - 1];
      EmittedAreSettled(r, front);
      if FateOf(r, item) == Emitted { EmittedIsSettled(r, item); }
      hide FateOf, RowOf, Settled, RedactsOnce, Separate;
    }
  }

  /** With separate fields and idempotent redaction, assessing usable rows again is the identity. */
  lemma ReassessmentIsIdentity(r: Rules, items: seq<Item>)
    requires Separate(r) && RedactsOnce(r)
    ensures Usable(r, Again(Usable(r, items))) == Usable(r, items)
  {
    EmittedAreSettled(r, items);
    FirstsMembers(r, EmittedRows(r, items));
    ReassessedExactlyWhenSettled(r, items);
    hide Firsts, EmittedRows, Settled;
  }

  /******* Where it is not the identity *******/

  /** Two stamps that are written alike. */
  predicate WrittenAlike(a: Stamp, b: Stamp) {
    && a.original == b.original && a.zone == b.zone && a.quality == b.quality
    && (a.eventTime.Some? <==> b.eventTime.Some?)
    && (a.eventTime.Some? ==> a.eventTime.value.iso == b.eventTime.value.iso)
  }

  /**
   What a caller can check on a row the assessment emitted: redaction leaves its own fields alone, its
   required fields are still filled, and its time is read from the same field as the same time.
  */
  ghost predicate Repeatable(r: Rules, row: Row) {
    var stamped := Stamped(r, row);
    var again := r.redact(stamped);
    && again - STAMPED_FIELDS == stamped - STAMPED_FIELDS
    && (forall field :: field in r.requiredFields ==> !Empty(Get(again, field)))
    && SourceField(r, again) == SourceField(r, row) && WrittenAlike(StampOf(r, again), StampOf(r, row))
  }

  lemma SameStampedFields(r: Rules, a: Row, b: Row)
    requires SourceField(r, a) == SourceField(r, b) && WrittenAlike(StampOf(r, a), StampOf(r, b))
    requires a - STAMPED_FIELDS == b - STAMPED_FIELDS
    ensures Stamped(r, a) == Stamped(r, b)
  {
    hide StampOf, SourceField;
    var x, y := Stamped(r, a), Stamped(r, b);
    var six := SixFields(r, a);
    assert x == a + six && y == b + six && six.Keys == STAMPED_FIELDS;
    hide Stamped, SixFields;
    SameOutside(a, b, six);
  }

  lemma SameOutside(a: Row, b: Row, fields: Row)
    requires a - fields.Keys == b - fields.Keys
    ensures a + fields == b + fields
  {
    forall f | f in a && f !in fields ensures f in b && a[f] == b[f] { assert f in a - fields.Keys; assert (a - fields.Keys)[f] == a[f]; }
    forall f | f in b && f !in fields ensures f in a { assert f in b - fields.Keys; }
    assert (a + fields).Keys == (b + fields).Keys;
  }

  lemma StampedRest(r: Rules, row: Row)
    ensures Stamped(r, row) - STAMPED_FIELDS == row - STAMPED_FIELDS
    ensures STAMPED_FIELDS <= Stamped(r, row).Keys
  {
    hide StampOf, SourceField;
  }

  /** An emitted row is settled exactly when it is repeatable. */
  lemma SettledExactlyWhen(r: Rules, item: Item)
    requires FateOf(r, item) == Emitted
    ensures Settled(r, RowOf(r, item)) <==> Repeatable(r, r.redact(item.fields))
  {
    var row := r.redact(item.fields);
    var stamped := Stamped(r, row);
    var again := r.redact(stamped);
    StampedRest(r, row);
    StampedRest(r, again);
    assert RowOf(r, Record(stamped)) == Stamped(r, again);
    if Stamped(r, again) == stamped {
      ProvenanceIsKept(r, again, row);
      hide Stamped, StampOf, SourceField;
      assert again - STAMPED_FIELDS == stamped - STAMPED_FIELDS;
    } else {
      if again - STAMPED_FIELDS == stamped - STAMPED_FIELDS && SourceField(r, again) == SourceField(r, row) && WrittenAlike(StampOf(r, again), StampOf(r, row)) {
        SameStampedFields(r, again, row);
      }
    }
    hide Stamped, StampOf, SourceField;
  }

  /** Assessing usable rows again returns them unchanged exactly when each of them is repeatable. */
  lemma ReassessedExactlyWhenRepeatable(r: Rules, items: seq<Item>)
    ensures
      var rows := Usable(r, items);
      Usable(r, Again(rows)) == rows <==>
        forall item :: item in items && FateOf(r, item) == Emitted && RowOf(r, item) in rows ==> Repeatable(r, r.redact(item.fields))
  {
    ReassessedExactlyWhenSettled(r, items);
    var rows := Usable(r, items);
    FirstsMembers(r, EmittedRows(r, items));
    forall item | item in items && FateOf(r, item) == Emitted
      ensures Settled(r, RowOf(r, item)) <==> Repeatable(r, r.redact(item.fields))
    {
      SettledExactlyWhen(r, item);
    }
    forall row | row in rows ensures exists item :: item in items && FateOf(r, item) == Emitted && RowOf(r, item) == row {
      EmittedFrom(r, items, row);
    }
    hide Firsts, EmittedRows, Settled, Repeatable, FateOf, RowOf;
  }

  lemma {:induction false} EmittedFrom(r: Rules, items: seq<Item>, row: Row)
    requires row in EmittedRows(r, items)
    ensures exists item :: item in items && FateOf(r, item) == Emitted && RowOf(r, item) == row
  {
    hide FateOf, RowOf;
    var front, last := items[..|items| - 1], items[|items| - 1];
    assert items == front + [last];
    if row in EmittedRows(r, front) {
      EmittedFrom(r, front, row);
      var item :| item in front && FateOf(r, item) == Emitted && RowOf(r, item) == row;
      assert item in items;
    } else {
      assert last in items;
    }
  }

  /**
   Where the event time is read from `event_time` itself, a row is settled exactly when its time was
   written canonically and stamping it empties no required field.
  */
  lemma CanonicalTimesOnly(r: Rules, fields: Row, p: Parsed)
    requires r.timestampFields == ["event_time"] && (forall row :: r.redact(row) == row) && Prints(r)
    requires !Empty(Get(fields, "event_time")) && r.parse(Get(fields, "event_time")) == Some(p)
    requires p.instant <= r.received + FUTURE_TOLERANCE && p.iso != "" && r.parse(Text(p.iso)) == Some(p)
    requires FateOf(r, Record(fields)) == Emitted
    ensures Settled(r, RowOf(r, Record(fields))) <==>
      Shown(r, Get(fields, "event_time")) == Some(p.iso) && !LacksRequired(r, RowOf(r, Record(fields)))
  {
    var row := Stamped(r, fields);
    OnlyEventTime(r, fields, p);
    WrittenTime(r, fields);
    OnlyEventTime(r, row, p);
    WrittenFields(r, fields);
    WrittenFields(r, row);
    if Shown(r, Get(fields, "event_time")) == Some(p.iso) {
      SameShownSameStamp(r, Get(fields, "event_time"), Text(p.iso), p);
      RestampedWhenSame(r, fields);
    }
    hide Normalize, FirstField, Stamped, StampOf, LacksRequired, Get, Shown;
  }

  lemma WrittenTime(r: Rules, row: Row)
    ensures Get(Stamped(r, row), "event_time") ==
            if StampOf(r, row).eventTime.Some? then Text(StampOf(r, row).eventTime.value.iso) else Nothing
  {
    hide StampOf;
  }

  lemma WrittenFields(r: Rules, row: Row)
    ensures Get(Stamped(r, row), "original_timestamp") == OrNothing(StampOf(r, row).original)
    ensures Get(Stamped(r, row), "original_timezone") == OrNothing(StampOf(r, row).zone)
    ensures Get(Stamped(r, row), "clock_quality") == Text(QualityName(StampOf(r, row).quality))
    ensures Get(Stamped(r, row), "timestamp_source_field") == OrNothing(SourceField(r, row))
    ensures Get(Stamped(r, row), "received_at") == Text(r.receivedText)
  {
    hide StampOf, SourceField;
  }

  lemma SameShownSameStamp(r: Rules, v: Value, w: Value, p: Parsed)
    requires !Empty(v) && !Empty(w) && r.parse(v) == r.parse(w) == Some(p) && Shown(r, v) == Shown(r, w)
    ensures Normalize(r, v) == Normalize(r, w)
  {
  }

  lemma RestampedWhenSame(r: Rules, row: Row)
    requires StampOf(r, Stamped(r, row)) == StampOf(r, row) && SourceField(r, Stamped(r, row)) == SourceField(r, row)
    ensures Stamped(r, Stamped(r, row)) == Stamped(r, row)
  {
    hide StampOf, SourceField;
  }

  lemma OnlyEventTime(r: Rules, fields: Row, p: Parsed)
    requires r.timestampFields == ["event_time"] && Prints(r) && !Empty(Get(fields, "event_time"))
    requires r.parse(Get(fields, "event_time")) == Some(p) && p.instant <= r.received + FUTURE_TOLERANCE
    ensures SourceField(r, fields) == Some("event_time") && RawTime(r, fields) == Get(fields, "event_time")
    ensures StampOf(r, fields) == Normalize(r, Get(fields, "event_time"))
    ensures StampOf(r, fields).eventTime == Some(p) && StampOf(r, fields).original == Shown(r, Get(fields, "event_time"))
  {
    assert FirstField(fields, ["event_time"]) == Some("event_time");
    hide Get, Shown, Empty;
  }

  /******* Failing inputs *******/

  /** Noon, as a source may write it and as it is written back. */
  const NOON := "2024-01-01T12:00:00+00:00"
  const CANONICAL_NOON := "2024-01-01T12:00:00Z"

  function ReadNoon(v: Value): Option<Parsed> {
    if v == Text(NOON) || v == Text(CANONICAL_NOON) then Some(Parsed(Some("UTC"), 0, CANONICAL_NOON)) else None
  }

  /** Rules with redaction switched off and every row its own identity; only noon is read. */
  function Example(timestampFields: seq<string>, requiredFields: seq<string>): Rules {
    Rules(timestampFields, requiredFields, false, "error", 0, CANONICAL_NOON,
          (row: Row) => row, ReadNoon, (v: Value) => "?", (row: Row) => "")
  }

  lemma OneRow(r: Rules, fields: Row)
    requires FateOf(r, Record(fields)) == Emitted
    ensures Usable(r, [Record(fields)]) == [RowOf(r, Record(fields))]
  {
    var items, row := [Record(fields)], RowOf(r, Record(fields));
    assert items[..0] == [];
    assert EmittedRows(r, []) == [];
    assert EmittedRows(r, items) == [] + [row] == [row];
    assert [row][..0] == [] && Firsts(r, []) == [];
    assert !Seen(r, [], row);
  }

  /** A time in `event_time` that was not written canonically changes when its row is assessed again. */
  lemma RewrittenTimeIsUnstable()
    ensures
      var r, items := Example(["event_time"], []), [Record(map["event_time" := Text(NOON)])];
      |Usable(r, items)| == 1 && Usable(r, Again(Usable(r, items))) != Usable(r, items)
  {
    var r, fields := Example(["event_time"], []), map["event_time" := Text(NOON)];
    var p := Parsed(Some("UTC"), 0, CANONICAL_NOON);
    assert r.parse(Text(NOON)) == Some(p) && r.parse(Text(CANONICAL_NOON)) == Some(p);
    OnlyEventTime(r, fields, p);
    OneRow(r, fields);
    CanonicalTimesOnly(r, fields, p);
    ReassessedExactlyWhenSettled(r, [Record(fields)]);
    assert RowOf(r, Record(fields)) in Usable(r, [Record(fields)]);
  }

  /** A required field that the assessment itself empties makes the row lack it the second time. */
  lemma EmptiedFieldIsUnstable()
    ensures
      var r, items := Example(["timestamp"], ["event_time"]), [Record(map["event_time" := Text(NOON)])];
      |Usable(r, items)| == 1 && Usable(r, Again(Usable(r, items))) == []
  {
    var r, fields := Example(["timestamp"], ["event_time"]), map["event_time" := Text(NOON)];
    var row := Stamped(r, fields);
    assert "timestamp" !in fields && FirstField(fields, r.timestampFields[1..]) == None;
    assert SourceField(r, fields) == None;
    assert StampOf(r, fields).eventTime == None;
    assert r.requiredFields == ["event_time"] && !LacksRequired(r, fields);
    OneRow(r, fields);
    WrittenTime(r, fields);
    assert "event_time" in r.requiredFields && LacksRequired(r, row);
    assert Again([row]) == [Record(row)];
    assert [Record(row)][..0] == [];
    assert EmittedRows(r, [Record(row)]) == [];
  }
}
