/**
 The nine lists of a candidate promoted from observations: of everything its category collected, the
 first twelve distinct values in the order of the observations.
*/
module SignalFacts {
  import opened Basics
  import opened Options
  import opened Ordering
  import opened CandidateContract
  import opened CandidateScoring
  import opened SignalCandidates

  datatype Field = EventIds | Evidence | Weaknesses | Linked | Adverse | Outcome | Recovery | Successful | Contradicting

  function ListOf(c: Candidate, field: Field): seq<Text> {
    match field
    case EventIds => c.eventIds
    case Evidence => c.evidence
    case Weaknesses => c.weaknesses
    case Linked => c.impact.linked
    case Adverse => c.impact.adverse
    case Outcome => c.impact.outcome
    case Recovery => c.impact.recovery
    case Successful => c.impact.successful
    case Contradicting => c.impact.contradicting
  }

  /** What one observation adds to a list; an event id that is empty or missing is not listed. */
  function Part(o: Observation, field: Field): seq<Text> {
    match field
    case EventIds => if Truthy(o.eventId) then [o.eventId] else []
    case Evidence => [Str(o.line)]
    case Weaknesses => o.limitations
    case Linked => o.impact.linked
    case Adverse => o.impact.adverse
    case Outcome => o.impact.outcome
    case Recovery => o.impact.recovery
    case Successful => o.impact.successful
    case Contradicting => o.impact.contradicting
  }

  function Collected(chosen: seq<Observation>, field: Field): seq<Text> {
    if chosen == [] then [] else Collected(chosen[..|chosen| - 1], field) + Part(chosen[|chosen| - 1], field)
  }

  /** While being collected, event ids are kept once each and everything else as it comes. */
  ghost predicate Holds(item: Candidate, chosen: seq<Observation>) {
    forall field :: ListOf(item, field) == if field.EventIds? then Dedupe(Collected(chosen, field)) else Collected(chosen, field)
  }

  lemma AbsorbHolds(item: Candidate, front: seq<Observation>, o: Observation)
    requires Promoted(o) && Holds(item, front)
    ensures Holds(Absorb(item, o), front + [o])
  {
    var more := front + [o];
    assert more[..|front|] == front;
    hide Points, Promoted, Truthy;
    forall field ensures ListOf(Absorb(item, o), field) == if field.EventIds? then Dedupe(Collected(more, field)) else Collected(more, field) {
      assert Collected(more, field) == Collected(front, field) + Part(o, field);
      if field.EventIds? { AddIdIsDedupe(Collected(front, field), o.eventId); }
    }
  }

  lemma AddIdIsDedupe(ids: seq<Text>, id: Text)
    ensures AddId(Dedupe(ids), id) == Dedupe(ids + if Truthy(id) then [id] else [])
  {
    if Truthy(id) {
      assert (ids + [id])[..|ids|] == ids;
    } else {
      assert ids + [] == ids;
    }
  }

  lemma StartHolds(o: Observation)
    requires Promoted(o)
    ensures Holds(Started(o), [])
  {
  }

  lemma {:induction false} ItemHolds(chosen: seq<Observation>)
    requires chosen != [] && forall o :: o in chosen ==> Promoted(o)
    ensures Holds(Item(chosen), chosen)
  {
    hide Holds, Absorb, Started, Promoted;
    var front, o := chosen[..|chosen| - 1], chosen[|chosen| - 1];
    assert chosen == front + [o] && o in chosen;
    if |chosen| == 1 {
      assert front == [];
      StartHolds(o);
      AbsorbHolds(Started(o), front, o);
    } else {
      ItemHolds(front);
      AbsorbHolds(Item(front), front, o);
    }
  }

  /** The first twelve distinct values of a list, in order; all of them when there are fewer. */
  ghost predicate FirstTwelve(listed: seq<Text>, all: seq<Text>) {
    exists at: seq<nat> ::
      && FirstOccurrences(listed, all, at) && |at| <= 12
      && (|at| < 12 ==> forall i :: 0 <= i < |all| && all[i] !in all[..i] ==> i in at)
  }

  lemma DedupedFirst(all: seq<Text>)
    ensures FirstTwelve(First(Dedupe(all)), all)
  {
    var at := DedupeMeans(all);
    var some := if |at| <= 12 then at else at[..12];
    assert FirstOccurrences(First(Dedupe(all)), all, some) by {
      forall i | 0 <= i < |all| && all[i] !in all[..i] ensures i in some || forall k :: 0 <= k < |some| ==> some[k] < i {
        var j :| 0 <= j < |at| && at[j] == i;
        if j < |some| { assert some[j] == i; }
      }
    }
  }

  lemma ClosedLists(item: Candidate, chosen: seq<Observation>, field: Field)
    requires Holds(item, chosen)
    ensures FirstTwelve(ListOf(Closed(item), field), Collected(chosen, field))
  {
    DedupedFirst(Collected(chosen, field));
    hide FirstTwelve, Collected, Dedupe;
    assert ListOf(Closed(item), field) == First(Dedupe(Collected(chosen, field)));
  }

  /** All nine lists of every promoted candidate. */
  lemma SignalLists(os: seq<Observation>, i: nat, field: Field)
    requires i < |FromSignals(os)|
    ensures
      var c := FromSignals(os)[i];
      FirstTwelve(ListOf(c, field), Collected(OfCategory(os, c.category), field))
  {
    var category := Categories(os)[i];
    SignalMeans(os, i);
    CategoriesMembers(os, category);
    ItemHolds(OfCategory(os, category));
    hide Item, FirstTwelve, Holds, Collected, Closed, ListOf, Categories;
    ClosedLists(Item(OfCategory(os, category)), OfCategory(os, category), field);
  }

  /** The observations of a category, in the order given. */
  lemma {:induction false} OfCategoryMeans(os: seq<Observation>, category: string) returns (at: seq<nat>)
    ensures |at| == |OfCategory(os, category)|
    ensures forall k :: 0 <= k < |at| ==> at[k] < |os| && PromotedTo(os[at[k]], category) && OfCategory(os, category)[k] == os[at[k]]
    ensures forall j, k :: 0 <= j < k < |at| ==> at[j] < at[k]
    ensures forall i :: 0 <= i < |os| && PromotedTo(os[i], category) ==> i in at
  {
    if os == [] {
      at := [];
    } else {
      var front, last := os[..|os| - 1], os[|os| - 1];
      var before := OfCategoryMeans(front, category);
      OfCategoryStep(front, last, category);
      assert os == front + [last];
      hide PromotedTo, OfCategory;
      at := before + if PromotedTo(last, category) then [|front|] else [];
      forall i | 0 <= i < |os| && PromotedTo(os[i], category) ensures i in at {
        if i < |front| { assert front[i] == os[i] && i in before; }
      }
    }
  }

  /** What a promoted candidate is called. */
  lemma NamesMean(os: seq<Observation>, i: nat)
    requires i < |FromSignals(os)|
    ensures
      var c := FromSignals(os)[i];
      && c.id == "candidate-signal-" + c.category && c.category in {"machine_down", "network_disconnection", "disk_full"}
      && (c.category == "machine_down" ==> c.title == "Machine or worker became unavailable")
      && (c.category == "network_disconnection" ==> c.title == "Network peer became unreachable")
      && (c.category == "disk_full" ==> c.title == "Storage capacity was exhausted")
      && c.supporting == None && |c.reasons| == 1
  {
    var category := Categories(os)[i];
    SignalMeans(os, i);
    CategoriesMembers(os, category);
    var chosen := OfCategory(os, category);
    assert chosen[0] in chosen;
    ItemIdentity(chosen);
    hide Item, Categories, OfCategory, Points, Promotes, Strongest;
    FamiliesMean(chosen[0]);
    NamesDiffer(chosen[0]);
  }

  lemma NamesDiffer(o: Observation)
    requires Promoted(o)
    ensures
      var s := SpecFor(o.family, o.status).value;
      && s.category in {"machine_down", "network_disconnection", "disk_full"}
      && (s.category == "machine_down" ==> s.title == "Machine or worker became unavailable")
      && (s.category == "network_disconnection" ==> s.title == "Network peer became unreachable")
      && (s.category == "disk_full" ==> s.title == "Storage capacity was exhausted")
  {
    assert MACHINE_DOWN[0] == 'm' && NETWORK_DISCONNECTION[0] == 'n' && DISK_FULL[0] == 'd';
  }
}
