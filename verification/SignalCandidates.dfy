/**
 Candidates promoted from impact-linked observations: one per failure category, with the best score
 any of its observations earns and bounded, duplicate-free lists.
*/
module SignalCandidates {
  import opened Basics
  import opened Options
  import opened Ordering
  import opened CandidateContract
  import opened CandidateScoring

  /** A direct observation; `line` is its formatted evidence string. */
  datatype Observation = Observation(
    eligible: bool, family: string, status: string, eventId: Text, recovered: bool,
    impact: Impact, line: string, limitations: seq<Text>)

  datatype Spec = Spec(title: string, category: string, verification: string)

  const MACHINE_DOWN := "machine_down"
  const NETWORK_DISCONNECTION := "network_disconnection"
  const DISK_FULL := "disk_full"
  const LIST_BOUND: nat := 12

  /** `_DIRECT_SIGNAL_CANDIDATES`; the verification texts are shortened. */
  function SpecFor(family: string, status: string): Option<Spec> {
    if family == "machine_availability" && status == "unavailable"
    then Some(Spec("Machine or worker became unavailable", MACHINE_DOWN, "Confirm node loss."))
    else if family == "network_transport" && status == "unreachable"
    then Some(Spec("Network peer became unreachable", NETWORK_DISCONNECTION, "Confirm the peer-unreachable events."))
    else if family == "network_transport" && status == "disconnected"
    then Some(Spec("Network peer became unreachable", NETWORK_DISCONNECTION, "Confirm the disconnect events."))
    else if family == "storage_capacity" && status == "exhausted"
    then Some(Spec("Storage capacity was exhausted", DISK_FULL, "Confirm filesystem capacity."))
    else None
  }

  /** The candidate category an observation is promoted to, if any. */
  predicate Promoted(o: Observation) {
    o.eligible && SpecFor(o.family, o.status).Some?
  }

  predicate PromotedTo(o: Observation, category: string) {
    Promoted(o) && SpecFor(o.family, o.status).value.category == category
  }

  function Points(o: Observation): int
    requires Promoted(o)
  {
    var base := if o.impact.adverse != [] then 78
                else if SpecFor(o.family, o.status).value.category == DISK_FULL then 68 else 60;
    if o.recovered then Min(base, 60) else base
  }

  /******* What is collected for one category *******/

  /** The observations promoted to a category, in order. */
  function OfCategory(os: seq<Observation>, category: string): (chosen: seq<Observation>)
    ensures forall o :: o in chosen <==> o in os && PromotedTo(o, category)
  {
    if os == [] then []
    else
      var rest := OfCategory(os[..|os| - 1], category);
      assert os == os[..|os| - 1] + [os[|os| - 1]];
      if PromotedTo(os[|os| - 1], category) then rest + [os[|os| - 1]] else rest
  }

  function PromotedCategories(os: seq<Observation>): seq<string> {
    if os == [] then []
    else
      PromotedCategories(os[..|os| - 1]) +
      (if Promoted(os[|os| - 1]) then [SpecFor(os[|os| - 1].family, os[|os| - 1].status).value.category] else [])
  }

  /** The keys of `collected`, in insertion order. */
  function Categories(os: seq<Observation>): seq<string> {
    Dedupe(PromotedCategories(os))
  }

  function AddId(ids: seq<Text>, id: Text): seq<Text> {
    if Truthy(id) && id !in ids then ids + [id] else ids
  }

  function Started(o: Observation): Candidate
    requires Promoted(o)
  {
    var spec := SpecFor(o.family, o.status).value;
    Candidate("candidate-signal-" + spec.category, spec.title, spec.category, spec.verification, [], Points(o), 0,
              [Str("direct versioned signal plus explicit impact context")], [], [], None, NO_IMPACT)
  }

  /** One loop body: the dictionary entry after one more observation. */
  function Absorb(item: Candidate, o: Observation): Candidate
    requires Promoted(o)
  {
    var i, n := item.impact, o.impact;
    item.(
      score := Max(item.score, Points(o)), eventIds := AddId(item.eventIds, o.eventId),
      evidence := item.evidence + [Str(o.line)], weaknesses := item.weaknesses + o.limitations,
      impact := Impact(i.linked + n.linked, i.adverse + n.adverse, i.outcome + n.outcome,
                       i.recovery + n.recovery, i.successful + n.successful, i.contradicting + n.contradicting))
  }

  function Item(chosen: seq<Observation>): Candidate
    requires chosen != [] && forall o :: o in chosen ==> Promoted(o)
  {
    if |chosen| == 1 then Absorb(Started(chosen[0]), chosen[0])
    else Absorb(Item(chosen[..|chosen| - 1]), chosen[|chosen| - 1])
  }

  function First<T>(items: seq<T>): (head: seq<T>)
    ensures |head| == Min(|items|, LIST_BOUND) && head <= items
  {
    if |items| <= LIST_BOUND then items else items[..LIST_BOUND]
  }

  function Closed(item: Candidate): Candidate {
    var i := item.impact;
    item.(
      eventIds := First(item.eventIds), evidence := First(Dedupe(item.evidence)), weaknesses := First(Dedupe(item.weaknesses)),
      impact := Impact(First(Dedupe(i.linked)), First(Dedupe(i.adverse)), First(Dedupe(i.outcome)),
                       First(Dedupe(i.recovery)), First(Dedupe(i.successful)), First(Dedupe(i.contradicting))))
  }

  lemma {:induction false} PromotedCategoriesMembers(os: seq<Observation>, category: string)
    ensures category in PromotedCategories(os) <==> exists o :: o in os && PromotedTo(o, category)
  {
    if os != [] {
      var front, o := os[..|os| - 1], os[|os| - 1];
      PromotedCategoriesMembers(front, category);
      assert os == front + [o] && o in os;
    }
  }

  lemma CategoriesMembers(os: seq<Observation>, category: string)
    ensures category in Categories(os) <==> OfCategory(os, category) != []
  {
    PromotedCategoriesMembers(os, category);
    DedupeFacts(PromotedCategories(os));
    if o :| o in os && PromotedTo(o, category) { assert o in OfCategory(os, category); }
    if OfCategory(os, category) != [] { assert OfCategory(os, category)[0] in OfCategory(os, category); }
  }

  function FromSignals(os: seq<Observation>): (cs: seq<Candidate>)
    ensures |cs| == |Categories(os)|
  {
    seq(|Categories(os)|, i requires 0 <= i < |Categories(os)| => CandidateOf(os, Categories(os)[i]))
  }

  function CandidateOf(os: seq<Observation>, category: string): Candidate
    requires category in Categories(os)
  {
    CategoriesMembers(os, category);
    Closed(Item(OfCategory(os, category)))
  }

  /******* The dictionary loop *******/

  /** The entry of a category holds what its observations collect. */
  ghost predicate Entry(os: seq<Observation>, category: string, item: Candidate) {
    OfCategory(os, category) != [] && item == Item(OfCategory(os, category))
  }

  ghost predicate Collects(order: seq<string>, collected: map<string, Candidate>, os: seq<Observation>) {
    && order == Categories(os)
    && (forall category :: category in collected <==> category in order)
    && (forall category :: category in collected ==> Entry(os, category, collected[category]))
  }

  lemma OfCategoryStep(os: seq<Observation>, o: Observation, category: string)
    ensures OfCategory(os + [o], category) == OfCategory(os, category) + if PromotedTo(o, category) then [o] else []
  {
    assert (os + [o])[..|os|] == os;
  }

  lemma CategoriesStep(os: seq<Observation>, o: Observation)
    ensures !Promoted(o) ==> Categories(os + [o]) == Categories(os)
    ensures Promoted(o) ==>
      var category := SpecFor(o.family, o.status).value.category;
      Categories(os + [o]) == if category in Categories(os) then Categories(os) else Categories(os) + [category]
  {
    assert (os + [o])[..|os|] == os;
    if Promoted(o) {
      var category := SpecFor(o.family, o.status).value.category;
      assert PromotedCategories(os + [o]) == PromotedCategories(os) + [category];
      assert (PromotedCategories(os) + [category])[..|PromotedCategories(os)|] == PromotedCategories(os);
    } else {
      assert PromotedCategories(os + [o]) == PromotedCategories(os);
    }
  }

  lemma ItemStep(chosen: seq<Observation>, o: Observation)
    requires Promoted(o) && forall x :: x in chosen ==> Promoted(x)
    ensures Item(chosen + [o]) == if chosen == [] then Absorb(Started(o), o) else Absorb(Item(chosen), o)
  {
    assert (chosen + [o])[..|chosen|] == chosen;
  }

  lemma EntryKept(os: seq<Observation>, o: Observation, category: string, item: Candidate)
    requires Entry(os, category, item) && !PromotedTo(o, category)
    ensures Entry(os + [o], category, item)
  {
    OfCategoryStep(os, o, category);
    assert OfCategory(os + [o], category) == OfCategory(os, category);
  }

  lemma EntryGrows(os: seq<Observation>, o: Observation, category: string, item: Candidate)
    requires PromotedTo(o, category)
    requires if category in Categories(os) then Entry(os, category, item) else item == Started(o)
    ensures Entry(os + [o], category, Absorb(item, o))
  {
    OfCategoryStep(os, o, category);
    CategoriesMembers(os, category);
    ItemStep(OfCategory(os, category), o);
  }

  lemma CollectsSkip(order: seq<string>, collected: map<string, Candidate>, os: seq<Observation>, o: Observation)
    requires Collects(order, collected, os) && !Promoted(o)
    ensures Collects(order, collected, os + [o])
  {
    CategoriesStep(os, o);
    forall category | category in collected ensures Entry(os + [o], category, collected[category]) {
      EntryKept(os, o, category, collected[category]);
    }
    hide Entry;
  }

  lemma CollectsStep(order: seq<string>, collected: map<string, Candidate>, os: seq<Observation>, o: Observation, category: string)
    requires Collects(order, collected, os) && PromotedTo(o, category)
    ensures category !in collected ==> Collects(order + [category], collected[category := Absorb(Started(o), o)], os + [o])
    ensures category in collected ==> Collects(order, collected[category := Absorb(collected[category], o)], os + [o])
  {
    hide Entry, Absorb, Started, Categories;
    CategoriesStep(os, o);
    EntryGrows(os, o, category, if category in collected then collected[category] else Started(o));
    forall other | other in collected && other != category ensures Entry(os + [o], other, collected[other]) {
      EntryKept(os, o, other, collected[other]);
    }
  }

  lemma CollectsNothing()
    ensures Collects([], map[], [])
  {
  }

  /** `_signal_candidates`: one pass over the observations, then one over the collected entries. */
  method CollectSignals(os: seq<Observation>) returns (candidates: seq<Candidate>)
    ensures candidates == FromSignals(os)
  {
    var order: seq<string> := [];
    var collected: map<string, Candidate> := map[];
    CollectsNothing();
    hide Collects, Absorb, Started, Categories, OfCategory, Item, FromSignals;
    for i := 0 to |os|
      invariant Collects(order, collected, os[..i])
    {
      var o := os[i];
      assert os[..i + 1] == os[..i] + [o];
      if !Promoted(o) {
        CollectsSkip(order, collected, os[..i], o);
      } else {
        var category := SpecFor(o.family, o.status).value.category;
        ghost var before := collected;
        CollectsStep(order, collected, os[..i], o, category);
        if category !in collected {
          order := order + [category];
          collected := collected[category := Started(o)];
        }
        collected := collected[category := Absorb(collected[category], o)];
        assert collected == before[category := Absorb(if category in before then before[category] else Started(o), o)];
      }
    }
    assert os[..|os|] == os;
    candidates := CloseAll(order, collected, os);
  }

  lemma ClosedEntry(os: seq<Observation>, category: string, item: Candidate)
    requires category in Categories(os) && Entry(os, category, item)
    ensures Closed(item) == CandidateOf(os, category)
  {
  }

  method CloseAll(order: seq<string>, collected: map<string, Candidate>, ghost os: seq<Observation>)
    returns (candidates: seq<Candidate>)
    requires Collects(order, collected, os)
    ensures candidates == FromSignals(os)
  {
    hide Entry, Closed, CandidateOf, Categories;
    candidates := [];
    for i := 0 to |order|
      invariant |candidates| == i
      invariant forall j :: 0 <= j < i ==> candidates[j] == CandidateOf(os, order[j])
    {
      assert order[i] in order;
      ClosedEntry(os, order[i], collected[order[i]]);
      candidates := candidates + [Closed(collected[order[i]])];
    }
  }

  /******* What the candidates are *******/

  /** The adverse, unrecovered observations: the only ones that earn the highest score. */
  predicate Strongest(o: Observation) {
    o.impact.adverse != [] && !o.recovered
  }

  predicate AllStrings(o: Observation) {
    o.eventId.Str? && ImpactText(o.impact) && AllText(o.limitations)
  }

  /** An item still being collected, against the observations it was collected from. */
  ghost predicate Gathers(item: Candidate, chosen: seq<Observation>) {
    && ScoredBy(item.score, chosen)
    && (forall id :: id in item.eventIds <==> Truthy(id) && exists o :: o in chosen && o.eventId == id)
    && Distinct(item.eventIds)
    && (forall e :: e in item.evidence <==> exists o :: o in chosen && e == Str(o.line))
    && (forall w :: w in item.weaknesses <==> exists o :: o in chosen && w in o.limitations)
    && (forall x :: x in item.impact.adverse <==> exists o :: o in chosen && x in o.impact.adverse)
  }

  /** The best points any of the observations earns. */
  ghost predicate ScoredBy(score: int, chosen: seq<Observation>) {
    && (forall o :: o in chosen ==> Promoted(o) && Points(o) <= score)
    && (exists o :: o in chosen && Promoted(o) && Points(o) == score)
  }

  lemma StartGathers(o: Observation)
    requires Promoted(o)
    ensures Gathers(Absorb(Started(o), o), [o])
  {
    assert o in [o];
    hide Points, Promoted;
  }

  lemma AbsorbScore(item: Candidate, chosen: seq<Observation>, o: Observation)
    requires ScoredBy(item.score, chosen) && Promoted(o)
    ensures ScoredBy(Max(item.score, Points(o)), chosen + [o])
  {
    hide Points, Promoted;
    var x :| x in chosen && Promoted(x) && Points(x) == item.score;
    assert x in chosen + [o] && o in chosen + [o];
  }

  lemma AbsorbGathers(item: Candidate, chosen: seq<Observation>, o: Observation)
    requires Gathers(item, chosen) && Promoted(o)
    ensures Gathers(Absorb(item, o), chosen + [o])
  {
    AbsorbScore(item, chosen, o);
    hide Points, Promoted, Truthy, ScoredBy;
    assert o in chosen + [o];
    forall x | x in chosen ensures x in chosen + [o] {}
  }

  lemma {:induction false} ItemGathers(chosen: seq<Observation>)
    requires chosen != [] && forall o :: o in chosen ==> Promoted(o)
    ensures Gathers(Item(chosen), chosen)
  {
    hide Gathers, Absorb, Started, Points, Promoted, ScoredBy;
    if |chosen| == 1 {
      StartGathers(chosen[0]);
      assert chosen == [chosen[0]];
    } else {
      var front, o := chosen[..|chosen| - 1], chosen[|chosen| - 1];
      ItemGathers(front);
      AbsorbGathers(Item(front), front, o);
      assert chosen == front + [o];
    }
  }

  /** An entry is named after the first observation of its category. */
  lemma {:induction false} ItemIdentity(chosen: seq<Observation>)
    requires chosen != [] && Promoted(chosen[0]) && forall o :: o in chosen ==> Promoted(o)
    ensures
      var item, spec := Item(chosen), SpecFor(chosen[0].family, chosen[0].status).value;
      && item.category == spec.category && item.title == spec.title && item.verification == spec.verification
      && item.id == "candidate-signal-" + spec.category && item.supporting == None && item.confidence == 0
      && item.reasons == Started(chosen[0]).reasons
  {
    if |chosen| > 1 { ItemIdentity(chosen[..|chosen| - 1]); }
  }

  lemma PointsRange(o: Observation)
    requires Promoted(o)
    ensures 60 <= Points(o) <= 78 && (Points(o) == 78 <==> Strongest(o))
    ensures Points(o) == 68 <==> o.impact.adverse == [] && !o.recovered && PromotedTo(o, DISK_FULL)
    ensures Points(o) in {60, 68, 78}
  {
  }

  /** Which observations become candidates, by family and status. */
  lemma FamiliesMean(o: Observation)
    ensures PromotedTo(o, "machine_down") <==> o.eligible && o.family == "machine_availability" && o.status == "unavailable"
    ensures PromotedTo(o, "network_disconnection") <==>
      o.eligible && o.family == "network_transport" && (o.status == "unreachable" || o.status == "disconnected")
    ensures PromotedTo(o, "disk_full") <==> o.eligible && o.family == "storage_capacity" && o.status == "exhausted"
    ensures Promoted(o) <==> PromotedTo(o, "machine_down") || PromotedTo(o, "network_disconnection") || PromotedTo(o, "disk_full")
  {
    assert MACHINE_DOWN[0] == 'm' && NETWORK_DISCONNECTION[0] == 'n' && DISK_FULL[0] == 'd';
  }

  /** The score of a category tells whether any of its observations is adverse and unrecovered. */
  lemma ScoreMeans(score: int, chosen: seq<Observation>)
    requires ScoredBy(score, chosen)
    ensures 60 <= score <= 78 && (score == 78 <==> exists o :: o in chosen && Strongest(o))
  {
    forall o | o in chosen ensures 60 <= Points(o) <= 78 && (Points(o) == 78 <==> Strongest(o)) { PointsRange(o); }
    hide Points, Promoted, Strongest;
  }

  /** A closed list holds at most twelve of the collected values, and all of them while there is room. */
  ghost predicate Bounded(kept: seq<Text>, collected: seq<Text>) {
    && |kept| <= LIST_BOUND && Distinct(kept) && (forall x :: x in kept ==> x in collected)
    && (|kept| < LIST_BOUND ==> forall x :: x in collected ==> x in kept)
  }

  lemma DedupedBounded(collected: seq<Text>)
    ensures Bounded(First(Dedupe(collected)), collected)
  {
    DedupeFacts(collected);
  }

  lemma DistinctBounded(collected: seq<Text>)
    requires Distinct(collected)
    ensures Bounded(First(collected), collected)
  {
  }

  lemma ClosedBounds(item: Candidate)
    requires Distinct(item.eventIds)
    ensures
      var c := Closed(item);
      && Bounded(c.eventIds, item.eventIds) && Bounded(c.evidence, item.evidence) && Bounded(c.weaknesses, item.weaknesses)
      && Bounded(c.impact.linked, item.impact.linked) && Bounded(c.impact.adverse, item.impact.adverse)
      && Bounded(c.impact.outcome, item.impact.outcome) && Bounded(c.impact.recovery, item.impact.recovery)
      && Bounded(c.impact.successful, item.impact.successful) && Bounded(c.impact.contradicting, item.impact.contradicting)
      && c.score == item.score && c.category == item.category
  {
    DistinctBounded(item.eventIds);
    DedupedBounded(item.evidence);
    DedupedBounded(item.weaknesses);
    DedupedBounded(item.impact.linked);
    DedupedBounded(item.impact.adverse);
    DedupedBounded(item.impact.outcome);
    DedupedBounded(item.impact.recovery);
    DedupedBounded(item.impact.successful);
    DedupedBounded(item.impact.contradicting);
    hide Bounded, Distinct;
  }

  /** One candidate against the observations of its category. */
  ghost predicate Promotes(c: Candidate, chosen: seq<Observation>) {
    && ScoredBy(c.score, chosen)
    && |c.eventIds| <= LIST_BOUND && Distinct(c.eventIds)
    && (forall id :: id in c.eventIds ==> Truthy(id) && exists o :: o in chosen && o.eventId == id)
    && (|c.eventIds| < LIST_BOUND ==> forall o :: o in chosen && Truthy(o.eventId) ==> o.eventId in c.eventIds)
    && |c.evidence| <= LIST_BOUND && Distinct(c.evidence)
    && (forall e :: e in c.evidence ==> exists o :: o in chosen && e == Str(o.line))
    && (|c.evidence| < LIST_BOUND ==> forall o :: o in chosen ==> Str(o.line) in c.evidence)
    && |c.impact.adverse| <= LIST_BOUND
    && (c.impact.adverse != [] <==> exists o :: o in chosen && o.impact.adverse != [])
  }

  lemma ClosedPromotes(item: Candidate, chosen: seq<Observation>)
    requires Gathers(item, chosen)
    ensures Promotes(Closed(item), chosen)
  {
    ClosedBounds(item);
    hide Closed, ScoredBy, Truthy, Distinct;
    var c := Closed(item);
    if c.impact.adverse != [] { assert c.impact.adverse[0] in item.impact.adverse; }
    if o :| o in chosen && o.impact.adverse != [] { assert o.impact.adverse[0] in item.impact.adverse; }
  }

  /** Every candidate carries the best score and the bounded evidence of its own category. */
  lemma SignalMeans(os: seq<Observation>, i: nat)
    requires i < |FromSignals(os)|
    ensures
      var c := FromSignals(os)[i];
      var chosen := OfCategory(os, c.category);
      && c.category == Categories(os)[i] && chosen != [] && Promotes(c, chosen)
      && 60 <= c.score <= 78 && (c.score == 78 <==> exists o :: o in chosen && Strongest(o))
      && c.title == SpecFor(chosen[0].family, chosen[0].status).value.title
      && c.verification == SpecFor(chosen[0].family, chosen[0].status).value.verification
  {
    var category := Categories(os)[i];
    CategoriesMembers(os, category);
    var chosen := OfCategory(os, category);
    assert chosen[0] in chosen;
    ItemGathers(chosen);
    ItemIdentity(chosen);
    ClosedPromotes(Item(chosen), chosen);
    hide Promotes, Gathers, ScoredBy, Item, Categories, OfCategory, Points;
    ScoreMeans(Closed(Item(chosen)).score, chosen);
  }

  predicate HasCategory(cs: seq<Candidate>, category: string) {
    exists c :: c in cs && c.category == category
  }

  /** Categories never repeat, and each promoted observation's category has its candidate. */
  lemma OnePerCategory(os: seq<Observation>)
    ensures
      var cs := FromSignals(os);
      && (forall i, j :: 0 <= i < j < |cs| ==> cs[i].category != cs[j].category)
      && (forall category :: HasCategory(cs, category) <==> exists o :: o in os && PromotedTo(o, category))
  {
    var cs := FromSignals(os);
    DedupeFacts(PromotedCategories(os));
    forall i | 0 <= i < |cs| ensures cs[i].category == Categories(os)[i] && cs[i] in cs { SignalMeans(os, i); }
    hide FromSignals, Categories;
    forall category ensures HasCategory(cs, category) <==> exists o :: o in os && PromotedTo(o, category) {
      PromotedCategoriesMembers(os, category);
      CategoryListed(os, category);
    }
  }

  lemma CategoryListed(os: seq<Observation>, category: string)
    ensures HasCategory(FromSignals(os), category) <==> category in PromotedCategories(os)
  {
    var cs := FromSignals(os);
    DedupeFacts(PromotedCategories(os));
    forall i | 0 <= i < |cs| ensures cs[i].category == Categories(os)[i] && cs[i] in cs { SignalMeans(os, i); }
    hide FromSignals;
    if category in Categories(os) { var i :| 0 <= i < |cs| && Categories(os)[i] == category; assert cs[i] in cs; }
  }

  /******* Soundness *******/

  predicate ItemText(item: Candidate) {
    AllText(item.eventIds) && AllText(item.evidence) && AllText(item.weaknesses) && ImpactText(item.impact)
  }

  lemma AbsorbText(item: Candidate, o: Observation)
    requires ItemText(item) && Promoted(o) && AllStrings(o)
    ensures ItemText(Absorb(item, o))
  {
    hide Points, Promoted, Truthy;
  }

  lemma {:induction false} ItemStrings(chosen: seq<Observation>)
    requires chosen != [] && forall o :: o in chosen ==> Promoted(o) && AllStrings(o)
    ensures ItemText(Item(chosen))
  {
    var last := chosen[|chosen| - 1];
    assert last in chosen;
    if |chosen| > 1 { ItemStrings(chosen[..|chosen| - 1]); }
    AbsorbText(if |chosen| == 1 then Started(last) else Item(chosen[..|chosen| - 1]), last);
  }

  lemma KeptText(kept: seq<Text>, collected: seq<Text>)
    requires Bounded(kept, collected) && AllText(collected)
    ensures AllText(kept)
  {
  }

  lemma ClosedText(item: Candidate)
    requires ItemText(item) && Distinct(item.eventIds)
    ensures ItemText(Closed(item))
  {
    ClosedBounds(item);
    var c := Closed(item);
    hide Closed, Bounded, AllText, Distinct;
    KeptText(c.eventIds, item.eventIds);
    KeptText(c.evidence, item.evidence);
    KeptText(c.weaknesses, item.weaknesses);
    KeptText(c.impact.linked, item.impact.linked);
    KeptText(c.impact.adverse, item.impact.adverse);
    KeptText(c.impact.outcome, item.impact.outcome);
    KeptText(c.impact.recovery, item.impact.recovery);
    KeptText(c.impact.successful, item.impact.successful);
    KeptText(c.impact.contradicting, item.impact.contradicting);
  }

  /** Observations made of strings give candidates the contract accepts. */
  lemma SignalsSound(os: seq<Observation>)
    requires forall o :: o in os ==> AllStrings(o)
    ensures forall c :: c in FromSignals(os) ==> Sound(c)
  {
    forall i | 0 <= i < |FromSignals(os)| ensures Sound(FromSignals(os)[i]) {
      var category := Categories(os)[i];
      CategoriesMembers(os, category);
      var chosen := OfCategory(os, category);
      OneSound(chosen);
    }
  }

  lemma OneSound(chosen: seq<Observation>)
    requires chosen != [] && forall o :: o in chosen ==> Promoted(o) && AllStrings(o)
    ensures Sound(Closed(Item(chosen)))
  {
    assert chosen[0] in chosen;
    hide Item, Points, ScoredBy, AllStrings, Strongest, Sound, Closed, ItemText, Named;
    ItemGathers(chosen);
    ItemNamed(chosen);
    ItemStrings(chosen);
    ScoreMeans(Item(chosen).score, chosen);
    ClosedText(Item(chosen));
    ClosedSound(Item(chosen));
  }

  /** Everything of a candidate the contract looks at, apart from the collected lists. */
  predicate Named(c: Candidate) {
    c.id != "" && c.title != "" && c.category != "" && c.verification != "" && AllText(c.reasons)
  }

  lemma ItemNamed(chosen: seq<Observation>)
    requires chosen != [] && Promoted(chosen[0]) && forall o :: o in chosen ==> Promoted(o)
    ensures Named(Item(chosen))
  {
    ItemIdentity(chosen);
    hide Item, Points;
  }

  lemma ClosedSound(item: Candidate)
    requires Named(item) && ItemText(Closed(item)) && 60 <= item.score <= 78
    ensures Sound(Closed(item))
  {
    hide First, Dedupe;
  }
}
