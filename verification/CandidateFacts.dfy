/**
 What the candidates carry: which detections, groups and observations they come from, which reasons and
 evidence they list, and in which order.
*/
module CandidateFacts {
  import opened Basics
  import opened Options
  import opened Ordering
  import opened CandidateContract
  import opened CandidateScoring
  import opened SignalCandidates
  import opened CandidateAssessment

  /******* Events *******/

  /** An event id that counts: anything but nothing and the empty string. */
  ghost predicate Counts(id: Text) {
    id.Other? || (id.Str? && |id.value| > 0)
  }

  /** Candidates with an event id are merged by their event ids, others by category and candidate id. */
  lemma EventKeyMeans(c: Candidate)
    ensures (exists x :: x in c.eventIds && Counts(x)) ==> forall x :: x in EventKey(c) <==> x in c.eventIds && Counts(x)
    ensures (exists x :: x in c.eventIds && Counts(x)) ==>
      forall i, j :: 0 <= i < j < |c.eventIds| && Counts(c.eventIds[i]) && Counts(c.eventIds[j])
        ==> Precedes(EventKey(c), c.eventIds[i], c.eventIds[j])
    ensures (forall x :: x in c.eventIds ==> !Counts(x)) ==> EventKey(c) == [Str(c.category), Str(c.id)]
  {
    var ids := TruthyItems(c.eventIds);
    TruthyItemsMean(c.eventIds);
    assert ids != [] ==> ids[0] in ids;
    assert forall x :: Truthy(x) <==> Counts(x);
    forall i, j | 0 <= i < j < |c.eventIds| && Truthy(c.eventIds[i]) && Truthy(c.eventIds[j])
      ensures Precedes(ids, c.eventIds[i], c.eventIds[j])
    {
      TruthyInOrder(c.eventIds, i, j);
    }
    hide Truthy, Counts, TruthyItems, Precedes;
  }

  /******* Merged lists *******/

  /** The lists merging extends. */
  datatype Field = Evidence | Reasons | Weaknesses

  function ListOf(c: Candidate, field: Field): seq<Text> {
    match field
    case Evidence => c.evidence
    case Reasons => c.reasons
    case Weaknesses => c.weaknesses
  }

  /** One list of all candidates, one after the other. */
  function Joined(cs: seq<Candidate>, field: Field): seq<Text> {
    if cs == [] then [] else Joined(cs[..|cs| - 1], field) + ListOf(cs[|cs| - 1], field)
  }

  /** A candidate merged with others lists everything of its class once, in the order it was collected. */
  ghost predicate Lists(m: Candidate, class_: seq<Candidate>) {
    && class_ != []
    && (|class_| == 1 ==> m == class_[0])
    && m.verification == class_[0].verification && m.impact == class_[0].impact
    && (|class_| > 1 ==> m.confidence == m.score)
    && (|class_| > 1 ==> forall field :: ListOf(m, field) == Dedupe(Joined(class_, field)))
  }

  lemma CombineLists(m: Candidate, class_: seq<Candidate>, c: Candidate)
    requires Lists(m, class_)
    ensures Lists(Combine(m, c), class_ + [c])
  {
    var more, r := class_ + [c], Combine(m, c);
    assert more[..|class_|] == class_;
    forall field ensures ListOf(r, field) == Dedupe(Joined(more, field)) {
      assert Joined(more, field) == Joined(class_, field) + ListOf(c, field);
      assert ListOf(r, field) == Dedupe(ListOf(m, field) + ListOf(c, field));
      if |class_| > 1 {
        DedupeAppend(Joined(class_, field), ListOf(c, field));
      } else {
        assert class_[..0] == [];
        assert Joined(class_, field) == [] + ListOf(m, field) == ListOf(m, field);
      }
    }
    hide Dedupe, Joined;
  }

  lemma {:induction false} MergedLists(cs: seq<Candidate>, i: nat)
    requires i < |Merge(cs)|
    ensures Lists(Merge(cs)[i], Class(cs, EventKey(Merge(cs)[i])))
  {
    hide *;
    MergeUnfolds(cs);
    var front, c := cs[..|cs| - 1], cs[|cs| - 1];
    assert cs == front + [c];
    if i < |Merge(front)| { MergedLists(front, i); }
    MergedListsStep(front, c, i);
  }

  lemma MergedListsStep(front: seq<Candidate>, c: Candidate, i: nat)
    requires i < |MergeOne(Merge(front), c)|
    requires i < |Merge(front)| ==> Lists(Merge(front)[i], Class(front, EventKey(Merge(front)[i])))
    ensures Lists(MergeOne(Merge(front), c)[i], Class(front + [c], EventKey(MergeOne(Merge(front), c)[i])))
  {
    hide *;
    var before := Merge(front);
    MergedKeys(front);
    MergeOneAt(before, c, i);
    if i < |before| {
      var m := before[i];
      CombineKeepsKey(m, c);
      ClassStep(front, c, EventKey(m));
      CombineLists(m, Class(front, EventKey(m)), c);
      assert Class(front, EventKey(m)) + [] == Class(front, EventKey(m));
    } else {
      NoClass(front, EventKey(c));
      ClassStep(front, c, EventKey(c));
      assert [] + [c] == [c];
      AloneLists(c);
    }
  }

  lemma AloneLists(c: Candidate)
    ensures Lists(c, [c])
  {
  }

  /******* Detections *******/

  /** The first group of the event, if there is one. */
  lemma {:induction false} FirstGroupMeans(groups: seq<Group>, eventId: Text)
    ensures forall i :: 0 <= i < |groups| && groups[i].eventId == eventId && (forall k :: 0 <= k < i ==> groups[k].eventId != eventId)
              ==> FirstGroup(groups, eventId) == groups[i]
    ensures (forall g :: g in groups ==> g.eventId != eventId) ==>
      var g := FirstGroup(groups, eventId);
      g.level == None && g.errorType == "" && g.firstSeen == None && g.deployLine == None && g.pods == 0
  {
    if groups != [] {
      FirstGroupMeans(groups[1..], eventId);
      if groups[0].eventId == eventId {
        assert groups[0] in groups;
      } else {
        forall i | 0 <= i < |groups| && groups[i].eventId == eventId && (forall k :: 0 <= k < i ==> groups[k].eventId != eventId)
          ensures FirstGroup(groups, eventId) == groups[i]
        {
          assert groups[1..][i - 1] == groups[i];
          forall k | 0 <= k < i - 1 ensures groups[1..][k].eventId != eventId { assert groups[1..][k] == groups[k + 1]; }
        }
      }
    }
  }

  /** What a detection's candidate says: each reason and each line stands for one circumstance. */
  lemma DetectionMeans(d: Detection, groups: seq<Group>, anchor: Option<int>)
    ensures
      var g, c := FirstGroup(groups, d.eventId), DetectionCandidate(d, groups, anchor);
      && c.eventIds == [d.eventId] && c.weaknesses == [] && c.supporting == None && c.impact == NO_IMPACT
      && (d.title != "" ==> c.title == d.title) && (d.title == "" && g.errorType != "" ==> c.title == g.errorType)
      && (d.category != "" ==> c.category == d.category) && (d.category == "" ==> c.category == "detected_failure")
      && (d.eventId.Str? ==> c.id == "candidate-" + d.eventId.value)
      && 1 <= |c.evidence| <= 3 && c.evidence[0] == Str(d.line)
      && (g.deployLine.Some? ==> |c.evidence| > 1 && c.evidence[1] == Str(g.deployLine.value))
      && (g.pods >= 2 ==> c.evidence[|c.evidence| - 1] == Str(g.podLine))
      && |c.evidence| == 1 + (if g.deployLine.Some? then 1 else 0) + (if g.pods >= 2 then 1 else 0)
      && |c.reasons| == 1 + (if g.level in {Some("error"), Some("fatal")} then 1 else 0)
           + (if g.firstSeen.Some? && anchor.Some? && anchor.value - 900_000_000 <= g.firstSeen.value <= anchor.value then 1 else 0)
           + (if g.deployLine.Some? then 1 else 0)
      && c.reasons[0] == Str("detection rule matched")
      && (g.level in {Some("error"), Some("fatal")} ==> |c.reasons| > 1 && c.reasons[1] == Str("error-level template"))
      && (g.deployLine.Some? ==> c.reasons[|c.reasons| - 1] == Str("same-service deploy precedes template"))
  {
    hide FirstGroup;
  }

  /******* Dependencies and traffic *******/

  /** The first group that names a dependency gives the candidate; without one there is none. */
  lemma {:induction false} DependencyMeans(groups: seq<Group>) returns (i: nat)
    ensures i <= |groups| && forall k :: 0 <= k < i ==> !groups[k].namesDependency
    ensures i == |groups| ==> DependencyCandidate(groups) == None
    ensures i < |groups| ==> groups[i].namesDependency && DependencyCandidate(groups) == Some(UpstreamCandidate(groups[i]))
  {
    hide UpstreamCandidate;
    i := 0;
    if groups != [] && !groups[0].namesDependency {
      i := DependencyMeans(groups[1..]);
      i := i + 1;
    }
  }

  /** It is worth 42 points, and stands for the group's own event. */
  lemma UpstreamMeans(g: Group)
    ensures
      var c := UpstreamCandidate(g);
      && c.score == 42 && c.category == "dependency_failure" && c.eventIds == [g.eventId] && c.evidence == [Str(g.countLine)]
      && (g.eventId.Str? ==> c.id == "candidate-dependency-" + g.eventId.value) && |c.reasons| == |c.weaknesses| == 1
  {
  }

  /** Traffic counts from half as much again, with ten points for each multiple on top of fifteen, up to 55. */
  lemma TrafficMeans(traffic: Option<Traffic>)
    ensures TrafficCandidate(traffic).Some? <==> traffic.Some? && traffic.value.ratio >= 1.5
    ensures TrafficCandidate(traffic).Some? ==>
      var c, ratio := TrafficCandidate(traffic).value, traffic.value.ratio;
      && (c.score == 55 <==> ratio >= 4.0)
      && (c.score < 55 ==> c.score as real <= 15.0 + ratio * 10.0 < c.score as real + 1.0)
      && c.eventIds == [] && c.reasons == [Str(traffic.value.ratioLine)] && c.evidence == [Str(traffic.value.peakLine)]
  {
  }

  /******* All of them *******/

  /** Detections first, in their order, then the promoted signals, then dependency and traffic. */
  lemma CandidatesMean(state: State)
    ensures
      var cs, d, s := Candidates(state), |state.detections|, |FromSignals(state.observations)|;
      var dependency, traffic := DependencyCandidate(state.groups), TrafficCandidate(state.traffic);
      && |cs| == d + s + (if dependency.Some? then 1 else 0) + (if traffic.Some? then 1 else 0)
      && (forall i :: 0 <= i < d ==> cs[i] == DetectionCandidate(state.detections[i], state.groups, state.anchor))
      && (forall i :: 0 <= i < s ==> cs[d + i] == FromSignals(state.observations)[i])
      && (dependency.Some? ==> cs[d + s] == dependency.value)
      && (traffic.Some? ==> cs[|cs| - 1] == traffic.value)
  {
    hide DetectionCandidate, FromSignals, DependencyCandidate, TrafficCandidate;
  }

  lemma {:induction false} JoinMeans(items: seq<string>, last: string)
    ensures Join([]) == "" && Join([last]) == last
    ensures items != [] ==> Join(items + [last]) == Join(items) + ", " + last
  {
    if |items| > 1 {
      JoinMeans(items[1..], last);
      assert (items + [last])[1..] == items[1..] + [last];
      assert items[0] + ", " + (Join(items[1..]) + ", " + last) == items[0] + ", " + Join(items[1..]) + ", " + last;
    }
  }

  /** Every ranked candidate is told of missing sources and of errors no metric confirms. */
  lemma NotesMean(state: State)
    ensures
      var conflict := state.errorRate.Some? && state.errorRate.value <= 0.0
                      && exists g :: g in state.groups && g.level in {Some("error"), Some("fatal")};
      && Contradictions(state) == (if conflict then [CONFLICT] else [])
      && |Notes(state)| == (if state.sourceFailures != [] then 1 else 0) + (if conflict then 1 else 0)
      && (conflict ==> Notes(state)[|Notes(state)| - 1] == CONFLICT)
      && (state.sourceFailures != [] ==> Notes(state)[0] == Str("Missing source data: " + Join(state.sourceFailures)))
  {
    assert (exists g :: g in state.groups && ErrorLevel(g)) <==> exists g :: g in state.groups && g.level in {Some("error"), Some("fatal")};
    hide ErrorLevel;
  }
}
