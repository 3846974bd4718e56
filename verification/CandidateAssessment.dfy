/**
 `score_candidates` from end to end: candidates of four kinds are merged, ranked and finalized, and
 the assessment says whether the evidence is enough.  The last section feeds that assessment to the
 investigation loop.
*/
module CandidateAssessment {
  import opened Basics
  import opened Options
  import opened Ordering
  import opened CandidateContract
  import opened CandidateScoring
  import opened SignalCandidates
  import Loop = InvestigationLoop

  /******* Candidates from detections, dependencies and traffic *******/

  /**
   A log group.  Instants are microseconds; `namesDependency` says that its error type or signature
   names an upstream dependency; `deployLine` describes its first related deploy.
  */
  datatype Group = Group(
    eventId: Text, level: Option<string>, errorType: string, firstSeen: Option<int>, deployLine: Option<string>,
    pods: int, podLine: string, namesDependency: bool, countLine: string)

  datatype Detection = Detection(eventId: Text, level: Option<string>, title: string, category: string, line: string)

  datatype Traffic = Traffic(ratio: real, ratioLine: string, peakLine: string)

  datatype State = State(
    groups: seq<Group>, detections: seq<Detection>, observations: seq<Observation>, anchor: Option<int>,
    traffic: Option<Traffic>, errorRate: Option<real>, sourceFailures: seq<string>)

  const NO_GROUP := Group(Null, None, "", None, None, 0, "", false, "")
  const ANCHOR_WINDOW := 15 * 60 * 1_000_000

  function FirstGroup(groups: seq<Group>, eventId: Text): Group {
    if groups == [] then NO_GROUP
    else if groups[0].eventId == eventId then groups[0] else FirstGroup(groups[1..], eventId)
  }

  function LevelPoints(level: Option<string>): int {
    match level
    case Some("critical") => 35
    case Some("high") => 30
    case Some("medium") => 18
    case Some("low") => 8
    case _ => 10
  }

  predicate ErrorLevel(g: Group) {
    g.level == Some("error") || g.level == Some("fatal")
  }

  predicate BeforeAnchor(g: Group, anchor: Option<int>) {
    g.firstSeen.Some? && anchor.Some? && 0 <= anchor.value - g.firstSeen.value <= ANCHOR_WINDOW
  }

  function Shown(text: Text): string {
    match text
    case Str(value) => value
    case Null => "None"
    case Other(_) => "other"
  }

  function Or(first: string, second: string): string {
    if first != "" then first else second
  }

  /** `_candidate_for_detection` */
  function DetectionCandidate(d: Detection, groups: seq<Group>, anchor: Option<int>): Candidate {
    var g := FirstGroup(groups, d.eventId);
    var score := LevelPoints(d.level) + (if ErrorLevel(g) then 12 else 0) + (if BeforeAnchor(g, anchor) then 14 else 0)
                 + (if g.deployLine.Some? then 16 else 0) + (if g.pods >= 2 then 5 else 0);
    Candidate(
      "candidate-" + Shown(d.eventId), Or(d.title, Or(g.errorType, "Detected failure")), Or(d.category, "detected_failure"),
      "Inspect the representative trace and affected dependency before remediation.", [d.eventId], score, 0,
      [Str("detection rule matched")] + When(ErrorLevel(g), Str("error-level template"))
      + When(BeforeAnchor(g, anchor), Str("template precedes anchor"))
      + When(g.deployLine.Some?, Str("same-service deploy precedes template")),
      [Str(d.line)] + (if g.deployLine.Some? then [Str(g.deployLine.value)] else []) + When(g.pods >= 2, Str(g.podLine)),
      [], None, NO_IMPACT)
  }

  function UpstreamCandidate(g: Group): Candidate {
    Candidate(
      "candidate-dependency-" + Shown(g.eventId), "Upstream dependency degradation", "dependency_failure",
      "Query the named dependency or inspect a shared trace across scoped services.", [g.eventId], 42, 0,
      [Str("timeout template names an upstream dependency")], [Str(g.countLine)],
      [Str("No dependency-specific error metric or shared trace has confirmed the edge.")], None, NO_IMPACT)
  }

  /** `_dependency_candidate`: the first group that names a dependency. */
  function DependencyCandidate(groups: seq<Group>): Option<Candidate> {
    if groups == [] then None
    else if groups[0].namesDependency then Some(UpstreamCandidate(groups[0]))
    else DependencyCandidate(groups[1..])
  }

  /** `_traffic_candidate`; `int()` of a positive number is its floor. */
  function TrafficCandidate(traffic: Option<Traffic>): Option<Candidate> {
    if traffic.None? || traffic.value.ratio < 1.5 then None
    else
      Some(Candidate(
        "candidate-traffic-change", "Traffic increase may amplify the failure", "traffic_change",
        "Compare traffic with a same-hour historical recording rule.", [], Min(55, 15 + (traffic.value.ratio * 10.0).Floor), 0,
        [Str(traffic.value.ratioLine)], [Str(traffic.value.peakLine)], [Str("No historical baseline was collected.")],
        None, NO_IMPACT))
  }

  function OptionSeq<T>(item: Option<T>): seq<T> {
    if item.Some? then [item.value] else []
  }

  function DetectionCandidates(state: State): (cs: seq<Candidate>)
    ensures |cs| == |state.detections|
  {
    seq(|state.detections|, i requires 0 <= i < |state.detections| =>
      DetectionCandidate(state.detections[i], state.groups, state.anchor))
  }

  /** All candidates in the order they are collected. */
  function Candidates(state: State): seq<Candidate> {
    DetectionCandidates(state) + FromSignals(state.observations)
    + OptionSeq(DependencyCandidate(state.groups)) + OptionSeq(TrafficCandidate(state.traffic))
  }

  /** What the source's producers promise: identifiers and lists hold strings. */
  predicate StringTyped(state: State) {
    && (forall d :: d in state.detections ==> d.eventId.Str?)
    && (forall g :: g in state.groups ==> g.eventId.Str?)
    && (forall o :: o in state.observations ==> AllStrings(o))
  }

  /**
   A detection earns 82 points exactly when it is critical and every circumstance speaks for it, 8
   exactly when it is low and none does, and it is sound exactly when its event id is a string.
  */
  lemma DetectionSound(d: Detection, groups: seq<Group>, anchor: Option<int>)
    ensures 8 <= DetectionCandidate(d, groups, anchor).score <= 82
    ensures
      var g, score := FirstGroup(groups, d.eventId), DetectionCandidate(d, groups, anchor).score;
      && (score == 82 <==> d.level == Some("critical") && ErrorLevel(g) && BeforeAnchor(g, anchor) && g.deployLine.Some? && g.pods >= 2)
      && (score == 8 <==> d.level == Some("low") && !ErrorLevel(g) && !BeforeAnchor(g, anchor) && g.deployLine.None? && g.pods < 2)
    ensures Sound(DetectionCandidate(d, groups, anchor)) <==> d.eventId.Str?
  {
    hide FirstGroup, BeforeAnchor, ErrorLevel;
  }

  /** What a detection's severity is worth, and each circumstance on top of it. */
  lemma DetectionPoints(d: Detection, groups: seq<Group>, anchor: Option<int>)
    ensures
      var g, score := FirstGroup(groups, d.eventId), DetectionCandidate(d, groups, anchor).score;
      var early := g.firstSeen.Some? && anchor.Some? && anchor.value - 900_000_000 <= g.firstSeen.value <= anchor.value;
      var rest := score - (if g.level in {Some("error"), Some("fatal")} then 12 else 0) - (if early then 14 else 0)
                  - (if g.deployLine.Some? then 16 else 0) - (if g.pods >= 2 then 5 else 0);
      && (d.level == Some("critical") <==> rest == 35) && (d.level == Some("high") <==> rest == 30)
      && (d.level == Some("medium") <==> rest == 18) && (d.level == Some("low") <==> rest == 8)
      && rest in {35, 30, 18, 8, 10}
  {
    hide FirstGroup;
  }

  lemma UpstreamSound(g: Group)
    ensures Sound(UpstreamCandidate(g)) <==> g.eventId.Str?
  {
  }

  lemma {:induction false} DependencySound(groups: seq<Group>)
    requires forall g :: g in groups ==> g.eventId.Str?
    ensures DependencyCandidate(groups).Some? ==> Sound(DependencyCandidate(groups).value)
  {
    if groups != [] {
      hide Sound, UpstreamCandidate;
      assert groups[0] in groups;
      UpstreamSound(groups[0]);
      DependencySound(groups[1..]);
    }
  }

  lemma TrafficSound(traffic: Option<Traffic>)
    ensures TrafficCandidate(traffic).Some? ==>
      30 <= TrafficCandidate(traffic).value.score <= 55 && Sound(TrafficCandidate(traffic).value)
  {
  }

  lemma CandidatesSound(state: State)
    requires StringTyped(state)
    ensures forall c :: c in Candidates(state) ==> Sound(c)
  {
    hide Sound, DetectionCandidate, FromSignals, DependencyCandidate, TrafficCandidate, AllStrings;
    SignalsSound(state.observations);
    DependencySound(state.groups);
    TrafficSound(state.traffic);
    forall i | 0 <= i < |state.detections| ensures Sound(DetectionCandidates(state)[i]) {
      assert state.detections[i] in state.detections;
      DetectionSound(state.detections[i], state.groups, state.anchor);
    }
  }

  /******* The assessment *******/

  datatype Abstain = NoCandidate | SignalsWithoutImpact | SourceFailed | Tied | Competing

  datatype Outlook = NeedsTargetedEvidence | NeedsDiscriminatingEvidence | Sufficient

  datatype Assessment = Assessment(
    candidates: seq<Final>, topGap: Option<int>, abstain: bool, abstainReasons: seq<Abstain>,
    contradictions: seq<Text>, expansionRecommended: bool, outlook: Outlook)

  const CONFLICT := Str("error-level log evidence conflicts with error_rate=0 from Prometheus")

  /** `_contradictions` */
  function Contradictions(state: State): seq<Text> {
    When((exists g :: g in state.groups && ErrorLevel(g)) && state.errorRate.Some? && state.errorRate.value <= 0.0, CONFLICT)
  }

  function Join(items: seq<string>): string {
    if items == [] then "" else if |items| == 1 then items[0] else items[0] + ", " + Join(items[1..])
  }

  function Notes(state: State): seq<Text> {
    When(state.sourceFailures != [], Str("Missing source data: " + Join(state.sourceFailures))) + Contradictions(state)
  }

  function Ranked(state: State): seq<Candidate> {
    Rank(Candidates(state), state.sourceFailures != [], Notes(state))
  }

  function TopGap(ranked: seq<Candidate>): Option<int> {
    if |ranked| > 1 then Some(ranked[0].score - ranked[1].score) else None
  }

  /** Direct observations that point at different categories, eligible or not. */
  ghost predicate CompetingObservations(os: seq<Observation>) {
    exists a, b :: a in os && b in os && Rival(a, b)
  }

  predicate Rival(a: Observation, b: Observation) {
    var s, t := SpecFor(a.family, a.status), SpecFor(b.family, b.status);
    s.Some? && t.Some? && s.value.category != t.value.category
  }

  /** What "enough evidence" means: a cause, every source, a clear leader and one observed category. */
  ghost predicate Enough(state: State) {
    && Candidates(state) != [] && state.sourceFailures == [] && !CompetingObservations(state.observations)
    && (|Ranked(state)| >= 2 ==> Ranked(state)[0].score - Ranked(state)[1].score >= 15)
  }

  /** `{spec["category"] for observation in observations ...}` */
  method ObservedCategories(os: seq<Observation>) returns (categories: set<string>)
    ensures |categories| > 1 <==> CompetingObservations(os)
  {
    categories := {};
    for i := 0 to |os|
      invariant ListsObserved(categories, os[..i])
    {
      assert os[..i + 1] == os[..i] + [os[i]];
      var spec := SpecFor(os[i].family, os[i].status);
      ListsOneMore(categories, os[..i], os[i]);
      if spec.Some? {
        categories := categories + {spec.value.category};
      }
    }
    assert os[..|os|] == os;
    CompetingMeansTwo(os, categories);
  }

  predicate Observes(o: Observation, category: string) {
    SpecFor(o.family, o.status).Some? && SpecFor(o.family, o.status).value.category == category
  }

  ghost predicate ListsObserved(categories: set<string>, os: seq<Observation>) {
    forall category :: category in categories <==> exists o :: o in os && Observes(o, category)
  }

  lemma ListsOneMore(categories: set<string>, os: seq<Observation>, o: Observation)
    requires ListsObserved(categories, os)
    ensures
      var spec := SpecFor(o.family, o.status);
      ListsObserved(if spec.Some? then categories + {spec.value.category} else categories, os + [o])
  {
    var spec := SpecFor(o.family, o.status);
    hide SpecFor;
    var more := if spec.Some? then categories + {spec.value.category} else categories;
    forall category ensures category in more <==> exists x :: x in os + [o] && Observes(x, category) {
      if category in more {
        if category in categories {
          var x :| x in os && Observes(x, category);
          assert x in os + [o];
        } else {
          assert o in os + [o] && Observes(o, category);
        }
      }
    }
  }

  lemma TwoMembers<T>(s: set<T>, a: T, b: T)
    requires a in s && b in s && a != b
    ensures |s| > 1
  {
    assert {a, b} <= s;
    assert |s| == |s - {a, b}| + |{a, b}|;
  }

  lemma TwoFrom<T>(s: set<T>) returns (a: T, b: T)
    requires |s| > 1
    ensures a in s && b in s && a != b
  {
    a :| a in s;
    assert |s - {a}| == |s| - 1;
    b :| b in s - {a};
  }

  lemma CompetingMeansTwo(os: seq<Observation>, categories: set<string>)
    requires ListsObserved(categories, os)
    ensures |categories| > 1 <==> CompetingObservations(os)
  {
    hide SpecFor;
    if |categories| > 1 {
      var a, b := TwoFrom(categories);
      var x :| x in os && Observes(x, a);
      var y :| y in os && Observes(y, b);
      assert Rival(x, y);
    }
    if CompetingObservations(os) {
      var x, y :| x in os && y in os && Rival(x, y);
      var a, b := SpecFor(x.family, x.status).value.category, SpecFor(y.family, y.status).value.category;
      assert Observes(x, a) && Observes(y, b);
      TwoMembers(categories, a, b);
    }
  }

  method CollectCandidates(state: State) returns (candidates: seq<Candidate>)
    ensures candidates == Candidates(state)
  {
    candidates := DetectionCandidates(state);
    var signals := CollectSignals(state.observations);
    candidates := candidates + signals;
    var dependency, traffic := DependencyCandidate(state.groups), TrafficCandidate(state.traffic);
    if dependency.Some? { candidates := candidates + [dependency.value]; }
    if traffic.Some? { candidates := candidates + [traffic.value]; }
    hide DetectionCandidates, FromSignals, DependencyCandidate, TrafficCandidate;
  }

  /** The capping loop. */
  method CapAll(sorted: seq<Candidate>, sourceFailed: bool, notes: seq<Text>) returns (ranked: seq<Candidate>)
    ensures |ranked| == |sorted| && forall i :: 0 <= i < |sorted| ==> ranked[i] == Capped(sorted[i], sourceFailed, notes)
  {
    ranked := sorted;
    for i := 0 to |sorted|
      invariant |ranked| == |sorted|
      invariant forall j :: 0 <= j < i ==> ranked[j] == Capped(sorted[j], sourceFailed, notes)
      invariant forall j :: i <= j < |sorted| ==> ranked[j] == sorted[j]
    {
      ranked := ranked[i := Capped(ranked[i], sourceFailed, notes)];
    }
  }

  function OutlookOf(state: State, gap: Option<int>, nobody: bool, competing: bool): Outlook {
    if state.sourceFailures != [] || (gap.Some? && gap.value < 15) || competing then NeedsTargetedEvidence
    else if nobody then NeedsDiscriminatingEvidence else Sufficient
  }

  method AbstainReasons(state: State, nobody: bool, gap: Option<int>, competing: bool) returns (reasons: seq<Abstain>)
    ensures NoCandidate in reasons <==> nobody
    ensures SignalsWithoutImpact in reasons <==>
      nobody && state.observations != [] && forall o :: o in state.observations ==> !o.eligible
    ensures SourceFailed in reasons <==> state.sourceFailures != []
    ensures Tied in reasons <==> gap.Some? && gap.value < 15
    ensures Competing in reasons <==> competing
  {
    reasons := [];
    if nobody { reasons := reasons + [NoCandidate]; }
    if nobody && state.observations != [] && !(exists o :: o in state.observations && o.eligible) {
      reasons := reasons + [SignalsWithoutImpact];
    }
    if state.sourceFailures != [] { reasons := reasons + [SourceFailed]; }
    if gap.Some? && gap.value < 15 { reasons := reasons + [Tied]; }
    if competing { reasons := reasons + [Competing]; }
  }

  /** An assessment of the given ranking. */
  ghost predicate Assesses(a: Assessment, state: State, ranked: seq<Candidate>) {
    Judges(a, state, ranked) && Lists(a.candidates, ranked) && a.contradictions == Contradictions(state)
  }

  /** The best three, finalized. */
  ghost predicate Lists(finalized: seq<Final>, ranked: seq<Candidate>) {
    && |finalized| == Min(3, |ranked|)
    && (forall i :: 0 <= i < |finalized| ==>
          finalized[i].candidate == ranked[i] && finalized[i].rank == i + 1 && Valid(finalized[i]) && Completed(finalized[i]))
  }

  /** What finalizing adds to a candidate. */
  ghost predicate Completed(f: Final) {
    && f.cause == f.candidate.title && f.nextVerification == f.candidate.verification
    && f.supportingEvidence == f.symptoms == f.candidate.evidence
    && f.contradictingEvidence == f.gaps == f.candidate.weaknesses
    && (f.tag == High <==> f.candidate.score >= 70) && (f.tag == Low <==> f.candidate.score < 40)
  }

  ghost predicate Judges(a: Assessment, state: State, ranked: seq<Candidate>) {
    && (a.expansionRecommended <==> !Enough(state))
    && (a.abstain <==> a.expansionRecommended) && (a.abstain <==> a.abstainReasons != [])
    && a.topGap == (if |ranked| >= 2 then Some(ranked[0].score - ranked[1].score) else None)
    && (a.outlook == Sufficient <==> !a.expansionRecommended)
    && (a.outlook == NeedsTargetedEvidence <==>
          SourceFailed in a.abstainReasons || Tied in a.abstainReasons || Competing in a.abstainReasons)
    && (NoCandidate in a.abstainReasons <==> ranked == [])
    && (SignalsWithoutImpact in a.abstainReasons <==>
          ranked == [] && state.observations != [] && forall o :: o in state.observations ==> !o.eligible)
    && (SourceFailed in a.abstainReasons <==> state.sourceFailures != [])
    && (Tied in a.abstainReasons <==> |ranked| >= 2 && ranked[0].score - ranked[1].score < 15)
    && (Competing in a.abstainReasons <==> CompetingObservations(state.observations))
  }

  /**
   `score_candidates`, `None` for a raised `ValueError`.  It abstains exactly when it recommends more
   evidence, which is exactly when the evidence is not enough.
  */
  method ScoreCandidates(state: State) returns (assessment: Option<Assessment>)
    ensures assessment.Some? <==> forall c :: c in Ranked(state) ==> Acceptable(c)
    ensures assessment.Some? ==> Assesses(assessment.value, state, Ranked(state))
  {
    var candidates := CollectCandidates(state);
    var failed := state.sourceFailures != [];
    var merged := MergeSameEvent(candidates);
    var sorted := StableSort(merged, ScoreDescending);
    var ranked := CapAll(sorted, failed, Notes(state));
    RankedIs(state, ranked);
    hide *;
    var finalized := FinalizeCandidates(ranked);
    if finalized.None? { return None; }
    var categories := ObservedCategories(state.observations);
    var a := Assess(state, ranked, finalized.value, |categories| > 1);
    return Some(a);
  }

  lemma RankedIs(state: State, ranked: seq<Candidate>)
    requires |ranked| == |StableSort(Merge(Candidates(state)), ScoreDescending)|
    requires forall i :: 0 <= i < |ranked| ==>
      ranked[i] == Capped(StableSort(Merge(Candidates(state)), ScoreDescending)[i], state.sourceFailures != [], Notes(state))
    ensures ranked == Ranked(state)
  {
  }

  /** Someone is ranked exactly when someone was collected. */
  lemma RankedEmpty(state: State)
    ensures Ranked(state) == [] <==> Candidates(state) == []
  {
    var cs := Candidates(state);
    RankedDescend(cs, state.sourceFailures != [], Notes(state));
    DedupeFacts(Keys(cs));
    hide Candidates, Rank, Notes, EventKey;
    if cs != [] { assert Keys(cs)[0] in Dedupe(Keys(cs)); }
  }

  function Recommended(state: State, nobody: bool, gap: Option<int>, competing: bool): bool {
    state.sourceFailures != [] || nobody || (gap.Some? && gap.value < 15) || competing
  }

  lemma RecommendedUnlessEnough(state: State)
    ensures
      var ranked := Ranked(state);
      Recommended(state, ranked == [], TopGap(ranked), CompetingObservations(state.observations)) <==> !Enough(state)
  {
    RankedEmpty(state);
    hide Ranked, Candidates, CompetingObservations;
  }

  lemma NoReasons(reasons: seq<Abstain>)
    ensures reasons == [] <==>
      && NoCandidate !in reasons && SignalsWithoutImpact !in reasons && SourceFailed !in reasons
      && Tied !in reasons && Competing !in reasons
  {
    if reasons != [] {
      var reason := reasons[0];
      assert reason in reasons;
      match reason { case NoCandidate => case SignalsWithoutImpact => case SourceFailed => case Tied => case Competing => }
    }
  }

  method Judge(state: State, ranked: seq<Candidate>, gap: Option<int>, competing: bool, best: seq<Final>) returns (a: Assessment)
    requires ranked == Ranked(state) && competing == CompetingObservations(state.observations) && gap == TopGap(ranked)
    ensures Judges(a, state, ranked) && a.candidates == best && a.contradictions == Contradictions(state)
  {
    RecommendedUnlessEnough(state);
    hide Ranked, Enough, CompetingObservations, Contradictions;
    var reasons := AbstainReasons(state, |ranked| == 0, gap, competing);
    NoReasons(reasons);
    var recommended := Recommended(state, |ranked| == 0, gap, competing);
    a := Assessment(best, gap, reasons != [], reasons, Contradictions(state), recommended,
                    OutlookOf(state, gap, |ranked| == 0, competing));
    assert a.abstain <==> a.expansionRecommended;
  }

  method Assess(state: State, ranked: seq<Candidate>, finalized: seq<Final>, competing: bool) returns (a: Assessment)
    requires ranked == Ranked(state) && competing == CompetingObservations(state.observations)
    requires |finalized| == |ranked|
    requires forall i :: 0 <= i < |ranked| ==>
      finalized[i].candidate == ranked[i] && finalized[i].rank == i + 1 && Valid(finalized[i]) && Completed(finalized[i])
    ensures Assesses(a, state, ranked)
  {
    hide Ranked, Valid, Completed, CompetingObservations, Contradictions, Judges;
    var gap: Option<int> := None;
    if |finalized| > 1 {
      gap := Some(finalized[0].candidate.score - finalized[1].candidate.score);
    }
    a := Judge(state, ranked, gap, competing, if |finalized| > 3 then finalized[..3] else finalized);
  }

  /** String-typed evidence is never refused, and the gap at the top is never negative. */
  lemma StringTypedIsAssessed(state: State)
    requires StringTyped(state)
    ensures forall c :: c in Ranked(state) ==> Acceptable(c)
    ensures TopGap(Ranked(state)).Some? ==> TopGap(Ranked(state)).value >= 0
  {
    CandidatesSound(state);
    RankAcceptable(Candidates(state), state.sourceFailures != [], Notes(state));
    RankedDescend(Candidates(state), state.sourceFailures != [], Notes(state));
    hide Candidates, Rank, Acceptable;
  }

  lemma ScoresInRange(state: State)
    ensures forall c :: c in Candidates(state) ==> 8 <= c.score <= 82
  {
    hide DetectionCandidate, FromSignals, TrafficCandidate;
    forall i | 0 <= i < |state.detections| ensures 8 <= DetectionCandidates(state)[i].score <= 82 {
      DetectionSound(state.detections[i], state.groups, state.anchor);
    }
    forall i | 0 <= i < |FromSignals(state.observations)| ensures 8 <= FromSignals(state.observations)[i].score <= 82 {
      SignalMeans(state.observations, i);
    }
    DependencyScore(state.groups);
    TrafficSound(state.traffic);
    hide DependencyCandidate, DetectionCandidates;
  }

  lemma {:induction false} DependencyScore(groups: seq<Group>)
    ensures DependencyCandidate(groups).Some? ==> DependencyCandidate(groups).value.score == 42
  {
    if groups != [] { DependencyScore(groups[1..]); }
  }

  /**
   The cap takes points away only where a source failed: otherwise every candidate is published with the
   best score of its event, and with a failed source with that score or 60, whichever is less.
  */
  lemma PublishedScores(state: State, i: nat)
    requires i < |Ranked(state)|
    ensures
      var c, merged := Ranked(state)[i], StableSort(Merge(Candidates(state)), ScoreDescending);
      && |merged| == |Ranked(state)| && c.id == merged[i].id && c.confidence == c.score && 8 <= merged[i].score <= 82
      && c.score == if state.sourceFailures == [] || merged[i].score <= 60 then merged[i].score else 60
  {
    var cs := Candidates(state);
    RankMeans(cs, state.sourceFailures != [], Notes(state), i);
    ScoresInRange(state);
    hide Rank, Merge, Candidates, Notes, StableSort;
    var m := StableSort(Merge(cs), ScoreDescending)[i];
    var j :| 0 <= j < |Merge(cs)| && Merge(cs)[j] == m;
    var c := MergedScore(cs, j);
  }

  /******* Composition with the investigation loop *******/

  /**
   A round judged on such an assessment stops with enough evidence exactly when its time and byte
   budgets have room and the evidence is enough, however many rounds are left.
  */
  lemma StopsWithEnough(state: State, a: Assessment, existing: Loop.Existing, defaults: Loop.Defaults, e: Loop.Evidence)
    requires Assesses(a, state, Ranked(state)) && e.recommended == a.expansionRecommended
    ensures
      var start, after := Loop.InitializeLoop(existing, defaults), Loop.AfterRound(existing, defaults, e);
      after.stopReason == Some(Loop.EnoughEvidence) <==>
        e.elapsed < start.maxElapsed && start.usedBytes < start.maxBytes && Enough(state)
    ensures Loop.AfterRound(existing, defaults, e).continuing ==> a.abstain && !Enough(state)
  {
    hide Ranked, Enough, Contradictions;
  }
}
