/**
 Deterministic candidates and the contract `finalize_candidates` holds them to.
*/
module CandidateContract {
  import opened Options

  /** An item of a list that should hold strings. */
  datatype Text = Str(value: string) | Null | Other(tag: int)

  predicate Truthy(text: Text) {
    match text
    case Str(value) => value != ""
    case Null => false
    case Other(_) => true
  }

  predicate AllText(items: seq<Text>) {
    forall x :: x in items ==> x.Str?
  }

  /** The six lists of event ids an impact assessment may attach. */
  datatype Impact = Impact(
    linked: seq<Text>, adverse: seq<Text>, outcome: seq<Text>, recovery: seq<Text>, successful: seq<Text>, contradicting: seq<Text>)

  const NO_IMPACT := Impact([], [], [], [], [], [])

  predicate ImpactText(i: Impact) {
    && AllText(i.linked) && AllText(i.adverse) && AllText(i.outcome)
    && AllText(i.recovery) && AllText(i.successful) && AllText(i.contradicting)
  }

  datatype Candidate = Candidate(
    id: string, title: string, category: string, verification: string,
    eventIds: seq<Text>, score: int, confidence: int,
    reasons: seq<Text>, evidence: seq<Text>, weaknesses: seq<Text>,
    supporting: Option<seq<string>>, impact: Impact)

  datatype ConfidenceTag = Low | Medium | High

  /** What finalizing adds; the constant fields of the contract are not repeated here. */
  datatype Final = Final(
    candidate: Candidate, rank: int, cause: string, nextVerification: string, tag: ConfidenceTag,
    supportingEvidence: seq<Text>, contradictingEvidence: seq<Text>, gaps: seq<Text>, symptoms: seq<Text>)

  function TagOf(score: int): ConfidenceTag {
    if score >= 70 then High else if score >= 40 then Medium else Low
  }

  function Finalized(raw: Candidate, rank: int): Final {
    Final(raw, rank, raw.title, raw.verification, TagOf(raw.score), raw.evidence, raw.weaknesses, raw.weaknesses, raw.evidence)
  }

  /** `validate_candidate`: false where the source raises `ValueError`. */
  predicate Valid(f: Final) {
    var c := f.candidate;
    && c.id != "" && c.title != "" && f.cause != "" && c.category != "" && c.verification != "" && f.nextVerification != ""
    && AllText(c.eventIds) && ImpactText(c.impact)
    && AllText(c.reasons) && AllText(c.evidence) && AllText(f.supportingEvidence) && AllText(c.weaknesses)
    && AllText(f.contradictingEvidence) && AllText(f.gaps) && AllText(f.symptoms)
    && 0 <= c.score <= 100 && 0 <= c.confidence <= 100 && f.rank >= 1
  }

  /** What a candidate must bring along to be accepted, whatever its rank. */
  predicate Acceptable(c: Candidate) {
    && c.id != "" && c.title != "" && c.category != "" && c.verification != ""
    && AllText(c.eventIds) && ImpactText(c.impact)
    && AllText(c.reasons) && AllText(c.evidence) && AllText(c.weaknesses)
    && 0 <= c.score <= 100 && 0 <= c.confidence <= 100
  }

  /**
   `finalize_candidates`, `None` for a raised `ValueError`: all candidates are accepted or none, and
   accepted candidates are ranked 1, 2, 3, ... in the order given.
  */
  method FinalizeCandidates(candidates: seq<Candidate>) returns (finalized: Option<seq<Final>>)
    ensures finalized.Some? <==> forall c :: c in candidates ==> Acceptable(c)
    ensures finalized.Some? ==>
      && |finalized.value| == |candidates|
      && forall i :: 0 <= i < |candidates| ==>
           finalized.value[i].candidate == candidates[i] && finalized.value[i].rank == i + 1 && Valid(finalized.value[i])
           && (finalized.value[i].tag == High <==> candidates[i].score >= 70)
           && (finalized.value[i].tag == Low <==> candidates[i].score < 40)
           && finalized.value[i].cause == candidates[i].title && finalized.value[i].nextVerification == candidates[i].verification
           && finalized.value[i].supportingEvidence == finalized.value[i].symptoms == candidates[i].evidence
           && finalized.value[i].contradictingEvidence == finalized.value[i].gaps == candidates[i].weaknesses
  {
    var done: seq<Final> := [];
    for i := 0 to |candidates|
      invariant |done| == i
      invariant forall j :: 0 <= j < i ==> done[j] == Finalized(candidates[j], j + 1) && Valid(done[j]) && Acceptable(candidates[j])
    {
      var candidate := Finalized(candidates[i], i + 1);
      AcceptableIsValid(candidates[i], i + 1);
      if !Valid(candidate) {
        assert candidates[i] in candidates;
        return None;
      }
      done := done + [candidate];
    }
    return Some(done);
  }

  /** The contract accepts exactly the acceptable candidates: rank and derived fields never spoil one. */
  lemma AcceptableIsValid(c: Candidate, rank: int)
    requires rank >= 1
    ensures Valid(Finalized(c, rank)) <==> Acceptable(c)
  {
  }
}
