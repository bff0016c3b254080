/** The capability evaluator and the findings of a policy against it. */
module Capability {
  import opened Prelude
  import opened OrderedAttrs

  datatype Code = CanonHistory | ProducerContinuity | ScribeRecovery | StorageFailureDomains

  datatype Kind = Satisfied | Unsatisfied | RequiresLivePreflight

  // A Canon and a Verse by their UTF-8 names; both empty for the whole deployment.
  datatype Scope = Scope(canon: Bytes, verse: Bytes)

  const DEPLOYMENT := Scope([], [])

  datatype Satisfaction = Satisfaction(kind: Kind, code: Option<Code>, scope: Scope)

  datatype Candidate = Candidate(scope: Scope, servingCapable: bool, isFresh: bool)

  datatype VerseInputs = VerseInputs(scope: Scope, candidates: seq<Candidate>, declaredForStatic: bool)

  datatype Inputs = Inputs(storageTargets: nat, committedCapable: bool, spoolConfigured: bool, verses: seq<VerseInputs>)

  datatype VerseRecovery = VerseRecovery(scope: Scope, satisfaction: Satisfaction, heartbeating: nat, eligible: nat)

  datatype Report = Report(canonHistory: Satisfaction, producerContinuity: Satisfaction, recovery: seq<VerseRecovery>,
          failureDomains: Satisfaction)

  datatype Guarantee =
    | CanonHistoryCommitted
    | ProducerContinuitySpooled
    | ScribeRecoveryAutomatic
    | MinStorageFailureDomains(min: nat)

  // A finding; `floor` is the storage floor it names, if it is about one.
  datatype Finding = Finding(code: Code, kind: Kind, scope: Scope, floor: Option<nat>) {
    function Key(): Key { FindingKey(code, scope) }
  }

  datatype Key = FindingKey(code: Code, scope: Scope)

  // Evaluation. --------------------------------------------------------------------------------

  predicate Eligible(c: Candidate, target: Scope) {
    c.scope == target && c.servingCapable && c.isFresh
  }

  function CountEligible(cs: seq<Candidate>, target: Scope): nat {
    if cs == [] then 0 else CountEligible(cs[..|cs| - 1], target) + (if Eligible(cs[|cs| - 1], target) then 1 else 0)
  }

  function CountFresh(cs: seq<Candidate>, target: Scope): nat {
    if cs == [] then 0 else
      CountFresh(cs[..|cs| - 1], target) + (if cs[|cs| - 1].scope == target && cs[|cs| - 1].isFresh then 1 else 0)
  }

  function ClampU32(n: nat): nat {
    if n < U32_LIMIT then n else U32_LIMIT - 1
  }

  function EvaluateVerse(v: VerseInputs): VerseRecovery {
    var eligible, heartbeating := ClampU32(CountEligible(v.candidates, v.scope)),
        ClampU32(CountFresh(v.candidates, v.scope));
    var satisfaction :=
      if eligible > 0 then Satisfaction(Satisfied, None, v.scope)
      else if !v.declaredForStatic && v.candidates == []
          then Satisfaction(RequiresLivePreflight, Some(ScribeRecovery), v.scope)
      else Satisfaction(Unsatisfied, Some(ScribeRecovery), v.scope);
    VerseRecovery(v.scope, satisfaction, heartbeating, eligible)
  }

  function EvaluateVerses(vs: seq<VerseInputs>): (rs: seq<VerseRecovery>)
    ensures |rs| == |vs| && forall i :: 0 <= i < |vs| ==> rs[i] == EvaluateVerse(vs[i])
  {
    if vs == [] then [] else EvaluateVerses(vs[..|vs| - 1]) + [EvaluateVerse(vs[|vs| - 1])]
  }

  function Evaluate(inputs: Inputs): Report {
    Report(
      if inputs.committedCapable then Satisfaction(Satisfied, None, DEPLOYMENT)
          else Satisfaction(Unsatisfied, Some(CanonHistory), DEPLOYMENT),
      if inputs.spoolConfigured then Satisfaction(Satisfied, None, DEPLOYMENT)
          else Satisfaction(Unsatisfied, Some(ProducerContinuity), DEPLOYMENT),
      EvaluateVerses(inputs.verses),
      Satisfaction(Satisfied, None, DEPLOYMENT))
  }

  // The candidate names that very Verse, can serve it, and is fresh.
  predicate CanRecover(c: Candidate, target: Scope) {
    c.scope.canon == target.canon && c.scope.verse == target.verse && c.servingCapable && c.isFresh
  }

  predicate HasEligible(v: VerseInputs) {
    exists i :: 0 <= i < |v.candidates| && CanRecover(v.candidates[i], v.scope)
  }

  lemma {:induction false} CountEligibleIs(cs: seq<Candidate>, target: Scope)
    ensures CountEligible(cs, target) > 0 <==> exists i :: 0 <= i < |cs| && Eligible(cs[i], target)
  {
    if cs != [] {
      var n := |cs| - 1;
      CountEligibleIs(cs[..n], target);
      if i :| 0 <= i < n && Eligible(cs[..n][i], target) { assert Eligible(cs[i], target); }
      if i :| 0 <= i < n && Eligible(cs[i], target) { assert Eligible(cs[..n][i], target); }
    }
  }

  /** A Verse's recovery is satisfied exactly when some candidate names that very Verse,
      can serve it and is fresh; without any, it needs a live look exactly when nothing
      at all was declared or observed. */
  lemma {:induction false} RecoveryExactly(v: VerseInputs)
    ensures EvaluateVerse(v).satisfaction.kind == Satisfied <==> HasEligible(v)
    ensures EvaluateVerse(v).satisfaction.kind == RequiresLivePreflight <==> !v.declaredForStatic && v.candidates == []
    ensures EvaluateVerse(v).satisfaction.kind != Satisfied ==>
      EvaluateVerse(v).satisfaction.code == Some(ScribeRecovery)
    ensures EvaluateVerse(v).satisfaction.scope == v.scope
  {
    CountEligibleIs(v.candidates, v.scope);
  }

  // Findings, as pushed. --------------------------------------------------------------------------

  function FromSatisfaction(s: Satisfaction): Finding {
    Finding(if s.code.Some? then s.code.value else ScribeRecovery, s.kind, s.scope, None)
  }

  function PushedVerses(rs: seq<VerseRecovery>): seq<Finding> {
    if rs == [] then [] else
      var last := rs[|rs| - 1].satisfaction;
      PushedVerses(rs[..|rs| - 1]) + (if last.kind != Satisfied then [FromSatisfaction(last)] else [])
  }

  function PushedFor(report: Report, inputs: Inputs, g: Guarantee): seq<Finding> {
    match g
    case CanonHistoryCommitted =>
      if report.canonHistory.kind != Satisfied then [FromSatisfaction(report.canonHistory)] else []
    case ProducerContinuitySpooled =>
      if report.producerContinuity.kind != Satisfied then [FromSatisfaction(report.producerContinuity)] else []
    case ScribeRecoveryAutomatic => PushedVerses(report.recovery)
    case MinStorageFailureDomains(min) =>
      if inputs.storageTargets < min then [Finding(StorageFailureDomains, Unsatisfied, DEPLOYMENT, Some(min))] else []
  }

  function Pushed(report: Report, inputs: Inputs, gs: seq<Guarantee>): seq<Finding> {
    if gs == [] then [] else Pushed(report, inputs, gs[..|gs| - 1]) + PushedFor(report, inputs, gs[|gs| - 1])
  }

  // Sorting and dropping repeats. -------------------------------------------------------------------

  function Rank(c: Code): nat {
    match c case CanonHistory => 0 case ProducerContinuity => 1 case ScribeRecovery => 2 case StorageFailureDomains => 3
  }

  predicate KeyLess(a: Key, b: Key) {
    || Rank(a.code) < Rank(b.code)
    || (a.code == b.code && (Less(a.scope.canon, b.scope.canon) ||
         (a.scope.canon == b.scope.canon && Less(a.scope.verse, b.scope.verse))))
  }

  lemma {:induction false} KeyLessTotal(a: Key, b: Key)
    ensures KeyLess(a, b) || a == b || KeyLess(b, a)
    ensures !(KeyLess(a, b) && KeyLess(b, a)) && !KeyLess(a, a)
  {
    LessTotal(a.scope.canon, b.scope.canon);
    LessTotal(a.scope.verse, b.scope.verse);
    LessTotal(a.scope.canon, a.scope.canon);
    LessTotal(a.scope.verse, a.scope.verse);
    hide Less;
    assert Rank(a.code) == Rank(b.code) ==> a.code == b.code;
  }

  lemma {:induction false} KeyLessTransitive(a: Key, b: Key, c: Key)
    requires KeyLess(a, b) && KeyLess(b, c)
    ensures KeyLess(a, c)
  {
    if a.code == b.code == c.code {
      if Less(a.scope.canon, b.scope.canon) && Less(b.scope.canon, c.scope.canon) {
        LessTransitive(a.scope.canon, b.scope.canon, c.scope.canon);
      } else if a.scope.canon == b.scope.canon == c.scope.canon {
        LessTransitive(a.scope.verse, b.scope.verse, c.scope.verse);
      }
    }
  }

  // A stable sort: a new finding goes after those with its key.
  function Placed(l: seq<Finding>, f: Finding): seq<Finding> {
    if l == [] then [f] else if KeyLess(f.Key(), l[0].Key()) then [f] + l else [l[0]] + Placed(l[1..], f)
  }

  function Sorted(l: seq<Finding>): seq<Finding> {
    if l == [] then [] else Placed(Sorted(l[..|l| - 1]), l[|l| - 1])
  }

  // Of neighbours with one key, the first stays.
  function Deduped(l: seq<Finding>): (d: seq<Finding>)
    ensures d == [] <==> l == []
    ensures l != [] ==> d[|d| - 1].Key() == l[|l| - 1].Key()
  {
    if |l| <= 1 then l else
      var front := Deduped(l[..|l| - 1]);
      if l[|l| - 1].Key() == front[|front| - 1].Key() then front else front + [l[|l| - 1]]
  }

  function Findings(inputs: Inputs, gs: seq<Guarantee>): seq<Finding> {
    Deduped(Sorted(Pushed(Evaluate(inputs), inputs, gs)))
  }

  /** Collects, for every required guarantee, a finding for each scope that lacks it. */
  method CollectRequirementFindings(report: Report, inputs: Inputs, gs: seq<Guarantee>) returns (findings: seq<Finding>)
    ensures findings == Deduped(Sorted(Pushed(report, inputs, gs)))
  {
    findings := [];
    for i := 0 to |gs|
      invariant findings == Pushed(report, inputs, gs[..i])
    {
      assert gs[..i + 1][..i] == gs[..i];
      ghost var before := findings;
      match gs[i] {
        case CanonHistoryCommitted =>
          if report.canonHistory.kind != Satisfied { findings := findings + [FromSatisfaction(report.canonHistory)]; }
        case ProducerContinuitySpooled =>
          if report.producerContinuity.kind != Satisfied {
            findings := findings + [FromSatisfaction(report.producerContinuity)];
          }
        case ScribeRecoveryAutomatic =>
          for j := 0 to |report.recovery|
            invariant findings == before + PushedVerses(report.recovery[..j])
          {
            assert report.recovery[..j + 1][..j] == report.recovery[..j];
            if report.recovery[j].satisfaction.kind != Satisfied {
              findings := findings + [FromSatisfaction(report.recovery[j].satisfaction)];
            }
          }
          assert report.recovery[..|report.recovery|] == report.recovery;
        case MinStorageFailureDomains(min) =>
          if inputs.storageTargets < min {
            findings := findings + [Finding(StorageFailureDomains, Unsatisfied, DEPLOYMENT, Some(min))];
          }
      }
      assert findings == before + PushedFor(report, inputs, gs[i]);
    }
    assert gs[..|gs|] == gs;
    findings := Deduped(Sorted(findings));
  }
}
