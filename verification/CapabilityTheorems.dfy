/** Findings are exact: strictly ordered keys, one for each unmet guarantee and scope. */
module CapabilityTheorems {
  import opened Prelude
  import opened Capability
  import opened OrderedAttrs

  // The first finding of a list with a key. -------------------------------------------------------

  function FirstWith(l: seq<Finding>, k: Key): Option<Finding> {
    if l == [] then None else if l[0].Key() == k then Some(l[0]) else FirstWith(l[1..], k)
  }

  ghost predicate HasKey(l: seq<Finding>, k: Key) {
    exists i :: 0 <= i < |l| && l[i].Key() == k
  }

  lemma {:induction false} FirstWithIs(l: seq<Finding>, k: Key)
    ensures FirstWith(l, k).Some? <==> HasKey(l, k)
    ensures FirstWith(l, k).Some? ==> FirstWith(l, k).value in l && FirstWith(l, k).value.Key() == k
  {
    if l != [] {
      FirstWithIs(l[1..], k);
      if i :| 0 <= i < |l| && l[i].Key() == k && i > 0 { assert l[1..][i - 1].Key() == k; }
      if i :| 0 <= i < |l[1..]| && l[1..][i].Key() == k { assert l[i + 1].Key() == k; }
    }
  }

  lemma {:induction false} FirstWithConcat(a: seq<Finding>, b: seq<Finding>, k: Key)
    ensures FirstWith(a + b, k) == if FirstWith(a, k).Some? then FirstWith(a, k) else FirstWith(b, k)
  {
    if a == [] {
      assert a + b == b;
    } else {
      assert (a + b)[1..] == a[1..] + b;
      FirstWithConcat(a[1..], b, k);
    }
  }

  // Sorting. -----------------------------------------------------------------------------------------

  ghost predicate InOrder(l: seq<Finding>) {
    forall i, j :: 0 <= i < j < |l| ==> !KeyLess(l[j].Key(), l[i].Key())
  }

  ghost predicate StrictlyOrdered(l: seq<Finding>) {
    forall i, j :: 0 <= i < j < |l| ==> KeyLess(l[i].Key(), l[j].Key())
  }

  lemma {:induction false} NotLess(a: Key, b: Key, c: Key)
    ensures KeyLess(a, b) && !KeyLess(c, b) ==> KeyLess(a, c)
    ensures !KeyLess(b, a) && !KeyLess(c, b) ==> !KeyLess(c, a)
  {
    KeyLessTotal(a, b);
    KeyLessTotal(b, c);
    KeyLessTotal(a, c);
    hide KeyLess;
    if KeyLess(a, b) && KeyLess(b, c) { KeyLessTransitive(a, b, c); }
    if KeyLess(c, a) && KeyLess(a, b) { KeyLessTransitive(c, a, b); }
  }

  lemma {:induction false} BelowHead(l: seq<Finding>, f: Finding)
    requires InOrder(l) && l != [] && KeyLess(f.Key(), l[0].Key())
    ensures forall i :: 0 <= i < |l| ==> KeyLess(f.Key(), l[i].Key())
  {
    forall i | 0 <= i < |l| ensures KeyLess(f.Key(), l[i].Key()) {
      if i > 0 { NotLess(f.Key(), l[0].Key(), l[i].Key()); }
    }
  }

  lemma {:induction false} PlacedMembers(l: seq<Finding>, f: Finding)
    ensures multiset(Placed(l, f)) == multiset(l) + multiset{f}
  {
    if l != [] {
      HeadTail(l);
      if !KeyLess(f.Key(), l[0].Key()) { PlacedMembers(l[1..], f); }
    }
  }

  lemma {:induction false} InOrderCons(x: Finding, l: seq<Finding>)
    requires InOrder(l) && forall i :: 0 <= i < |l| ==> !KeyLess(l[i].Key(), x.Key())
    ensures InOrder([x] + l)
  {
  }

  lemma {:induction false} PlacedInOrder(l: seq<Finding>, f: Finding)
    requires InOrder(l)
    ensures InOrder(Placed(l, f))
  {
    if l != [] {
      if KeyLess(f.Key(), l[0].Key()) {
        BelowHead(l, f);
        forall i | 0 <= i < |l| ensures !KeyLess(l[i].Key(), f.Key()) { KeyLessTotal(l[i].Key(), f.Key()); }
        InOrderCons(f, l);
      } else {
        PlacedInOrder(l[1..], f);
        PlacedMembers(l[1..], f);
        var rest := Placed(l[1..], f);
        forall i | 0 <= i < |rest| ensures !KeyLess(rest[i].Key(), l[0].Key()) {
          assert rest[i] in multiset(rest);
          if rest[i] != f {
            assert rest[i] in multiset(l[1..]);
            var m :| 0 <= m < |l[1..]| && l[1..][m] == rest[i];
            assert l[m + 1] == rest[i];
          }
        }
        InOrderCons(l[0], rest);
      }
    }
  }

  lemma {:induction false} PlacedKeepsFirst(l: seq<Finding>, f: Finding, k: Key)
    requires InOrder(l)
    ensures FirstWith(Placed(l, f), k) == if FirstWith(l, k).Some? then FirstWith(l, k) else FirstWith([f], k)
  {
    if l != [] {
      if KeyLess(f.Key(), l[0].Key()) {
        BelowHead(l, f);
        FirstWithIs(l, k);
        KeyLessTotal(k, k);
        ConsTail(f, l);
        assert f.Key() == k ==> !HasKey(l, k);
      } else {
        PlacedKeepsFirst(l[1..], f, k);
        ConsTail(l[0], Placed(l[1..], f));
      }
    }
  }

  /** The sort is a stable one: ordered, the same findings, and for each key the one that
      came first still comes first. */
  lemma {:induction false} SortedIs(l: seq<Finding>, k: Key)
    ensures InOrder(Sorted(l)) && multiset(Sorted(l)) == multiset(l)
    ensures FirstWith(Sorted(l), k) == FirstWith(l, k)
  {
    if l != [] {
      var front, last := l[..|l| - 1], l[|l| - 1];
      SortedIs(front, k);
      hide KeyLess;
      PlacedInOrder(Sorted(front), last);
      PlacedMembers(Sorted(front), last);
      PlacedKeepsFirst(Sorted(front), last, k);
      assert l == front + [last];
      FirstWithConcat(front, [last], k);
    }
  }

  // Dropping repeats. ----------------------------------------------------------------------------------

  lemma {:induction false} DedupedKeepsFirst(l: seq<Finding>, k: Key)
    ensures FirstWith(Deduped(l), k) == FirstWith(l, k)
  {
    if |l| > 1 {
      var front, last := l[..|l| - 1], l[|l| - 1];
      DedupedKeepsFirst(front, k);
      var d := Deduped(front);
      assert l == front + [last];
      FirstWithConcat(front, [last], k);
      FirstWithConcat(d, [last], k);
      if last.Key() == d[|d| - 1].Key() {
        FirstWithIs(d, k);
        if last.Key() == k { assert HasKey(d, k); }
      }
    }
  }

  lemma {:induction false} DedupedStrict(l: seq<Finding>)
    requires InOrder(l)
    ensures StrictlyOrdered(Deduped(l))
  {
    if |l| > 1 {
      var front, last := l[..|l| - 1], l[|l| - 1];
      DedupedStrict(front);
      var d := Deduped(front);
      var end := d[|d| - 1].Key();
      assert front[|front| - 1] == l[|l| - 2];
      if last.Key() != end {
        KeyLessTotal(end, last.Key());
        hide KeyLess;
        forall i | 0 <= i < |d| ensures KeyLess(d[i].Key(), last.Key()) {
          if i < |d| - 1 { KeyLessTransitive(d[i].Key(), end, last.Key()); }
        }
      }
    }
  }

  // What is unmet. ---------------------------------------------------------------------------------------

  /** A guarantee is required and, on the inputs alone, does not hold for a scope. */
  ghost predicate Unmet(inputs: Inputs, gs: seq<Guarantee>, k: Key) {
    match k.code
    case CanonHistory => k.scope == DEPLOYMENT && CanonHistoryCommitted in gs && !inputs.committedCapable
    case ProducerContinuity => k.scope == DEPLOYMENT && ProducerContinuitySpooled in gs && !inputs.spoolConfigured
    case ScribeRecovery => ScribeRecoveryAutomatic in gs && LacksRecovery(inputs.verses, k.scope)
    case StorageFailureDomains => k.scope == DEPLOYMENT && BelowSomeFloor(inputs, gs)
  }

  ghost predicate LacksRecovery(vs: seq<VerseInputs>, scope: Scope) {
    exists i :: 0 <= i < |vs| && vs[i].scope == scope && !HasEligible(vs[i])
  }

  ghost predicate BelowSomeFloor(inputs: Inputs, gs: seq<Guarantee>) {
    exists i :: 0 <= i < |gs| && gs[i].MinStorageFailureDomains? && inputs.storageTargets < gs[i].min
  }

  lemma {:induction false} LacksSnoc(vs: seq<VerseInputs>, scope: Scope)
    requires vs != []
    ensures var n := |vs| - 1;
      LacksRecovery(vs, scope) <==> LacksRecovery(vs[..n], scope) || (vs[n].scope == scope && !HasEligible(vs[n]))
  {
    var n := |vs| - 1;
    hide HasEligible;
    if i :| 0 <= i < n && vs[..n][i].scope == scope && !HasEligible(vs[..n][i]) { assert vs[i] == vs[..n][i]; }
    if i :| 0 <= i < |vs| && vs[i].scope == scope && !HasEligible(vs[i]) && i < n { assert vs[i] == vs[..n][i]; }
  }

  lemma {:induction false} PushedVersesIs(vs: seq<VerseInputs>, k: Key)
    ensures FirstWith(PushedVerses(EvaluateVerses(vs)), k).Some? <==>
      k.code == ScribeRecovery && LacksRecovery(vs, k.scope)
  {
    hide EvaluateVerse, HasEligible;
    var rs := EvaluateVerses(vs);
    if vs != [] {
      var n := |vs| - 1;
      PushedVersesIs(vs[..n], k);
      assert rs[..n] == EvaluateVerses(vs[..n]);
      RecoveryExactly(vs[n]);
      LacksSnoc(vs, k.scope);
      hide LacksRecovery, EvaluateVerses;
      var last := rs[n].satisfaction;
      FirstWithConcat(PushedVerses(rs[..n]), if last.kind != Satisfied then [FromSatisfaction(last)] else [], k);
    }
  }

  lemma {:induction false} UnmetSnoc(inputs: Inputs, gs: seq<Guarantee>, k: Key)
    requires gs != []
    ensures Unmet(inputs, gs, k) <==> Unmet(inputs, gs[..|gs| - 1], k) || Unmet(inputs, [gs[|gs| - 1]], k)
  {
    var n := |gs| - 1;
    assert gs == gs[..n] + [gs[n]];
    if BelowSomeFloor(inputs, gs) {
      var i :| 0 <= i < |gs| && gs[i].MinStorageFailureDomains? && inputs.storageTargets < gs[i].min;
      if i < n { assert gs[..n][i] == gs[i]; } else { assert [gs[n]][0] == gs[i]; }
    }
    if i :| 0 <= i < n && gs[..n][i].MinStorageFailureDomains? && inputs.storageTargets < gs[..n][i].min {
      assert gs[i] == gs[..n][i];
    }
    if i :| 0 <= i < 1 && [gs[n]][i].MinStorageFailureDomains? && inputs.storageTargets < [gs[n]][i].min {
      assert gs[n] == [gs[n]][i];
    }
  }

  lemma {:induction false} PushedForIs(inputs: Inputs, g: Guarantee, k: Key)
    ensures FirstWith(PushedFor(Evaluate(inputs), inputs, g), k).Some? <==> Unmet(inputs, [g], k)
  {
    hide LacksRecovery, PushedVerses, EvaluateVerses;
    PushedVersesIs(inputs.verses, k);
    assert g.MinStorageFailureDomains? && inputs.storageTargets < g.min ==> [g][0] == g && BelowSomeFloor(inputs, [g]);
  }

  lemma {:induction false} PushedIs(inputs: Inputs, gs: seq<Guarantee>, k: Key)
    ensures FirstWith(Pushed(Evaluate(inputs), inputs, gs), k).Some? <==> Unmet(inputs, gs, k)
  {
    if gs != [] {
      var n := |gs| - 1;
      PushedIs(inputs, gs[..n], k);
      PushedForIs(inputs, gs[n], k);
      UnmetSnoc(inputs, gs, k);
      FirstWithConcat(Pushed(Evaluate(inputs), inputs, gs[..n]), PushedFor(Evaluate(inputs), inputs, gs[n]), k);
    }
  }

  /** The findings' keys are strictly increasing and are exactly the unmet keys, and each
      finding is the one first raised under its key. */
  lemma {:induction false} FindingsAreExact(inputs: Inputs, gs: seq<Guarantee>, k: Key)
    ensures StrictlyOrdered(Findings(inputs, gs))
    ensures HasKey(Findings(inputs, gs), k) <==> Unmet(inputs, gs, k)
    ensures FirstWith(Findings(inputs, gs), k) == FirstWith(Pushed(Evaluate(inputs), inputs, gs), k)
  {
    var pushed := Pushed(Evaluate(inputs), inputs, gs);
    hide Unmet, Pushed, Evaluate, Sorted, Deduped, KeyLess;
    SortedIs(pushed, k);
    DedupedKeepsFirst(Sorted(pushed), k);
    DedupedStrict(Sorted(pushed));
    PushedIs(inputs, gs, k);
    FirstWithIs(Findings(inputs, gs), k);
  }

  // What a finding says. ---------------------------------------------------------------------------------

  // The first Verse of that scope without an eligible candidate; the first floor not reached.
  ghost predicate FirstLacking(vs: seq<VerseInputs>, scope: Scope, i: int) {
    && 0 <= i < |vs| && vs[i].scope == scope && !HasEligible(vs[i])
    && forall j :: 0 <= j < i && vs[j].scope == scope ==> HasEligible(vs[j])
  }

  ghost predicate FirstFloor(inputs: Inputs, gs: seq<Guarantee>, i: int) {
    && 0 <= i < |gs| && gs[i].MinStorageFailureDomains? && inputs.storageTargets < gs[i].min
    && forall j :: 0 <= j < i && gs[j].MinStorageFailureDomains? ==> inputs.storageTargets >= gs[j].min
  }

  /** A finding told from the inputs: a recovery finding asks for a live look exactly when the
      first Verse of its scope that lacks a candidate has nothing declared or observed; every
      other finding says unsatisfied; and only a storage finding names a floor, the first one
      required that is not reached. */
  ghost predicate Says(inputs: Inputs, gs: seq<Guarantee>, f: Finding) {
    match f.code
    case ScribeRecovery =>
      && f.floor == None
      && exists i :: FirstLacking(inputs.verses, f.scope, i) &&
          f.kind == if !inputs.verses[i].declaredForStatic && inputs.verses[i].candidates == []
            then RequiresLivePreflight else Unsatisfied
    case StorageFailureDomains =>
      f.kind == Unsatisfied && exists i :: FirstFloor(inputs, gs, i) && f.floor == Some(gs[i].min)
    case _ => f.kind == Unsatisfied && f.floor == None
  }

  lemma {:induction false} FirstLackingFront(vs: seq<VerseInputs>, scope: Scope, i: int)
    requires vs != [] && FirstLacking(vs[..|vs| - 1], scope, i)
    ensures FirstLacking(vs, scope, i)
  {
    hide HasEligible;
    var front := vs[..|vs| - 1];
    assert forall j :: 0 <= j <= i ==> front[j] == vs[j];
  }

  lemma {:induction false} VersesSay(inputs: Inputs, vs: seq<VerseInputs>, k: Key)
    requires FirstWith(PushedVerses(EvaluateVerses(vs)), k).Some?
    ensures Says(inputs.(verses := vs), [], FirstWith(PushedVerses(EvaluateVerses(vs)), k).value)
  {
    hide EvaluateVerse, HasEligible;
    var rs := EvaluateVerses(vs);
    var n := |vs| - 1;
    var front := vs[..n];
    assert rs[..n] == EvaluateVerses(front);
    RecoveryExactly(vs[n]);
    var last := rs[n].satisfaction;
    var more := if last.kind != Satisfied then [FromSatisfaction(last)] else [];
    FirstWithConcat(PushedVerses(rs[..n]), more, k);
    PushedVersesIs(front, k);
    if FirstWith(PushedVerses(rs[..n]), k).Some? {
      VersesSay(inputs, front, k);
      var f := FirstWith(PushedVerses(rs[..n]), k).value;
      FirstWithIs(PushedVerses(rs[..n]), k);
      var i :| FirstLacking(front, f.scope, i) &&
          f.kind == if !front[i].declaredForStatic &&
              front[i].candidates == [] then RequiresLivePreflight else Unsatisfied;
      FirstLackingFront(vs, f.scope, i);
      assert vs[i] == front[i];
    } else {
      assert k.code == ScribeRecovery && last.scope == k.scope;
      assert !LacksRecovery(front, k.scope);
      forall j | 0 <= j < n && vs[j].scope == k.scope ensures HasEligible(vs[j]) { assert front[j] == vs[j]; }
      assert FirstLacking(vs, k.scope, n);
    }
  }

  lemma {:induction false} SaysLater(inputs: Inputs, gs: seq<Guarantee>, g: Guarantee, f: Finding)
    requires Says(inputs, gs, f)
    ensures Says(inputs, gs + [g], f)
  {
    hide FirstLacking;
    if f.code == StorageFailureDomains {
      var i :| FirstFloor(inputs, gs, i) && f.floor == Some(gs[i].min);
      assert FirstFloor(inputs, gs + [g], i);
    }
  }

  lemma {:induction false} PushedForSays(inputs: Inputs, gs: seq<Guarantee>, g: Guarantee, k: Key)
    requires FirstWith(PushedFor(Evaluate(inputs), inputs, g), k).Some? && !Unmet(inputs, gs, k)
    ensures Says(inputs, gs + [g], FirstWith(PushedFor(Evaluate(inputs), inputs, g), k).value)
  {
    hide FirstLacking, LacksRecovery, PushedVerses, EvaluateVerses;
    var f := FirstWith(PushedFor(Evaluate(inputs), inputs, g), k).value;
    FirstWithIs(PushedFor(Evaluate(inputs), inputs, g), k);
    if g.ScribeRecoveryAutomatic? {
      VersesSay(inputs, inputs.verses, k);
      PushedVersesIs(inputs.verses, k);
    } else if g.MinStorageFailureDomains? {
      forall j | 0 <= j < |gs| && gs[j].MinStorageFailureDomains? ensures inputs.storageTargets >= gs[j].min {
        assert !BelowSomeFloor(inputs, gs);
      }
      assert FirstFloor(inputs, gs + [g], |gs|);
    }
  }

  lemma {:induction false} PushedSays(inputs: Inputs, gs: seq<Guarantee>, k: Key)
    requires FirstWith(Pushed(Evaluate(inputs), inputs, gs), k).Some?
    ensures Says(inputs, gs, FirstWith(Pushed(Evaluate(inputs), inputs, gs), k).value)
  {
    hide Says, Unmet, Evaluate, PushedFor;
    var front, g := gs[..|gs| - 1], gs[|gs| - 1];
    assert gs == front + [g];
    PushedIs(inputs, front, k);
    FirstWithConcat(Pushed(Evaluate(inputs), inputs, front), PushedFor(Evaluate(inputs), inputs, g), k);
    if FirstWith(Pushed(Evaluate(inputs), inputs, front), k).Some? {
      PushedSays(inputs, front, k);
      SaysLater(inputs, front, g, FirstWith(Pushed(Evaluate(inputs), inputs, front), k).value);
    } else {
      PushedForSays(inputs, front, g, k);
    }
  }

  // In a strictly ordered list each finding is the first of its key.
  lemma {:induction false} FirstOfItsKey(l: seq<Finding>, i: nat)
    requires StrictlyOrdered(l) && i < |l|
    ensures FirstWith(l, l[i].Key()) == Some(l[i])
  {
    if i > 0 {
      KeyLessTotal(l[0].Key(), l[i].Key());
      hide KeyLess;
      FirstOfItsKey(l[1..], i - 1);
    }
  }

  /** Every finding says what the inputs say. */
  lemma {:induction false} FindingsSay(inputs: Inputs, gs: seq<Guarantee>, i: nat)
    requires i < |Findings(inputs, gs)|
    ensures Says(inputs, gs, Findings(inputs, gs)[i])
  {
    hide Findings, Pushed, Says, KeyLess;
    var fs := Findings(inputs, gs);
    FindingsAreExact(inputs, gs, fs[i].Key());
    FirstOfItsKey(fs, i);
    PushedSays(inputs, gs, fs[i].Key());
  }

  // The counts in a report. --------------------------------------------------------------------------------

  // The candidates that can recover the Verse; those that name it and are fresh.
  function EligibleAmong(cs: seq<Candidate>, target: Scope): set<nat> {
    set i | 0 <= i < |cs| && CanRecover(cs[i], target)
  }

  function AliveAmong(cs: seq<Candidate>, target: Scope): set<nat> {
    set i | 0 <= i < |cs| && cs[i].scope == target && cs[i].isFresh
  }

  lemma {:induction false} CountEligibleAmong(cs: seq<Candidate>, target: Scope)
    ensures CountEligible(cs, target) == |EligibleAmong(cs, target)|
  {
    if cs != [] {
      var n := |cs| - 1;
      CountEligibleAmong(cs[..n], target);
      var rest := EligibleAmong(cs[..n], target);
      assert n !in rest && EligibleAmong(cs, target) == if Eligible(cs[n], target) then rest + {n} else rest;
    }
  }

  lemma {:induction false} CountFreshAmong(cs: seq<Candidate>, target: Scope)
    ensures CountFresh(cs, target) == |AliveAmong(cs, target)|
  {
    if cs != [] {
      var n := |cs| - 1;
      CountFreshAmong(cs[..n], target);
      var rest := AliveAmong(cs[..n], target);
      assert n !in rest;
      assert AliveAmong(cs, target) == if cs[n].scope == target && cs[n].isFresh then rest + {n} else rest;
    }
  }

  /** A Verse's report counts the candidates that name it and are fresh, and those among them
      that can serve, up to the largest 32-bit number. */
  lemma {:induction false} ReportCounts(v: VerseInputs)
    ensures var r, alive := EvaluateVerse(v), |AliveAmong(v.candidates, v.scope)|;
      var eligible := |EligibleAmong(v.candidates, v.scope)|;
      && r.scope == v.scope
      && r.heartbeating == (if alive < U32_LIMIT then alive else U32_LIMIT - 1)
      && r.eligible == (if eligible < U32_LIMIT then eligible else U32_LIMIT - 1)
  {
    hide CountEligible, CountFresh;
    CountEligibleAmong(v.candidates, v.scope);
    CountFreshAmong(v.candidates, v.scope);
  }

  /** The findings stand in this order: history, continuity, recovery, storage; and recovery
      findings by Canon and then by Verse, bytewise. */
  lemma {:induction false} FindingsInOrder(inputs: Inputs, gs: seq<Guarantee>, i: nat, j: nat)
    requires i < j < |Findings(inputs, gs)|
    ensures var a, b := Findings(inputs, gs)[i], Findings(inputs, gs)[j];
      if a.code == b.code then
        Less(a.scope.canon, b.scope.canon) || (a.scope.canon == b.scope.canon && Less(a.scope.verse, b.scope.verse))
      else
        a.code == CanonHistory || b.code == StorageFailureDomains ||
            (a.code == ProducerContinuity && b.code == ScribeRecovery)
  {
    FindingsAreExact(inputs, gs, FindingKey(CanonHistory, DEPLOYMENT));
    hide Findings, Less;
  }

  /** Every required guarantee holds on the inputs. */
  ghost predicate AllHold(inputs: Inputs, gs: seq<Guarantee>) {
    && (CanonHistoryCommitted in gs ==> inputs.committedCapable)
    && (ProducerContinuitySpooled in gs ==> inputs.spoolConfigured)
    && (ScribeRecoveryAutomatic in gs ==> forall i :: 0 <= i < |inputs.verses| ==> HasEligible(inputs.verses[i]))
    && (forall i :: 0 <= i < |gs| ==> gs[i].MinStorageFailureDomains? ==> inputs.storageTargets >= gs[i].min)
  }

  lemma {:induction false} EmptyIffAllHold(inputs: Inputs, gs: seq<Guarantee>)
    ensures Findings(inputs, gs) == [] <==> AllHold(inputs, gs)
  {
    var fs := Findings(inputs, gs);
    hide Findings, HasEligible;
    forall k ensures HasKey(fs, k) <==> Unmet(inputs, gs, k) { FindingsAreExact(inputs, gs, k); }
    if fs != [] {
      assert HasKey(fs, fs[0].Key());
    } else {
      assert !Unmet(inputs, gs, FindingKey(CanonHistory, DEPLOYMENT));
      assert !Unmet(inputs, gs, FindingKey(ProducerContinuity, DEPLOYMENT));
      assert !Unmet(inputs, gs, FindingKey(StorageFailureDomains, DEPLOYMENT));
      if ScribeRecoveryAutomatic in gs {
        forall i | 0 <= i < |inputs.verses| ensures HasEligible(inputs.verses[i]) {
          assert !Unmet(inputs, gs, FindingKey(ScribeRecovery, inputs.verses[i].scope));
        }
      }
    }
  }

  // Independence and monotonicity. -------------------------------------------------------------------------

  function Keys(fs: seq<Finding>): (ks: seq<Key>)
    ensures |ks| == |fs| && forall i :: 0 <= i < |fs| ==> ks[i] == fs[i].Key()
  {
    if fs == [] then [] else Keys(fs[..|fs| - 1]) + [fs[|fs| - 1].Key()]
  }

  // Two strictly ordered lists with the same keys list them alike.
  lemma {:induction false} SameKeysSameList(a: seq<Finding>, b: seq<Finding>)
    requires StrictlyOrdered(a) && StrictlyOrdered(b) && forall k :: HasKey(a, k) <==> HasKey(b, k)
    ensures Keys(a) == Keys(b)
    decreases |a|
  {
    assert a != [] ==> HasKey(a, a[0].Key());
    assert b != [] ==> HasKey(b, b[0].Key());
    if a != [] && b != [] {
      LastIsGreatest(a, b);
      LastIsGreatest(b, a);
      KeyLessTotal(a[|a| - 1].Key(), b[|b| - 1].Key());
      hide KeyLess;
      var a1, b1 := a[..|a| - 1], b[..|b| - 1];
      forall k ensures HasKey(a1, k) <==> HasKey(b1, k) {
        FrontKeys(a, k);
        FrontKeys(b, k);
      }
      SameKeysSameList(a1, b1);
    }
  }

  lemma {:induction false} LastIsGreatest(a: seq<Finding>, b: seq<Finding>)
    requires StrictlyOrdered(a) && a != [] && b != [] && forall k :: HasKey(b, k) ==> HasKey(a, k)
    ensures !KeyLess(a[|a| - 1].Key(), b[|b| - 1].Key())
  {
    var k, top := b[|b| - 1].Key(), a[|a| - 1].Key();
    assert HasKey(b, k);
    var i :| 0 <= i < |a| && a[i].Key() == k;
    KeyLessTotal(k, top);
    hide KeyLess;
  }

  lemma {:induction false} FrontKeys(a: seq<Finding>, k: Key)
    requires StrictlyOrdered(a) && a != []
    ensures HasKey(a[..|a| - 1], k) <==> HasKey(a, k) && k != a[|a| - 1].Key()
  {
    var n := |a| - 1;
    if HasKey(a[..n], k) {
      var i :| 0 <= i < n && a[..n][i].Key() == k;
      KeyLessTotal(a[i].Key(), a[n].Key());
    }
    if HasKey(a, k) && k != a[n].Key() {
      var i :| 0 <= i < |a| && a[i].Key() == k;
      assert a[..n][i].Key() == k;
    }
  }

  ghost predicate SameMembers<T(!new)>(a: seq<T>, b: seq<T>) {
    forall x :: x in a <==> x in b
  }

  /** The list of keys does not depend on the order or the repetition of the requirements
      or of the Verses. */
  lemma {:induction false} OrderDoesNotMatter(a: Inputs, b: Inputs, gs: seq<Guarantee>, hs: seq<Guarantee>)
    requires a.storageTargets == b.storageTargets && a.committedCapable == b.committedCapable &&
      a.spoolConfigured == b.spoolConfigured
    requires SameMembers(a.verses, b.verses) && SameMembers(gs, hs)
    ensures Keys(Findings(a, gs)) == Keys(Findings(b, hs))
  {
    hide Findings, HasEligible;
    forall k ensures HasKey(Findings(a, gs), k) <==> HasKey(Findings(b, hs), k) {
      FindingsAreExact(a, gs, k);
      FindingsAreExact(b, hs, k);
      UnmetSame(a, b, gs, hs, k);
      UnmetSame(b, a, hs, gs, k);
    }
    FindingsAreExact(a, gs, FindingKey(CanonHistory, DEPLOYMENT));
    FindingsAreExact(b, hs, FindingKey(CanonHistory, DEPLOYMENT));
    SameKeysSameList(Findings(a, gs), Findings(b, hs));
  }

  lemma {:induction false} UnmetSame(a: Inputs, b: Inputs, gs: seq<Guarantee>, hs: seq<Guarantee>, k: Key)
    requires a.storageTargets == b.storageTargets && a.committedCapable == b.committedCapable &&
      a.spoolConfigured == b.spoolConfigured
    requires SameMembers(a.verses, b.verses) && SameMembers(gs, hs)
    ensures Unmet(a, gs, k) ==> Unmet(b, hs, k)
  {
    if Unmet(a, gs, k) {
      if k.code == ScribeRecovery {
        var i :| 0 <= i < |a.verses| && a.verses[i].scope == k.scope && !HasEligible(a.verses[i]);
        assert a.verses[i] in b.verses;
      } else if k.code == StorageFailureDomains {
        var i :| 0 <= i < |gs| && gs[i].MinStorageFailureDomains? && a.storageTargets < gs[i].min;
        assert gs[i] in hs;
      }
    }
  }

  // More evidence: more candidates for the same Verses, more targets, a target or a spool.
  ghost predicate Improves(a: Inputs, b: Inputs) {
    && a.storageTargets <= b.storageTargets
    && (a.committedCapable ==> b.committedCapable) && (a.spoolConfigured ==> b.spoolConfigured)
    && |a.verses| == |b.verses|
    && forall i :: 0 <= i < |a.verses| ==>
         a.verses[i].scope == b.verses[i].scope && forall c :: c in a.verses[i].candidates ==>
             c in b.verses[i].candidates
  }

  lemma {:induction false} MoreCandidates(a: VerseInputs, b: VerseInputs)
    requires a.scope == b.scope && forall c :: c in a.candidates ==> c in b.candidates
    ensures HasEligible(a) ==> HasEligible(b)
  {
    if HasEligible(a) {
      var j :| 0 <= j < |a.candidates| && CanRecover(a.candidates[j], a.scope);
      assert a.candidates[j] in b.candidates;
    }
  }

  /** Adding candidates, storage targets or a spool never adds a key. */
  lemma {:induction false} ImprovingAddsNoKey(a: Inputs, b: Inputs, gs: seq<Guarantee>, k: Key)
    requires Improves(a, b) && HasKey(Findings(b, gs), k)
    ensures HasKey(Findings(a, gs), k)
  {
    FindingsAreExact(a, gs, k);
    FindingsAreExact(b, gs, k);
    hide Findings;
    if k.code == ScribeRecovery {
      var i :| 0 <= i < |b.verses| && b.verses[i].scope == k.scope && !HasEligible(b.verses[i]);
      MoreCandidates(a.verses[i], b.verses[i]);
    }
  }
}
