/** Order and retention: what every run of the client does, and what any Scribe that
    applies each sequence once then holds. */
module ProducerRuns {
  import opened Prelude
  import opened OutboxWal
  import opened ProducerOutbox
  import opened ProducerClient

  // Client runs. ---------------------------------------------------------------------------

  function ApplyEvent(e: Entries, ev: Event): Entries {
    match ev
    case Staged(sequence, submit) => e[sequence := Pending(submit)]
    case Sent(_, _, _) => e
    case Marked(sequence) => if sequence in e then e[sequence := Acknowledged(e[sequence].submit)] else e
  }

  ghost predicate AckedBelow(e: Entries, sequence: nat) {
    forall t :: 0 <= t < sequence ==> t in e && e[t].Acknowledged?
  }

  /** What the client may do next: stage the next sequence, forward a pending one with its
      exact bytes once every smaller one is retired, or retire the one whose forwarding
      just brought its own ACK. */
  ghost predicate Allowed(epoch: nat, e: Entries, before: seq<Event>, ev: Event) {
    match ev
    case Staged(sequence, _) => sequence == |e|
    case Sent(sequence, submit, _) => sequence in e && e[sequence] == Pending(submit) && AckedBelow(e, sequence)
    case Marked(sequence) =>
      && sequence in e && e[sequence].Pending? && before != []
      && (var last := before[|before| - 1];
          last.Sent? && last.sequence == sequence && Classify(epoch, sequence, last.reply).Committed?)
  }

  ghost function EntriesAfter(e: Entries, events: seq<Event>): Entries {
    if events == [] then e else ApplyEvent(EntriesAfter(e, events[..|events| - 1]), events[|events| - 1])
  }

  ghost predicate ClientRun(epoch: nat, e: Entries, events: seq<Event>) {
    events != [] ==>
      var front := events[..|events| - 1];
      ClientRun(epoch, e, front) && Allowed(epoch, EntriesAfter(e, front), front, events[|events| - 1])
  }

  // What was allowed stays allowed whatever came before.
  lemma {:induction false} AllowedAfter(epoch: nat, e: Entries, past: seq<Event>, before: seq<Event>, ev: Event)
    requires Allowed(epoch, e, before, ev)
    ensures Allowed(epoch, e, past + before, ev)
  {
    if before != [] { assert (past + before)[|past + before| - 1] == before[|before| - 1]; }
  }

  // Runs follow one another, so a process may stop anywhere and another go on.
  lemma {:induction false} RunConcat(epoch: nat, e: Entries, a: seq<Event>, b: seq<Event>)
    requires ClientRun(epoch, e, a) && ClientRun(epoch, EntriesAfter(e, a), b)
    ensures ClientRun(epoch, e, a + b) && EntriesAfter(e, a + b) == EntriesAfter(EntriesAfter(e, a), b)
    decreases |b|
  {
    if b == [] {
      assert a + b == a;
    } else {
      var front, last := b[..|b| - 1], b[|b| - 1];
      RunConcat(epoch, e, a, front);
      AllowedAfter(epoch, EntriesAfter(EntriesAfter(e, a), front), a, front, last);
      hide Allowed, ApplyEvent;
      assert (a + b)[..|a + b| - 1] == a + front && (a + b)[|a + b| - 1] == last;
    }
  }

  // Later entries hold the sequences of earlier ones with the same bytes.
  ghost predicate KeepsBytes(early: Entries, late: Entries) {
    forall s :: s in early ==> s in late && late[s].submit == early[s].submit
  }

  lemma {:induction false} EventKeepsBytes(epoch: nat, e: Entries, before: seq<Event>, ev: Event)
    requires Dense(e) && Allowed(epoch, e, before, ev)
    ensures Dense(ApplyEvent(e, ev)) && KeepsBytes(e, ApplyEvent(e, ev))
  {
    var after := ApplyEvent(e, ev);
    match ev {
      case Staged(sequence, _) => assert |after| == |e| + 1;
      case Sent(_, _, _) =>
      case Marked(sequence) => assert after.Keys == e.Keys && |after| == |after.Keys| && |e| == |e.Keys|;
    }
  }

  lemma {:induction false} RunKeepsBytes(epoch: nat, e: Entries, events: seq<Event>, m: nat)
    requires Dense(e) && ClientRun(epoch, e, events) && m <= |events|
    ensures ClientRun(epoch, e, events[..m])
    ensures Dense(EntriesAfter(e, events)) && KeepsBytes(EntriesAfter(e, events[..m]), EntriesAfter(e, events))
  {
    assert events[..|events|] == events;
    if events != [] {
      var front := events[..|events| - 1];
      var k := if m < |events| then m else |front|;
      RunKeepsBytes(epoch, e, front, k);
      assert front[..k] == events[..k];
      EventKeepsBytes(epoch, EntriesAfter(e, front), front, events[|events| - 1]);
    }
  }

  // A prefix of a run is a run, so a process may stop after any event.
  lemma {:induction false} AllowedInRun(epoch: nat, e: Entries, events: seq<Event>, i: nat)
    requires Dense(e) && ClientRun(epoch, e, events) && i < |events|
    ensures Allowed(epoch, EntriesAfter(e, events[..i]), events[..i], events[i])
  {
    RunKeepsBytes(epoch, e, events, i + 1);
    assert events[..i + 1][..i] == events[..i];
  }

  /** Whatever happens between two attempts at one sequence, the second sends the very
      bytes of the first, and every smaller sequence was retired before either. */
  lemma {:induction false} RetriesAreIdentical(epoch: nat, e: Entries, events: seq<Event>, i: nat, j: nat)
    requires Dense(e) && ClientRun(epoch, e, events) && i < j < |events|
    requires events[i].Sent? && events[j].Sent? && events[i].sequence == events[j].sequence
    ensures events[i].submit == events[j].submit
    ensures AckedBelow(EntriesAfter(e, events[..i]), events[i].sequence)
  {
    AllowedInRun(epoch, e, events, i);
    AllowedInRun(epoch, e, events, j);
    RunKeepsBytes(epoch, e, events, j);
    RunKeepsBytes(epoch, e, events[..j], i);
    assert events[..j][..i] == events[..i];
    hide ClientRun, EntriesAfter;
  }

  // The pending list from `n` on is exactly what is still pending, in order.
  ghost predicate Ready(e: Entries, pending: seq<(nat, Bytes)>, n: nat) {
    && Dense(e) && |e| <= U64_LIMIT && BySequence(pending)
    && (forall j :: n <= j < |pending| ==> pending[j].0 in e && e[pending[j].0] == Pending(pending[j].1))
    && (forall t :: t in e && e[t].Pending? ==> exists j :: n <= j < |pending| && pending[j].0 == t)
  }

  lemma {:induction false} ReadyAtFirst(e: Entries)
    requires Dense(e) && |e| <= U64_LIMIT
    ensures Ready(e, PendingFrom(e, 0), 0)
  {
    var pending := PendingFrom(e, 0);
    PendingFromAscends(e, 0);
    forall t | t in e && e[t].Pending? ensures exists j :: 0 <= j < |pending| && pending[j].0 == t {
      PendingFromHas(e, 0, t);
      var j :| 0 <= j < |pending| && pending[j] == (t, e[t].submit);
    }
  }

  lemma {:induction false} ReadyMaySend(epoch: nat, e: Entries, pending: seq<(nat, Bytes)>, n: nat, reply: Reply)
    requires Ready(e, pending, n) && n < |pending|
    ensures Allowed(epoch, e, [], Sent(pending[n].0, pending[n].1, reply))
  {
    var s := pending[n].0;
    forall t | 0 <= t < s ensures t in e && e[t].Acknowledged? {
      assert forall j :: n <= j < |pending| ==> pending[j].0 != t;
    }
  }

  lemma {:induction false} ReadyAfterMark(e: Entries, pending: seq<(nat, Bytes)>, n: nat)
    requires Ready(e, pending, n) && n < |pending|
    ensures Ready(e[pending[n].0 := Acknowledged(pending[n].1)], pending, n + 1)
    ensures AckedBelow(e[pending[n].0 := Acknowledged(pending[n].1)], pending[n].0 + 1)
  {
    var s := pending[n].0;
    var after := e[s := Acknowledged(pending[n].1)];
    assert after.Keys == e.Keys && |after| == |after.Keys| && |e| == |e.Keys|;
    forall j | n + 1 <= j < |pending| ensures pending[j].0 in after && after[pending[j].0] == Pending(pending[j].1) {
      assert pending[n].0 < pending[j].0;
    }
    forall t | t in after && after[t].Pending? ensures exists j :: n + 1 <= j < |pending| && pending[j].0 == t {
      var j :| n <= j < |pending| && pending[j].0 == t;
      assert j != n;
    }
    ReadyMaySend(0, e, pending, n, NoReply);
  }

  lemma {:induction false} MarkPending(cfg: Config, s: Store, sequence: nat, submit: Bytes, disk: Disk)
    requires sequence in s.entries && s.entries[sequence] == Pending(submit)
    ensures var (after, r) := Mark(cfg, s, cfg.epoch, sequence, disk);
      after.entries == if r.Ok? then s.entries[sequence := Acknowledged(submit)] else s.entries
  {
    hide OpBytes;
  }

  lemma {:induction false} TwoEvents(epoch: nat, e: Entries, sequence: nat, submit: Bytes, reply: Reply)
    requires Allowed(epoch, e, [], Sent(sequence, submit, reply)) && Classify(epoch, sequence, reply).Committed?
    ensures ClientRun(epoch, e, [Sent(sequence, submit, reply), Marked(sequence)])
    ensures EntriesAfter(e, [Sent(sequence, submit, reply), Marked(sequence)]) == e[sequence := Acknowledged(submit)]
  {
    var sent := Sent(sequence, submit, reply);
    OneEvent(epoch, e, sent);
    assert [sent, Marked(sequence)][..1] == [sent];
  }

  lemma {:induction false} OneEvent(epoch: nat, e: Entries, ev: Event)
    requires Allowed(epoch, e, [], ev)
    ensures ClientRun(epoch, e, [ev]) && EntriesAfter(e, [ev]) == ApplyEvent(e, ev)
  {
    assert [ev][..0] == [];
  }

  // What a flush answers, and what it leaves, by cases of its answer.
  ghost predicate Answered(cfg: Config, wanted: nat, f: Flushed) {
    match f.result
    case Ok(Committed(epoch, sequence, first, next)) =>
      epoch == cfg.epoch && sequence == wanted && first < next && AckedBelow(f.store.entries, wanted + 1)
    case Ok(Ambiguous(Disappeared)) => forall t :: t in f.store.entries ==> f.store.entries[t].Acknowledged?
    case Ok(outcome) => Retained(f) && outcome == Classify(cfg.epoch, LastSent(f).sequence, LastSent(f).reply)
    case Err(_) => Retained(f) && Classify(cfg.epoch, LastSent(f).sequence, LastSent(f).reply).Committed?
  }

  // The last thing done was to forward a submission that is still pending, byte for byte.
  ghost predicate Retained(f: Flushed) {
    && f.events != [] && LastSent(f).Sent?
    && LastSent(f).sequence in f.store.entries && f.store.entries[LastSent(f).sequence] == Pending(LastSent(f).submit)
  }

  ghost function LastSent(f: Flushed): Event {
    if f.events == [] then Marked(0) else f.events[|f.events| - 1]
  }

  /** Every flush, whatever the network and the disk do, is a run of allowed steps from the
      entries it found to the entries it leaves, and answers for what it left. */
  lemma {:induction false} FlushIsRun(cfg: Config, s: Store, pending: seq<(nat, Bytes)>, n: nat, wanted: nat,
          net: nat -> Reply, disk: nat -> Disk)
    requires n <= |pending| && Ready(s.entries, pending, n)
    ensures var f := Flush(cfg, s, pending, n, wanted, net, disk);
      && ClientRun(cfg.epoch, s.entries, f.events) && f.store.entries == EntriesAfter(s.entries, f.events)
      && Answered(cfg, wanted, f)
      && (f.result == Ok(Ambiguous(Disappeared)) ==> forall j :: n <= j < |pending| ==> pending[j].0 != wanted)
    decreases |pending| - n
  {
    if n == |pending| { return; }
    var (sequence, submit) := pending[n];
    ReadyMaySend(cfg.epoch, s.entries, pending, n, net(n));
    OneEvent(cfg.epoch, s.entries, Sent(sequence, submit, net(n)));
    var outcome := Classify(cfg.epoch, sequence, net(n));
    if !outcome.Committed? { return; }
    MarkPending(cfg, s, sequence, submit, disk(n));
    var (after, marked) := Mark(cfg, s, outcome.epoch, outcome.sequence, disk(n));
    hide Mark;
    if marked.Err? { return; }
    var two := [Sent(sequence, submit, net(n)), Marked(sequence)];
    assert two == [Sent(sequence, submit, net(n))] + [Marked(sequence)];
    TwoEvents(cfg.epoch, s.entries, sequence, submit, net(n));
    ReadyAfterMark(s.entries, pending, n);
    if sequence == wanted { return; }
    FlushGoesOn(cfg, s, pending, n, wanted, net, disk, after, two);
  }

  lemma {:induction false} FlushGoesOn(cfg: Config, s: Store, pending: seq<(nat, Bytes)>, n: nat, wanted: nat,
          net: nat -> Reply, disk: nat -> Disk, after: Store, two: seq<Event>)
    requires n < |pending| && Ready(after.entries, pending, n + 1) && pending[n].0 != wanted
    requires ClientRun(cfg.epoch, s.entries, two) && after.entries == EntriesAfter(s.entries, two)
    ensures var f := Preceded(two, Flush(cfg, after, pending, n + 1, wanted, net, disk));
      && ClientRun(cfg.epoch, s.entries, f.events) && f.store.entries == EntriesAfter(s.entries, f.events)
      && Answered(cfg, wanted, f)
      && (f.result == Ok(Ambiguous(Disappeared)) ==> forall j :: n <= j < |pending| ==> pending[j].0 != wanted)
    decreases |pending| - n, 0
  {
    hide Flush, Ready, ClientRun, EntriesAfter, Answered;
    FlushIsRun(cfg, after, pending, n + 1, wanted, net, disk);
    var rest := Flush(cfg, after, pending, n + 1, wanted, net, disk);
    RunConcat(cfg.epoch, s.entries, two, rest.events);
    AnsweredAfter(cfg, wanted, two, rest);
  }

  /** A submit never claims its own submission vanished: every answer is a commit of that
      very sequence, a retained submission, or a refusal before anything was staged. */
  lemma {:induction false} SubmitIsRun(cfg: Config, s: Store, records: seq<Bytes>, staging: Disk, net: nat -> Reply,
          disk: nat -> Disk)
    requires SoundWire(cfg.wire) && Dense(s.entries) && |s.entries| <= U64_LIMIT
    ensures var f := SubmitIs(cfg, s, records, staging, net, disk);
      && ClientRun(cfg.epoch, s.entries, f.events) && f.store.entries == EntriesAfter(s.entries, f.events)
      && f.result != Ok(Ambiguous(Disappeared))
      && (f.events != [] ==>
           f.events[0].Staged? && f.events[0].sequence == |s.entries| && Answered(cfg, |s.entries|, f))
      && (f.events == [] ==> f.result.Err? && f.store.entries == s.entries)
  {
    var f := SubmitIs(cfg, s, records, staging, net, disk);
    if f.events != [] {
      var submit := cfg.wire.encode(|s.entries|, records).value;
      var after := Stage(cfg, s, submit, staging).0;
      StagedIsNext(cfg, s, records, staging);
      var pending := PendingFrom(after.entries, 0);
      ReadyAtFirst(after.entries);
      PendingFromHas(after.entries, 0, |s.entries|);
      var mine :| 0 <= mine < |pending| && pending[mine] == (|s.entries|, submit);
      var rest := Flush(cfg, after, pending, 0, |s.entries|, net, disk);
      FlushIsRun(cfg, after, pending, 0, |s.entries|, net, disk);
      hide Stage, Flush, Ready, SoundWire, PendingFrom;
      OneEvent(cfg.epoch, s.entries, Staged(|s.entries|, submit));
      RunConcat(cfg.epoch, s.entries, [Staged(|s.entries|, submit)], rest.events);
      AnsweredAfter(cfg, |s.entries|, [Staged(|s.entries|, submit)], rest);
    } else {
      StageFailKeeps(cfg, s, records, staging);
    }
  }

  lemma {:induction false} AnsweredAfter(cfg: Config, wanted: nat, events: seq<Event>, f: Flushed)
    requires Answered(cfg, wanted, f)
    ensures Answered(cfg, wanted, Preceded(events, f))
  {
    if f.events != [] { assert (events + f.events)[|events + f.events| - 1] == f.events[|f.events| - 1]; }
  }

  lemma {:induction false} StageFailKeeps(cfg: Config, s: Store, records: seq<Bytes>, staging: Disk)
    requires SoundWire(cfg.wire)
    ensures cfg.wire.encode(|s.entries|, records).Some? ==>
      var (after, r) := Stage(cfg, s, cfg.wire.encode(|s.entries|, records).value, staging);
          r.Err? ==> after.entries == s.entries
  {
    hide OpBytes;
  }
}
