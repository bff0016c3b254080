/** What the client answers, told from the last reply it got and nothing else. */
module ProducerAnswers {
  import opened Prelude
  import opened OutboxWal
  import opened ProducerOutbox
  import opened ProducerClient
  import opened ProducerRuns

  function SentCount(events: seq<Event>): nat {
    if events == [] then 0 else SentCount(events[..|events| - 1]) + (if events[|events| - 1].Sent? then 1 else 0)
  }

  // The last submission forwarded, and the reply it brought.
  function LastForward(events: seq<Event>): Option<Event> {
    if events == [] then None
    else if events[|events| - 1].Sent? then Some(events[|events| - 1]) else LastForward(events[..|events| - 1])
  }

  // The submission last forwarded was retired, as far as anyone can see from the events.
  predicate Retired(events: seq<Event>) {
    events != [] && events[|events| - 1].Marked?
  }

  // The reply acknowledges that very submission, with a range that is not empty.
  predicate Acknowledges(epoch: nat, sequence: nat, reply: Reply) {
    reply.Ack? && reply.epoch == epoch && reply.sequence == sequence && reply.first < reply.next
  }

  /** What a flush that forwarded something answers, by its last forward. */
  ghost predicate AnswersReply(cfg: Config, wanted: nat, f: Flushed, last: Event) {
    && last.Sent?
    && var (reply, good) := (last.reply, Acknowledges(cfg.epoch, last.sequence, last.reply));
    && (forall code, message :: f.result == Ok(Refused(code, message)) <==> reply == ErrorFrame(code, message))
    && (f.result == Ok(Ambiguous(Transport)) <==> reply == NoReply)
    && (f.result == Ok(Ambiguous(UnexpectedFrame)) <==> reply == OtherFrame)
    && (f.result == Ok(Ambiguous(AckMismatch)) <==> reply.Ack? && !good)
    && (f.result.Err? <==> good && !Retired(f.events))
    && (forall e, s, first, next :: f.result == Ok(Committed(e, s, first, next)) <==>
          good && Retired(f.events) && last.sequence == wanted && reply == Ack(e, s, first, next))
    && (f.result == Ok(Ambiguous(Disappeared)) <==> good && Retired(f.events) && last.sequence != wanted)
    && (f.result.Err? ==> f.result.error == OutboxFailed(MarkFault(cfg, f.store)))
  }

  // Why a pending submission cannot be retired.
  function MarkFault(cfg: Config, s: Store): OutboxError {
    if s.used + ACK_RECORD_BYTES > cfg.max then CapacityExceeded(s.used, ACK_RECORD_BYTES, cfg.max) else Io
  }

  /** A flush that forwards something answers by its last reply; one that has nothing to
      forward says that the submission has disappeared. Its replies are those of the network,
      in order. */
  ghost predicate AnswersLast(cfg: Config, pending: seq<(nat, Bytes)>, n: nat, wanted: nat, net: nat -> Reply,
          f: Flushed)
  {
    if n >= |pending| then f.events == [] && f.result == Ok(Ambiguous(Disappeared)) else
      && SentCount(f.events) > 0 && n + SentCount(f.events) <= |pending|
      && (var k := n + SentCount(f.events) - 1;
          && LastForward(f.events) == Some(Sent(pending[k].0, pending[k].1, net(k)))
          && AnswersReply(cfg, wanted, f, Sent(pending[k].0, pending[k].1, net(k))))
  }

  lemma {:induction false} CountConcat(a: seq<Event>, b: seq<Event>)
    ensures SentCount(a + b) == SentCount(a) + SentCount(b)
    ensures LastForward(a + b) == if LastForward(b).Some? then LastForward(b) else LastForward(a)
    ensures LastForward(b).Some? <==> SentCount(b) > 0
    decreases |b|
  {
    if b == [] {
      assert a + b == a;
    } else {
      CountConcat(a, b[..|b| - 1]);
      assert (a + b)[..|a + b| - 1] == a + b[..|b| - 1];
    }
  }

  lemma {:induction false} OneSent(sent: Event, sequence: nat)
    requires sent.Sent?
    ensures SentCount([sent]) == 1 && LastForward([sent]) == Some(sent) && !Retired([sent])
    ensures var two := [sent] + [Marked(sequence)];
      SentCount(two) == 1 && LastForward(two) == Some(sent) && Retired(two)
  {
    assert [sent][..0] == [] && SentCount([]) == 0;
    assert ([sent] + [Marked(sequence)])[..1] == [sent];
  }

  lemma {:induction false} MarkFails(cfg: Config, s: Store, sequence: nat, submit: Bytes, disk: Disk)
    requires sequence in s.entries && s.entries[sequence] == Pending(submit) && sequence < U64_LIMIT
    ensures var (after, r) := Mark(cfg, s, cfg.epoch, sequence, disk);
      r.Err? ==> r.error == MarkFault(cfg, after)
  {
    AckRecordSize(cfg.crc, sequence);
    hide OpBytes;
  }

  // More events before a flush that forwards something change nothing in its answer.
  lemma {:induction false} AnswerAfter(cfg: Config, pending: seq<(nat, Bytes)>, n: nat, wanted: nat,
          net: nat -> Reply, events: seq<Event>, f: Flushed)
    requires n < |pending| && AnswersLast(cfg, pending, n, wanted, net, f)
    ensures var g := Preceded(events, f);
      && LastForward(g.events) == LastForward(f.events) &&
           SentCount(g.events) == SentCount(events) + SentCount(f.events)
      && AnswersReply(cfg, wanted, g, LastForward(f.events).value)
  {
    CountConcat(events, f.events);
    CountConcat([], f.events);
    assert f.events != [] by { assert SentCount([]) == 0; }
    assert (events + f.events)[|events + f.events| - 1] == f.events[|f.events| - 1];
    hide SentCount, LastForward;
    assert Retired(events + f.events) == Retired(f.events);
  }

  lemma {:induction false} GoesOn(cfg: Config, pending: seq<(nat, Bytes)>, n: nat, wanted: nat, net: nat -> Reply,
          f: Flushed)
    requires n < |pending| && AnswersLast(cfg, pending, n + 1, wanted, net, f)
    requires Acknowledges(cfg.epoch, pending[n].0, net(n)) && pending[n].0 != wanted
    ensures var (sequence, submit) := pending[n];
      AnswersLast(cfg, pending, n, wanted, net, Preceded([Sent(sequence, submit, net(n))] + [Marked(sequence)], f))
  {
    var (sequence, submit) := pending[n];
    var sent := Sent(sequence, submit, net(n));
    var two := [sent] + [Marked(sequence)];
    OneSent(sent, sequence);
    if n + 1 < |pending| {
      AnswerAfter(cfg, pending, n + 1, wanted, net, two, f);
      hide AnswersReply, SentCount, LastForward;
    } else {
      assert two + [] == two;
    }
  }

  // A flush that ends with its first forward, not retired or retired.
  lemma {:induction false} EndsSent(cfg: Config, pending: seq<(nat, Bytes)>, n: nat, wanted: nat, net: nat -> Reply,
          store: Store, result: Result<Outcome, ClientError>)
    requires n < |pending|
    requires var outcome := Classify(cfg.epoch, pending[n].0, net(n));
      result == if outcome.Committed? then Err(OutboxFailed(MarkFault(cfg, store))) else Ok(outcome)
    ensures var sent := Sent(pending[n].0, pending[n].1, net(n));
      AnswersLast(cfg, pending, n, wanted, net, Flushed(store, result, [sent]))
  {
    OneSent(Sent(pending[n].0, pending[n].1, net(n)), pending[n].0);
    hide SentCount, LastForward;
  }

  lemma {:induction false} EndsMarked(cfg: Config, pending: seq<(nat, Bytes)>, n: nat, net: nat -> Reply, store: Store)
    requires n < |pending| && Classify(cfg.epoch, pending[n].0, net(n)).Committed?
    ensures var sent, outcome := Sent(pending[n].0, pending[n].1, net(n)), Classify(cfg.epoch, pending[n].0, net(n));
      AnswersLast(cfg, pending, n, pending[n].0, net, Flushed(store, Ok(outcome), [sent] + [Marked(pending[n].0)]))
  {
    OneSent(Sent(pending[n].0, pending[n].1, net(n)), pending[n].0);
    hide SentCount, LastForward;
  }

  lemma {:induction false} CommittedIs(epoch: nat, sequence: nat, reply: Reply)
    ensures Classify(epoch, sequence, reply).Committed? <==> Acknowledges(epoch, sequence, reply)
    ensures Classify(epoch, sequence, reply).Committed? ==>
      Classify(epoch, sequence, reply).epoch == epoch && Classify(epoch, sequence, reply).sequence == sequence
  {
  }

  /** Every flush answers by its last reply: a refusal is that of the error frame just
      received, a commit has the offsets of the ACK just received, of the very submission
      wanted, once it is retired, and every other reply has its own kind of doubt. */
  lemma {:induction false} FlushAnswersLast(cfg: Config, s: Store, pending: seq<(nat, Bytes)>, n: nat, wanted: nat,
          net: nat -> Reply, disk: nat -> Disk)
    requires n <= |pending| && Ready(s.entries, pending, n)
    ensures AnswersLast(cfg, pending, n, wanted, net, Flush(cfg, s, pending, n, wanted, net, disk))
    decreases |pending| - n
  {
    if n == |pending| { return; }
    hide AnswersLast, Classify, Mark, Acknowledges;
    var (sequence, submit) := pending[n];
    var outcome := Classify(cfg.epoch, sequence, net(n));
    CommittedIs(cfg.epoch, sequence, net(n));
    if !outcome.Committed? {
      EndsSent(cfg, pending, n, wanted, net, s, Ok(outcome));
      return;
    }
    MarkPending(cfg, s, sequence, submit, disk(n));
    MarkFails(cfg, s, sequence, submit, disk(n));
    var (after, marked) := Mark(cfg, s, outcome.epoch, outcome.sequence, disk(n));
    if marked.Err? {
      EndsSent(cfg, pending, n, wanted, net, after, Err(OutboxFailed(marked.error)));
    } else if sequence == wanted {
      EndsMarked(cfg, pending, n, net, after);
    } else {
      ReadyAfterMark(s.entries, pending, n);
      FlushAnswersLast(cfg, after, pending, n + 1, wanted, net, disk);
      GoesOn(cfg, pending, n, wanted, net, Flush(cfg, after, pending, n + 1, wanted, net, disk));
    }
  }

  // Why a submission could not be staged, if it could not.
  function StageFault(cfg: Config, s: Store, records: seq<Bytes>, staging: Disk): Option<ClientError> {
    if |s.entries| == U64_LIMIT then Some(OutboxFailed(SequenceExhausted)) else
      match cfg.wire.encode(|s.entries|, records)
      case None => Some(WireFailed)
      case Some(submit) =>
        if s.used + 21 + |submit| > cfg.max then Some(OutboxFailed(CapacityExceeded(s.used, 21 + |submit|, cfg.max)))
        else if staging != Synced then Some(OutboxFailed(Io)) else None
  }

  lemma {:induction false} StageFaults(cfg: Config, s: Store, records: seq<Bytes>, staging: Disk)
    requires SoundWire(cfg.wire) && Dense(s.entries) && |s.entries| < U64_LIMIT
    requires cfg.wire.encode(|s.entries|, records).Some?
    ensures var r := Stage(cfg, s, cfg.wire.encode(|s.entries|, records).value, staging).1;
      StageFault(cfg, s, records, staging) == if r.Err? then Some(OutboxFailed(r.error)) else None
  {
    var submit := cfg.wire.encode(|s.entries|, records).value;
    assert cfg.wire.sequenceOf(submit) == Ok(|s.entries|) && OpFits(Submitted(|s.entries|, submit));
    assert |s.entries| !in s.entries;
    hide OpBytes, SoundWire, Dense;
    SubmitRecordSize(cfg.crc, |s.entries|, submit);
  }

  ghost predicate SubmitAnswers(cfg: Config, wanted: nat, fault: Option<ClientError>, net: nat -> Reply, f: Flushed) {
    if fault.Some? then f.events == [] && f.result == Err(fault.value) else
      && LastForward(f.events).Some? && SentCount(f.events) > 0
      && AnswersReply(cfg, wanted, f, LastForward(f.events).value)
      && LastForward(f.events).value.reply == net(SentCount(f.events) - 1)
  }

  function StagedStore(cfg: Config, s: Store, records: seq<Bytes>, staging: Disk): Store
    requires SoundWire(cfg.wire)
  {
    match cfg.wire.encode(|s.entries|, records)
    case None => s
    case Some(submit) => Stage(cfg, s, submit, staging).0
  }

  lemma {:induction false} SubmitUnfolds(cfg: Config, s: Store, records: seq<Bytes>, staging: Disk,
          net: nat -> Reply, disk: nat -> Disk)
    requires SoundWire(cfg.wire) && Dense(s.entries) && |s.entries| <= U64_LIMIT
    ensures var f, fault := SubmitIs(cfg, s, records, staging, net, disk), StageFault(cfg, s, records, staging);
      if fault.Some? then f.events == [] && f.result == Err(fault.value) else
        var after := StagedStore(cfg, s, records, staging);
        && cfg.wire.encode(|s.entries|, records).Some? && Dense(after.entries) && |after.entries| <= U64_LIMIT
        && |s.entries| < |after.entries| && after.entries[|s.entries|].Pending?
        && f == Preceded([Staged(|s.entries|, cfg.wire.encode(|s.entries|, records).value)],
                         Flush(cfg, after, PendingFrom(after.entries, 0), 0, |s.entries|, net, disk))
  {
    hide Stage, Flush, PendingFrom, SoundWire;
    if |s.entries| < U64_LIMIT && cfg.wire.encode(|s.entries|, records).Some? {
      StageFaults(cfg, s, records, staging);
      if StageFault(cfg, s, records, staging).None? { StagedIsNext(cfg, s, records, staging); }
    }
  }

  lemma {:induction false} NothingSent(e: Event)
    requires !e.Sent?
    ensures SentCount([e]) == 0
  {
    assert [e][..0] == [];
  }

  /** And every submit: the fault that kept it from staging, or the answer to the last reply. */
  lemma {:induction false} SubmitAnswersLast(cfg: Config, s: Store, records: seq<Bytes>, staging: Disk,
          net: nat -> Reply, disk: nat -> Disk)
    requires SoundWire(cfg.wire) && Dense(s.entries) && |s.entries| <= U64_LIMIT
    ensures SubmitAnswers(cfg, |s.entries|, StageFault(cfg, s, records, staging), net,
      SubmitIs(cfg, s, records, staging, net, disk))
  {
    hide Stage, Flush, Ready, SoundWire, PendingFrom, StageFault, AnswersReply, SubmitIs, SentCount, LastForward;
    SubmitUnfolds(cfg, s, records, staging, net, disk);
    if StageFault(cfg, s, records, staging).None? {
      var after := StagedStore(cfg, s, records, staging);
      var pending := PendingFrom(after.entries, 0);
      ReadyAtFirst(after.entries);
      PendingFromHas(after.entries, 0, |s.entries|);
      FlushAnswersLast(cfg, after, pending, 0, |s.entries|, net, disk);
      var rest := Flush(cfg, after, pending, 0, |s.entries|, net, disk);
      var first := [Staged(|s.entries|, cfg.wire.encode(|s.entries|, records).value)];
      AnswerAfter(cfg, pending, 0, |s.entries|, net, first, rest);
      NothingSent(first[0]);
    }
  }
}
