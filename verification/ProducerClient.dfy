/** The producer client: stage first, then forward in order over a network that may
    drop, delay or mix up replies. */
module ProducerClient {
  import opened Prelude
  import opened OutboxWal
  import opened ProducerOutbox
  import opened OutboxClass

  // What one attempt to forward brings back.
  datatype Reply =
    | Ack(epoch: nat, sequence: nat, first: nat, next: nat)
    | ErrorFrame(code: nat, message: string)
    | OtherFrame
    | NoReply

  datatype Doubt = Transport | AckMismatch | UnexpectedFrame | Disappeared

  datatype Outcome =
    | Committed(epoch: nat, sequence: nat, first: nat, next: nat)
    | Refused(code: nat, message: string)
    | Ambiguous(why: Doubt)

  datatype ClientError = OutboxFailed(error: OutboxError) | WireFailed

  // Reading a reply: only an ACK of this very submission is a commit.
  function Classify(epoch: nat, sequence: nat, reply: Reply): Outcome {
    match reply
    case Ack(e, s, first, next) =>
      if e == epoch && s == sequence && first < next then Committed(e, s, first, next) else Ambiguous(AckMismatch)
    case ErrorFrame(code, message) => Refused(code, message)
    case OtherFrame => Ambiguous(UnexpectedFrame)
    case NoReply => Ambiguous(Transport)
  }

  // What the client does that the rest of the world can see, or that it will remember.
  datatype Event =
    | Staged(sequence: nat, submit: Bytes)
    | Sent(sequence: nat, submit: Bytes, reply: Reply)
    | Marked(sequence: nat)

  datatype Flushed = Flushed(store: Store, result: Result<Outcome, ClientError>, events: seq<Event>)

  // Forwarding the pending list from `n` on; `net` and `disk` say what each attempt meets.
  function Flush(cfg: Config, s: Store, pending: seq<(nat, Bytes)>, n: nat, wanted: nat, net: nat -> Reply,
          disk: nat -> Disk): Flushed
    requires n <= |pending|
    decreases |pending| - n
  {
    if n == |pending| then Flushed(s, Ok(Ambiguous(Disappeared)), []) else
      var (sequence, submit) := pending[n];
      var outcome := Classify(cfg.epoch, sequence, net(n));
      var sent := [Sent(sequence, submit, net(n))];
      if !outcome.Committed? then Flushed(s, Ok(outcome), sent) else
        var (after, marked) := Mark(cfg, s, outcome.epoch, outcome.sequence, disk(n));
        if marked.Err? then Flushed(after, Err(OutboxFailed(marked.error)), sent)
        else if sequence == wanted then Flushed(after, Ok(outcome), sent + [Marked(sequence)])
        else Preceded(sent + [Marked(sequence)], Flush(cfg, after, pending, n + 1, wanted, net, disk))
  }

  function Preceded(events: seq<Event>, f: Flushed): Flushed {
    f.(events := events + f.events)
  }

  lemma {:induction false} PrecededTwice(a: seq<Event>, b: seq<Event>, f: Flushed)
    ensures Preceded(a, Preceded(b, f)) == Preceded(a + b, f)
  {
    ConcatAssoc(a, b, f.events);
  }

  class ProducerWireClient {
    const outbox: Outbox
    var endpoint: string

    constructor (outbox: Outbox, endpoint: string)
      ensures this.outbox == outbox && this.endpoint == endpoint
    {
      this.outbox := outbox;
      this.endpoint := endpoint;
    }

    /** Changes only the route: what is staged, and for whom, stays. */
    method Retarget(endpoint: string)
      modifies this
      ensures this.endpoint == endpoint && unchanged(outbox)
    {
      this.endpoint := endpoint;
    }

    method FlushUntil(wanted: nat, net: nat -> Reply, disk: nat -> Disk)
      returns (r: Result<Outcome, ClientError>, ghost events: seq<Event>)
      requires Dense(outbox.entries)
      modifies outbox
      ensures Flushed(outbox.State(), r, events) ==
        Flush(outbox.cfg, old(outbox.State()), PendingFrom(old(outbox.entries), 0), 0, wanted, net, disk)
    {
      var pending := outbox.PendingSubmissions();
      ghost var s0 := outbox.State();
      events := [];
      hide Mark, PendingFrom;
      var n := 0;
      while n < |pending|
        invariant n <= |pending|
        invariant Flush(outbox.cfg, s0, pending, 0, wanted, net, disk) ==
          Preceded(events, Flush(outbox.cfg, outbox.State(), pending, n, wanted, net, disk))
      {
        var (sequence, submit) := pending[n];
        var outcome := Classify(outbox.cfg.epoch, sequence, net(n));
        ghost var step := [Sent(sequence, submit, net(n))];
        if !outcome.Committed? { return Ok(outcome), events + step; }
        var marked := outbox.MarkCommitted(outcome.epoch, outcome.sequence, disk(n));
        if marked.Err? { return Err(OutboxFailed(marked.error)), events + step; }
        step := step + [Marked(sequence)];
        if sequence == wanted { return Ok(outcome), events + step; }
        PrecededTwice(events, step, Flush(outbox.cfg, outbox.State(), pending, n + 1, wanted, net, disk));
        events := events + step;
        n := n + 1;
      }
      assert events + [] == events;
      return Ok(Ambiguous(Disappeared)), events;
    }

    /** Stages one submission under the next sequence, then flushes up to it. */
    method Submit(records: seq<Bytes>, staging: Disk, net: nat -> Reply, disk: nat -> Disk)
      returns (r: Result<Outcome, ClientError>, ghost events: seq<Event>)
      requires SoundWire(outbox.cfg.wire) && Dense(outbox.entries)
      modifies outbox
      ensures Flushed(outbox.State(), r, events) ==
        SubmitIs(outbox.cfg, old(outbox.State()), records, staging, net, disk)
    {
      events := [];
      var next := NextSequence(outbox.entries);
      if next.Err? { return Err(OutboxFailed(next.error)), events; }
      var encoded := outbox.cfg.wire.encode(next.value, records);
      if encoded.None? { return Err(WireFailed), events; }
      var staged := outbox.StageSubmit(encoded.value, staging);
      if staged.Err? { return Err(OutboxFailed(staged.error)), events; }
      StagedIsNext(outbox.cfg, old(outbox.State()), records, staging);
      hide Stage, Flush, SoundWire;
      r, events := FlushUntil(next.value, net, disk);
      events := [Staged(next.value, encoded.value)] + events;
    }

    /** Retries what is pending, in sequence order; `None` when nothing is. */
    method FlushAll(net: nat -> Reply, disk: nat -> Disk)
      returns (r: Option<Result<Outcome, ClientError>>, ghost events: seq<Event>)
      requires Dense(outbox.entries)
      modifies outbox
      ensures var pending := PendingFrom(old(outbox.entries), 0);
        if pending == [] then r.None? && events == [] && unchanged(outbox)
        else
          && r.Some?
          && Flushed(outbox.State(), r.value, events)
          == Flush(outbox.cfg, old(outbox.State()), pending, 0, pending[|pending| - 1].0, net, disk)
    {
      var pending := outbox.PendingSubmissions();
      if |pending| == 0 { return None, []; }
      var flushed;
      flushed, events := FlushUntil(pending[|pending| - 1].0, net, disk);
      r := Some(flushed);
    }
  }

  function SubmitIs(cfg: Config, s: Store, records: seq<Bytes>, staging: Disk, net: nat -> Reply,
          disk: nat -> Disk): Flushed
    requires SoundWire(cfg.wire) && Dense(s.entries)
  {
    match NextSequence(s.entries)
    case Err(e) => Flushed(s, Err(OutboxFailed(e)), [])
    case Ok(sequence) =>
      match cfg.wire.encode(sequence, records)
      case None => Flushed(s, Err(WireFailed), [])
      case Some(submit) =>
        var (after, staged) := Stage(cfg, s, submit, staging);
        if staged.Err? then Flushed(after, Err(OutboxFailed(staged.error)), []) else
          StagedIsNext(cfg, s, records, staging);
          Preceded([Staged(sequence, submit)], Flush(cfg, after, PendingFrom(after.entries, 0), 0, sequence, net, disk))
  }

  // A submission staged by the client is new and comes last.
  lemma {:induction false} StagedIsNext(cfg: Config, s: Store, records: seq<Bytes>, staging: Disk)
    requires SoundWire(cfg.wire) && Dense(s.entries) && NextSequence(s.entries).Ok? &&
      cfg.wire.encode(|s.entries|, records).Some?
    requires Stage(cfg, s, cfg.wire.encode(|s.entries|, records).value, staging).1.Ok?
    ensures var after := Stage(cfg, s, cfg.wire.encode(|s.entries|, records).value, staging).0;
      && after.entries == s.entries[|s.entries| := Pending(cfg.wire.encode(|s.entries|, records).value)]
      && Dense(after.entries) && |after.entries| == |s.entries| + 1
  {
    hide OpBytes;
    var submit := cfg.wire.encode(|s.entries|, records).value;
    assert cfg.wire.sequenceOf(submit) == Ok(|s.entries|);
    assert |s.entries| !in s.entries;
    assert |s.entries[|s.entries| := Pending(submit)]| == |s.entries| + 1;
  }
}
