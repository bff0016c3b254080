/** The producer against its Scribe: submissions in flight may be delivered late, more
    than once or never, and the Scribe applies each sequence once. */
module ScribeRuns {
  import opened Prelude
  import opened OutboxWal
  import opened ProducerClient
  import opened ProducerRuns

  /** The outbox entries and the client's past, what is in flight, and what the Scribe
      has applied, in order. */
  datatype World = World(entries: Entries, events: seq<Event>, flight: set<(nat, Bytes)>, log: seq<(nat, Bytes)>)

  datatype Move = Client(event: Event) | Deliver(sequence: nat, submit: Bytes)

  ghost predicate Applied(log: seq<(nat, Bytes)>, sequence: nat) {
    exists i :: 0 <= i < |log| && log[i].0 == sequence
  }

  // The client does what it may; only what was sent arrives; and an ACK that makes the
  // client retire a sequence comes from a Scribe that has applied it.
  ghost predicate CanMove(epoch: nat, w: World, m: Move) {
    match m
    case Client(event) => Allowed(epoch, w.entries, w.events, event) &&
        (event.Marked? ==> Applied(w.log, event.sequence))
    case Deliver(sequence, submit) => (sequence, submit) in w.flight
  }

  ghost function AfterMove(w: World, m: Move): World {
    match m
    case Client(event) =>
      World(ApplyEvent(w.entries, event), w.events + [event],
            if event.Sent? then w.flight + {(event.sequence, event.submit)} else w.flight, w.log)
    case Deliver(sequence, submit) =>
      if Applied(w.log, sequence) then w else w.(log := w.log + [(sequence, submit)])
  }

  /** The Scribe's log is the staged submissions in order, each once and with its exact
      bytes, up to some point; everything retired is in it; and nothing in flight could
      leave a gap. */
  ghost predicate Ordered(w: World) {
    && Dense(w.entries) && |w.log| <= |w.entries|
    && (forall i :: 0 <= i < |w.log| ==> i in w.entries && w.log[i] == (i, w.entries[i].submit))
    && (forall s :: s in w.entries && w.entries[s].Acknowledged? ==> s < |w.log|)
    && (forall p :: p in w.flight ==> p.0 in w.entries && p.1 == w.entries[p.0].submit && p.0 <= |w.log|)
  }

  lemma {:induction false} AppliedIs(w: World, sequence: nat)
    requires Ordered(w)
    ensures Applied(w.log, sequence) <==> sequence < |w.log|
  {
    if sequence < |w.log| { assert w.log[sequence].0 == sequence; }
    if Applied(w.log, sequence) { var i :| 0 <= i < |w.log| && w.log[i].0 == sequence; assert w.log[i].0 == i; }
  }

  lemma {:induction false} StagingKeepsOrder(w: World, submit: Bytes)
    requires Ordered(w)
    ensures Ordered(w.(entries := w.entries[|w.entries| := Pending(submit)]))
  {
    assert |w.entries[|w.entries| := Pending(submit)]| == |w.entries| + 1;
  }

  lemma {:induction false} SendingKeepsOrder(w: World, sequence: nat, submit: Bytes)
    requires Ordered(w) && sequence in w.entries && w.entries[sequence] == Pending(submit) &&
      AckedBelow(w.entries, sequence)
    ensures Ordered(w.(flight := w.flight + {(sequence, submit)}))
  {
    if sequence > 0 { assert w.entries[sequence - 1].Acknowledged?; }
  }

  lemma {:induction false} MarkingKeepsOrder(w: World, sequence: nat)
    requires Ordered(w) && sequence in w.entries && Applied(w.log, sequence)
    ensures Ordered(w.(entries := w.entries[sequence := Acknowledged(w.entries[sequence].submit)]))
  {
    AppliedIs(w, sequence);
    var after := w.entries[sequence := Acknowledged(w.entries[sequence].submit)];
    assert after.Keys == w.entries.Keys && |after| == |after.Keys| && |w.entries| == |w.entries.Keys|;
  }

  lemma {:induction false} DeliveryKeepsOrder(w: World, sequence: nat, submit: Bytes)
    requires Ordered(w) && (sequence, submit) in w.flight && !Applied(w.log, sequence)
    ensures Ordered(w.(log := w.log + [(sequence, submit)]))
  {
    AppliedIs(w, sequence);
    assert sequence == |w.log|;
  }

  lemma {:induction false} MoveKeepsOrder(epoch: nat, w: World, m: Move)
    requires Ordered(w) && CanMove(epoch, w, m)
    ensures Ordered(AfterMove(w, m))
  {
    match m {
      case Client(Staged(sequence, submit)) => StagingKeepsOrder(w, submit);
      case Client(Sent(sequence, submit, reply)) => SendingKeepsOrder(w, sequence, submit);
      case Client(Marked(sequence)) => MarkingKeepsOrder(w, sequence);
      case Deliver(sequence, submit) => if !Applied(w.log, sequence) { DeliveryKeepsOrder(w, sequence, submit); }
    }
  }

  // Whole runs. ------------------------------------------------------------------------------

  ghost function AfterMoves(w: World, moves: seq<Move>): World {
    if moves == [] then w else AfterMove(AfterMoves(w, moves[..|moves| - 1]), moves[|moves| - 1])
  }

  ghost predicate IsRun(epoch: nat, w: World, moves: seq<Move>) {
    moves != [] ==>
      var front := moves[..|moves| - 1];
      IsRun(epoch, w, front) && CanMove(epoch, AfterMoves(w, front), moves[|moves| - 1])
  }

  /** Over every run: the Scribe's log is a duplicate-free prefix of what was staged, in
      order, and includes everything the client retired. */
  lemma {:induction false} LogIsStagedPrefix(epoch: nat, w: World, moves: seq<Move>)
    requires Ordered(w) && IsRun(epoch, w, moves)
    ensures Ordered(AfterMoves(w, moves))
  {
    if moves != [] {
      var front := moves[..|moves| - 1];
      LogIsStagedPrefix(epoch, w, front);
      MoveKeepsOrder(epoch, AfterMoves(w, front), moves[|moves| - 1]);
    }
  }

  const NOTHING_YET: World := World(map[], [], {}, [])

  /** So it is for every life of a producer, from its first submission on. */
  lemma {:induction false} EveryLifeIsOrdered(epoch: nat, moves: seq<Move>)
    requires IsRun(epoch, NOTHING_YET, moves)
    ensures Ordered(AfterMoves(NOTHING_YET, moves))
  {
    assert Ordered(NOTHING_YET);
    LogIsStagedPrefix(epoch, NOTHING_YET, moves);
  }

  // Client runs among deliveries. ---------------------------------------------------------------

  ghost function EventsOf(moves: seq<Move>): seq<Event> {
    if moves == [] then [] else
      EventsOf(moves[..|moves| - 1]) + (if moves[|moves| - 1].Client? then [moves[|moves| - 1].event] else [])
  }

  // Only what is in flight arrives, and only applied sequences are acknowledged.
  ghost predicate HonestWorld(w: World, moves: seq<Move>) {
    moves != [] ==>
      var front, last := moves[..|moves| - 1], moves[|moves| - 1];
      && HonestWorld(w, front)
      && (last.Deliver? ==> (last.sequence, last.submit) in AfterMoves(w, front).flight)
      && (last.Client? && last.event.Marked? ==> Applied(AfterMoves(w, front).log, last.event.sequence))
  }

  lemma {:induction false} WorldFollowsClient(w: World, moves: seq<Move>)
    ensures AfterMoves(w, moves).entries == EntriesAfter(w.entries, EventsOf(moves))
    ensures AfterMoves(w, moves).events == w.events + EventsOf(moves)
  {
    if moves == [] {
      assert w.events + [] == w.events;
    } else {
      var front, last := moves[..|moves| - 1], moves[|moves| - 1];
      WorldFollowsClient(w, front);
      if last.Client? {
        ConcatAssoc(w.events, EventsOf(front), [last.event]);
        assert (EventsOf(front) + [last.event])[..|EventsOf(front)|] == EventsOf(front);
      } else {
        assert EventsOf(front) + [] == EventsOf(front);
      }
    }
  }

  /** Any client run, its steps spread among deliveries in any way, is a run of the
      world: so what is proved of every run holds of every use of the client. */
  lemma {:induction false} ClientRunIsWorldRun(epoch: nat, w: World, moves: seq<Move>)
    requires ClientRun(epoch, w.entries, EventsOf(moves)) && HonestWorld(w, moves)
    ensures IsRun(epoch, w, moves)
  {
    if moves != [] {
      var front, last := moves[..|moves| - 1], moves[|moves| - 1];
      WorldFollowsClient(w, front);
      if last.Client? {
        var events := EventsOf(front);
        assert EventsOf(moves) == events + [last.event];
        assert (events + [last.event])[..|events|] == events;
        AllowedAfter(epoch, EntriesAfter(w.entries, events), w.events, events, last.event);
      } else {
        assert EventsOf(front) + [] == EventsOf(front);
      }
      ClientRunIsWorldRun(epoch, w, front);
    }
  }
}
