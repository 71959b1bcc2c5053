/** When a run of the agent makes delivery rounds, and what it asks of the cloud in them. */
module RoundTheorems {
  import opened Wrappers
  import opened Streams
  import opened Presence
  import opened EventQueues
  import opened DeliveryProtocol
  import opened Delivery
  import opened Turns
  import opened TurnTheorems
  import opened ScanTheorems
  import opened StoreTheorems
  import Seqs

  // ----- what a round asks of the cloud -----

  /** The payloads of the requests among the acts, in order. */
  function Requested(acts: seq<Act>): seq<Payload> {
    if acts == [] then [] else
      var last := acts[|acts| - 1];
      Requested(acts[..|acts| - 1]) + if last.Requests? then [last.payload] else []
  }

  lemma {:induction false} RequestedAppend(a: seq<Act>, b: seq<Act>)
    ensures Requested(a + b) == Requested(a) + Requested(b)
    decreases |b|
  {
    if b == [] {
      assert a + b == a;
    } else {
      var n := |b| - 1;
      assert (a + b)[..|a| + n] == a + b[..n];
      RequestedAppend(a, b[..n]);
    }
  }

  /** The oldest pending rows of the table, in order, as many as the limit allows. */
  predicate OldestPending(rows: Table, limit: int, batch: seq<Row>) {
    && Sorted(batch) && (forall r :: r in batch ==> r in rows && r.status == PENDING)
    && |batch| == (if 0 <= limit < |PendingPlaces(rows)| then limit else |PendingPlaces(rows)|)
    && (forall r, e :: r in rows && r.status == PENDING && r !in batch && e in batch ==> Older(e, r))
  }

  /** One request for each, in order, with its payload up to edge_send_at. */
  predicate RequestsEach(acts: seq<Act>, batch: seq<Row>) {
    var payloads := Requested(acts);
    |payloads| == |batch| && forall k :: 0 <= k < |batch| ==> Same(payloads[k], batch[k].payload)
  }

  lemma TripRequests(event: Row, trip: Trip)
    ensures Requested(TripActs(event, trip)) == [Outgoing(event, trip)]
  {
    var id, payload := event.edgeEventId, Outgoing(event, trip);
    var saved: seq<Act> := [Updates(id, SetPayload(payload))];
    var sent: seq<Act> := [Requests(payload, trip.reply)];
    var counted: seq<Act> := [Updates(id, CountAttempt(trip.attemptAt, KeptError(ErrorOf(trip.reply))))];
    var marked: seq<Act> :=
      if trip.reply.Acknowledged? then [Updates(id, SetDelivered(trip.deliveredAt))] else [];
    assert TripActs(event, trip) == saved + sent + (counted + marked);
    OneRequested(saved);
    OneRequested(sent);
    OneRequested(counted);
    OneRequested(marked);
    RequestedAppend(saved, sent);
    RequestedAppend(counted, marked);
    RequestedAppend(saved + sent, counted + marked);
  }

  lemma OneRequested(acts: seq<Act>)
    requires |acts| <= 1
    ensures Requested(acts) == if acts != [] && acts[0].Requests? then [acts[0].payload] else []
  {
    if acts != [] {
      assert acts[..0] == [];
    }
  }

  lemma {:induction false} RoundRequests(batch: seq<Row>, trips: Stream<Trip>, n: nat)
    requires n <= |batch|
    ensures RequestsEach(RoundActs(batch, trips, n), batch[..n])
  {
    if n > 0 {
      var acts := RoundActs(batch, trips, n - 1);
      RoundRequests(batch, trips, n - 1);
      TripRequests(batch[n - 1], trips.At(n - 1));
      RequestedAppend(acts, TripActs(batch[n - 1], trips.At(n - 1)));
    }
  }

  lemma FetchedAreOldestPending(rows: Table, nextId: nat, limit: int)
    requires TableOk(rows, nextId)
    ensures OldestPending(rows, limit, Fetched(rows, limit))
  {
    FetchedAreTheOldest(rows, limit);
    PendingAreCounted(rows);
  }

  /** What one delivery does. */
  lemma DeliveryRequests(s: Setup, x: Snapshot) returns (round: seq<Act>, batch: seq<Row>)
    requires TableOk(x.store.rows, x.store.nextId)
    ensures var y := Delivering(s, x);
            && y.store.acts == x.store.acts + round && y.store.rounds == x.store.rounds + 1
            && OldestPending(x.store.rows, s.config.queueBatchSize, batch) && RequestsEach(round, batch)
  {
    var limit, trips := s.config.queueBatchSize, s.env.trips.At(x.store.rounds);
    batch := Fetched(x.store.rows, limit);
    round := RoundActs(batch, trips, |batch|);
    FetchedAreOldestPending(x.store.rows, x.store.nextId, limit);
    RoundRequests(batch, trips, |batch|);
    assert batch[..|batch|] == batch;
  }

  // ----- new events are sent in the turn that finds them -----

  function KeptBy(t: Store): Kept {
    Kept(t.rows, t.nextId, t.cloud)
  }

  /** The k-th event of the run, as it is inserted. */
  predicate InsertsEvent(s: Setup, act: Act, d: Detection, k: nat) {
    && act.Inserts? && act.payload.event == d.kind && act.payload.epc == d.epc
    && act.payload.edgeEventId == s.env.stamps.At(k).id
  }

  lemma InsertedOne(s: Setup, x: Snapshot) returns (one: Snapshot, act: Act)
    requires x.store.stamped < |x.senses.log|
    ensures one == InsertOne(s, x) && one.senses == x.senses && one.store.stamped == x.store.stamped + 1
    ensures one.store.acts == x.store.acts + [act] && KeptBy(one.store) == Acted(KeptBy(x.store), act)
    ensures InsertsEvent(s, act, x.senses.log[x.store.stamped], x.store.stamped)
    ensures one.store.rounds == x.store.rounds && one.store.lastDelivery == x.store.lastDelivery
  {
    one := InsertOne(s, x);
    act := one.store.acts[|x.store.acts|];
  }

  /** These acts insert the events of the log from the m-th on. */
  predicate InsertsFrom(s: Setup, inserts: seq<Act>, log: seq<Detection>, m: nat) {
    m + |inserts| == |log| && forall k :: 0 <= k < |inserts| ==> InsertsEvent(s, inserts[k], log[m + k], m + k)
  }

  lemma OneInsertBefore(s: Setup, act: Act, rest: seq<Act>, log: seq<Detection>, m: nat)
    requires m < |log| && InsertsEvent(s, act, log[m], m) && InsertsFrom(s, rest, log, m + 1)
    ensures InsertsFrom(s, [act] + rest, log, m)
  {
    var inserts := [act] + rest;
    forall k | 0 <= k < |inserts|
      ensures InsertsEvent(s, inserts[k], log[m + k], m + k)
    {
      if k > 0 {
        assert inserts[k] == rest[k - 1] && InsertsEvent(s, rest[k - 1], log[m + 1 + (k - 1)], m + 1 + (k - 1));
      }
    }
  }

  /** Enqueueing without an exception inserts the events that have no row yet, and does nothing else. */
  lemma {:induction false} EnqueueingInserts(s: Setup, x: Snapshot) returns (inserts: seq<Act>)
    requires !Enqueueing(s, x).aborted && x.store.stamped <= |x.senses.log|
    ensures var y := Enqueueing(s, x);
            && y.store.acts == x.store.acts + inserts && KeptBy(y.store) == Replayed(KeptBy(x.store), inserts)
            && InsertsFrom(s, inserts, x.senses.log, x.store.stamped)
            && y.store.rounds == x.store.rounds && y.store.lastDelivery == x.store.lastDelivery
    decreases |x.senses.log| - x.store.stamped
  {
    if x.store.stamped == |x.senses.log| {
      inserts := [];
      assert x.store.acts + [] == x.store.acts;
    } else {
      var one, act := InsertedOne(s, x);
      var rest := EnqueueingInserts(s, one);
      inserts := [act] + rest;
      OneInsertBefore(s, act, rest, x.senses.log, x.store.stamped);
      Seqs.Assoc(x.store.acts, [act], rest);
      ReplayAppend(KeptBy(x.store), [act], rest);
      ReplayOne(KeptBy(x.store), act);
    }
  }

  lemma ReplayOne(k: Kept, act: Act)
    ensures Replayed(k, [act]) == Acted(k, act)
  {
    assert [act][..0] == [];
  }

  /** First the events of the log from the m-th on are inserted, then a round makes one request for each of the oldest
      pending rows of the table with the new ones in it, and then come whatever acts. */
  ghost predicate SentAtOnce(s: Setup, before: Store, log: seq<Detection>, m: nat, after: Store) {
    exists inserts: seq<Act>, round: seq<Act>, rest: seq<Act>, batch: seq<Row> ::
      && after.acts == before.acts + inserts + round + rest
      && InsertsFrom(s, inserts, log, m)
      && OldestPending(Replayed(KeptBy(before), inserts).rows, s.config.queueBatchSize, batch)
      && RequestsEach(round, batch)
      && after.rounds > before.rounds
  }

  lemma ForwardingSends(s: Setup, x: Snapshot)
    requires x.store.stamped < |x.senses.log| && !Forwarding(s, x).aborted
    requires TableOk(x.store.rows, x.store.nextId)
    ensures SentAtOnce(s, x.store, x.senses.log, x.store.stamped, Forwarding(s, x).store)
  {
    var queued := Enqueueing(s, x);
    var inserts := EnqueueingInserts(s, x);
    EnqueueingTable(s, x);
    var round, batch := DeliveryRequests(s, queued);
    var sent := Delivering(s, queued);
    var rest := RetryActs(s, sent);
    assert Forwarding(s, x) == Retrying(s, sent);
  }

  lemma {:induction false} EnqueueingTable(s: Setup, x: Snapshot)
    requires TableOk(x.store.rows, x.store.nextId)
    ensures TableOk(Enqueueing(s, x).store.rows, Enqueueing(s, x).store.nextId)
    decreases |x.senses.log| - x.store.stamped
  {
    if x.store.stamped < |x.senses.log| && s.env.inserts.At(x.store.inserted) {
      var d := x.senses.log[x.store.stamped];
      EnqueueKeepsSchema(x.store.rows, x.store.nextId, PayloadOf(s, d, x.store.stamped), s.env.clock.At(x.readings));
      EnqueueingTable(s, InsertOne(s, x));
    }
  }

  lemma RetryActs(s: Setup, x: Snapshot) returns (rest: seq<Act>)
    ensures Retrying(s, x).store.acts == x.store.acts + rest && Retrying(s, x).store.rounds >= x.store.rounds
  {
    rest := Retrying(s, x).store.acts[|x.store.acts|..];
  }

  lemma TurnSends(s: Setup, x: Snapshot)
    requires TableOk(x.store.rows, x.store.nextId) && (!x.aborted ==> x.store.stamped == |x.senses.log|)
    requires var y := Turn(s, x); !y.aborted && |y.senses.log| > |x.senses.log|
    ensures SentAtOnce(s, x.store, Turn(s, x).senses.log, |x.senses.log|, Turn(s, x).store)
  {
    var n := Scanning(s, Connecting(s, x));
    TurnIsForwarding(s, x);
    ProceedingIsScanning(s, Connecting(s, x));
    ForwardingSends(s, n);
  }

  /** Whatever the clock says: a turn that adds events to the log, and is not ended by an exception, inserts them and
      then makes a round over the table with them in it. */
  lemma NewEventsAreSentAtOnce(s: Setup, w: World, n: nat)
    requires TableOk(w.rows, w.nextId) && w.phase.Idle?
    requires var x, y := RunOf(s, w, n), RunOf(s, w, n + 1); !y.aborted && |y.senses.log| > |x.senses.log|
    ensures var x, y := RunOf(s, w, n), RunOf(s, w, n + 1);
            SentAtOnce(s, x.store, y.senses.log, |x.senses.log|, y.store)
  {
    RunFollowsProtocol(s, w, n);
    StoreTable(w, RunOf(s, w, n).store);
    AllStamped(s, w, n);
    TurnSends(s, RunOf(s, w, n));
  }

  /** From the wire to the queue in one turn: a tag that a reply carries, and that was not tracked before, is
      inserted as an ENTER, and the events are sent at once. */
  lemma NewTagIsQueued(s: Setup, w: World, n: nat, epc: string) returns (k: nat)
    requires TableOk(w.rows, w.nextId) && w.phase.Idle?
    requires !RunOf(s, w, n + 1).aborted && SightsNewTag(s, RunOf(s, w, n), RunOf(s, w, n + 1), epc)
    ensures var x, y := RunOf(s, w, n), RunOf(s, w, n + 1);
            && QueuesEnter(x.store.acts, y.store.acts, epc, k)
            && SentAtOnce(s, x.store, y.senses.log, |x.senses.log|, y.store)
  {
    NewTagEnters(s, w, n, epc);
    NewEventsAreSentAtOnce(s, w, n);
    k := InsertOfEnter(s, RunOf(s, w, n), RunOf(s, w, n + 1), epc);
  }

  /** The k-th act is one of the later ones, and inserts an ENTER of the tag. */
  predicate QueuesEnter(acts: seq<Act>, later: seq<Act>, epc: string, k: nat) {
    && |acts| <= k < |later| && later[k].Inserts? && later[k].payload.event == ENTER && later[k].payload.epc == epc
  }

  lemma WhatIsInserted(s: Setup, before: Store, log: seq<Detection>, m: nat, after: Store) returns (inserts: seq<Act>)
    requires SentAtOnce(s, before, log, m, after)
    ensures before.acts + inserts <= after.acts && InsertsFrom(s, inserts, log, m)
  {
    var sent: seq<Act>, round: seq<Act>, rest: seq<Act>, batch: seq<Row> :|
      && after.acts == before.acts + sent + round + rest && InsertsFrom(s, sent, log, m)
      && OldestPending(Replayed(KeptBy(before), sent).rows, s.config.queueBatchSize, batch)
      && RequestsEach(round, batch) && after.rounds > before.rounds;
    inserts := sent;
  }

  lemma InsertOfEnter(s: Setup, x: Snapshot, y: Snapshot, epc: string) returns (k: nat)
    requires LogsEnter(s, x, y, epc) && SentAtOnce(s, x.store, y.senses.log, |x.senses.log|, y.store)
    ensures QueuesEnter(x.store.acts, y.store.acts, epc, k)
  {
    var log, m := y.senses.log, |x.senses.log|;
    var inserts := WhatIsInserted(s, x.store, log, m, y.store);
    var i :| 0 <= i < |log[m..]| && log[m..][i] == Detection(ENTER, epc, Some(s.config.readerId));
    assert InsertsEvent(s, inserts[i], log[m + i], m + i);
    k := |x.store.acts| + i;
    assert (x.store.acts + inserts)[k] == inserts[i];
  }

  // ----- other rounds -----

  /** A round over this table is the first thing done. */
  ghost predicate StartsWithRound(rows: Table, limit: int, acts: seq<Act>) {
    exists round: seq<Act>, batch: seq<Row> ::
      round <= acts && OldestPending(rows, limit, batch) && RequestsEach(round, batch)
  }

  /** A run starts with a round over the table that the last one has left. */
  lemma RunsStartWithARound(s: Setup, w: World, n: nat)
    requires TableOk(w.rows, w.nextId)
    ensures StartsWithRound(w.rows, s.config.queueBatchSize, RunOf(s, w, n).store.acts)
  {
    var x, first := Initial(w), Delivering(s, Initial(w));
    var round, batch := DeliveryRequests(s, x);
    assert first.store.acts == round;
    forall y: Snapshot | first.store.acts <= y.store.acts
      ensures first.store.acts <= Turn(s, y).store.acts
    {
      TurnAddsActs(s, y);
    }
    AlongRun(s, first, n, (y: Snapshot) => first.store.acts <= y.store.acts);
  }

  lemma {:induction false} EnqueueingAddsActs(s: Setup, x: Snapshot)
    ensures x.store.acts <= Enqueueing(s, x).store.acts
    decreases |x.senses.log| - x.store.stamped
  {
    if x.store.stamped < |x.senses.log| && s.env.inserts.At(x.store.inserted) {
      EnqueueingAddsActs(s, InsertOne(s, x));
    }
  }

  lemma TurnAddsActs(s: Setup, x: Snapshot)
    ensures x.store.acts <= Turn(s, x).store.acts
  {
    TurnIsForwarding(s, x);
    EnqueueingAddsActs(s, Scanning(s, Connecting(s, x)));
  }

  /** From x to y nothing is done, or one round is made that was due at a reading of the clock in between, and the
      time of the next reading is kept. */
  ghost predicate RoundWhenDue(s: Setup, x: Snapshot, y: Snapshot) {
    || (y.store.rounds == x.store.rounds && y.store.acts == x.store.acts
        && y.store.lastDelivery == x.store.lastDelivery)
    || (y.store.rounds == x.store.rounds + 1
        && exists r: nat ::
             && x.readings <= r && r + 1 < y.readings
             && s.env.clock.At(r) - x.store.lastDelivery >= s.config.queueRetryInterval
             && y.store.lastDelivery == s.env.clock.At(r + 1))
  }

  lemma RetryingWhenDue(s: Setup, x: Snapshot, y: Snapshot, n: Snapshot)
    requires n.store == x.store && x.readings <= n.readings
    requires y.store == Retrying(s, n).store && Retrying(s, n).readings <= y.readings
    ensures RoundWhenDue(s, x, y)
  {
    if s.env.clock.At(n.readings) - n.store.lastDelivery >= s.config.queueRetryInterval {
      assert y.store.lastDelivery == s.env.clock.At(n.readings + 1);
    }
  }

  /** The acts of a turn without new events are those of at most one round, which is made only when it is due. */
  lemma RoundsAreDue(s: Setup, w: World, n: nat)
    requires !RunOf(s, w, n).aborted && RunOf(s, w, n + 1).senses.log == RunOf(s, w, n).senses.log
    ensures RoundWhenDue(s, RunOf(s, w, n), RunOf(s, w, n + 1))
  {
    AllStamped(s, w, n);
    TurnWhenDue(s, RunOf(s, w, n));
  }

  lemma TurnWhenDue(s: Setup, x: Snapshot)
    requires !x.aborted && x.store.stamped == |x.senses.log| && Turn(s, x).senses.log == x.senses.log
    ensures RoundWhenDue(s, x, Turn(s, x))
  {
    var c := Connecting(s, x);
    TurnIsForwarding(s, x);
    if !c.aborted {
      var n := Scanning(s, c);
      ProceedingIsScanning(s, c);
      assert Forwarding(s, n) == Retrying(s, n);
      RetryingWhenDue(s, x, Turn(s, x), n);
    }
  }
}
