/** What a run of the agent does to the queue and the cloud. */
module StoreTheorems {
  import opened Wrappers
  import opened Streams
  import opened Presence
  import opened PresenceTheorems
  import opened EventQueues
  import opened DeliveryProtocol
  import opened DeliveryFairness
  import opened FairnessExactly
  import opened Delivery
  import opened Turns
  import opened TurnTheorems
  import opened ScanTheorems

  // ----- the queue and the cloud -----

  /** What the run has done to the queue and asked of the cloud is a run of the protocol, act by act. */
  predicate StoreOk(w: World, t: Store) {
    var now := Run(w, t.steps);
    && t.rows == now.rows && t.nextId == now.nextId && t.cloud == now.cloud && now.phase.Idle?
    && t.acts == ActsOf(w, t.steps)
  }

  lemma InsertedOk(w: World, t: Store, payload: Payload, now: real)
    requires StoreOk(w, t)
    ensures StoreOk(w, Inserted(t, payload, now))
  {
    RunSnoc(w, t.steps, Enqueue(payload, now));
  }

  lemma {:induction false} EnqueueingOk(s: Setup, w: World, x: Snapshot)
    requires StoreOk(w, x.store)
    ensures StoreOk(w, Enqueueing(s, x).store)
    decreases |x.senses.log| - x.store.stamped
  {
    if x.store.stamped < |x.senses.log| && s.env.inserts.At(x.store.inserted) {
      InsertedOk(w, x.store, PayloadOf(s, x.senses.log[x.store.stamped], x.store.stamped), s.env.clock.At(x.readings));
      EnqueueingOk(s, w, InsertOne(s, x));
    }
  }

  lemma DeliveredOk(w: World, t: Store, limit: int, trips: Stream<Trip>)
    requires StoreOk(w, t)
    ensures StoreOk(w, DeliveredStore(t, limit, trips))
  {
    var later := RoundIsSteps(Run(w, t.steps), limit, trips);
    RunAppend(w, t.steps, RoundSteps(t.rows, limit, trips));
  }

  lemma DeliveringOk(s: Setup, w: World, x: Snapshot)
    requires StoreOk(w, x.store)
    ensures StoreOk(w, Delivering(s, x).store)
  {
    DeliveredOk(w, x.store, s.config.queueBatchSize, s.env.trips.At(x.store.rounds));
  }

  lemma RetryingOk(s: Setup, w: World, x: Snapshot)
    requires StoreOk(w, x.store)
    ensures StoreOk(w, Retrying(s, x).store)
  {
    DeliveringOk(s, w, x.(readings := x.readings + 1));
  }

  lemma ForwardingOk(s: Setup, w: World, x: Snapshot)
    requires StoreOk(w, x.store)
    ensures StoreOk(w, Forwarding(s, x).store)
  {
    var queued := Enqueueing(s, x);
    EnqueueingOk(s, w, x);
    DeliveringOk(s, w, queued);
    RetryingOk(s, w, queued);
    RetryingOk(s, w, Delivering(s, queued));
  }

  /** Connecting, scanning and reporting leave the store alone. */
  lemma TurnIsForwarding(s: Setup, x: Snapshot)
    ensures var c := Connecting(s, x);
            Turn(s, x).store == if x.aborted || c.aborted then x.store else Forwarding(s, Scanning(s, c)).store
    ensures Scanning(s, Connecting(s, x)).store == x.store
  {
  }

  lemma StoreThroughTurn(s: Setup, w: World, x: Snapshot)
    requires StoreOk(w, x.store)
    ensures StoreOk(w, Turn(s, x).store)
  {
    TurnIsForwarding(s, x);
    ForwardingOk(s, w, Scanning(s, Connecting(s, x)));
  }

  lemma StoreAlongRun(s: Setup, w: World, x: Snapshot, n: nat)
    requires StoreOk(w, x.store)
    ensures StoreOk(w, TurnsFrom(s, x, n).store)
  {
    forall y: Snapshot | StoreOk(w, y.store)
      ensures StoreOk(w, Turn(s, y).store)
    {
      StoreThroughTurn(s, w, y);
    }
    AlongRun(s, x, n, (y: Snapshot) => StoreOk(w, y.store));
  }

  /** A run of the agent is a run of the store-and-forward protocol: the same commits and requests, in the
      same order, to the same queue and cloud. */
  lemma RunFollowsProtocol(s: Setup, w: World, n: nat)
    requires w.phase.Idle?
    ensures StoreOk(w, RunOf(s, w, n).store)
  {
    DeliveringOk(s, w, Initial(w));
    StoreAlongRun(s, w, Delivering(s, Initial(w)), n);
  }

  /** After any number of earlier runs, crashed or not, and this one: a DELIVERED row is stored at the cloud
      exactly once, and the cloud holds nothing twice. */
  lemma DeliveredRowsAreStoredOnce(s: Setup, prior: seq<Step>, n: nat, i: nat)
    requires Run(FRESH, prior).phase.Idle?
    ensures var t := RunOf(s, Run(FRESH, prior), n).store; StoredOnce(Kept(t.rows, t.nextId, t.cloud), i)
  {
    var w := Run(FRESH, prior);
    var t := RunOf(s, w, n).store;
    RunFollowsProtocol(s, w, n);
    RunAppend(FRESH, prior, t.steps);
    EffectivelyOnce(prior + t.steps, i);
  }

  /** The cloud holds nothing twice, and it holds the event of row i if that row says DELIVERED. */
  ghost predicate StoredOnce(k: Kept, i: nat) {
    && (forall id :: Copies(k.cloud, id) <= 1)
    && (i < |k.rows| && k.rows[i].status == DELIVERED ==> Copies(k.cloud, k.rows[i].edgeEventId) == 1)
  }

  // ----- a run that is cut short -----

  /** The table and the cloud when a run from w has done its first m acts. */
  function LeftAfter(w: World, t: Store, m: nat): Kept
    requires m <= |t.acts|
  {
    Replayed(KeptOf(w), t.acts[..m])
  }

  /** A crash of the agent, after whichever of its acts, is a crash of the protocol: what it has done by then
      is what some of its steps do, and leaves the same table and the same cloud. */
  lemma CrashesAreCrashes(s: Setup, w: World, n: nat, m: nat) returns (k: nat)
    requires w.phase.Idle? && m <= |RunOf(s, w, n).store.acts|
    ensures CutAt(w, RunOf(s, w, n).store, m, k)
  {
    RunFollowsProtocol(s, w, n);
    k := CutStore(w, RunOf(s, w, n).store, m);
  }

  predicate CutAt(w: World, t: Store, m: nat, k: nat)
    requires m <= |t.acts|
  {
    && k <= |t.steps| && ActsOf(w, t.steps[..k]) == t.acts[..m]
    && KeptOf(Run(w, t.steps[..k])) == LeftAfter(w, t, m)
  }

  lemma CutStore(w: World, t: Store, m: nat) returns (k: nat)
    requires StoreOk(w, t) && m <= |t.acts|
    ensures CutAt(w, t, m, k)
  {
    k := CutShort(w, t.steps, m);
    RunIsReplayed(w, t.steps[..k]);
  }

  /** Some history of the protocol leaves this table and this cloud behind. */
  ghost predicate LeftBehind(k: Kept) {
    exists steps :: Run(FRESH, steps).phase.Idle? && KeptOf(Run(FRESH, steps)) == k
  }

  /** So the next run starts as any run does, and meanwhile each DELIVERED row is stored exactly once. */
  lemma CrashedRunsAreSafe(s: Setup, prior: seq<Step>, n: nat, m: nat, i: nat)
    requires Run(FRESH, prior).phase.Idle? && m <= |RunOf(s, Run(FRESH, prior), n).store.acts|
    ensures var left := LeftAfter(Run(FRESH, prior), RunOf(s, Run(FRESH, prior), n).store, m);
            LeftBehind(left) && StoredOnce(left, i)
  {
    var w := Run(FRESH, prior);
    var k := CrashesAreCrashes(s, w, n, m);
    LeftBehindOnce(prior, RunOf(s, w, n).store.steps[..k], i);
  }

  lemma LeftBehindOnce(prior: seq<Step>, more: seq<Step>, i: nat)
    ensures LeftBehind(KeptOf(Run(Run(FRESH, prior), more))) && StoredOnce(KeptOf(Run(Run(FRESH, prior), more)), i)
  {
    RunAppend(FRESH, prior, more);
    CrashKeeps(FRESH, prior + more);
    EffectivelyOnce(prior + more, i);
  }

  // ----- an idle agent empties its queue -----

  /** What acknowledged rounds have made of the queue since x. */
  ghost predicate DrainedSince(s: Setup, x: Store, y: Store) {
    && y.rounds >= x.rounds && TableOk(y.rows, y.nextId)
    && |Pending(y.rows)| == Left(|Pending(x.rows)|, (y.rounds - x.rounds) * s.config.queueBatchSize)
  }

  lemma OneMoreDelivery(s: Setup, x: Store, y: Store, trips: Stream<Trip>)
    requires DrainedSince(s, x, y) && s.config.queueBatchSize >= 1 && EverySendSucceeds(trips)
    ensures DrainedSince(s, x, DeliveredStore(y, s.config.queueBatchSize, trips))
  {
    var limit := s.config.queueBatchSize;
    RoundDrains(y.rows, y.nextId, limit, trips);
    OneLimitLess(y.rounds - x.rounds + 1, limit);
    LeftTwice(|Pending(x.rows)|, (y.rounds - x.rounds) * limit, limit);
  }

  lemma RetryDrains(s: Setup, x: Store, y: Snapshot)
    requires DrainedSince(s, x, y.store) && s.config.queueBatchSize >= 1
    requires EverySendSucceeds(s.env.trips.At(y.store.rounds))
    ensures DrainedSince(s, x, Retrying(s, y).store)
  {
    OneMoreDelivery(s, x, y.store, s.env.trips.At(y.store.rounds));
  }

  /** As long as there has been no event. */
  ghost predicate QuietSince(s: Setup, x: Snapshot, y: Snapshot) {
    && |y.senses.log| >= |x.senses.log|
    && (y.senses.log == x.senses.log ==> y.store.stamped == x.store.stamped && DrainedSince(s, x.store, y.store))
  }

  lemma QuietTurn(s: Setup, x: Snapshot, y: Snapshot)
    requires QuietSince(s, x, y) && x.store.stamped == |x.senses.log| && s.config.queueBatchSize >= 1
    requires forall k: nat :: EverySendSucceeds(s.env.trips.At(k))
    ensures QuietSince(s, x, Turn(s, y))
  {
    var c := Connecting(s, y);
    var n := Scanning(s, c);
    TurnIsForwarding(s, y);
    ForwardingKeeps(s, n);
    assert |n.senses.log| >= |y.senses.log|;
    if !y.aborted && !c.aborted && n.senses.log == x.senses.log {
      assert y.senses.log == x.senses.log;
      RetryDrains(s, x.store, n);
    }
  }

  lemma QuietRun(s: Setup, first: Snapshot, m: nat, n: nat)
    requires m <= n
    requires var x := TurnsFrom(s, first, m);
             TableOk(x.store.rows, x.store.nextId) && x.store.stamped == |x.senses.log|
    requires s.config.queueBatchSize >= 1 && forall k: nat :: EverySendSucceeds(s.env.trips.At(k))
    ensures QuietSince(s, TurnsFrom(s, first, m), TurnsFrom(s, first, n))
  {
    var x := TurnsFrom(s, first, m);
    forall y | QuietSince(s, x, y)
      ensures QuietSince(s, x, Turn(s, y))
    {
      QuietTurn(s, x, y);
    }
    assert 0 * s.config.queueBatchSize == 0;
    AlongRunFrom(s, first, m, n, (y: Snapshot) => QuietSince(s, x, y));
  }

  lemma AllStamped(s: Setup, w: World, n: nat)
    ensures var x := RunOf(s, w, n); !x.aborted ==> x.store.stamped == |x.senses.log|
  {
    forall y: Snapshot | !y.aborted ==> y.store.stamped == |y.senses.log|
      ensures !Turn(s, y).aborted ==> Turn(s, y).store.stamped == |Turn(s, y).senses.log|
    {
      ProceedingIsScanning(s, Connecting(s, y));
    }
    AlongRun(s, Delivering(s, Initial(w)), n, (y: Snapshot) => !y.aborted ==> y.store.stamped == |y.senses.log|);
  }

  /** Draining: while every request is acknowledged and no tag comes or goes, the rounds between two turns
      take as many events off the queue as they may, so that enough of them empty it. */
  lemma QuietAgentDrains(s: Setup, w: World, m: nat, n: nat)
    requires TableOk(w.rows, w.nextId) && w.phase.Idle? && s.config.queueBatchSize >= 1
    requires forall k: nat :: EverySendSucceeds(s.env.trips.At(k))
    requires m <= n && !RunOf(s, w, m).aborted && RunOf(s, w, n).senses.log == RunOf(s, w, m).senses.log
    ensures DrainedSince(s, RunOf(s, w, m).store, RunOf(s, w, n).store)
  {
    QuietAgent(s, w, m, n);
  }

  lemma QuietAgent(s: Setup, w: World, m: nat, n: nat)
    requires TableOk(w.rows, w.nextId) && w.phase.Idle? && s.config.queueBatchSize >= 1
    requires forall k: nat :: EverySendSucceeds(s.env.trips.At(k))
    requires m <= n && !RunOf(s, w, m).aborted
    ensures QuietSince(s, RunOf(s, w, m), RunOf(s, w, n))
  {
    RunFollowsProtocol(s, w, m);
    StoreTable(w, RunOf(s, w, m).store);
    AllStamped(s, w, m);
    QuietRun(s, Delivering(s, Initial(w)), m, n);
  }

  /** And they come: when the retry interval is over at the head of a turn, that turn makes a round, unless
      an exception ends it. */
  lemma RoundsAreTimely(s: Setup, w: World, n: nat)
    requires var x, y := RunOf(s, w, n), RunOf(s, w, n + 1);
             && !x.aborted && !y.aborted && Monotone(s.env.clock, y.readings)
             && s.env.clock.At(x.readings) - x.store.lastDelivery >= s.config.queueRetryInterval
    ensures RunOf(s, w, n + 1).store.rounds > RunOf(s, w, n).store.rounds
  {
    TurnMakesRound(s, RunOf(s, w, n));
  }

  lemma TurnMakesRound(s: Setup, x: Snapshot)
    requires var y := Turn(s, x);
             && !x.aborted && !y.aborted && Monotone(s.env.clock, y.readings)
             && s.env.clock.At(x.readings) - x.store.lastDelivery >= s.config.queueRetryInterval
    ensures Turn(s, x).store.rounds > x.store.rounds
  {
    var n := Scanning(s, Connecting(s, x));
    TurnIsForwarding(s, x);
    assert !Forwarding(s, n).aborted && Forwarding(s, n).readings <= Turn(s, x).readings && n.readings >= x.readings;
    ForwardingMakesRound(s, n, x.readings);
  }

  lemma ForwardingMakesRound(s: Setup, x: Snapshot, r: nat)
    requires !Forwarding(s, x).aborted && Monotone(s.env.clock, Forwarding(s, x).readings) && r <= x.readings
    requires s.env.clock.At(r) - x.store.lastDelivery >= s.config.queueRetryInterval
    ensures Forwarding(s, x).store.rounds > x.store.rounds
  {
    EnqueueingKeeps(s, x);
    EnqueueingRounds(s, x);
  }

  lemma {:induction false} EnqueueingRounds(s: Setup, x: Snapshot)
    ensures var y := Enqueueing(s, x).store; y.rounds == x.store.rounds && y.lastDelivery == x.store.lastDelivery
    decreases |x.senses.log| - x.store.stamped
  {
    if x.store.stamped < |x.senses.log| && s.env.inserts.At(x.store.inserted) {
      EnqueueingRounds(s, InsertOne(s, x));
    }
  }

  // ----- the rows of a run -----

  /** The row carries the k-th event of the run. */
  predicate Carries(s: Setup, r: Row, d: Detection, k: nat) {
    var stamp := s.env.stamps.At(k);
    && r.edgeEventId == stamp.id && r.payload.edgeEventId == stamp.id
    && r.payload.edgeEventAt == r.payload.timestamp == stamp.at && r.payload.identity == s.config.identity
    && r.payload.event == d.kind && r.payload.epc == d.epc
    && r.payload.readerId == if d.readerId.Some? && d.readerId.value != "" then d.readerId.value else s.config.readerId
  }

  /** uuid4 gives ids that are new, and new again each time. */
  ghost predicate FreshIds(s: Setup, w: World) {
    && (forall i: nat, j: nat :: i < j ==> s.env.stamps.At(i).id != s.env.stamps.At(j).id)
    && (forall i: nat, k :: 0 <= k < |w.rows| ==> s.env.stamps.At(i).id != w.rows[k].edgeEventId)
  }

  /** The rows added in this run are those of its first events, in order. */
  predicate RowsCarry(s: Setup, w: World, rows: Table, log: seq<Detection>, n: nat) {
    && n <= |log| && |rows| == |w.rows| + n
    && (forall i :: 0 <= i < |w.rows| ==> rows[i].edgeEventId == w.rows[i].edgeEventId)
    && (forall k :: 0 <= k < n ==> Carries(s, rows[|w.rows| + k], log[k], k))
  }

  lemma IdIsNew(s: Setup, w: World, rows: Table, log: seq<Detection>, n: nat)
    requires FreshIds(s, w) && RowsCarry(s, w, rows, log, n)
    ensures !HasEvent(rows, s.env.stamps.At(n).id)
  {
    forall i | 0 <= i < |rows|
      ensures rows[i].edgeEventId != s.env.stamps.At(n).id
    {
      if i >= |w.rows| {
        assert Carries(s, rows[|w.rows| + (i - |w.rows|)], log[i - |w.rows|], i - |w.rows|);
      }
    }
  }

  lemma InsertedRows(s: Setup, w: World, t: Store, log: seq<Detection>, now: real)
    requires FreshIds(s, w) && RowsCarry(s, w, t.rows, log, t.stamped) && t.stamped < |log|
    ensures RowsCarry(s, w, Inserted(t, PayloadOf(s, log[t.stamped], t.stamped), now).rows, log, t.stamped + 1)
  {
    IdIsNew(s, w, t.rows, log, t.stamped);
  }

  lemma {:induction false} EnqueueingRows(s: Setup, w: World, x: Snapshot)
    requires FreshIds(s, w) && RowsCarry(s, w, x.store.rows, x.senses.log, x.store.stamped)
    ensures var y := Enqueueing(s, x); RowsCarry(s, w, y.store.rows, y.senses.log, y.store.stamped)
    decreases |x.senses.log| - x.store.stamped
  {
    if x.store.stamped < |x.senses.log| && s.env.inserts.At(x.store.inserted) {
      InsertedRows(s, w, x.store, x.senses.log, s.env.clock.At(x.readings));
      EnqueueingRows(s, w, InsertOne(s, x));
    }
  }

  /** A round changes nothing in a payload but edge_send_at. */
  lemma RoundKeepsPayloads(rows: Table, nextId: nat, limit: int, trips: Stream<Trip>)
    requires TableOk(rows, nextId)
    ensures var after := Round(rows, limit, trips);
            |after| == |rows| && forall i :: 0 <= i < |rows| ==>
              after[i].edgeEventId == rows[i].edgeEventId && Same(after[i].payload, rows[i].payload)
  {
    var batch, after := Fetched(rows, limit), Round(rows, limit, trips);
    forall i | 0 <= i < |rows|
      ensures after[i].edgeEventId == rows[i].edgeEventId && Same(after[i].payload, rows[i].payload)
    {
      RoundSettlesItsBatch(rows, nextId, limit, trips, i);
      if rows[i] in batch {
        var k :| 0 <= k < |batch| && batch[k] == rows[i];
        assert after[i] == Settled(rows[i], rows[i], trips.At(k));
      }
    }
  }

  lemma DeliveringRows(s: Setup, w: World, x: Snapshot)
    requires TableOk(x.store.rows, x.store.nextId) && RowsCarry(s, w, x.store.rows, x.senses.log, x.store.stamped)
    ensures var y := Delivering(s, x); RowsCarry(s, w, y.store.rows, y.senses.log, y.store.stamped)
  {
    RoundKeepsPayloads(x.store.rows, x.store.nextId, s.config.queueBatchSize, s.env.trips.At(x.store.rounds));
  }

  ghost predicate RowsOk(s: Setup, w: World, x: Snapshot) {
    && StoreOk(w, x.store) && TableOk(x.store.rows, x.store.nextId)
    && RowsCarry(s, w, x.store.rows, x.senses.log, x.store.stamped)
    && (!x.aborted ==> x.store.stamped == |x.senses.log|)
  }

  lemma {:induction false} TableAlongSteps(w: World, steps: seq<Step>)
    requires TableOk(w.rows, w.nextId)
    ensures TableOk(Run(w, steps).rows, Run(w, steps).nextId)
  {
    if steps != [] {
      var n := |steps| - 1;
      TableAlongSteps(w, steps[..n]);
      TableAfterStep(Run(w, steps[..n]), steps[n]);
    }
  }

  lemma TableAfterStep(w: World, step: Step)
    requires TableOk(w.rows, w.nextId)
    ensures TableOk(Do(w, step).rows, Do(w, step).nextId)
  {
    match step
    case Enqueue(payload, now) => EnqueueKeepsSchema(w.rows, w.nextId, payload, now);
    case _ =>
      if !w.phase.Idle? && w.phase.todo != [] {
        UpdateKeepsSchema(w.rows, w.nextId, w.phase.todo[0].edgeEventId, ChangeOf(w, step));
      }
  }

  /** The update that the step makes, if it makes one. */
  function ChangeOf(w: World, step: Step): Change
    requires !w.phase.Idle? && w.phase.todo != []
  {
    match step
    case SavePayload(sendAt) => SetPayload(w.phase.todo[0].payload.(edgeSendAt := sendAt))
    case SaveAttempt(now) => CountAttempt(now, if w.phase.Sent? then KeptError(ErrorOf(w.phase.reply)) else None)
    case SaveDelivered(now) => SetDelivered(now)
    case _ => SetDelivered(0.0)
  }

  lemma StoreTable(w: World, t: Store)
    requires StoreOk(w, t) && TableOk(w.rows, w.nextId)
    ensures TableOk(t.rows, t.nextId)
  {
    TableAlongSteps(w, t.steps);
  }

  lemma RetryingRows(s: Setup, w: World, x: Snapshot)
    requires TableOk(x.store.rows, x.store.nextId) && RowsCarry(s, w, x.store.rows, x.senses.log, x.store.stamped)
    ensures var y := Retrying(s, x); RowsCarry(s, w, y.store.rows, y.senses.log, y.store.stamped)
  {
    DeliveringRows(s, w, x.(readings := x.readings + 1));
  }

  lemma ForwardingRows(s: Setup, w: World, x: Snapshot)
    requires TableOk(w.rows, w.nextId) && FreshIds(s, w) && StoreOk(w, x.store)
    requires RowsCarry(s, w, x.store.rows, x.senses.log, x.store.stamped)
    ensures var y := Forwarding(s, x); RowsCarry(s, w, y.store.rows, y.senses.log, y.store.stamped)
  {
    var queued := Enqueueing(s, x);
    EnqueueingRows(s, w, x);
    EnqueueingOk(s, w, x);
    StoreTable(w, queued.store);
    RetryingRows(s, w, queued);
    DeliveringRows(s, w, queued);
    DeliveringOk(s, w, queued);
    StoreTable(w, Delivering(s, queued).store);
    RetryingRows(s, w, Delivering(s, queued));
  }

  /** More events do not disturb the rows of those before. */
  lemma MoreLog(s: Setup, w: World, rows: Table, log: seq<Detection>, more: seq<Detection>, n: nat)
    requires RowsCarry(s, w, rows, log, n)
    ensures RowsCarry(s, w, rows, log + more, n)
  {
  }

  lemma ScanningRows(s: Setup, w: World, x: Snapshot)
    requires RowsCarry(s, w, x.store.rows, x.senses.log, x.store.stamped)
    ensures var n := Scanning(s, x); n.store == x.store && RowsCarry(s, w, n.store.rows, n.senses.log, n.store.stamped)
  {
    var r := ScanOf(s.wiring.arrivals.At(x.link.commands), s.env.clock.At(x.readings));
    MoreLog(s, w, x.store.rows, x.senses.log,
            Emitted(x.senses.tags, r.epcs, r.at, s.config.exitTimeout, Some(s.config.readerId)), x.store.stamped);
  }

  lemma RowsThroughTurn(s: Setup, w: World, x: Snapshot)
    requires TableOk(w.rows, w.nextId) && FreshIds(s, w) && RowsOk(s, w, x)
    ensures RowsOk(s, w, Turn(s, x))
  {
    var c := Connecting(s, x);
    TurnIsForwarding(s, x);
    StoreThroughTurn(s, w, x);
    StoreTable(w, Turn(s, x).store);
    if !x.aborted && !c.aborted {
      ScanningRows(s, w, c);
      ForwardingRows(s, w, Scanning(s, c));
      ForwardingKeeps(s, Scanning(s, c));
      ProceedingIsScanning(s, c);
    }
  }

  lemma RowsAlongRun(s: Setup, w: World, x: Snapshot, n: nat)
    requires TableOk(w.rows, w.nextId) && FreshIds(s, w) && RowsOk(s, w, x)
    ensures RowsOk(s, w, TurnsFrom(s, x, n))
  {
    forall y | RowsOk(s, w, y)
      ensures RowsOk(s, w, Turn(s, y))
    {
      RowsThroughTurn(s, w, y);
    }
    AlongRun(s, x, n, (y: Snapshot) => RowsOk(s, w, y));
  }

  /** The rows a run has added carry its events, in order: all of them at the head of a turn, and when an
      exception ended the run, all but those not reached. */
  lemma RowsCarryTheEvents(s: Setup, w: World, n: nat)
    requires TableOk(w.rows, w.nextId) && w.phase.Idle? && FreshIds(s, w)
    ensures var x := RunOf(s, w, n);
            && RowsCarry(s, w, x.store.rows, x.senses.log, x.store.stamped)
            && (!x.aborted ==> x.store.stamped == |x.senses.log|)
  {
    var first := Delivering(s, Initial(w));
    DeliveringOk(s, w, Initial(w));
    StoreTable(w, first.store);
    DeliveringRows(s, w, Initial(w));
    RowsAlongRun(s, w, first, n);
  }

  /** The kinds of the rows about one tag, in table order. */
  function RowKinds(rows: Table, epc: string): seq<Kind> {
    if rows == [] then [] else
      var before, last := RowKinds(rows[..|rows| - 1], epc), rows[|rows| - 1];
      if last.payload.epc == epc then before + [last.payload.event] else before
  }

  lemma {:induction false} RowKindsAreLogKinds(rows: Table, log: seq<Detection>, readerId: string, epc: string)
    requires |rows| == |log|
    requires forall k :: 0 <= k < |rows| ==>
               && rows[k].payload.event == log[k].kind && rows[k].payload.epc == log[k].epc
               && log[k].readerId == Some(readerId)
    ensures RowKinds(rows, epc) == Kinds(log, readerId, epc)
  {
    if rows != [] {
      var n := |rows| - 1;
      RowKindsAreLogKinds(rows[..n], log[..n], readerId, epc);
      assert log == log[..n] + [log[n]];
      KindsAppend(log[..n], [log[n]], readerId, epc);
      assert [log[n]][1..] == [];
    }
  }

  lemma {:induction false} LogBy(run: seq<Scan>, timeout: real, readerId: string)
    requires forall i :: 0 <= i < |run| ==> run[i].reader == readerId
    ensures AllBy(Log(run, timeout), readerId)
  {
    if run != [] {
      var before, u := run[..|run| - 1], run[|run| - 1];
      LogBy(before, timeout, readerId);
      EntersBy(After(before, timeout), u.epcs, u.at, readerId);
      ExitsBy(Seen(After(before, timeout), u.epcs, u.at, Some(readerId)), u.at, timeout, readerId);
    }
  }

  lemma PrefixAlternates(kinds: seq<Kind>, more: seq<Kind>)
    requires Alternates(kinds + more)
    ensures Alternates(kinds)
  {
    forall i | 0 <= i < |kinds|
      ensures kinds[i] == if i % 2 == 0 then ENTER else EXIT
    {
      assert kinds[i] == (kinds + more)[i];
    }
  }

  /** End to end: of the rows a run has added, those about one tag alternate ENTER, EXIT, ENTER, ...,
      whatever the clock, the reader, the cloud and the disk did. */
  lemma QueuedEventsAlternate(s: Setup, w: World, n: nat, epc: string)
    requires TableOk(w.rows, w.nextId) && w.phase.Idle? && FreshIds(s, w) && NulFree(s.config.readerId)
    ensures |RunOf(s, w, n).store.rows| >= |w.rows|
    ensures Alternates(RowKinds(RunOf(s, w, n).store.rows[|w.rows|..], epc))
  {
    var x := RunOf(s, w, n);
    RowsCarryTheEvents(s, w, n);
    OutagesLeaveNoTrace(s, w, n);
    CarriedEventsAlternate(s, w, x.store.rows, ValidScans(x.senses.history, s.config.readerId), x.store.stamped, epc,
                           x.senses.history);
  }

  lemma CarriedEventsAlternate(s: Setup, w: World, rows: Table, run: seq<Scan>, n: nat, epc: string,
                               history: seq<ScanRecord>)
    requires run == ValidScans(history, s.config.readerId) && NulFree(s.config.readerId)
    requires RowsCarry(s, w, rows, Log(run, s.config.exitTimeout), n)
    ensures Alternates(RowKinds(rows[|w.rows|..], epc))
  {
    var readerId, log := s.config.readerId, Log(run, s.config.exitTimeout);
    var added, front, tail := rows[|w.rows|..], log[..n], log[n..];
    ScansBy(history, readerId);
    LogBy(run, s.config.exitTimeout, readerId);
    forall k | 0 <= k < |added|
      ensures added[k].payload.event == front[k].kind && added[k].payload.epc == front[k].epc
      ensures front[k].readerId == Some(readerId)
    {
      assert Carries(s, rows[|w.rows| + k], log[k], k);
    }
    RowKindsAreLogKinds(added, front, readerId, epc);
    EventsAlternate(run, s.config.exitTimeout, readerId, epc);
    assert log == front + tail;
    KindsAppend(front, tail, readerId, epc);
    PrefixAlternates(Kinds(front, readerId, epc), Kinds(tail, readerId, epc));
  }

  // ----- fair attempts -----

  /** The enqueues so far were made at readings of the clock, in order. */
  predicate EnqueuesOk(s: Setup, steps: seq<Step>, readings: nat) {
    && EnqueuedInOrder(steps)
    && forall k :: 0 <= k < |steps| && steps[k].Enqueue? ==>
         readings > 0 && s.env.clock.At(0) <= steps[k].now <= s.env.clock.At(readings - 1)
  }

  lemma LaterEnqueuesOk(s: Setup, steps: seq<Step>, readings: nat, later: nat)
    requires EnqueuesOk(s, steps, readings) && readings <= later && Monotone(s.env.clock, later)
    ensures EnqueuesOk(s, steps, later)
  {
  }

  lemma OneMoreEnqueue(s: Setup, steps: seq<Step>, readings: nat, payload: Payload)
    requires EnqueuesOk(s, steps, readings) && Monotone(s.env.clock, readings + 1)
    ensures EnqueuesOk(s, steps + [Enqueue(payload, s.env.clock.At(readings))], readings + 1)
  {
  }

  lemma MoreSteps(s: Setup, steps: seq<Step>, more: seq<Step>, readings: nat)
    requires EnqueuesOk(s, steps, readings) && EnqueueFree(more)
    ensures EnqueuesOk(s, steps + more, readings)
  {
  }

  lemma {:induction false} EnqueueingInOrder(s: Setup, x: Snapshot)
    requires EnqueuesOk(s, x.store.steps, x.readings) && Monotone(s.env.clock, Enqueueing(s, x).readings)
    ensures EnqueuesOk(s, Enqueueing(s, x).store.steps, Enqueueing(s, x).readings)
    decreases |x.senses.log| - x.store.stamped
  {
    if x.store.stamped < |x.senses.log| && s.env.inserts.At(x.store.inserted) {
      EnqueueingKeeps(s, InsertOne(s, x));
      OneMoreEnqueue(s, x.store.steps, x.readings, PayloadOf(s, x.senses.log[x.store.stamped], x.store.stamped));
      EnqueueingInOrder(s, InsertOne(s, x));
    }
  }

  lemma {:induction false} NoEnqueueInRound(trips: Stream<Trip>, n: nat)
    ensures EnqueueFree(BatchSteps(trips, n))
  {
    if n > 0 {
      NoEnqueueInRound(trips, n - 1);
    }
  }

  lemma DeliveringInOrder(s: Setup, x: Snapshot)
    requires EnqueuesOk(s, x.store.steps, x.readings) && Monotone(s.env.clock, x.readings + 1)
    ensures EnqueuesOk(s, Delivering(s, x).store.steps, x.readings + 1)
  {
    var trips := s.env.trips.At(x.store.rounds);
    NoEnqueueInRound(trips, |Fetched(x.store.rows, s.config.queueBatchSize)|);
    MoreSteps(s, x.store.steps, RoundSteps(x.store.rows, s.config.queueBatchSize, trips), x.readings);
    LaterEnqueuesOk(s, Delivering(s, x).store.steps, x.readings, x.readings + 1);
  }

  lemma RetryingInOrder(s: Setup, x: Snapshot)
    requires EnqueuesOk(s, x.store.steps, x.readings) && Monotone(s.env.clock, Retrying(s, x).readings)
    ensures EnqueuesOk(s, Retrying(s, x).store.steps, Retrying(s, x).readings)
  {
    var read := x.(readings := x.readings + 1);
    LaterEnqueuesOk(s, x.store.steps, x.readings, x.readings + 1);
    if s.env.clock.At(x.readings) - x.store.lastDelivery >= s.config.queueRetryInterval {
      DeliveringInOrder(s, read);
    }
  }

  lemma ForwardingInOrder(s: Setup, x: Snapshot)
    requires EnqueuesOk(s, x.store.steps, x.readings) && Monotone(s.env.clock, Forwarding(s, x).readings)
    ensures EnqueuesOk(s, Forwarding(s, x).store.steps, Forwarding(s, x).readings)
  {
    var queued := Enqueueing(s, x);
    EnqueueingInOrder(s, x);
    if !queued.aborted {
      if x.store.stamped < |x.senses.log| {
        DeliveringInOrder(s, queued);
        RetryingInOrder(s, Delivering(s, queued));
      } else {
        RetryingInOrder(s, queued);
      }
    }
  }

  lemma TurnInOrder(s: Setup, x: Snapshot)
    requires EnqueuesOk(s, x.store.steps, x.readings) && Monotone(s.env.clock, Turn(s, x).readings)
    ensures x.readings <= Turn(s, x).readings
    ensures EnqueuesOk(s, Turn(s, x).store.steps, Turn(s, x).readings)
  {
    var c, y := Connecting(s, x), Turn(s, x);
    var n := Scanning(s, c);
    TurnIsForwarding(s, x);
    ForwardingKeeps(s, n);
    if x.aborted || c.aborted {
      LaterEnqueuesOk(s, x.store.steps, x.readings, y.readings);
    } else {
      LaterEnqueuesOk(s, x.store.steps, x.readings, n.readings);
      ForwardingInOrder(s, n);
      LaterEnqueuesOk(s, y.store.steps, Forwarding(s, n).readings, y.readings);
    }
  }

  /** As far as the clock has not run backwards. */
  ghost predicate InOrderSoFar(s: Setup, x: Snapshot) {
    Monotone(s.env.clock, x.readings) ==> EnqueuesOk(s, x.store.steps, x.readings)
  }

  lemma RunInOrder(s: Setup, x: Snapshot, n: nat)
    requires InOrderSoFar(s, x)
    ensures InOrderSoFar(s, TurnsFrom(s, x, n))
  {
    forall y | InOrderSoFar(s, y)
      ensures InOrderSoFar(s, Turn(s, y))
    {
      ReadingsGrow(s, y);
      if Monotone(s.env.clock, Turn(s, y).readings) {
        assert Monotone(s.env.clock, y.readings);
        TurnInOrder(s, y);
      }
    }
    AlongRun(s, x, n, (y: Snapshot) => InOrderSoFar(s, y));
  }

  /** After earlier runs and this one, with a clock that did not run backwards: a pending row has been tried,
      and sent, at least as often as every row enqueued after it. */
  lemma AgentIsFair(s: Setup, prior: seq<Step>, n: nat, i: nat, j: nat)
    requires EnqueuedInOrder(prior) && Run(FRESH, prior).phase.Idle?
    requires forall k :: 0 <= k < |prior| && prior[k].Enqueue? ==> prior[k].now <= s.env.clock.At(0)
    requires Monotone(s.env.clock, RunOf(s, Run(FRESH, prior), n).readings)
    requires var rows := RunOf(s, Run(FRESH, prior), n).store.rows;
             i < j < |rows| && rows[i].status == PENDING
    ensures var t := RunOf(s, Run(FRESH, prior), n).store;
            var now := Run(FRESH, prior + t.steps);
            && t.rows[i].attemptCount >= t.rows[j].attemptCount
            && Sends(now, t.rows[i].edgeEventId) >= Sends(now, t.rows[j].edgeEventId)
  {
    var w := Run(FRESH, prior);
    var first := Delivering(s, Initial(w));
    var t := RunOf(s, w, n).store;
    RunReadings(s, first, n);
    DeliveringInOrder(s, Initial(w));
    RunInOrder(s, first, n);
    RunFollowsProtocol(s, w, n);
    RunAppend(FRESH, prior, t.steps);
    InOrderTogether(s, prior, t.steps, RunOf(s, w, n).readings);
    AttemptsAreFair(prior + t.steps, i, j);
  }

  lemma InOrderTogether(s: Setup, prior: seq<Step>, steps: seq<Step>, readings: nat)
    requires EnqueuedInOrder(prior) && EnqueuesOk(s, steps, readings)
    requires forall k :: 0 <= k < |prior| && prior[k].Enqueue? ==> prior[k].now <= s.env.clock.At(0)
    ensures EnqueuedInOrder(prior + steps)
  {
  }
}
