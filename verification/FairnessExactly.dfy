/** Exactly when the order of attempts is fair: the pending events were created in the order of the table.
    Otherwise some rounds, with nothing but refused requests, let a younger event overtake. */
module FairnessExactly {
  import opened Wrappers
  import opened EventQueues
  import opened DeliveryProtocol
  import opened Delivery
  import opened DeliveryFairness

  /** Every pending row has been tried, and sent, at least as often as every younger row. */
  predicate FairNow(w: World) {
    Fair(w.rows, Attempts(w.rows), []) && Fair(w.rows, SendCounts(w.rows, w.sends), [])
  }

  predicate EnqueueFree(steps: seq<Step>) {
    forall k :: 0 <= k < |steps| ==> !steps[k].Enqueue?
  }

  /** No new event, and rounds of the one batch size that an agent is configured with. */
  predicate Continues(steps: seq<Step>, limit: int) {
    EnqueueFree(steps) && forall k :: 0 <= k < |steps| && steps[k].StartRound? ==> steps[k].limit == limit
  }

  /** Whatever happens to the queue, short of a new event, it stays fair. */
  ghost predicate FairFromNowOn(w: World, limit: int) {
    forall more :: Continues(more, limit) ==> FairNow(Run(w, more))
  }

  // ----- order suffices -----

  predicate SentAreKnown(w: World) {
    forall id :: id in w.sends ==> id in w.first
  }

  lemma SendsStayKnown(w: World, step: Step)
    requires PhaseOk(w.phase, w.first, w.cloud) && SentAreKnown(w)
    ensures SentAreKnown(Do(w, step))
  {
    if step.Send? && w.phase.Sending? && w.phase.todo != [] {
      assert IsFirst(w.first, w.phase.todo[0].edgeEventId, w.phase.todo[0].payload);
    }
  }

  lemma {:induction false} SendsAreKnown(steps: seq<Step>)
    ensures SentAreKnown(Run(FRESH, steps))
  {
    if steps != [] {
      var n := |steps| - 1;
      SendsAreKnown(steps[..n]);
      RunIsSafe(FRESH, steps[..n]);
      SendsStayKnown(Run(FRESH, steps[..n]), steps[n]);
    }
  }

  lemma IdleIsFair(w: World)
    requires w.phase.Idle? && FairTable(w.rows, w.nextId, w.sends) && FairNow(w)
    ensures FairWorld(w)
  {
    assert Ids([]) == [];
  }

  lemma FairWorldIsFairNow(w: World)
    requires FairWorld(w)
    ensures FairNow(w)
  {
    FairWhenIdle(w.rows, Attempts(w.rows), ToCount(w.phase));
    FairWhenIdle(w.rows, SendCounts(w.rows, w.sends), ToSend(w.phase));
  }

  lemma {:induction false} RunStaysFair(w: World, more: seq<Step>)
    requires FairWorld(w) && EnqueueFree(more)
    ensures FairWorld(Run(w, more))
  {
    if more != [] {
      var n := |more| - 1;
      RunStaysFair(w, more[..n]);
      StepIsFair(Run(w, more[..n]), more[n]);
    }
  }

  lemma OrderSuffices(w: World, limit: int)
    requires w.phase.Idle? && FairTable(w.rows, w.nextId, w.sends) && FairNow(w)
    ensures FairFromNowOn(w, limit)
  {
    IdleIsFair(w);
    forall more | Continues(more, limit)
      ensures FairNow(Run(w, more))
    {
      RunStaysFair(w, more);
      FairWorldIsFairNow(Run(w, more));
    }
  }

  // ----- so do rounds of nothing -----

  lemma {:induction false} EmptyRoundsDoNothing(w: World, more: seq<Step>)
    requires w.phase.Idle? && Continues(more, 0)
    ensures var now := Run(w, more);
            now.rows == w.rows && now.sends == w.sends && (now.phase.Idle? || now.phase == Next([]))
  {
    if more != [] {
      EmptyRoundsDoNothing(w, more[..|more| - 1]);
    }
  }

  // ----- otherwise order is needed -----

  const REFUSED := Trip("", NotStored(""), 0.0, 0.0)
  const ACKNOWLEDGED := Trip("", Acknowledged, 0.0, 0.0)

  /** Two pending rows, the later of which was created earlier. */
  predicate Inverted(rows: Table, i: nat, j: nat) {
    && i < j < |rows| && rows[i].status == PENDING && rows[j].status == PENDING
    && rows[i].createdAt > rows[j].createdAt
  }

  /** The place of the pending row that is first in line. */
  predicate FirstInLine(rows: Table, h: nat) {
    && h < |rows| && rows[h].status == PENDING
    && forall k :: 0 <= k < |rows| && k != h && rows[k].status == PENDING ==> Older(rows[h], rows[k])
  }

  /** Every batch starts with it. */
  lemma WhoIsFirst(rows: Table, nextId: nat, limit: int, j: nat) returns (h: nat)
    requires TableOk(rows, nextId) && limit != 0 && j < |rows| && rows[j].status == PENDING
    ensures FirstInLine(rows, h) && Fetched(rows, limit) != [] && Fetched(rows, limit)[0] == rows[h]
  {
    SelectedRows(rows);
    var first := HeadOf(Sort(Pending(rows)), limit, rows[j]);
    h :| h < |rows| && rows[h] == first;
    forall k | 0 <= k < |rows| && k != h && rows[k].status == PENDING
      ensures Older(rows[h], rows[k])
    {
      assert rows[k] in Sort(Pending(rows)) && rows[k].id != first.id;
    }
  }

  lemma HeadOf(sorted: Table, limit: int, some: Row) returns (first: Row)
    requires Sorted(sorted) && some in sorted && limit != 0
    ensures Take(sorted, limit) != [] && Take(sorted, limit)[0] == first && first in sorted
    ensures forall r :: r in sorted && r.id != first.id ==> Older(first, r)
  {
    first := sorted[0];
  }

  /** A round that crashes after its first event. */
  function FirstTurn(limit: int, trip: Trip): seq<Step> {
    [StartRound(limit)] + TripSteps(trip) + [Crash]
  }

  lemma FirstTurnContinues(limit: int, trip: Trip)
    ensures Continues(FirstTurn(limit, trip), limit)
  {
  }

  lemma FirstTurnIsATrip(w: World, limit: int, trip: Trip) returns (after: World)
    requires w.phase.Idle? && Fetched(w.rows, limit) != []
    ensures after == Run(w, FirstTurn(limit, trip)) && after.phase.Idle? && after.nextId == w.nextId
    ensures after.rows == OneTrip(w.rows, Fetched(w.rows, limit)[0], trip)
  {
    var started := RoundStarts(w, limit);
    var done := TripIsSteps(started, Fetched(w.rows, limit), trip);
    after := done.(phase := Idle);
    StepLeads(done, Crash);
    LeadsOn(w, [StartRound(limit)], started, [], TripSteps(trip), done, TripActs(Fetched(w.rows, limit)[0], trip));
    LeadsOn(w, [StartRound(limit)] + TripSteps(trip), done, [] + TripActs(Fetched(w.rows, limit)[0], trip),
            [Crash], after, []);
  }

  /** What it does to two rows of which the later comes before the earlier in every batch. */
  lemma FirstTurnTwoRows(w: World, limit: int, i: nat, j: nat) returns (more: seq<Step>, after: World)
    requires w.phase.Idle? && TableOk(w.rows, w.nextId) && Inverted(w.rows, i, j) && limit != 0
    ensures Continues(more, limit) && after == Run(w, more)
    ensures after.phase.Idle? && TableOk(after.rows, after.nextId) && Inverted(after.rows, i, j)
    ensures after.rows[i].attemptCount == w.rows[i].attemptCount
    ensures |PendingPlaces(after.rows)| < |PendingPlaces(w.rows)|
            || (|PendingPlaces(after.rows)| == |PendingPlaces(w.rows)|
                && after.rows[j].attemptCount == w.rows[j].attemptCount + 1)
  {
    var h := WhoIsFirst(w.rows, w.nextId, limit, j);
    var trip := if h == j then REFUSED else ACKNOWLEDGED;
    more := FirstTurn(limit, trip);
    after := FirstTurnIsATrip(w, limit, trip);
    FirstTurnContinues(limit, trip);
    TripKeepsTable(w.rows, w.nextId, w.rows[h], trip);
    OnlyItsRow(w.rows, w.nextId, h, trip);
    assert PendingPlaces(after.rows) == PendingPlaces(w.rows) - if h == j then {} else {h};
  }

  lemma OnlyItsRow(rows: Table, nextId: nat, h: nat, trip: Trip)
    requires TableOk(rows, nextId) && h < |rows|
    ensures var after := OneTrip(rows, rows[h], trip);
            && after[h].attemptCount == rows[h].attemptCount + 1 && after[h].createdAt == rows[h].createdAt
            && after[h].status == (if trip.reply.Acknowledged? then DELIVERED else rows[h].status)
            && forall k :: 0 <= k < |rows| && k != h ==> after[k] == rows[k]
  {
  }

  predicate Overtaken(w: World, i: nat, j: nat) {
    i < j < |w.rows| && w.rows[i].status == PENDING && w.rows[i].attemptCount < w.rows[j].attemptCount
  }

  /** Such rounds deliver whatever comes before the younger row, and then try it as often as it takes. */
  lemma {:induction false} YoungerOvertakes(w: World, limit: int, i: nat, j: nat) returns (more: seq<Step>)
    requires w.phase.Idle? && TableOk(w.rows, w.nextId) && Inverted(w.rows, i, j) && limit != 0
    ensures Continues(more, limit) && Overtaken(Run(w, more), i, j)
    decreases |PendingPlaces(w.rows)|, w.rows[i].attemptCount + 1 - w.rows[j].attemptCount
  {
    var first, after := FirstTurnTwoRows(w, limit, i, j);
    if Overtaken(after, i, j) {
      more := first;
    } else {
      var rest := YoungerOvertakes(after, limit, i, j);
      RunAppend(w, first, rest);
      more := first + rest;
    }
  }

  lemma OvertakenIsUnfair(w: World, i: nat, j: nat)
    requires Overtaken(w, i, j)
    ensures !FairNow(w)
  {
    assert Attempts(w.rows)[i] < Attempts(w.rows)[j];
  }

  lemma OrderIsNeeded(w: World, limit: int)
    requires w.phase.Idle? && TableOk(w.rows, w.nextId) && FairFromNowOn(w, limit) && limit != 0
    ensures PendingInOrder(w.rows)
  {
    forall i, j | 0 <= i < j < |w.rows| && w.rows[i].status == PENDING == w.rows[j].status
      ensures w.rows[i].createdAt <= w.rows[j].createdAt
    {
      if w.rows[i].createdAt > w.rows[j].createdAt {
        var more := YoungerOvertakes(w, limit, i, j);
        OvertakenIsUnfair(Run(w, more), i, j);
        assert false;
      }
    }
  }

  /** After any run whatever, between two rounds or just after a crash, and for every batch size: the queue
      is fair, and will be until the next event is enqueued, exactly when it is fair now and its pending rows
      were created in table order; a batch size of 0 tries nothing. */
  lemma FairExactlyWhenInOrder(steps: seq<Step>, limit: int)
    requires Run(FRESH, steps).phase.Idle?
    ensures var w := Run(FRESH, steps);
            FairFromNowOn(w, limit) <==> FairNow(w) && (limit == 0 || PendingInOrder(w.rows))
  {
    var w := Run(FRESH, steps);
    SendsAreKnown(steps);
    RunIsSafe(FRESH, steps);
    assert forall id :: id in w.sends ==> HasEvent(w.rows, id);
    if FairNow(w) && PendingInOrder(w.rows) {
      OrderSuffices(w, limit);
    }
    if FairNow(w) && limit == 0 {
      forall more | Continues(more, 0)
        ensures FairNow(Run(w, more))
      {
        EmptyRoundsDoNothing(w, more);
      }
    }
    if FairFromNowOn(w, limit) {
      assert Continues([], limit) && Run(w, []) == w;
      if limit != 0 {
        OrderIsNeeded(w, limit);
      }
    }
  }

  // ----- the same, by the schedule of the enqueues -----

  /** Different events, enqueued one after the other. */
  predicate Schedule(steps: seq<Step>) {
    && (forall k :: 0 <= k < |steps| ==> steps[k].Enqueue?)
    && (forall k, l :: 0 <= k < l < |steps| ==> steps[k].payload.edgeEventId != steps[l].payload.edgeEventId)
  }

  function NewRow(id: nat, step: Step): Row
    requires step.Enqueue?
  {
    Row(id, step.payload.edgeEventId, step.payload, step.now, 0, None, None, PENDING, None)
  }

  lemma {:induction false} ScheduledRows(steps: seq<Step>)
    requires Schedule(steps)
    ensures var w := Run(FRESH, steps);
            && w.phase.Idle? && |w.rows| == w.nextId == |steps| && w.sends == map[]
            && forall k :: 0 <= k < |steps| ==> w.rows[k] == NewRow(k, steps[k])
  {
    if steps != [] {
      var n := |steps| - 1;
      ScheduledRows(steps[..n]);
      var w := Run(FRESH, steps[..n]);
      forall i | 0 <= i < |w.rows|
        ensures w.rows[i].edgeEventId != steps[n].payload.edgeEventId
      {
        assert steps[..n][i] == steps[i];
      }
    }
  }

  /** Whatever happens after a schedule is fair exactly when its clock was never set back. */
  lemma FairExactlyWhenScheduledInOrder(steps: seq<Step>, limit: int)
    requires Schedule(steps) && limit != 0
    ensures EnqueuedInOrder(steps) <==> FairFromNowOn(Run(FRESH, steps), limit)
  {
    var w := Run(FRESH, steps);
    ScheduledRows(steps);
    FairExactlyWhenInOrder(steps, limit);
    assert FairNow(w);
    if PendingInOrder(w.rows) {
      forall i, j | 0 <= i < j < |steps|
        ensures steps[i].now <= steps[j].now
      {
        assert w.rows[i].createdAt <= w.rows[j].createdAt;
      }
    }
  }

  /** With every batch size, a schedule with the clock set back somewhere can be continued so that the
      younger event is tried more often while the older one waits. */
  lemma SetBackClockIsUnfair(steps: seq<Step>, limit: int, i: nat, j: nat)
    requires Schedule(steps) && limit != 0
    requires i < j < |steps| && steps[i].now > steps[j].now
    ensures exists more :: Continues(more, limit) && Overtaken(Run(FRESH, steps + more), i, j)
  {
    ScheduledRows(steps);
    RunIsSafe(FRESH, steps);
    var more := YoungerOvertakes(Run(FRESH, steps), limit, i, j);
    RunAppend(FRESH, steps, more);
  }
}
