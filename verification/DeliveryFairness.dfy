/** No event is tried more often than an older one that is still undelivered: in every reachable state
    of the protocol, in mid-round and after crashes as well, provided rows are created in order. */
module DeliveryFairness {
  import opened EventQueues
  import opened DeliveryProtocol

  function Ids(rows: seq<Row>): (ids: seq<string>)
    ensures |ids| == |rows|
  {
    seq(|rows|, i requires 0 <= i < |rows| => rows[i].edgeEventId)
  }

  function Attempts(rows: Table): (counts: seq<nat>)
    ensures |counts| == |rows|
  {
    seq(|rows|, i requires 0 <= i < |rows| => rows[i].attemptCount)
  }

  function SendCounts(rows: Table, sends: map<string, nat>): (counts: seq<nat>)
    ensures |counts| == |rows|
  {
    seq(|rows|, i requires 0 <= i < |rows| => if rows[i].edgeEventId in sends then sends[rows[i].edgeEventId] else 0)
  }

  /** Older pending rows are at least even; they are ahead of a row whose turn in the round is still to
      come when their own turn is over. */
  predicate Fair(rows: Table, counts: seq<nat>, waiting: seq<string>)
    requires |counts| == |rows|
  {
    forall i, j :: 0 <= i < j < |rows| && rows[i].status == PENDING ==>
      counts[i] >= counts[j] + if rows[j].edgeEventId in waiting && rows[i].edgeEventId !in waiting then 1 else 0
  }

  /** The round visits rows in table order. */
  predicate InOrder(rows: Table, waiting: seq<string>) {
    forall k, l, i, j ::
      (0 <= k < l < |waiting| && 0 <= i < |rows| && 0 <= j < |rows|
       && rows[i].edgeEventId == waiting[k] && rows[j].edgeEventId == waiting[l]) ==> i < j
  }

  predicate Known(rows: Table, waiting: seq<string>) {
    forall k :: 0 <= k < |waiting| ==> HasEvent(rows, waiting[k])
  }

  function Todo(phase: Phase): seq<Row> {
    if phase.Idle? then [] else phase.todo
  }

  function Rest(ids: seq<string>): seq<string> {
    if ids == [] then [] else ids[1..]
  }

  /** Whose request is still to be made in this round, and whose attempt is still to be counted. */
  function ToSend(phase: Phase): seq<string> {
    if phase.Sent? || phase.Attempted? then Rest(Ids(Todo(phase))) else Ids(Todo(phase))
  }

  function ToCount(phase: Phase): seq<string> {
    if phase.Attempted? then Rest(Ids(Todo(phase))) else Ids(Todo(phase))
  }

  predicate FairTable(rows: Table, nextId: nat, sends: map<string, nat>) {
    TableOk(rows, nextId) && PendingInOrder(rows) && forall id :: id in sends ==> HasEvent(rows, id)
  }

  predicate FairRound(rows: Table, sends: map<string, nat>, todo: seq<string>, toCount: seq<string>,
                      toSend: seq<string>) {
    && InOrder(rows, todo) && Known(rows, todo)
    && Fair(rows, Attempts(rows), toCount)
    && Fair(rows, SendCounts(rows, sends), toSend)
  }

  predicate FairWorld(w: World) {
    && FairTable(w.rows, w.nextId, w.sends)
    && FairRound(w.rows, w.sends, Ids(Todo(w.phase)), ToCount(w.phase), ToSend(w.phase))
  }

  /** The first in line has its turn. */
  lemma OneTurn(rows: Table, counts: seq<nat>, after: seq<nat>, waiting: seq<string>)
    requires |counts| == |after| == |rows| && UniqueEvents(rows)
    requires waiting != [] && InOrder(rows, waiting) && Known(rows, waiting)
    requires Fair(rows, counts, waiting)
    requires forall i :: 0 <= i < |rows| ==>
               after[i] == counts[i] + if rows[i].edgeEventId == waiting[0] then 1 else 0
    ensures Fair(rows, after, waiting[1..])
  {
    NotTwice(rows, waiting);
    forall i, j | 0 <= i < j < |rows| && rows[i].status == PENDING
      ensures after[i] >= after[j] +
                if rows[j].edgeEventId in waiting[1..] && rows[i].edgeEventId !in waiting[1..] then 1 else 0
    {
      if rows[j].edgeEventId == waiting[0] {
        NothingBeforeTheFirst(rows, waiting, i, j);
      }
    }
  }

  lemma NothingBeforeTheFirst(rows: Table, waiting: seq<string>, i: nat, j: nat)
    requires waiting != [] && InOrder(rows, waiting) && UniqueEvents(rows)
    requires i < j < |rows| && rows[j].edgeEventId == waiting[0]
    ensures rows[i].edgeEventId !in waiting
  {
    assert rows[i].edgeEventId != waiting[0];
  }

  lemma NotTwice(rows: Table, waiting: seq<string>)
    requires waiting != [] && InOrder(rows, waiting) && Known(rows, waiting)
    ensures waiting[0] !in waiting[1..]
    ensures InOrder(rows, waiting[1..]) && Known(rows, waiting[1..])
    ensures forall id :: id in waiting <==> id == waiting[0] || id in waiting[1..]
  {
    assert HasEvent(rows, waiting[0]);
    var i :| 0 <= i < |rows| && rows[i].edgeEventId == waiting[0];
    forall l | 0 < l < |waiting|
      ensures waiting[l] != rows[i].edgeEventId
    {
    }
  }

  /** Fairness depends on ids, statuses and counts only; a delivered row asks for less. */
  lemma FairCarriesOver(rows: Table, rows': Table, counts: seq<nat>, waiting: seq<string>)
    requires |counts| == |rows| == |rows'| && Fair(rows, counts, waiting)
    requires forall i :: 0 <= i < |rows| ==>
               rows'[i].edgeEventId == rows[i].edgeEventId && (rows'[i].status == PENDING ==> rows[i].status == PENDING)
    ensures Fair(rows', counts, waiting)
  {
  }

  lemma UpdateKeepsTable(rows: Table, nextId: nat, sends: map<string, nat>, id: string, c: Change)
    requires FairTable(rows, nextId, sends)
    ensures FairTable(UpdateWhere(rows, id, c), nextId, sends)
  {
    var updated := UpdateWhere(rows, id, c);
    forall i | 0 <= i < |rows|
      ensures updated[i].id == rows[i].id && updated[i].edgeEventId == rows[i].edgeEventId
      ensures updated[i].createdAt == rows[i].createdAt
      ensures updated[i].status == PENDING ==> rows[i].status == PENDING
    {
    }
    UpdateKeepsEvents(rows, id, c);
  }

  lemma UpdateKeepsEvents(rows: Table, id: string, c: Change)
    ensures forall x :: HasEvent(rows, x) ==> HasEvent(UpdateWhere(rows, id, c), x)
  {
    forall x | HasEvent(rows, x)
      ensures HasEvent(UpdateWhere(rows, id, c), x)
    {
      var i :| 0 <= i < |rows| && rows[i].edgeEventId == x;
      assert UpdateWhere(rows, id, c)[i].edgeEventId == x;
    }
  }

  lemma UpdateKeepsOrder(rows: Table, id: string, c: Change, waiting: seq<string>)
    requires InOrder(rows, waiting) && Known(rows, waiting)
    ensures InOrder(UpdateWhere(rows, id, c), waiting) && Known(UpdateWhere(rows, id, c), waiting)
  {
    UpdateKeepsEvents(rows, id, c);
    assert forall i :: 0 <= i < |rows| ==> UpdateWhere(rows, id, c)[i].edgeEventId == rows[i].edgeEventId;
  }

  /** A change that counts no attempt keeps the round fair. */
  lemma UpdateKeepsRound(rows: Table, sends: map<string, nat>, id: string, c: Change,
                         todo: seq<string>, toCount: seq<string>, toSend: seq<string>)
    requires !c.CountAttempt? && FairRound(rows, sends, todo, toCount, toSend)
    ensures FairRound(UpdateWhere(rows, id, c), sends, todo, toCount, toSend)
  {
    var updated := UpdateWhere(rows, id, c);
    UpdateKeepsOrder(rows, id, c, todo);
    assert Attempts(updated) == Attempts(rows);
    assert SendCounts(updated, sends) == SendCounts(rows, sends);
    FairCarriesOver(rows, updated, Attempts(rows), toCount);
    FairCarriesOver(rows, updated, SendCounts(rows, sends), toSend);
  }

  /** Counting the attempt of the first in line takes it off the list of those still to be counted. */
  lemma CountKeepsRound(rows: Table, sends: map<string, nat>, c: Change, todo: seq<string>, toSend: seq<string>)
    requires c.CountAttempt? && todo != [] && UniqueEvents(rows)
    requires FairRound(rows, sends, todo, todo, toSend)
    ensures FairRound(UpdateWhere(rows, todo[0], c), sends, todo, todo[1..], toSend)
  {
    var updated := UpdateWhere(rows, todo[0], c);
    UpdateKeepsOrder(rows, todo[0], c, todo);
    assert SendCounts(updated, sends) == SendCounts(rows, sends);
    FairCarriesOver(rows, updated, Attempts(rows), todo);
    FairCarriesOver(rows, updated, SendCounts(rows, sends), toSend);
    assert UniqueEvents(updated);
    OneTurn(updated, Attempts(rows), Attempts(updated), todo);
  }

  /** Making the request of the first in line takes it off the list of those still to be made. */
  lemma SendKeepsRound(rows: Table, sends: map<string, nat>, sends': map<string, nat>, todo: seq<string>)
    requires todo != [] && UniqueEvents(rows) && FairRound(rows, sends, todo, todo, todo)
    requires sends' == sends[todo[0] := (if todo[0] in sends then sends[todo[0]] else 0) + 1]
    ensures FairRound(rows, sends', todo, todo, todo[1..])
  {
    OneTurn(rows, SendCounts(rows, sends), SendCounts(rows, sends'), todo);
  }

  lemma NextInLine(rows: Table, sends: map<string, nat>, todo: seq<string>)
    requires todo != [] && FairRound(rows, sends, todo, todo[1..], todo[1..])
    ensures FairRound(rows, sends, todo[1..], todo[1..], todo[1..])
  {
    NotTwice(rows, todo);
  }

  lemma {:induction false} PendingPositions(rows: Table, k: nat) returns (i: nat)
    requires k < |Pending(rows)|
    ensures i < |rows| && rows[i] == Pending(rows)[k] && k == |Pending(rows[..i])|
    ensures rows[i].status == PENDING
  {
    var n := |rows| - 1;
    if k < |Pending(rows[..n])| {
      i := PendingPositions(rows[..n], k);
      assert rows[..n][..i] == rows[..i];
    } else {
      i := n;
    }
  }

  lemma {:induction false} PendingGrows(rows: Table, i: nat, j: nat)
    requires i < j <= |rows|
    ensures |Pending(rows[..i])| + (if rows[i].status == PENDING then 1 else 0) <= |Pending(rows[..j])|
    decreases j
  {
    assert rows[..j][..j - 1] == rows[..j - 1];
    if i < j - 1 {
      PendingGrows(rows, i, j - 1);
    }
  }

  lemma {:induction false} PendingPlace(rows: Table, i: nat)
    requires i < |rows| && rows[i].status == PENDING
    ensures |Pending(rows[..i])| < |Pending(rows)| && Pending(rows)[|Pending(rows[..i])|] == rows[i]
  {
    var n := |rows| - 1;
    if i < n {
      PendingPlace(rows[..n], i);
      assert rows[..n][..i] == rows[..i];
    }
  }

  /** A fresh batch is in table order. */
  lemma BatchIsInOrder(rows: Table, nextId: nat, limit: int)
    requires TableOk(rows, nextId) && PendingInOrder(rows)
    ensures InOrder(rows, Ids(Fetched(rows, limit))) && Known(rows, Ids(Fetched(rows, limit)))
  {
    FetchedInTableOrder(rows, nextId, limit);
    var ids := Ids(Fetched(rows, limit));
    forall k, l, i, j | 0 <= k < l < |ids| && 0 <= i < |rows| && 0 <= j < |rows|
                        && rows[i].edgeEventId == ids[k] && rows[j].edgeEventId == ids[l]
      ensures i < j
    {
      var i' := PendingPositions(rows, k);
      var j' := PendingPositions(rows, l);
      assert i' == i && j' == j;
      if j < i {
        PendingGrows(rows, j, i);
      }
    }
    forall k | 0 <= k < |ids|
      ensures HasEvent(rows, ids[k])
    {
      var i := PendingPositions(rows, k);
      assert rows[i].edgeEventId == ids[k];
    }
  }

  /** It takes no pending row ahead of an older one. */
  lemma BatchIsFair(rows: Table, nextId: nat, limit: int, counts: seq<nat>)
    requires TableOk(rows, nextId) && PendingInOrder(rows)
    requires |counts| == |rows| && Fair(rows, counts, [])
    ensures Fair(rows, counts, Ids(Fetched(rows, limit)))
  {
    FetchedInTableOrder(rows, nextId, limit);
    var ids := Ids(Fetched(rows, limit));
    forall i, j | 0 <= i < j < |rows| && rows[i].status == PENDING && rows[j].edgeEventId in ids
      ensures rows[i].edgeEventId in ids
    {
      var l :| 0 <= l < |ids| && ids[l] == rows[j].edgeEventId;
      var j' := PendingPositions(rows, l);
      assert j' == j;
      PendingPlace(rows, i);
      PendingGrows(rows, i, j);
      assert ids[|Pending(rows[..i])|] == rows[i].edgeEventId;
    }
  }

  lemma EnqueueIsFair(w: World, payload: Payload, now: real)
    requires FairWorld(w)
    requires forall i :: 0 <= i < |w.rows| && w.rows[i].status == PENDING ==> w.rows[i].createdAt <= now
    ensures FairWorld(Do(w, Enqueue(payload, now)))
  {
    var id, rows := payload.edgeEventId, Enqueued(w.rows, w.nextId, payload, now);
    if !HasEvent(w.rows, id) {
      NewRowKnown(w.rows, rows, id);
      NewTableIsFair(w.rows, w.nextId, w.sends, payload, now);
      NewRoundIsFair(w.rows, rows, w.sends, Ids(Todo(w.phase)), ToCount(w.phase), ToSend(w.phase));
    }
  }

  lemma NewTableIsFair(rows: Table, nextId: nat, sends: map<string, nat>, payload: Payload, now: real)
    requires FairTable(rows, nextId, sends) && !HasEvent(rows, payload.edgeEventId)
    requires forall i :: 0 <= i < |rows| && rows[i].status == PENDING ==> rows[i].createdAt <= now
    ensures FairTable(Enqueued(rows, nextId, payload, now), nextId + 1, sends)
  {
    NewRowKnown(rows, Enqueued(rows, nextId, payload, now), payload.edgeEventId);
    EnqueueKeepsSchema(rows, nextId, payload, now);
  }

  lemma NewRoundIsFair(rows: Table, more: Table, sends: map<string, nat>,
                       todo: seq<string>, toCount: seq<string>, toSend: seq<string>)
    requires |more| == |rows| + 1 && more[..|rows|] == rows && more[|rows|].attemptCount == 0
    requires forall x :: HasEvent(rows, x) ==> x != more[|rows|].edgeEventId && HasEvent(more, x)
    requires more[|rows|].edgeEventId !in sends
    requires FairRound(rows, sends, todo, toCount, toSend)
    requires (forall x :: x in toCount ==> x in todo) && (forall x :: x in toSend ==> x in todo)
    ensures FairRound(more, sends, todo, toCount, toSend)
  {
    var id := more[|rows|].edgeEventId;
    assert id !in todo;
    NewRowIsFair(rows, more, Attempts(rows), Attempts(more), toCount);
    NewRowIsFair(rows, more, SendCounts(rows, sends), SendCounts(more, sends), toSend);
    NewRowInOrder(rows, more, todo);
  }

  lemma NewRowKnown(rows: Table, more: Table, id: string)
    requires |more| == |rows| + 1 && more[..|rows|] == rows && more[|rows|].edgeEventId == id
    requires !HasEvent(rows, id)
    ensures forall x :: HasEvent(rows, x) ==> x != id && HasEvent(more, x)
  {
    forall x | HasEvent(rows, x)
      ensures x != id && HasEvent(more, x)
    {
      var i :| 0 <= i < |rows| && rows[i].edgeEventId == x;
      assert more[i].edgeEventId == x;
    }
  }

  lemma NewRowInOrder(rows: Table, more: Table, waiting: seq<string>)
    requires |more| == |rows| + 1 && more[..|rows|] == rows
    requires InOrder(rows, waiting) && more[|rows|].edgeEventId !in waiting
    ensures InOrder(more, waiting)
  {
    assert forall i :: 0 <= i < |rows| ==> more[i] == rows[i];
  }

  lemma NewRowIsFair(rows: Table, more: Table, counts: seq<nat>, counts': seq<nat>, waiting: seq<string>)
    requires |counts| == |rows| && |counts'| == |more| == |rows| + 1
    requires more[..|rows|] == rows && counts'[..|rows|] == counts && counts'[|rows|] == 0
    requires more[|rows|].edgeEventId !in waiting
    requires Fair(rows, counts, waiting)
    ensures Fair(more, counts', waiting)
  {
    forall i, j | 0 <= i < j < |more| && more[i].status == PENDING
      ensures counts'[i] >= counts'[j] +
                if more[j].edgeEventId in waiting && more[i].edgeEventId !in waiting then 1 else 0
    {
      assert more[i] == rows[i] && counts'[i] == counts[i];
      if j < |rows| {
        assert more[j] == rows[j] && counts'[j] == counts[j];
      }
    }
  }

  lemma SavePayloadIsFair(w: World, sendAt: string)
    requires FairWorld(w)
    ensures FairWorld(Do(w, SavePayload(sendAt)))
  {
    if w.phase.Next? && w.phase.todo != [] {
      var event, ids := w.phase.todo[0], Ids(w.phase.todo);
      var c := SetPayload(event.payload.(edgeSendAt := sendAt));
      UpdateKeepsTable(w.rows, w.nextId, w.sends, event.edgeEventId, c);
      UpdateKeepsRound(w.rows, w.sends, event.edgeEventId, c, ids, ids, ids);
    }
  }

  lemma SendIsFair(w: World, reply: Reply)
    requires FairWorld(w)
    ensures FairWorld(Do(w, Send(reply)))
  {
    if w.phase.Sending? && w.phase.todo != [] {
      var ids := SendingRound(w);
      var sent := Sending(w, reply, ids);
      SentIsFair(w, sent, ids);
    }
  }

  lemma SendingRound(w: World) returns (ids: seq<string>)
    requires FairWorld(w) && w.phase.Sending? && w.phase.todo != []
    ensures ids == Ids(w.phase.todo) && ids != []
    ensures FairTable(w.rows, w.nextId, w.sends) && FairRound(w.rows, w.sends, ids, ids, ids)
  {
    ids := Ids(w.phase.todo);
  }

  lemma SentIsFair(w: World, sent: World, ids: seq<string>)
    requires FairTable(w.rows, w.nextId, w.sends) && FairRound(w.rows, w.sends, ids, ids, ids)
    requires ids != [] && sent.phase.Sent? && ids == Ids(sent.phase.todo)
    requires sent.rows == w.rows && sent.nextId == w.nextId && sent.sends == w.sends[ids[0] := Sends(w, ids[0]) + 1]
    ensures FairWorld(sent)
  {
    SendKeepsTable(w.rows, w.nextId, w.sends, sent.sends, ids);
    SendKeepsRound(w.rows, w.sends, sent.sends, ids);
    AfterSend(sent, ids);
  }

  lemma Sending(w: World, reply: Reply, ids: seq<string>) returns (sent: World)
    requires w.phase.Sending? && w.phase.todo != [] && ids == Ids(w.phase.todo)
    ensures sent == Do(w, Send(reply)) && sent.phase == Sent(w.phase.todo, reply)
    ensures sent.rows == w.rows && sent.nextId == w.nextId && sent.sends == w.sends[ids[0] := Sends(w, ids[0]) + 1]
  {
    sent := Do(w, Send(reply));
  }

  lemma SendKeepsTable(rows: Table, nextId: nat, sends: map<string, nat>, sends': map<string, nat>, todo: seq<string>)
    requires todo != [] && Known(rows, todo) && FairTable(rows, nextId, sends)
    requires forall id :: id in sends' ==> id in sends || id == todo[0]
    ensures FairTable(rows, nextId, sends')
  {
  }

  lemma AfterSend(w: World, ids: seq<string>)
    requires w.phase.Sent? && ids == Ids(w.phase.todo) && ids != []
    requires FairTable(w.rows, w.nextId, w.sends) && FairRound(w.rows, w.sends, ids, ids, ids[1..])
    ensures FairWorld(w)
  {
  }

  lemma SaveAttemptIsFair(w: World, now: real)
    requires FairWorld(w)
    ensures FairWorld(Do(w, SaveAttempt(now)))
  {
    if w.phase.Sent? && w.phase.todo != [] {
      var ids, tried := Ids(w.phase.todo), Do(w, SaveAttempt(now));
      var c := CountAttempt(now, KeptError(ErrorOf(w.phase.reply)));
      RestIds(w.phase.todo);
      UpdateKeepsTable(w.rows, w.nextId, w.sends, ids[0], c);
      CountKeepsRound(w.rows, w.sends, c, ids, ids[1..]);
      if w.phase.reply.Acknowledged? {
        AfterAttempt(tried, ids);
      } else {
        NextInLine(tried.rows, w.sends, ids);
        AfterTurn(tried, ids[1..]);
      }
    }
  }

  lemma AfterAttempt(w: World, ids: seq<string>)
    requires w.phase.Attempted? && ids == Ids(w.phase.todo) && ids != []
    requires FairTable(w.rows, w.nextId, w.sends) && FairRound(w.rows, w.sends, ids, ids[1..], ids[1..])
    ensures FairWorld(w)
  {
  }

  lemma AfterTurn(w: World, ids: seq<string>)
    requires w.phase.Next? && ids == Ids(w.phase.todo)
    requires FairTable(w.rows, w.nextId, w.sends) && FairRound(w.rows, w.sends, ids, ids, ids)
    ensures FairWorld(w)
  {
  }

  lemma SaveDeliveredIsFair(w: World, now: real)
    requires FairWorld(w)
    ensures FairWorld(Do(w, SaveDelivered(now)))
  {
    if w.phase.Attempted? && w.phase.todo != [] {
      var ids, c := Ids(w.phase.todo), SetDelivered(now);
      RestIds(w.phase.todo);
      UpdateKeepsTable(w.rows, w.nextId, w.sends, ids[0], c);
      UpdateKeepsRound(w.rows, w.sends, ids[0], c, ids, ids[1..], ids[1..]);
      NextInLine(UpdateWhere(w.rows, ids[0], c), w.sends, ids);
      AfterTurn(Do(w, SaveDelivered(now)), ids[1..]);
    }
  }

  lemma StartRoundIsFair(w: World, limit: int)
    requires FairWorld(w)
    ensures FairWorld(Do(w, StartRound(limit)))
  {
    if w.phase.Idle? {
      var batch := Fetched(w.rows, limit);
      BatchIsInOrder(w.rows, w.nextId, limit);
      BatchIsFair(w.rows, w.nextId, limit, Attempts(w.rows));
      BatchIsFair(w.rows, w.nextId, limit, SendCounts(w.rows, w.sends));
      AfterTurn(Do(w, StartRound(limit)), Ids(batch));
    }
  }

  lemma RestIds(todo: seq<Row>)
    requires todo != []
    ensures Ids(todo)[1..] == Ids(todo[1..]) && Ids(todo)[0] == todo[0].edgeEventId
  {
  }

  lemma FairWhenIdle(rows: Table, counts: seq<nat>, waiting: seq<string>)
    requires |counts| == |rows| && Fair(rows, counts, waiting)
    ensures Fair(rows, counts, [])
  {
  }

  lemma StepIsFair(w: World, step: Step)
    requires FairWorld(w)
    requires step.Enqueue? ==>
               forall i :: 0 <= i < |w.rows| && w.rows[i].status == PENDING ==> w.rows[i].createdAt <= step.now
    ensures FairWorld(Do(w, step))
  {
    match step
    case Enqueue(payload, now) => EnqueueIsFair(w, payload, now);
    case StartRound(limit) => StartRoundIsFair(w, limit);
    case SavePayload(sendAt) => SavePayloadIsFair(w, sendAt);
    case Send(reply) => SendIsFair(w, reply);
    case SaveAttempt(now) => SaveAttemptIsFair(w, now);
    case SaveDelivered(now) => SaveDeliveredIsFair(w, now);
    case EndRound =>
    case Crash =>
      FairWhenIdle(w.rows, Attempts(w.rows), ToCount(w.phase));
      FairWhenIdle(w.rows, SendCounts(w.rows, w.sends), ToSend(w.phase));
  }

  /** The clock readings of the enqueues do not run backwards. */
  predicate EnqueuedInOrder(steps: seq<Step>) {
    forall i, j :: 0 <= i < j < |steps| && steps[i].Enqueue? && steps[j].Enqueue? ==> steps[i].now <= steps[j].now
  }

  predicate CreatedBy(rows: Table, steps: seq<Step>) {
    forall i :: 0 <= i < |rows| ==> EnqueuedAt(steps, rows[i].createdAt)
  }

  predicate EnqueuedAt(steps: seq<Step>, at: real) {
    exists k :: 0 <= k < |steps| && steps[k].Enqueue? && steps[k].now == at
  }

  lemma RowsAreCreatedBySteps(w: World, steps: seq<Step>, step: Step)
    requires CreatedBy(w.rows, steps)
    ensures CreatedBy(Do(w, step).rows, steps + [step])
  {
    var rows, more := Do(w, step).rows, steps + [step];
    StepProgress(w, step);
    forall i | 0 <= i < |rows|
      ensures EnqueuedAt(more, rows[i].createdAt)
    {
      if i < |w.rows| {
        assert EnqueuedAt(steps, w.rows[i].createdAt);
        var k :| 0 <= k < |steps| && steps[k].Enqueue? && steps[k].now == w.rows[i].createdAt;
        assert more[k] == steps[k];
      } else {
        assert more[|steps|] == step;
      }
    }
  }

  lemma {:induction false} RunIsFair(steps: seq<Step>)
    requires EnqueuedInOrder(steps)
    ensures FairWorld(Run(FRESH, steps)) && CreatedBy(Run(FRESH, steps).rows, steps)
  {
    if steps != [] {
      var n := |steps| - 1;
      assert steps[..n] + [steps[n]] == steps;
      RunIsFair(steps[..n]);
      StepIsFair(Run(FRESH, steps[..n]), steps[n]);
      RowsAreCreatedBySteps(Run(FRESH, steps[..n]), steps[..n], steps[n]);
    }
  }

  /** Attempt fairness: an undelivered row has been tried, by the count kept in the table and by the
      requests actually made, at least as often as every row enqueued after it. */
  lemma AttemptsAreFair(steps: seq<Step>, i: nat, j: nat)
    requires EnqueuedInOrder(steps)
    requires i < j < |Run(FRESH, steps).rows| && Run(FRESH, steps).rows[i].status == PENDING
    ensures var w := Run(FRESH, steps);
            && w.rows[i].attemptCount >= w.rows[j].attemptCount
            && Sends(w, w.rows[i].edgeEventId) >= Sends(w, w.rows[j].edgeEventId)
  {
    RunIsFair(steps);
    var w := Run(FRESH, steps);
    assert Attempts(w.rows)[i] >= Attempts(w.rows)[j];
    assert SendCounts(w.rows, w.sends)[i] >= SendCounts(w.rows, w.sends)[j];
  }
}
