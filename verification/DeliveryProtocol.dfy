/** Store and forward as a state machine. Every queue call is a transaction of its own, the send sits
    between transactions, and the process may crash between any two of them
    (src/mvd_edge/app.py process_pending_deliveries over src/mvd_edge/storage/queue.py). */
module DeliveryProtocol {
  import opened Wrappers
  import opened EventQueues
  import Seqs

  /** The cloud keeps one record an edge_event_id: the first payload that arrived with it. */
  type Cloud = seq<Payload>

  predicate Holds(cloud: Cloud, edgeEventId: string) {
    exists i :: 0 <= i < |cloud| && cloud[i].edgeEventId == edgeEventId
  }

  function Received(cloud: Cloud, payload: Payload): Cloud {
    if Holds(cloud, payload.edgeEventId) then cloud else cloud + [payload]
  }

  function Arrived(cloud: Cloud, payload: Payload, reply: Reply): Cloud {
    if reply.NotStored? then cloud else Received(cloud, payload)
  }

  /** The cloud holds what it held, and the payload too unless it was never taken in; what it has it keeps. */
  lemma CloudTakesIn(cloud: Cloud, payload: Payload, reply: Reply, id: string)
    ensures cloud <= Arrived(cloud, payload, reply)
    ensures Holds(Arrived(cloud, payload, reply), id) <==>
              Holds(cloud, id) || (id == payload.edgeEventId && !reply.NotStored?)
  {
    ReceivedHolds(cloud, payload);
  }

  /** Where a delivery round is. The head of todo is the event in hand; all of this is in memory only. */
  datatype Phase =
    | Idle
    | Next(todo: seq<Row>)
    | Sending(todo: seq<Row>, payload: Payload)
    | Sent(todo: seq<Row>, reply: Reply)
    | Attempted(todo: seq<Row>)

  /** rows, nextId and the cloud survive a crash. first and sends are history: what was first enqueued
      under an id, and how many requests were made for it. */
  datatype World = World(
    rows: Table, nextId: nat, cloud: Cloud, phase: Phase,
    first: map<string, Payload>, sends: map<string, nat>)

  const FRESH := World([], 0, [], Idle, map[], map[])

  datatype Step =
    | Enqueue(payload: Payload, now: real)
    | StartRound(limit: int)
    | SavePayload(sendAt: string)
    | Send(reply: Reply)
    | SaveAttempt(now: real)
    | SaveDelivered(now: real)
    | EndRound
    | Crash

  function Sends(w: World, edgeEventId: string): nat {
    if edgeEventId in w.sends then w.sends[edgeEventId] else 0
  }

  function ErrorOf(reply: Reply): Option<string> {
    if reply.Acknowledged? then None else Some(reply.error)
  }

  /** One step; a step that the phase does not allow changes nothing. */
  function Do(w: World, step: Step): World {
    match step
    case Enqueue(payload, now) =>
      var id := payload.edgeEventId;
      w.(rows := Enqueued(w.rows, w.nextId, payload, now),
         nextId := if HasEvent(w.rows, id) then w.nextId else w.nextId + 1,
         first := if id in w.first then w.first else w.first[id := payload])
    case StartRound(limit) =>
      if w.phase.Idle? then w.(phase := Next(Fetched(w.rows, limit))) else w
    case SavePayload(sendAt) =>
      if w.phase.Next? && w.phase.todo != [] then
        var event := w.phase.todo[0];
        var payload := event.payload.(edgeSendAt := sendAt);
        w.(rows := UpdateWhere(w.rows, event.edgeEventId, SetPayload(payload)),
           phase := Sending(w.phase.todo, payload))
      else w
    case Send(reply) =>
      if w.phase.Sending? && w.phase.todo != [] then
        var id := w.phase.todo[0].edgeEventId;
        w.(cloud := Arrived(w.cloud, w.phase.payload, reply),
           phase := Sent(w.phase.todo, reply),
           sends := w.sends[id := Sends(w, id) + 1])
      else w
    case SaveAttempt(now) =>
      if w.phase.Sent? && w.phase.todo != [] then
        w.(rows := UpdateWhere(w.rows, w.phase.todo[0].edgeEventId,
                               CountAttempt(now, KeptError(ErrorOf(w.phase.reply)))),
           phase := if w.phase.reply.Acknowledged? then Attempted(w.phase.todo) else Next(w.phase.todo[1..]))
      else w
    case SaveDelivered(now) =>
      if w.phase.Attempted? && w.phase.todo != [] then
        w.(rows := UpdateWhere(w.rows, w.phase.todo[0].edgeEventId, SetDelivered(now)),
           phase := Next(w.phase.todo[1..]))
      else w
    case EndRound =>
      if w.phase == Next([]) then w.(phase := Idle) else w
    case Crash => w.(phase := Idle)
  }

  function Run(w: World, steps: seq<Step>): World {
    if steps == [] then w else Do(Run(w, steps[..|steps| - 1]), steps[|steps| - 1])
  }

  /** What a step does to the outside, in the journal of the queue and the transport. */
  function ActsOfStep(w: World, step: Step): seq<Act> {
    if step.Enqueue? then [Inserts(step.payload, step.now)]
    else if w.phase.Idle? || w.phase.todo == [] then []
    else
      var event := w.phase.todo[0];
      match step
      case SavePayload(sendAt) =>
        if w.phase.Next? then [Updates(event.edgeEventId, SetPayload(event.payload.(edgeSendAt := sendAt)))] else []
      case Send(reply) => if w.phase.Sending? then [Requests(w.phase.payload, reply)] else []
      case SaveAttempt(now) =>
        if w.phase.Sent? then [Updates(event.edgeEventId, CountAttempt(now, KeptError(ErrorOf(w.phase.reply))))] else []
      case SaveDelivered(now) => if w.phase.Attempted? then [Updates(event.edgeEventId, SetDelivered(now))] else []
      case _ => []
  }

  function ActsOf(w: World, steps: seq<Step>): seq<Act> {
    if steps == [] then [] else
      var n := |steps| - 1;
      ActsOf(w, steps[..n]) + ActsOfStep(Run(w, steps[..n]), steps[n])
  }

  lemma RunSnoc(w: World, steps: seq<Step>, step: Step)
    ensures Run(w, steps + [step]) == Do(Run(w, steps), step)
    ensures ActsOf(w, steps + [step]) == ActsOf(w, steps) + ActsOfStep(Run(w, steps), step)
  {
    assert (steps + [step])[..|steps|] == steps;
  }

  lemma {:induction false} RunAppend(w: World, a: seq<Step>, b: seq<Step>)
    ensures Run(w, a + b) == Run(Run(w, a), b)
    ensures ActsOf(w, a + b) == ActsOf(w, a) + ActsOf(Run(w, a), b)
    decreases |b|
  {
    if b == [] {
      assert a + b == a;
    } else {
      var n := |b| - 1;
      assert a + b == (a + b[..n]) + [b[n]];
      RunAppend(w, a, b[..n]);
      RunSnoc(w, a + b[..n], b[n]);
      Seqs.Assoc(ActsOf(w, a), ActsOf(Run(w, a), b[..n]), ActsOfStep(Run(w, a + b[..n]), b[n]));
    }
  }

  lemma RunOne(w: World, a: Step)
    ensures Run(w, [a]) == Do(w, a) && ActsOf(w, [a]) == ActsOfStep(w, a)
  {
    assert [] + [a] == [a];
    RunSnoc(w, [], a);
  }

  /** The steps take the one world to the other, with these acts; said so that the steps are not replayed
      wherever it is known. */
  ghost predicate Leads(w: World, steps: seq<Step>, later: World, acts: seq<Act>) {
    forall v: World, s: seq<Step> :: v == w && s == steps ==> Run(v, s) == later && ActsOf(v, s) == acts
  }

  lemma StepLeads(w: World, step: Step)
    ensures Leads(w, [step], Do(w, step), ActsOfStep(w, step))
  {
    RunOne(w, step);
  }

  lemma LeadsOn(w: World, a: seq<Step>, now: World, acts: seq<Act>, b: seq<Step>, later: World, more: seq<Act>)
    requires Leads(w, a, now, acts) && Leads(now, b, later, more)
    ensures Leads(w, a + b, later, acts + more)
  {
    RunAppend(w, a, b);
  }

  // ----- what is left of a run that is cut short -----

  /** What survives a crash. */
  datatype Kept = Kept(rows: Table, nextId: nat, cloud: Cloud)

  function KeptOf(w: World): Kept {
    Kept(w.rows, w.nextId, w.cloud)
  }

  lemma CrashKeeps(w: World, steps: seq<Step>)
    ensures KeptOf(Run(w, steps + [Crash])) == KeptOf(Run(w, steps)) && Run(w, steps + [Crash]).phase.Idle?
  {
    RunSnoc(w, steps, Crash);
  }

  /** What one act does, to the table or to the cloud. */
  function Acted(k: Kept, act: Act): Kept {
    match act
    case Inserts(payload, now) =>
      k.(rows := Enqueued(k.rows, k.nextId, payload, now),
         nextId := if HasEvent(k.rows, payload.edgeEventId) then k.nextId else k.nextId + 1)
    case Updates(edgeEventId, change) => k.(rows := UpdateWhere(k.rows, edgeEventId, change))
    case Requests(payload, reply) => k.(cloud := Arrived(k.cloud, payload, reply))
  }

  function Replayed(k: Kept, acts: seq<Act>): Kept {
    if acts == [] then k else Acted(Replayed(k, acts[..|acts| - 1]), acts[|acts| - 1])
  }

  lemma StepIsActed(w: World, step: Step)
    ensures KeptOf(Do(w, step)) == Replayed(KeptOf(w), ActsOfStep(w, step))
    ensures |ActsOfStep(w, step)| <= 1
  {
  }

  lemma {:induction false} ReplayAppend(k: Kept, a: seq<Act>, b: seq<Act>)
    ensures Replayed(k, a + b) == Replayed(Replayed(k, a), b)
    decreases |b|
  {
    if b == [] {
      assert a + b == a;
    } else {
      var n := |b| - 1;
      assert (a + b)[..|a| + n] == a + b[..n];
      ReplayAppend(k, a, b[..n]);
    }
  }

  /** A run does to the table and the cloud what its acts do, one after the other. */
  lemma {:induction false} RunIsReplayed(w: World, steps: seq<Step>)
    ensures KeptOf(Run(w, steps)) == Replayed(KeptOf(w), ActsOf(w, steps))
  {
    if steps != [] {
      var n := |steps| - 1;
      RunIsReplayed(w, steps[..n]);
      StepIsActed(Run(w, steps[..n]), steps[n]);
      ReplayAppend(KeptOf(w), ActsOf(w, steps[..n]), ActsOfStep(Run(w, steps[..n]), steps[n]));
    }
  }

  /** Every prefix of the acts of a run is that of a prefix of its steps. */
  lemma {:induction false} CutShort(w: World, steps: seq<Step>, m: nat) returns (k: nat)
    requires m <= |ActsOf(w, steps)|
    ensures k <= |steps| && ActsOf(w, steps[..k]) == ActsOf(w, steps)[..m]
  {
    var n := |steps| - 1;
    if m == |ActsOf(w, steps)| {
      k := |steps|;
      assert steps[..k] == steps;
    } else {
      StepIsActed(Run(w, steps[..n]), steps[n]);
      k := CutShort(w, steps[..n], m);
      assert steps[..n][..k] == steps[..k];
    }
  }

  // ----- effectively once -----

  /** Equal except for edge_send_at. */
  predicate Same(a: Payload, b: Payload) {
    a.(edgeSendAt := b.edgeSendAt) == b
  }

  type History = map<string, Payload>

  predicate IsFirst(first: History, edgeEventId: string, payload: Payload) {
    edgeEventId in first && payload.edgeEventId == edgeEventId && Same(payload, first[edgeEventId])
  }

  function Copies(cloud: Cloud, edgeEventId: string): nat {
    if cloud == [] then 0 else
      Copies(cloud[..|cloud| - 1], edgeEventId) + if cloud[|cloud| - 1].edgeEventId == edgeEventId then 1 else 0
  }

  predicate RowsOk(rows: Table, first: History, cloud: Cloud) {
    && (forall i :: 0 <= i < |rows| ==> IsFirst(first, rows[i].edgeEventId, rows[i].payload))
    && (forall id :: id in first ==> HasEvent(rows, id))
    && (forall i :: 0 <= i < |rows| && rows[i].status == DELIVERED ==> Holds(cloud, rows[i].edgeEventId))
  }

  predicate CloudOk(cloud: Cloud, first: History) {
    && (forall i :: 0 <= i < |cloud| ==> IsFirst(first, cloud[i].edgeEventId, cloud[i]))
    && (forall i, j :: 0 <= i < j < |cloud| ==> cloud[i].edgeEventId != cloud[j].edgeEventId)
  }

  predicate TodoOk(todo: seq<Row>, first: History) {
    forall k :: 0 <= k < |todo| ==> IsFirst(first, todo[k].edgeEventId, todo[k].payload)
  }

  predicate PhaseOk(phase: Phase, first: History, cloud: Cloud) {
    match phase
    case Idle => true
    case Next(todo) => TodoOk(todo, first)
    case Sending(todo, payload) => TodoOk(todo, first) && todo != [] && IsFirst(first, todo[0].edgeEventId, payload)
    case Sent(todo, reply) =>
      TodoOk(todo, first) && todo != [] && (reply.Acknowledged? ==> Holds(cloud, todo[0].edgeEventId))
    case Attempted(todo) => TodoOk(todo, first) && todo != [] && Holds(cloud, todo[0].edgeEventId)
  }

  predicate Safe(w: World) {
    && TableOk(w.rows, w.nextId)
    && RowsOk(w.rows, w.first, w.cloud)
    && CloudOk(w.cloud, w.first)
    && PhaseOk(w.phase, w.first, w.cloud)
  }

  lemma ReceivedHolds(cloud: Cloud, payload: Payload)
    ensures forall id :: Holds(Received(cloud, payload), id) <==> Holds(cloud, id) || id == payload.edgeEventId
  {
    var after := Received(cloud, payload);
    forall id
      ensures Holds(after, id) <==> Holds(cloud, id) || id == payload.edgeEventId
    {
      if Holds(cloud, id) {
        var i :| 0 <= i < |cloud| && cloud[i].edgeEventId == id;
        assert after[i].edgeEventId == id;
      }
      if id == payload.edgeEventId && !Holds(cloud, id) {
        assert after[|cloud|].edgeEventId == id;
      }
    }
  }

  /** Remembering one more first payload disturbs nothing that is remembered already. */
  lemma MoreFirsts(first: History, more: History)
    requires forall id :: id in first ==> id in more && more[id] == first[id]
    ensures forall id, p :: IsFirst(first, id, p) ==> IsFirst(more, id, p)
  {
  }

  lemma EnqueueIsSafe(w: World, payload: Payload, now: real)
    requires Safe(w)
    ensures Safe(Do(w, Enqueue(payload, now)))
  {
    var id := payload.edgeEventId;
    assert HasEvent(w.rows, id) <==> id in w.first;
    if !HasEvent(w.rows, id) {
      var first := w.first[id := payload];
      MoreFirsts(w.first, first);
      assert IsFirst(first, id, payload);
      EnqueueKeepsSchema(w.rows, w.nextId, payload, now);
      NewRowIsSafe(w.rows, w.nextId, w.first, w.cloud, payload, now);
      assert CloudOk(w.cloud, first) && PhaseOk(w.phase, first, w.cloud);
    }
  }

  lemma NewRowIsSafe(rows: Table, nextId: nat, first: History, cloud: Cloud, payload: Payload, now: real)
    requires RowsOk(rows, first, cloud) && !HasEvent(rows, payload.edgeEventId)
    requires payload.edgeEventId !in first
    ensures RowsOk(Enqueued(rows, nextId, payload, now), first[payload.edgeEventId := payload], cloud)
  {
    var id, more := payload.edgeEventId, Enqueued(rows, nextId, payload, now);
    MoreFirsts(first, first[id := payload]);
    OneMoreEvent(rows, more);
    assert IsFirst(first[id := payload], id, payload);
  }

  lemma OneMoreEvent(rows: Table, more: Table)
    requires |more| == |rows| + 1 && more[..|rows|] == rows
    ensures forall x :: HasEvent(more, x) <==> HasEvent(rows, x) || x == more[|rows|].edgeEventId
  {
    forall x | HasEvent(rows, x)
      ensures HasEvent(more, x)
    {
      var i :| 0 <= i < |rows| && rows[i].edgeEventId == x;
      assert more[i].edgeEventId == x;
    }
    forall x | HasEvent(more, x) && x != more[|rows|].edgeEventId
      ensures HasEvent(rows, x)
    {
      var i :| 0 <= i < |more| && more[i].edgeEventId == x;
      assert rows[i].edgeEventId == x;
    }
  }

  lemma StartRoundIsSafe(w: World, limit: int)
    requires Safe(w)
    ensures Safe(Do(w, StartRound(limit)))
  {
    if w.phase.Idle? {
      FetchedAreTheOldest(w.rows, limit);
      var todo := Fetched(w.rows, limit);
      forall k | 0 <= k < |todo|
        ensures IsFirst(w.first, todo[k].edgeEventId, todo[k].payload)
      {
        assert todo[k] in w.rows;
      }
    }
  }

  /** A change of one row that keeps it a faithful copy, and that delivers it only if the cloud has it. */
  lemma UpdateIsSafe(rows: Table, nextId: nat, first: History, cloud: Cloud, edgeEventId: string, c: Change)
    requires TableOk(rows, nextId) && RowsOk(rows, first, cloud)
    requires c.SetPayload? ==> IsFirst(first, edgeEventId, c.payload)
    requires c.SetDelivered? ==> Holds(cloud, edgeEventId)
    ensures TableOk(UpdateWhere(rows, edgeEventId, c), nextId)
    ensures RowsOk(UpdateWhere(rows, edgeEventId, c), first, cloud)
  {
    var updated := UpdateWhere(rows, edgeEventId, c);
    forall i | 0 <= i < |rows|
      ensures updated[i].id == rows[i].id && updated[i].edgeEventId == rows[i].edgeEventId
      ensures IsFirst(first, updated[i].edgeEventId, updated[i].payload)
      ensures updated[i].status == DELIVERED ==> Holds(cloud, updated[i].edgeEventId)
    {
    }
    forall id | id in first
      ensures HasEvent(updated, id)
    {
      var i :| 0 <= i < |rows| && rows[i].edgeEventId == id;
      assert updated[i].edgeEventId == id;
    }
  }

  lemma SavePayloadIsSafe(w: World, sendAt: string)
    requires Safe(w)
    ensures Safe(Do(w, SavePayload(sendAt)))
  {
    if w.phase.Next? && w.phase.todo != [] {
      var event := w.phase.todo[0];
      var payload := event.payload.(edgeSendAt := sendAt);
      assert IsFirst(w.first, event.edgeEventId, payload);
      UpdateIsSafe(w.rows, w.nextId, w.first, w.cloud, event.edgeEventId, SetPayload(payload));
    }
  }

  lemma SendIsSafe(w: World, reply: Reply)
    requires Safe(w)
    ensures Safe(Do(w, Send(reply)))
  {
    if w.phase.Sending? && w.phase.todo != [] {
      ReceivedHolds(w.cloud, w.phase.payload);
    }
  }

  lemma RestOk(todo: seq<Row>, first: History)
    requires todo != [] && TodoOk(todo, first)
    ensures TodoOk(todo[1..], first)
  {
  }

  lemma SaveAttemptIsSafe(w: World, now: real)
    requires Safe(w)
    ensures Safe(Do(w, SaveAttempt(now)))
  {
    if w.phase.Sent? && w.phase.todo != [] {
      RestOk(w.phase.todo, w.first);
      UpdateIsSafe(w.rows, w.nextId, w.first, w.cloud, w.phase.todo[0].edgeEventId,
                   CountAttempt(now, KeptError(ErrorOf(w.phase.reply))));
    }
  }

  lemma SaveDeliveredIsSafe(w: World, now: real)
    requires Safe(w)
    ensures Safe(Do(w, SaveDelivered(now)))
  {
    if w.phase.Attempted? && w.phase.todo != [] {
      RestOk(w.phase.todo, w.first);
      UpdateIsSafe(w.rows, w.nextId, w.first, w.cloud, w.phase.todo[0].edgeEventId, SetDelivered(now));
    }
  }

  lemma StepIsSafe(w: World, step: Step)
    requires Safe(w)
    ensures Safe(Do(w, step))
  {
    match step
    case Enqueue(payload, now) => EnqueueIsSafe(w, payload, now);
    case StartRound(limit) => StartRoundIsSafe(w, limit);
    case Send(reply) => SendIsSafe(w, reply);
    case SavePayload(sendAt) => SavePayloadIsSafe(w, sendAt);
    case SaveAttempt(now) => SaveAttemptIsSafe(w, now);
    case SaveDelivered(now) => SaveDeliveredIsSafe(w, now);
    case EndRound =>
    case Crash =>
  }

  lemma {:induction false} RunIsSafe(w: World, steps: seq<Step>)
    requires Safe(w)
    ensures Safe(Run(w, steps))
  {
    if steps != [] {
      RunIsSafe(w, steps[..|steps| - 1]);
      StepIsSafe(Run(w, steps[..|steps| - 1]), steps[|steps| - 1]);
    }
  }

  lemma {:induction false} CopiesCounts(cloud: Cloud, edgeEventId: string)
    requires forall i, j :: 0 <= i < j < |cloud| ==> cloud[i].edgeEventId != cloud[j].edgeEventId
    ensures Copies(cloud, edgeEventId) == if Holds(cloud, edgeEventId) then 1 else 0
  {
    if cloud != [] {
      var n := |cloud| - 1;
      CopiesCounts(cloud[..n], edgeEventId);
      if Holds(cloud, edgeEventId) && cloud[n].edgeEventId != edgeEventId {
        var i :| 0 <= i < |cloud| && cloud[i].edgeEventId == edgeEventId;
        assert cloud[..n][i].edgeEventId == edgeEventId;
      }
      if Holds(cloud[..n], edgeEventId) {
        var i :| 0 <= i < n && cloud[..n][i].edgeEventId == edgeEventId;
        assert cloud[i].edgeEventId == edgeEventId;
      }
    }
  }

  /** Effectively once, whatever is enqueued, lost, refused or interrupted: the cloud never holds two
      records of an event, it holds exactly one of a DELIVERED event, and records and rows carry the
      payload that was first enqueued, up to edge_send_at. */
  lemma EffectivelyOnce(steps: seq<Step>, i: nat)
    ensures var w := Run(FRESH, steps);
            && (forall id :: Copies(w.cloud, id) <= 1)
            && (forall k :: 0 <= k < |w.cloud| ==> IsFirst(w.first, w.cloud[k].edgeEventId, w.cloud[k]))
            && (i < |w.rows| ==>
                  && IsFirst(w.first, w.rows[i].edgeEventId, w.rows[i].payload)
                  && (w.rows[i].status == DELIVERED ==> Copies(w.cloud, w.rows[i].edgeEventId) == 1))
  {
    RunIsSafe(FRESH, steps);
    var w := Run(FRESH, steps);
    forall id
      ensures Copies(w.cloud, id) == if Holds(w.cloud, id) then 1 else 0
    {
      CopiesCounts(w.cloud, id);
    }
  }

  function Rows(rows: Table, edgeEventId: string): nat {
    if rows == [] then 0 else
      Rows(rows[..|rows| - 1], edgeEventId) + if rows[|rows| - 1].edgeEventId == edgeEventId then 1 else 0
  }

  lemma {:induction false} RowsCounts(rows: Table, edgeEventId: string)
    requires UniqueEvents(rows)
    ensures Rows(rows, edgeEventId) == if HasEvent(rows, edgeEventId) then 1 else 0
  {
    if rows != [] {
      var n := |rows| - 1;
      RowsCounts(rows[..n], edgeEventId);
      if HasEvent(rows, edgeEventId) && rows[n].edgeEventId != edgeEventId {
        var i :| 0 <= i < |rows| && rows[i].edgeEventId == edgeEventId;
        assert rows[..n][i].edgeEventId == edgeEventId;
      }
      if HasEvent(rows[..n], edgeEventId) {
        var i :| 0 <= i < n && rows[..n][i].edgeEventId == edgeEventId;
        assert rows[i].edgeEventId == edgeEventId;
      }
    }
  }

  predicate EverEnqueued(steps: seq<Step>, edgeEventId: string) {
    exists k :: 0 <= k < |steps| && steps[k].Enqueue? && steps[k].payload.edgeEventId == edgeEventId
  }

  lemma {:induction false} FirstRemembers(steps: seq<Step>, id: string)
    ensures id in Run(FRESH, steps).first <==> EverEnqueued(steps, id)
  {
    if steps != [] {
      var n := |steps| - 1;
      FirstRemembers(steps[..n], id);
      if EverEnqueued(steps, id) && !(steps[n].Enqueue? && steps[n].payload.edgeEventId == id) {
        var k :| 0 <= k < |steps| && steps[k].Enqueue? && steps[k].payload.edgeEventId == id;
        assert steps[..n][k] == steps[k];
      }
      if EverEnqueued(steps[..n], id) {
        var k :| 0 <= k < n && steps[..n][k].Enqueue? && steps[..n][k].payload.edgeEventId == id;
        assert steps[k].Enqueue?;
      }
    }
  }

  /** The payload of the first enqueue under the id. */
  predicate FirstEnqueued(steps: seq<Step>, edgeEventId: string, payload: Payload) {
    exists k :: 0 <= k < |steps| && steps[k].Enqueue? && steps[k].payload == payload
                && payload.edgeEventId == edgeEventId && !EverEnqueued(steps[..k], edgeEventId)
  }

  /** The history variable first holds what its name says. */
  lemma {:induction false} FirstIsFirstEnqueued(steps: seq<Step>, id: string)
    requires id in Run(FRESH, steps).first
    ensures FirstEnqueued(steps, id, Run(FRESH, steps).first[id])
  {
    var n := |steps| - 1;
    FirstRemembers(steps[..n], id);
    if id in Run(FRESH, steps[..n]).first {
      FirstIsFirstEnqueued(steps[..n], id);
      var payload := Run(FRESH, steps).first[id];
      var k :| 0 <= k < n && steps[..n][k].Enqueue? && steps[..n][k].payload == payload
               && payload.edgeEventId == id && !EverEnqueued(steps[..n][..k], id);
      assert steps[..n][..k] == steps[..k] && steps[k].Enqueue?;
    } else {
      assert steps[n].Enqueue? && !EverEnqueued(steps[..n], id);
    }
  }

  /** Nothing is lost and nothing is made up: an id has exactly one row if it was ever enqueued, and
      none, here or in the cloud, if it was not. */
  lemma NothingIsLost(steps: seq<Step>, id: string)
    ensures var w := Run(FRESH, steps);
            && Rows(w.rows, id) == (if EverEnqueued(steps, id) then 1 else 0)
            && (Copies(w.cloud, id) > 0 ==> EverEnqueued(steps, id))
  {
    var w := Run(FRESH, steps);
    RunIsSafe(FRESH, steps);
    FirstRemembers(steps, id);
    RowsCounts(w.rows, id);
    CopiesCounts(w.cloud, id);
  }

  /** Rows keep their place, their ids and the time they were created, attempts are only added, and
      DELIVERED never reverts. */
  predicate Progress(before: Table, after: Table) {
    |before| <= |after| && forall i :: 0 <= i < |before| ==>
      && after[i].id == before[i].id && after[i].edgeEventId == before[i].edgeEventId
      && after[i].createdAt == before[i].createdAt
      && after[i].attemptCount >= before[i].attemptCount
      && (before[i].status == DELIVERED ==> after[i].status == DELIVERED)
  }

  lemma StepProgress(w: World, step: Step)
    ensures Progress(w.rows, Do(w, step).rows)
    ensures w.cloud <= Do(w, step).cloud
  {
  }

  lemma {:induction false} DeliveredForGood(w: World, steps: seq<Step>)
    ensures Progress(w.rows, Run(w, steps).rows)
    ensures w.cloud <= Run(w, steps).cloud
  {
    if steps != [] {
      var before := Run(w, steps[..|steps| - 1]);
      DeliveredForGood(w, steps[..|steps| - 1]);
      StepProgress(before, steps[|steps| - 1]);
      ProgressIsTransitive(w.rows, before.rows, Run(w, steps).rows);
    }
  }

  lemma ProgressIsTransitive(a: Table, b: Table, c: Table)
    requires Progress(a, b) && Progress(b, c)
    ensures Progress(a, c)
  {
  }
}
