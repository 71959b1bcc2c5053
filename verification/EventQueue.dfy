/** The durable event table and the queries on it (src/mvd_edge/storage/queue.py). */
module EventQueues {
  import opened Wrappers
  import opened Presence
  import opened Texts

  datatype Status = PENDING | DELIVERED

  /** Who the device is; fixed by configuration. */
  datatype Identity = Identity(
    customerId: Option<string>, siteId: Option<string>, deviceId: Option<string>,
    applicationProfile: Option<string>, locationId: Option<string>, zoneId: Option<string>)

  datatype Payload = Payload(
    edgeEventId: string, event: Kind, epc: string, readerId: string, identity: Identity,
    timestamp: string, edgeEventAt: string, edgeSendAt: string)

  datatype Row = Row(
    id: nat, edgeEventId: string, payload: Payload, createdAt: real, attemptCount: nat,
    lastAttemptAt: Option<real>, deliveredAt: Option<real>, status: Status, lastError: Option<string>)

  type Table = seq<Row>

  /** The schema: ids count up, and edge_event_id is unique. */
  predicate TableOk(rows: Table, nextId: nat) {
    && (forall i :: 0 <= i < |rows| ==> rows[i].id < nextId)
    && (forall i, j :: 0 <= i < j < |rows| ==> rows[i].id < rows[j].id)
    && UniqueEvents(rows)
  }

  predicate UniqueEvents(rows: Table) {
    forall i, j :: 0 <= i < j < |rows| ==> rows[i].edgeEventId != rows[j].edgeEventId
  }

  predicate HasEvent(rows: Table, edgeEventId: string) {
    exists i :: 0 <= i < |rows| && rows[i].edgeEventId == edgeEventId
  }

  /** insert or ignore */
  function Enqueued(rows: Table, nextId: nat, payload: Payload, now: real): Table {
    if HasEvent(rows, payload.edgeEventId) then rows
    else rows + [Row(nextId, payload.edgeEventId, payload, now, 0, None, None, PENDING, None)]
  }

  const ERROR_LENGTH: nat := 500

  /** The text kept of an error, if there is any. */
  function KeptError(error: Option<string>): Option<string> {
    if error.Some? && error.value != "" then Some(Sanitized(error.value, ERROR_LENGTH)) else None
  }

  /** An error is kept exactly when there is a text: a stretch of it, on one line and at most 500 characters long,
      which leaves out nothing but space unless it had to be cut. */
  lemma ErrorIsKept(error: Option<string>) returns (from: nat, to: nat)
    ensures KeptError(error).None? <==> error == None || error == Some("")
    ensures KeptError(error).Some? ==>
              && from <= to <= |error.value| && to - from <= 500
              && KeptError(error).value == OneLine(error.value)[from..to]
              && (forall i :: 0 <= i < from ==> IsSpace(error.value[i]))
              && (to - from < 500 ==> forall i :: to <= i < |error.value| ==> IsSpace(error.value[i]))
  {
    from, to := SanitizedIsOneLine(if error.Some? then error.value else "", ERROR_LENGTH);
  }

  /** The three update statements. */
  datatype Change =
    | SetPayload(payload: Payload)
    | CountAttempt(at: real, lastError: Option<string>)
    | SetDelivered(at: real)

  function Changed(r: Row, c: Change): Row {
    match c
    case SetPayload(payload) => r.(payload := payload)
    case CountAttempt(at, lastError) =>
      r.(attemptCount := r.attemptCount + 1, lastAttemptAt := Some(at), lastError := lastError)
    case SetDelivered(at) => r.(status := DELIVERED, deliveredAt := Some(at), lastError := None)
  }

  /** update event_queue set ... where edge_event_id = ? */
  function UpdateWhere(rows: Table, edgeEventId: string, c: Change): (updated: Table)
    ensures |updated| == |rows|
    ensures forall i :: 0 <= i < |rows| ==>
              updated[i] == if rows[i].edgeEventId == edgeEventId then Changed(rows[i], c) else rows[i]
  {
    seq(|rows|, i requires 0 <= i < |rows| =>
      if rows[i].edgeEventId == edgeEventId then Changed(rows[i], c) else rows[i])
  }

  function Pending(rows: Table): Table {
    if rows == [] then [] else
      var rest := Pending(rows[..|rows| - 1]);
      if rows[|rows| - 1].status == PENDING then rest + [rows[|rows| - 1]] else rest
  }

  /** order by created_at asc, id asc */
  predicate Older(a: Row, b: Row) {
    a.createdAt < b.createdAt || (a.createdAt == b.createdAt && a.id < b.id)
  }

  function Insert(sorted: Table, r: Row): Table {
    if sorted == [] || Older(sorted[|sorted| - 1], r) then sorted + [r]
    else Insert(sorted[..|sorted| - 1], r) + [sorted[|sorted| - 1]]
  }

  function Sort(rows: Table): Table {
    if rows == [] then [] else Insert(Sort(rows[..|rows| - 1]), rows[|rows| - 1])
  }

  /** limit ?, where a negative limit is no limit */
  function Take(rows: Table, limit: int): Table {
    if limit < 0 || limit >= |rows| then rows else rows[..limit]
  }

  function Fetched(rows: Table, limit: int): Table {
    Take(Sort(Pending(rows)), limit)
  }

  /** What becomes of one request: stored or already stored and acknowledged; taken in by the cloud but
      not acknowledged; or never taken in. The last two look alike to the agent. */
  datatype Reply = Acknowledged | ReplyLost(error: string) | NotStored(error: string)

  /** What leaves the process: inserts and updates, each committed on its own, and requests. */
  datatype Act =
    | Inserts(payload: Payload, now: real)
    | Updates(edgeEventId: string, change: Change)
    | Requests(payload: Payload, reply: Reply)

  /** A witness of the order in which acts are done. */
  class Journal {
    ghost var acts: seq<Act>

    constructor ()
      ensures acts == []
    {
      acts := [];
    }

    ghost method Note(act: Act)
      modifies this
      ensures acts == old(acts) + [act]
    {
      acts := acts + [act];
    }
  }

  class EventQueue {
    const journal: Journal
    var rows: Table
    var nextId: nat

    ghost predicate Valid()
      reads this
    {
      TableOk(rows, nextId)
    }

    constructor (journal: Journal)
      ensures Valid() && rows == [] && this.journal == journal
    {
      this.journal := journal;
      rows, nextId := [], 0;
    }

    method Enqueue(payload: Payload, now: real)
      requires Valid()
      modifies this, journal
      ensures Valid()
      ensures rows == Enqueued(old(rows), old(nextId), payload, now)
      ensures nextId == if HasEvent(old(rows), payload.edgeEventId) then old(nextId) else old(nextId) + 1
      ensures journal.acts == old(journal.acts) + [Inserts(payload, now)]
    {
      EnqueueKeepsSchema(rows, nextId, payload, now);
      journal.Note(Inserts(payload, now));
      if !HasEvent(rows, payload.edgeEventId) {
        rows := Enqueued(rows, nextId, payload, now);
        nextId := nextId + 1;
      }
    }

    /** The oldest pending rows, in order, as many as the limit allows. */
    method FetchPending(limit: int) returns (events: seq<Row>)
      requires Valid()
      ensures Sorted(events) && forall r :: r in events ==> r in rows && r.status == PENDING
      ensures |events| == if 0 <= limit < |PendingPlaces(rows)| then limit else |PendingPlaces(rows)|
      ensures forall r, e :: r in rows && r.status == PENDING && r !in events && e in events ==> Older(e, r)
      ensures events == Fetched(rows, limit)
    {
      FetchedAreTheOldest(rows, limit);
      PendingAreCounted(rows);
      events := Fetched(rows, limit);
    }

    method MarkAttempt(edgeEventId: string, error: Option<string>, now: real)
      requires Valid()
      modifies this, journal
      ensures Valid() && nextId == old(nextId)
      ensures rows == UpdateWhere(old(rows), edgeEventId, CountAttempt(now, KeptError(error)))
      ensures journal.acts == old(journal.acts) + [Updates(edgeEventId, CountAttempt(now, KeptError(error)))]
    {
      UpdateKeepsSchema(rows, nextId, edgeEventId, CountAttempt(now, KeptError(error)));
      journal.Note(Updates(edgeEventId, CountAttempt(now, KeptError(error))));
      rows := UpdateWhere(rows, edgeEventId, CountAttempt(now, KeptError(error)));
    }

    method UpdatePayload(edgeEventId: string, payload: Payload)
      requires Valid()
      modifies this, journal
      ensures Valid() && nextId == old(nextId)
      ensures rows == UpdateWhere(old(rows), edgeEventId, SetPayload(payload))
      ensures journal.acts == old(journal.acts) + [Updates(edgeEventId, SetPayload(payload))]
    {
      UpdateKeepsSchema(rows, nextId, edgeEventId, SetPayload(payload));
      journal.Note(Updates(edgeEventId, SetPayload(payload)));
      rows := UpdateWhere(rows, edgeEventId, SetPayload(payload));
    }

    method MarkDelivered(edgeEventId: string, now: real)
      requires Valid()
      modifies this, journal
      ensures Valid() && nextId == old(nextId)
      ensures rows == UpdateWhere(old(rows), edgeEventId, SetDelivered(now))
      ensures journal.acts == old(journal.acts) + [Updates(edgeEventId, SetDelivered(now))]
    {
      UpdateKeepsSchema(rows, nextId, edgeEventId, SetDelivered(now));
      journal.Note(Updates(edgeEventId, SetDelivered(now)));
      rows := UpdateWhere(rows, edgeEventId, SetDelivered(now));
    }

    /** The number of places in the table that hold a pending row. */
    method PendingCount() returns (count: nat)
      ensures count == |PendingPlaces(rows)|
    {
      count := |Pending(rows)|;
      PendingAreCounted(rows);
    }

    method Get(edgeEventId: string) returns (event: Option<Row>)
      requires Valid()
      ensures event.None? <==> !HasEvent(rows, edgeEventId)
      ensures event.Some? ==> event.value in rows && event.value.edgeEventId == edgeEventId
    {
      for i := 0 to |rows|
        invariant forall j :: 0 <= j < i ==> rows[j].edgeEventId != edgeEventId
      {
        if rows[i].edgeEventId == edgeEventId {
          return Some(rows[i]);
        }
      }
      return None;
    }
  }

  function PendingPlaces(rows: Table): (places: set<int>)
    ensures forall i :: i in places <==> 0 <= i < |rows| && rows[i].status == PENDING
  {
    set i | 0 <= i < |rows| && rows[i].status == PENDING
  }

  lemma {:induction false} PendingAreCounted(rows: Table)
    ensures |Pending(rows)| == |PendingPlaces(rows)|
  {
    if rows == [] {
      assert PendingPlaces(rows) == {};
    } else {
      var n := |rows| - 1;
      PendingAreCounted(rows[..n]);
      assert PendingPlaces(rows) == PendingPlaces(rows[..n]) + if rows[n].status == PENDING then {n} else {};
    }
  }

  lemma UpdateKeepsSchema(rows: Table, nextId: nat, edgeEventId: string, c: Change)
    requires TableOk(rows, nextId)
    ensures TableOk(UpdateWhere(rows, edgeEventId, c), nextId)
  {
    var updated := UpdateWhere(rows, edgeEventId, c);
    forall i | 0 <= i < |rows|
      ensures updated[i].id == rows[i].id && updated[i].edgeEventId == rows[i].edgeEventId
    {
    }
  }

  lemma EnqueueKeepsSchema(rows: Table, nextId: nat, payload: Payload, now: real)
    requires TableOk(rows, nextId)
    ensures TableOk(Enqueued(rows, nextId, payload, now),
                    if HasEvent(rows, payload.edgeEventId) then nextId else nextId + 1)
  {
  }

  // ----- what fetch_pending returns -----

  predicate Sorted(rows: Table) {
    forall i, j :: 0 <= i < j < |rows| ==> Older(rows[i], rows[j])
  }

  predicate DistinctIds(rows: Table) {
    forall i, j :: 0 <= i < j < |rows| ==> rows[i].id != rows[j].id
  }

  lemma {:induction false} InsertSorts(sorted: Table, r: Row)
    requires Sorted(sorted) && forall i :: 0 <= i < |sorted| ==> sorted[i].id != r.id
    ensures Sorted(Insert(sorted, r))
    ensures multiset(Insert(sorted, r)) == multiset(sorted) + multiset{r}
  {
    if sorted == [] || Older(sorted[|sorted| - 1], r) {
    } else {
      var front, last := sorted[..|sorted| - 1], sorted[|sorted| - 1];
      assert sorted == front + [last];
      InsertSorts(front, r);
      forall x | x in Insert(front, r)
        ensures Older(x, last)
      {
        assert x in multiset(Insert(front, r));
      }
    }
  }

  lemma {:induction false} SortSorts(rows: Table)
    requires DistinctIds(rows)
    ensures Sorted(Sort(rows)) && multiset(Sort(rows)) == multiset(rows)
  {
    if rows != [] {
      var front, last := rows[..|rows| - 1], rows[|rows| - 1];
      assert rows == front + [last];
      SortSorts(front);
      forall i | 0 <= i < |Sort(front)|
        ensures Sort(front)[i].id != last.id
      {
        assert Sort(front)[i] in multiset(Sort(front));
        assert Sort(front)[i] in front;
      }
      InsertSorts(Sort(front), last);
    }
  }

  lemma {:induction false} PendingIsFilter(rows: Table)
    ensures forall r :: r in Pending(rows) <==> r in rows && r.status == PENDING
  {
    if rows != [] {
      var front, last := rows[..|rows| - 1], rows[|rows| - 1];
      assert rows == front + [last];
      PendingIsFilter(front);
    }
  }

  lemma {:induction false} PendingDistinct(rows: Table)
    requires DistinctIds(rows)
    ensures DistinctIds(Pending(rows))
  {
    if rows != [] {
      var front, last := rows[..|rows| - 1], rows[|rows| - 1];
      PendingDistinct(front);
      PendingIsFilter(front);
    }
  }

  /** fetch_pending returns pending rows only, each once, in (created_at, id) order, as many as the
      limit allows, and every pending row it leaves out is younger than all it returns. */
  lemma FetchedAreTheOldest(rows: Table, limit: int)
    requires DistinctIds(rows)
    ensures var batch := Fetched(rows, limit);
            && Sorted(batch)
            && |batch| == (if 0 <= limit < |Pending(rows)| then limit else |Pending(rows)|)
            && (forall r :: r in batch ==> r in rows && r.status == PENDING)
            && (forall r, b :: r in rows && r.status == PENDING && r !in batch && b in batch ==> Older(b, r))
  {
    SelectedRows(rows);
    assert Fetched(rows, limit) == Sort(Pending(rows))[..|Fetched(rows, limit)|];
    LeftOutAreYounger(Sort(Pending(rows)), |Fetched(rows, limit)|);
  }

  lemma LeftOutAreYounger(sorted: Table, n: nat)
    requires Sorted(sorted) && n <= |sorted|
    ensures Sorted(sorted[..n])
    ensures forall r, b :: r in sorted && r !in sorted[..n] && b in sorted[..n] ==> Older(b, r)
  {
    forall k | 0 <= k < n
      ensures sorted[k] in sorted[..n]
    {
      assert sorted[..n][k] == sorted[k];
    }
    forall r, b | r in sorted && r !in sorted[..n] && b in sorted[..n]
      ensures Older(b, r)
    {
      var i :| 0 <= i < |sorted| && sorted[i] == r;
      var j :| 0 <= j < n && sorted[..n][j] == b;
      assert j < n <= i;
    }
  }

  /** The rows that the query selects, before the limit. */
  lemma SelectedRows(rows: Table)
    requires DistinctIds(rows)
    ensures Sorted(Sort(Pending(rows))) && |Sort(Pending(rows))| == |Pending(rows)|
    ensures forall r :: r in Sort(Pending(rows)) <==> r in rows && r.status == PENDING
  {
    var pending, sorted := Pending(rows), Sort(Pending(rows));
    PendingIsFilter(rows);
    PendingDistinct(rows);
    SortSorts(pending);
    assert |sorted| == |multiset(sorted)| == |pending|;
    forall r
      ensures r in sorted <==> r in pending
    {
      assert r in multiset(sorted) <==> r in multiset(pending);
    }
  }

  /** The pending rows were created in table order. */
  predicate PendingInOrder(rows: Table) {
    forall i, j :: 0 <= i < j < |rows| && rows[i].status == PENDING == rows[j].status ==>
      rows[i].createdAt <= rows[j].createdAt
  }

  lemma {:induction false} SortedStays(rows: Table)
    requires Sorted(rows)
    ensures Sort(rows) == rows
  {
    if rows != [] {
      var front, last := rows[..|rows| - 1], rows[|rows| - 1];
      assert rows == front + [last];
      SortedStays(front);
    }
  }

  lemma {:induction false} PendingSorted(rows: Table)
    requires PendingInOrder(rows) && forall i, j :: 0 <= i < j < |rows| ==> rows[i].id < rows[j].id
    ensures Sorted(Pending(rows))
  {
    if rows != [] {
      var front, last := rows[..|rows| - 1], rows[|rows| - 1];
      PendingSorted(front);
      PendingIsFilter(front);
      if last.status == PENDING {
        forall k | 0 <= k < |Pending(front)|
          ensures Older(Pending(front)[k], last)
        {
          assert Pending(front)[k] in front;
        }
      }
    }
  }

  /** When the pending rows were created in table order the batch is just the first of them. */
  lemma FetchedInTableOrder(rows: Table, nextId: nat, limit: int)
    requires TableOk(rows, nextId) && PendingInOrder(rows)
    ensures Fetched(rows, limit) == Take(Pending(rows), limit)
  {
    PendingSorted(rows);
    SortedStays(Pending(rows));
  }
}
