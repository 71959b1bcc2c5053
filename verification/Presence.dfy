/** The presence engine: one insertion-ordered dictionary of last sightings for all readers
    (src/mvd_edge/event_engine/state.py). */
module Presence {
  import opened Wrappers
  import opened Streams
  import Seqs

  datatype Kind = ENTER | EXIT

  /** What uuid4() and timestamp() return for one event. */
  datatype Stamp = Stamp(id: string, at: string)

  datatype DetectedEvent = DetectedEvent(
    edgeEventId: string, kind: Kind, epc: string, edgeEventAt: string, readerId: Option<string>)

  /** An event without its id and its stamp. */
  datatype Detection = Detection(kind: Kind, epc: string, readerId: Option<string>)

  function Stamped(d: Detection, s: Stamp): DetectedEvent {
    DetectedEvent(s.id, d.kind, d.epc, s.at, d.readerId)
  }

  // ----- a Python dict: unique keys in insertion order -----

  datatype Entry = Entry(key: string, lastSeen: real)

  type Dict = seq<Entry>

  predicate HasKey(d: Dict, key: string) {
    d != [] && (d[0].key == key || HasKey(d[1..], key))
  }

  predicate UniqueKeys(d: Dict) {
    d == [] || (!HasKey(d[1..], d[0].key) && UniqueKeys(d[1..]))
  }

  /** d[key] = t: an existing key keeps its place, a new one goes to the end. */
  function Put(d: Dict, key: string, t: real): Dict {
    if d == [] then [Entry(key, t)]
    else if d[0].key == key then [Entry(key, t)] + d[1..]
    else [d[0]] + Put(d[1..], key, t)
  }

  /** del d[key], which raises unless the key is there. */
  function Delete(d: Dict, key: string): Dict
    requires HasKey(d, key)
  {
    if d[0].key == key then d[1..] else [d[0]] + Delete(d[1..], key)
  }

  // ----- keys -----

  predicate NulFree(s: string) {
    '\0' !in s
  }

  function Prefix(reader: string): string {
    reader + "\0"
  }

  /** _tag_key */
  function TagKey(epc: string, readerId: Option<string>): string {
    match readerId
    case None => epc
    case Some(reader) => Prefix(reader) + epc
  }

  /** _epc_from_key: what follows the first NUL, or the whole key without one. */
  function EpcFromKey(key: string): string {
    if NulFree(key) then key else AfterNul(key)
  }

  function AfterNul(key: string): string
    requires !NulFree(key)
  {
    if key[0] == '\0' then key[1..] else AfterNul(key[1..])
  }

  // ----- one update, as functions -----

  /** Whether this update looks at the entry at all. */
  predicate Belongs(key: string, readerId: Option<string>) {
    readerId.None? || Prefix(readerId.value) <= key
  }

  /** The dictionary after the sightings are entered. */
  function Seen(d: Dict, epcs: seq<string>, t: real, readerId: Option<string>): Dict
    decreases |epcs|
  {
    if epcs == [] then d else Seen(Put(d, TagKey(epcs[0], readerId), t), epcs[1..], t, readerId)
  }

  function Enters(d: Dict, epcs: seq<string>, t: real, readerId: Option<string>): seq<Detection>
    decreases |epcs|
  {
    if epcs == [] then [] else
      var key := TagKey(epcs[0], readerId);
      var rest := Enters(Put(d, key, t), epcs[1..], t, readerId);
      if HasKey(d, key) then rest else [Detection(ENTER, epcs[0], readerId)] + rest
  }

  lemma {:induction false} OneMoreSighting(d: Dict, epcs: seq<string>, epc: string, t: real, readerId: Option<string>)
    ensures var seen, key := Seen(d, epcs, t, readerId), TagKey(epc, readerId);
            && Seen(d, epcs + [epc], t, readerId) == Put(seen, key, t)
            && Enters(d, epcs + [epc], t, readerId)
            == Enters(d, epcs, t, readerId) + if HasKey(seen, key) then [] else [Detection(ENTER, epc, readerId)]
    decreases |epcs|
  {
    if epcs == [] {
      assert [epc][1..] == [] && [] + [epc] == [epc];
    } else {
      assert (epcs + [epc])[1..] == epcs[1..] + [epc];
      OneMoreSighting(Put(d, TagKey(epcs[0], readerId), t), epcs[1..], epc, t, readerId);
    }
  }

  predicate Due(e: Entry, t: real, timeout: real, readerId: Option<string>) {
    Belongs(e.key, readerId) && t - e.lastSeen >= timeout
  }

  function Exits(d: Dict, t: real, timeout: real, readerId: Option<string>): seq<Detection> {
    if d == [] then [] else
      var rest := Exits(d[1..], t, timeout, readerId);
      if Due(d[0], t, timeout, readerId) then [Detection(EXIT, EpcFromKey(d[0].key), readerId)] + rest else rest
  }

  function Kept(d: Dict, t: real, timeout: real, readerId: Option<string>): Dict {
    if d == [] then [] else
      var rest := Kept(d[1..], t, timeout, readerId);
      if Due(d[0], t, timeout, readerId) then rest else [d[0]] + rest
  }

  lemma {:induction false} OneMoreEntry(d: Dict, e: Entry, t: real, timeout: real, readerId: Option<string>)
    ensures Exits(d + [e], t, timeout, readerId)
         == Exits(d, t, timeout, readerId)
            + if Due(e, t, timeout, readerId) then [Detection(EXIT, EpcFromKey(e.key), readerId)] else []
    ensures DueKeys(d + [e], t, timeout, readerId)
         == DueKeys(d, t, timeout, readerId) + if Due(e, t, timeout, readerId) then [e.key] else []
  {
    if d == [] {
      assert [e][1..] == [] && [] + [e] == [e];
    } else {
      assert (d + [e])[1..] == d[1..] + [e];
      OneMoreEntry(d[1..], e, t, timeout, readerId);
    }
  }

  function Updated(d: Dict, epcs: seq<string>, t: real, timeout: real, readerId: Option<string>): Dict {
    Kept(Seen(d, epcs, t, readerId), t, timeout, readerId)
  }

  function Emitted(d: Dict, epcs: seq<string>, t: real, timeout: real, readerId: Option<string>): seq<Detection> {
    Enters(d, epcs, t, readerId) + Exits(Seen(d, epcs, t, readerId), t, timeout, readerId)
  }

  // ----- the class -----

  class PresenceState {
    const exitTimeout: real
    var visibleTags: Dict

    ghost predicate Valid()
      reads this
    {
      UniqueKeys(visibleTags)
    }

    constructor (exitTimeout: real)
      ensures Valid() && visibleTags == [] && this.exitTimeout == exitTimeout
    {
      this.exitTimeout := exitTimeout;
      visibleTags := [];
    }

    /** The k-th event of the call takes its id and time from draws.At(drawn + k). */
    method Update(visibleEpcs: seq<string>, observedAt: real, readerId: Option<string>, draws: Stream<Stamp>,
                  drawn: nat)
      returns (events: seq<DetectedEvent>)
      requires Valid()
      modifies this
      ensures Valid()
      ensures visibleTags == Updated(old(visibleTags), visibleEpcs, observedAt, exitTimeout, readerId)
      ensures events
              == StampAll(Emitted(old(visibleTags), visibleEpcs, observedAt, exitTimeout, readerId), draws, drawn)
    {
      var entered := EnterVisible(visibleEpcs, observedAt, readerId, draws, drawn);
      var expiredKeys: seq<string>;
      events, expiredKeys := ExitOverdue(observedAt, readerId, draws, drawn,
                                         Enters(old(visibleTags), visibleEpcs, observedAt, readerId), entered);
      DropExpired(expiredKeys, observedAt, readerId);
    }

    /** The first loop of update. */
    method EnterVisible(visibleEpcs: seq<string>, observedAt: real, readerId: Option<string>, draws: Stream<Stamp>,
                        drawn: nat)
      returns (events: seq<DetectedEvent>)
      requires Valid()
      modifies this
      ensures Valid()
      ensures visibleTags == Seen(old(visibleTags), visibleEpcs, observedAt, readerId)
      ensures events == StampAll(Enters(old(visibleTags), visibleEpcs, observedAt, readerId), draws, drawn)
    {
      events := [];
      ghost var bare: seq<Detection> := [];
      for i := 0 to |visibleEpcs|
        invariant Valid() && events == StampAll(bare, draws, drawn)
        invariant visibleTags == Seen(old(visibleTags), visibleEpcs[..i], observedAt, readerId)
        invariant bare == Enters(old(visibleTags), visibleEpcs[..i], observedAt, readerId)
      {
        var epc := visibleEpcs[i];
        var tagKey := TagKey(epc, readerId);
        Seqs.TakeOneMore(visibleEpcs, i);
        OneMoreSighting(old(visibleTags), visibleEpcs[..i], epc, observedAt, readerId);
        PutKeepsUnique(visibleTags, tagKey, observedAt);
        if !HasKey(visibleTags, tagKey) {
          var enter := Detection(ENTER, epc, readerId);
          StampOne(bare, enter, draws, drawn);
          events := events + [Stamped(enter, draws.At(drawn + |events|))];
          bare := bare + [enter];
        }
        visibleTags := Put(visibleTags, tagKey, observedAt);
      }
      assert visibleEpcs[..|visibleEpcs|] == visibleEpcs;
    }

    /** The second loop of update, after it has emitted these ENTERs. */
    method ExitOverdue(observedAt: real, readerId: Option<string>, draws: Stream<Stamp>, drawn: nat,
                       ghost enters: seq<Detection>, entered: seq<DetectedEvent>)
      returns (events: seq<DetectedEvent>, expiredKeys: seq<string>)
      requires entered == StampAll(enters, draws, drawn)
      ensures events == StampAll(enters + Exits(visibleTags, observedAt, exitTimeout, readerId), draws, drawn)
      ensures expiredKeys == DueKeys(visibleTags, observedAt, exitTimeout, readerId)
    {
      events, expiredKeys := entered, [];
      ghost var bare: seq<Detection> := [];
      for i := 0 to |visibleTags|
        invariant events == StampAll(enters + bare, draws, drawn)
        invariant bare == Exits(visibleTags[..i], observedAt, exitTimeout, readerId)
        invariant expiredKeys == DueKeys(visibleTags[..i], observedAt, exitTimeout, readerId)
      {
        var entry := visibleTags[i];
        Seqs.TakeOneMore(visibleTags, i);
        OneMoreEntry(visibleTags[..i], entry, observedAt, exitTimeout, readerId);
        if Belongs(entry.key, readerId) && observedAt - entry.lastSeen >= exitTimeout {
          var exit := Detection(EXIT, EpcFromKey(entry.key), readerId);
          StampOne(enters + bare, exit, draws, drawn);
          Seqs.Assoc(enters, bare, [exit]);
          events := events + [Stamped(exit, draws.At(drawn + |events|))];
          bare := bare + [exit];
          expiredKeys := expiredKeys + [entry.key];
        }
      }
      assert visibleTags[..|visibleTags|] == visibleTags;
    }

    /** The third loop of update: no del in it raises. */
    method DropExpired(expiredKeys: seq<string>, ghost observedAt: real, ghost readerId: Option<string>)
      requires Valid() && expiredKeys == DueKeys(visibleTags, observedAt, exitTimeout, readerId)
      modifies this
      ensures Valid()
      ensures visibleTags == Kept(old(visibleTags), observedAt, exitTimeout, readerId)
    {
      DroppingDueKeys(visibleTags, observedAt, exitTimeout, readerId);
      for i := 0 to |expiredKeys|
        invariant CanDrop(visibleTags, expiredKeys[i..])
        invariant Dropped(visibleTags, expiredKeys[i..]) == Kept(old(visibleTags), observedAt, exitTimeout, readerId)
      {
        assert expiredKeys[i..][1..] == expiredKeys[i + 1..];
        visibleTags := Delete(visibleTags, expiredKeys[i]);
      }
      KeptKeepsUnique(old(visibleTags), observedAt, exitTimeout, readerId);
    }
  }

  function StampAll(detections: seq<Detection>, draws: Stream<Stamp>, drawn: nat): (events: seq<DetectedEvent>)
    ensures |events| == |detections|
    ensures forall k :: 0 <= k < |events| ==> events[k] == Stamped(detections[k], draws.At(drawn + k))
  {
    seq(|detections|, k requires 0 <= k < |detections| => Stamped(detections[k], draws.At(drawn + k)))
  }

  lemma StampOne(detections: seq<Detection>, d: Detection, draws: Stream<Stamp>, drawn: nat)
    ensures StampAll(detections + [d], draws, drawn)
            == StampAll(detections, draws, drawn) + [Stamped(d, draws.At(drawn + |detections|))]
  {
  }

  // ----- the proof of Update -----

  lemma {:induction false} PutKey(d: Dict, key: string, t: real, k: string)
    ensures HasKey(Put(d, key, t), k) <==> k == key || HasKey(d, k)
  {
    if d != [] && d[0].key != key {
      PutKey(d[1..], key, t, k);
      assert Put(d, key, t)[1..] == Put(d[1..], key, t);
    }
  }

  lemma {:induction false} PutKeepsUnique(d: Dict, key: string, t: real)
    requires UniqueKeys(d)
    ensures UniqueKeys(Put(d, key, t))
  {
    if d != [] && d[0].key != key {
      PutKeepsUnique(d[1..], key, t);
      PutKey(d[1..], key, t, d[0].key);
      assert Put(d, key, t)[1..] == Put(d[1..], key, t);
    }
  }

  lemma {:induction false} KeptKey(d: Dict, t: real, timeout: real, readerId: Option<string>, k: string)
    requires !HasKey(d, k)
    ensures !HasKey(Kept(d, t, timeout, readerId), k)
  {
    if d != [] {
      KeptKey(d[1..], t, timeout, readerId, k);
    }
  }

  lemma {:induction false} KeptKeepsUnique(d: Dict, t: real, timeout: real, readerId: Option<string>)
    requires UniqueKeys(d)
    ensures UniqueKeys(Kept(d, t, timeout, readerId))
  {
    if d != [] {
      KeptKeepsUnique(d[1..], t, timeout, readerId);
      KeptKey(d[1..], t, timeout, readerId, d[0].key);
    }
  }

  /** What the second loop collects. */
  function DueKeys(d: Dict, t: real, timeout: real, readerId: Option<string>): seq<string> {
    if d == [] then [] else
      var rest := DueKeys(d[1..], t, timeout, readerId);
      if Due(d[0], t, timeout, readerId) then [d[0].key] + rest else rest
  }

  /** The third loop may delete these keys one after the other. */
  predicate CanDrop(d: Dict, keys: seq<string>)
    decreases |keys|
  {
    keys == [] || (HasKey(d, keys[0]) && CanDrop(Delete(d, keys[0]), keys[1..]))
  }

  function Dropped(d: Dict, keys: seq<string>): Dict
    requires CanDrop(d, keys)
    decreases |keys|
  {
    if keys == [] then d else Dropped(Delete(d, keys[0]), keys[1..])
  }

  lemma {:induction false} DropBehind(e: Entry, d: Dict, keys: seq<string>)
    requires CanDrop(d, keys) && e.key !in keys
    ensures CanDrop([e] + d, keys) && Dropped([e] + d, keys) == [e] + Dropped(d, keys)
    decreases |keys|
  {
    if keys != [] {
      assert ([e] + d)[1..] == d;
      DropBehind(e, Delete(d, keys[0]), keys[1..]);
    }
  }

  lemma {:induction false} DueKeysAreKeys(d: Dict, t: real, timeout: real, readerId: Option<string>, k: string)
    requires k in DueKeys(d, t, timeout, readerId)
    ensures HasKey(d, k)
  {
    if k in DueKeys(d[1..], t, timeout, readerId) {
      DueKeysAreKeys(d[1..], t, timeout, readerId, k);
    }
  }

  lemma {:induction false} DroppingDueKeys(d: Dict, t: real, timeout: real, readerId: Option<string>)
    requires UniqueKeys(d)
    ensures CanDrop(d, DueKeys(d, t, timeout, readerId))
    ensures Dropped(d, DueKeys(d, t, timeout, readerId)) == Kept(d, t, timeout, readerId)
  {
    if d != [] {
      var keys := DueKeys(d[1..], t, timeout, readerId);
      DroppingDueKeys(d[1..], t, timeout, readerId);
      assert d == [d[0]] + d[1..];
      if Due(d[0], t, timeout, readerId) {
        assert ([d[0].key] + keys)[1..] == keys;
      } else {
        if d[0].key in keys {
          DueKeysAreKeys(d[1..], t, timeout, readerId, d[0].key);
        }
        DropBehind(d[0], d[1..], keys);
      }
    }
  }
}
