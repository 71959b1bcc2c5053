/** In which order the events of an update come, told from the log and the sightings alone. */
module PresenceOrder {
  import opened Wrappers
  import opened Presence
  import opened PresenceTheorems
  import Seqs

  /** The key that the event is about. */
  function About(d: Detection): string {
    TagKey(d.epc, d.readerId)
  }

  predicate NoneSince(log: seq<Detection>, p: nat, key: string) {
    forall j :: p < j < |log| ==> About(log[j]) != key
  }

  predicate Ascending(places: seq<nat>) {
    forall k, l :: 0 <= k < l < |places| ==> places[k] < places[l]
  }

  /** The entries stand in the order of their ENTERs, which are at these places of the log, with no event about
      the tag after it. */
  predicate Placed(log: seq<Detection>, d: Dict, places: seq<nat>) {
    && |places| == |d| && Ascending(places)
    && forall k :: 0 <= k < |d| ==> EnteredAt(log, d[k].key, places[k])
  }

  predicate EnteredAt(log: seq<Detection>, key: string, p: nat) {
    p < |log| && log[p].kind == ENTER && About(log[p]) == key && NoneSince(log, p, key)
  }

  // ----- sightings -----

  lemma {:induction false} PutInPlace(d: Dict, key: string, t: real)
    requires HasKey(d, key)
    ensures |Put(d, key, t)| == |d| && forall k :: 0 <= k < |d| ==> Put(d, key, t)[k].key == d[k].key
  {
    if d[0].key != key {
      PutInPlace(d[1..], key, t);
    }
  }

  lemma {:induction false} PutAtTheEnd(d: Dict, key: string, t: real)
    requires !HasKey(d, key)
    ensures Put(d, key, t) == d + [Entry(key, t)]
  {
    if d != [] {
      PutAtTheEnd(d[1..], key, t);
      Seqs.HeadAndTail(d);
    }
  }

  lemma {:induction false} KeyAt(d: Dict, k: nat)
    requires k < |d|
    ensures HasKey(d, d[k].key)
  {
    if k > 0 {
      KeyAt(d[1..], k - 1);
    }
  }

  lemma NotAbout(log: seq<Detection>, key: string, p: nat, e: Detection)
    requires EnteredAt(log, key, p) && About(e) != key
    ensures EnteredAt(log + [e], key, p)
  {
  }

  lemma NewEntry(log: seq<Detection>, d: Dict, places: seq<nat>, e: Detection, t: real)
    requires Placed(log, d, places) && e.kind == ENTER && !HasKey(d, About(e))
    ensures Placed(log + [e], d + [Entry(About(e), t)], places + [|log|])
  {
    forall k | 0 <= k < |d|
      ensures EnteredAt(log + [e], d[k].key, places[k])
    {
      KeyAt(d, k);
      NotAbout(log, d[k].key, places[k], e);
    }
  }

  lemma {:induction false} SightingsPlaced(log: seq<Detection>, d: Dict, places: seq<nat>, epcs: seq<string>, t: real,
                                           readerId: Option<string>)
    returns (later: seq<nat>)
    requires Placed(log, d, places)
    ensures Placed(log + Enters(d, epcs, t, readerId), Seen(d, epcs, t, readerId), later)
    decreases |epcs|
  {
    if epcs == [] {
      later := places;
      assert log + [] == log;
    } else {
      var e, key := Detection(ENTER, epcs[0], readerId), TagKey(epcs[0], readerId);
      var rest := Enters(Put(d, key, t), epcs[1..], t, readerId);
      if HasKey(d, key) {
        PutInPlace(d, key, t);
        later := SightingsPlaced(log, Put(d, key, t), places, epcs[1..], t, readerId);
      } else {
        PutAtTheEnd(d, key, t);
        NewEntry(log, d, places, e, t);
        later := SightingsPlaced(log + [e], Put(d, key, t), places + [|log|], epcs[1..], t, readerId);
        Seqs.Assoc(log, [e], rest);
      }
    }
  }

  // ----- exits -----

  /** An EXIT names the tag of the entry that is due. */
  lemma ExitAbout(e: Entry, t: real, timeout: real, reader: string)
    requires NulFree(reader) && Due(e, t, timeout, Some(reader))
    ensures About(Detection(EXIT, EpcFromKey(e.key), Some(reader))) == e.key
  {
    var epc := e.key[|Prefix(reader)|..];
    assert e.key == Key(reader, epc);
    EpcOfKey(reader, epc);
  }

  /** The EXITs are about the entries that are due, in the order of the entries. */
  lemma {:induction false} TwoExits(d: Dict, t: real, timeout: real, reader: string, p: nat, q: nat)
    returns (k: nat, l: nat)
    requires NulFree(reader) && p <= q < |Exits(d, t, timeout, Some(reader))|
    ensures k <= l < |d| && (p < q ==> k < l)
    ensures var exits := Exits(d, t, timeout, Some(reader)); About(exits[p]) == d[k].key && About(exits[q]) == d[l].key
  {
    if Due(d[0], t, timeout, Some(reader)) {
      ExitAbout(d[0], t, timeout, reader);
      if q == 0 {
        k, l := 0, 0;
      } else if p == 0 {
        var k', l' := TwoExits(d[1..], t, timeout, reader, q - 1, q - 1);
        k, l := 0, l' + 1;
      } else {
        k, l := TwoExits(d[1..], t, timeout, reader, p - 1, q - 1);
        k, l := k + 1, l + 1;
      }
    } else {
      k, l := TwoExits(d[1..], t, timeout, reader, p, q);
      k, l := k + 1, l + 1;
    }
  }

  lemma ExitsAreAboutKeys(d: Dict, t: real, timeout: real, reader: string, j: nat)
    requires NulFree(reader) && j < |Exits(d, t, timeout, Some(reader))|
    ensures HasKey(d, About(Exits(d, t, timeout, Some(reader))[j]))
  {
    var k, l := TwoExits(d, t, timeout, reader, j, j);
    KeyAt(d, k);
  }

  lemma NotAboutAll(log: seq<Detection>, key: string, p: nat, more: seq<Detection>)
    requires EnteredAt(log, key, p) && forall j :: 0 <= j < |more| ==> About(more[j]) != key
    ensures EnteredAt(log + more, key, p)
  {
  }

  lemma RestPlaced(log: seq<Detection>, d: Dict, places: seq<nat>)
    requires Placed(log, d, places) && d != []
    ensures Placed(log, d[1..], places[1..])
    ensures forall x :: x in places[1..] ==> places[0] < x
  {
  }

  lemma ExitPlaced(log: seq<Detection>, d: Dict, places: seq<nat>, e: Detection)
    requires Placed(log, d, places) && !HasKey(d, About(e))
    ensures Placed(log + [e], d, places)
  {
    forall k | 0 <= k < |d|
      ensures EnteredAt(log + [e], d[k].key, places[k])
    {
      KeyAt(d, k);
      NotAbout(log, d[k].key, places[k], e);
    }
  }

  lemma EntryStays(log: seq<Detection>, e: Entry, d: Dict, places: seq<nat>, p: nat)
    requires Placed(log, d, places) && EnteredAt(log, e.key, p) && forall x :: x in places ==> p < x
    ensures Placed(log, [e] + d, [p] + places)
  {
    var d', places' := [e] + d, [p] + places;
    forall k | 0 <= k < |d'|
      ensures EnteredAt(log, d'[k].key, places'[k])
    {
      if k > 0 {
        assert d'[k] == d[k - 1] && places'[k] == places[k - 1];
      }
    }
    forall l | 0 < l < |places'|
      ensures p < places'[l]
    {
      assert places'[l] in places;
    }
    assert forall k, l :: 0 < k < l < |places'| ==> places'[k] == places[k - 1] < places[l - 1] == places'[l];
  }

  lemma {:induction false} KeptPlaced(log: seq<Detection>, d: Dict, places: seq<nat>, t: real, timeout: real,
                                      reader: string)
    returns (later: seq<nat>)
    requires Placed(log, d, places) && UniqueKeys(d) && NulFree(reader)
    ensures Placed(log + Exits(d, t, timeout, Some(reader)), Kept(d, t, timeout, Some(reader)), later)
    ensures forall x :: x in later ==> x in places
    decreases |d|
  {
    if d == [] {
      later := [];
      assert log + [] == log;
    } else {
      var exits := Exits(d[1..], t, timeout, Some(reader));
      RestPlaced(log, d, places);
      if Due(d[0], t, timeout, Some(reader)) {
        var e := Detection(EXIT, EpcFromKey(d[0].key), Some(reader));
        ExitAbout(d[0], t, timeout, reader);
        ExitPlaced(log, d[1..], places[1..], e);
        later := KeptPlaced(log + [e], d[1..], places[1..], t, timeout, reader);
        Seqs.Assoc(log, [e], exits);
      } else {
        later := KeptPlaced(log, d[1..], places[1..], t, timeout, reader);
        forall j | 0 <= j < |exits|
          ensures About(exits[j]) != d[0].key
        {
          ExitsAreAboutKeys(d[1..], t, timeout, reader, j);
        }
        NotAboutAll(log, d[0].key, places[0], exits);
        EntryStays(log + exits, d[0], Kept(d[1..], t, timeout, Some(reader)), later, places[0]);
        later := [places[0]] + later;
      }
    }
  }

  // ----- runs -----

  /** The dictionary after a run stands in the order of the latest ENTERs of its tags. */
  lemma {:induction false} RunPlaced(run: seq<Scan>, timeout: real) returns (places: seq<nat>)
    requires NulFreeReaders(run)
    ensures Placed(Log(run, timeout), After(run, timeout), places)
  {
    if run == [] {
      places := [];
    } else {
      var before, u := run[..|run| - 1], run[|run| - 1];
      var d := After(before, timeout);
      var seen := Seen(d, u.epcs, u.at, Some(u.reader));
      var enters := Enters(d, u.epcs, u.at, Some(u.reader));
      places := RunPlaced(before, timeout);
      places := SightingsPlaced(Log(before, timeout), d, places, u.epcs, u.at, Some(u.reader));
      AfterUnique(before, timeout);
      SeenUnique(d, u.epcs, u.at, Some(u.reader));
      places := KeptPlaced(Log(before, timeout) + enters, seen, places, u.at, timeout, u.reader);
      Seqs.Assoc(Log(before, timeout), enters, Exits(seen, u.at, timeout, Some(u.reader)));
    }
  }

  // ----- ENTERs follow the sightings -----

  /** The tag is sighted at place a for the first time in this update. */
  predicate FirstSighting(epcs: seq<string>, epc: string, a: nat) {
    a < |epcs| && epcs[a] == epc && forall b :: 0 <= b < a ==> epcs[b] != epc
  }

  lemma {:induction false} EntersAreNew(d: Dict, epcs: seq<string>, t: real, readerId: Option<string>, j: nat)
    requires j < |Enters(d, epcs, t, readerId)|
    ensures !HasKey(d, TagKey(Enters(d, epcs, t, readerId)[j].epc, readerId))
    ensures Enters(d, epcs, t, readerId)[j].kind == ENTER
    decreases |epcs|
  {
    var key := TagKey(epcs[0], readerId);
    var put := Put(d, key, t);
    var rest := Enters(put, epcs[1..], t, readerId);
    if HasKey(d, key) {
      EntersAreNew(put, epcs[1..], t, readerId, j);
      PutKey(d, key, t, TagKey(rest[j].epc, readerId));
    } else if j > 0 {
      EntersAreNew(put, epcs[1..], t, readerId, j - 1);
      PutKey(d, key, t, TagKey(rest[j - 1].epc, readerId));
    }
  }

  lemma LaterSighting(epcs: seq<string>, epc: string, a: nat)
    requires epcs != [] && epcs[0] != epc && FirstSighting(epcs[1..], epc, a)
    ensures FirstSighting(epcs, epc, a + 1)
  {
    forall b | 0 <= b < a + 1
      ensures epcs[b] != epc
    {
      assert b > 0 ==> epcs[b] == epcs[1..][b - 1];
    }
  }

  lemma LaterEnter(d: Dict, epcs: seq<string>, t: real, readerId: Option<string>, rest: seq<Detection>, i: nat, a: nat)
    requires epcs != [] && rest == Enters(Put(d, TagKey(epcs[0], readerId), t), epcs[1..], t, readerId) && i < |rest|
    requires FirstSighting(epcs[1..], rest[i].epc, a)
    ensures FirstSighting(epcs, rest[i].epc, a + 1)
  {
    var key := TagKey(epcs[0], readerId);
    EntersAreNew(Put(d, key, t), epcs[1..], t, readerId, i);
    PutKey(d, key, t, key);
    LaterSighting(epcs, rest[i].epc, a);
  }

  lemma {:induction false} TwoEnters(d: Dict, epcs: seq<string>, t: real, readerId: Option<string>, p: nat, q: nat)
    returns (a: nat, b: nat)
    requires p <= q < |Enters(d, epcs, t, readerId)|
    ensures a <= b && (p < q ==> a < b)
    ensures FirstSighting(epcs, Enters(d, epcs, t, readerId)[p].epc, a)
    ensures FirstSighting(epcs, Enters(d, epcs, t, readerId)[q].epc, b)
    decreases |epcs|
  {
    var key := TagKey(epcs[0], readerId);
    var put, rest := Put(d, key, t), Enters(Put(d, key, t), epcs[1..], t, readerId);
    var first := if HasKey(d, key) then 0 else 1;
    if q < first {
      a, b := 0, 0;
    } else {
      var i := if p < first then q - first else p - first;
      a, b := TwoEnters(put, epcs[1..], t, readerId, i, q - first);
      LaterEnter(d, epcs, t, readerId, rest, i, a);
      LaterEnter(d, epcs, t, readerId, rest, q - first, b);
      a, b := if p < first then 0 else a + 1, b + 1;
    }
  }

  // ----- the order of the events of an update -----

  /** The latest ENTER of the tag that event p is about, before p, is at i. */
  predicate LatestEnter(log: seq<Detection>, p: nat, i: nat) {
    && i < p < |log| && IsEnterOf(log[i], log[p])
    && forall j :: i < j < p ==> !IsEnterOf(log[j], log[p])
  }

  predicate IsEnterOf(e: Detection, d: Detection) {
    e.kind == ENTER && e.epc == d.epc && e.readerId == d.readerId
  }

  predicate ByReaders(log: seq<Detection>) {
    forall j :: 0 <= j < |log| ==> log[j].readerId.Some? && NulFree(log[j].readerId.value)
  }

  lemma {:induction false} LogByReaders(run: seq<Scan>, timeout: real)
    requires NulFreeReaders(run)
    ensures ByReaders(Log(run, timeout))
  {
    if run != [] {
      var before, u := run[..|run| - 1], run[|run| - 1];
      var d := After(before, timeout);
      LogByReaders(before, timeout);
      EntersBy(d, u.epcs, u.at, u.reader);
      ExitsBy(Seen(d, u.epcs, u.at, Some(u.reader)), u.at, timeout, u.reader);
    }
  }

  /** With NUL-free readers an event and an ENTER about one key are about one tag of one reader. */
  lemma EnteredAtIsLatest(log: seq<Detection>, more: seq<Detection>, i: nat, p: nat)
    requires ByReaders(log + more) && |log| <= p < |log + more|
    requires EnteredAt(log, About((log + more)[p]), i)
    requires forall j :: 0 <= j < |more| ==> more[j].kind == EXIT
    ensures LatestEnter(log + more, p, i)
  {
    var all := log + more;
    forall j | 0 <= j < p
      ensures IsEnterOf(all[j], all[p]) <==> all[j].kind == ENTER && About(all[j]) == About(all[p])
    {
      if About(all[j]) == About(all[p]) {
        KeyIsInjective(all[j].readerId.value, all[j].epc, all[p].readerId.value, all[p].epc);
      }
    }
    forall j | i < j < p
      ensures !IsEnterOf(all[j], all[p])
    {
      if j < |log| {
        assert About(log[j]) != About(all[p]);
      } else {
        assert all[j] == more[j - |log|];
      }
    }
  }

  ghost predicate InOrder(log: seq<Detection>, epcs: seq<string>, p: nat, q: nat)
    requires p < |log| && q < |log|
  {
    match (log[p].kind, log[q].kind)
    case (ENTER, ENTER) =>
      exists a: nat, b: nat :: a < b && FirstSighting(epcs, log[p].epc, a) && FirstSighting(epcs, log[q].epc, b)
    case (ENTER, EXIT) => true
    case (EXIT, ENTER) => false
    case (EXIT, EXIT) => exists i: nat, j: nat :: i < j && LatestEnter(log, p, i) && LatestEnter(log, q, j)
  }

  /** The events of an update, in the log of a run that it ends: first the ENTERs, in the order in which the update
      sights their tags first; then the EXITs, in the order in which their tags entered last. */
  lemma EventsAreInOrder(run: seq<Scan>, u: Scan, timeout: real, p: nat, q: nat)
    requires NulFreeReaders(run) && NulFree(u.reader)
    requires |Log(run, timeout)| <= p < q < |Log(run + [u], timeout)|
    ensures InOrder(Log(run + [u], timeout), u.epcs, p, q)
  {
    var d, reader := After(run, timeout), Some(u.reader);
    var before, seen := Log(run, timeout), Seen(d, u.epcs, u.at, Some(u.reader));
    var enters, exits := Enters(d, u.epcs, u.at, Some(u.reader)), Exits(seen, u.at, timeout, Some(u.reader));
    assert (run + [u])[..|run|] == run;
    Seqs.Assoc(before, enters, exits);
    var places := RunPlaced(run, timeout);
    places := SightingsPlaced(before, d, places, u.epcs, u.at, reader);
    LogByReaders(run + [u], timeout);
    UpdateIsInOrder(before, enters, exits, d, seen, u, timeout, places, p, q);
  }

  lemma {:induction false} ExitsExit(d: Dict, t: real, timeout: real, readerId: Option<string>)
    ensures forall j :: 0 <= j < |Exits(d, t, timeout, readerId)| ==> Exits(d, t, timeout, readerId)[j].kind == EXIT
  {
    if d != [] {
      ExitsExit(d[1..], t, timeout, readerId);
    }
  }

  lemma TwoOfTheExits(mid: seq<Detection>, exits: seq<Detection>, seen: Dict, u: Scan, timeout: real,
                      places: seq<nat>, epcs: seq<string>, p: nat, q: nat)
    requires NulFree(u.reader) && ByReaders(mid + exits) && Placed(mid, seen, places)
    requires exits == Exits(seen, u.at, timeout, Some(u.reader)) && |mid| <= p < q < |mid + exits|
    ensures InOrder(mid + exits, epcs, p, q)
  {
    ExitsExit(seen, u.at, timeout, Some(u.reader));
    var k, l := TwoExits(seen, u.at, timeout, u.reader, p - |mid|, q - |mid|);
    EnteredAtIsLatest(mid, exits, places[k], p);
    EnteredAtIsLatest(mid, exits, places[l], q);
    assert places[k] < places[l];
  }

  lemma UpdateIsInOrder(before: seq<Detection>, enters: seq<Detection>, exits: seq<Detection>, d: Dict, seen: Dict,
                        u: Scan, timeout: real, places: seq<nat>, p: nat, q: nat)
    requires NulFree(u.reader) && ByReaders(before + enters + exits) && Placed(before + enters, seen, places)
    requires enters == Enters(d, u.epcs, u.at, Some(u.reader)) && exits == Exits(seen, u.at, timeout, Some(u.reader))
    requires |before| <= p < q < |before + enters + exits|
    ensures InOrder(before + enters + exits, u.epcs, p, q)
  {
    var log, mid, m := before + enters + exits, before + enters, |before|;
    if q < |mid| {
      assert log[p] == enters[p - m] && log[q] == enters[q - m];
      EntersAreNew(d, u.epcs, u.at, Some(u.reader), p - m);
      EntersAreNew(d, u.epcs, u.at, Some(u.reader), q - m);
      var a, b := TwoEnters(d, u.epcs, u.at, Some(u.reader), p - m, q - m);
    } else if p < |mid| {
      ExitsExit(seen, u.at, timeout, Some(u.reader));
      assert log[p] == enters[p - m] && log[q] == exits[q - |mid|];
      EntersAreNew(d, u.epcs, u.at, Some(u.reader), p - m);
    } else {
      TwoOfTheExits(mid, exits, seen, u, timeout, places, u.epcs, p, q);
    }
  }
}
