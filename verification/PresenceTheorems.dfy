/** What holds of every run of the presence engine, with any number of readers and any clock. */
module PresenceTheorems {
  import opened Wrappers
  import opened Presence
  import Seqs

  /** One update by an identified reader. */
  datatype Scan = Scan(reader: string, epcs: seq<string>, at: real)

  predicate NulFreeReaders(run: seq<Scan>) {
    forall i :: 0 <= i < |run| ==> NulFree(run[i].reader)
  }

  function After(run: seq<Scan>, timeout: real): Dict {
    if run == [] then [] else
      var u := run[|run| - 1];
      Updated(After(run[..|run| - 1], timeout), u.epcs, u.at, timeout, Some(u.reader))
  }

  function StepEvents(d: Dict, u: Scan, timeout: real): seq<Detection> {
    Emitted(d, u.epcs, u.at, timeout, Some(u.reader))
  }

  function Log(run: seq<Scan>, timeout: real): seq<Detection> {
    if run == [] then [] else
      var before := run[..|run| - 1];
      Log(before, timeout) + StepEvents(After(before, timeout), run[|run| - 1], timeout)
  }

  function Key(reader: string, epc: string): string {
    TagKey(epc, Some(reader))
  }

  // ----- keys of different readers never meet -----

  /** Belonging to a reader is decided by the part before the first NUL. */
  lemma KeysSeparateReaders(reader: string, other: string, key: string)
    requires NulFree(reader) && NulFree(other)
    requires Prefix(reader) <= key && Prefix(other) <= key
    ensures reader == other
  {
    var n, m := |reader|, |other|;
    assert key[n] == Prefix(reader)[n] == '\0' && key[m] == Prefix(other)[m] == '\0';
    assert reader == key[..n] && other == key[..m];
  }

  lemma KeyBelongs(reader: string, other: string, epc: string)
    requires NulFree(reader) && NulFree(other)
    ensures Prefix(reader) <= Key(other, epc) <==> reader == other
  {
    assert Prefix(other) <= Key(other, epc);
    if Prefix(reader) <= Key(other, epc) {
      KeysSeparateReaders(reader, other, Key(other, epc));
    }
  }

  lemma KeyIsInjective(r: string, e: string, r': string, e': string)
    requires NulFree(r) && NulFree(r') && Key(r, e) == Key(r', e')
    ensures r == r' && e == e'
  {
    KeyBelongs(r, r', e');
    assert e == Key(r, e)[|Prefix(r)|..] && e' == Key(r', e')[|Prefix(r')|..];
  }

  lemma {:induction false} EpcOfKey(reader: string, epc: string)
    requires NulFree(reader)
    ensures EpcFromKey(Key(reader, epc)) == epc
  {
    var key := Key(reader, epc);
    assert key[|reader|] == '\0';
    if reader == "" {
      assert key[1..] == epc;
    } else {
      assert reader[0] in reader && key[0] == reader[0];
      assert key[1..] == Key(reader[1..], epc);
      EpcOfKey(reader[1..], epc);
      assert key[1..][|reader| - 1] == '\0';
    }
  }

  // ----- a reader's part of the dictionary -----

  function Project(d: Dict, reader: string): Dict {
    if d == [] then [] else
      var rest := Project(d[1..], reader);
      if Prefix(reader) <= d[0].key then [d[0]] + rest else rest
  }

  function Only(run: seq<Scan>, reader: string): seq<Scan> {
    if run == [] then [] else
      var rest := Only(run[..|run| - 1], reader);
      if run[|run| - 1].reader == reader then rest + [run[|run| - 1]] else rest
  }

  function LogOf(log: seq<Detection>, reader: string): seq<Detection> {
    if log == [] then [] else
      var rest := LogOf(log[1..], reader);
      if log[0].readerId == Some(reader) then [log[0]] + rest else rest
  }

  lemma {:induction false} ProjectPut(d: Dict, key: string, t: real, reader: string)
    ensures Project(Put(d, key, t), reader)
         == if Prefix(reader) <= key then Put(Project(d, reader), key, t) else Project(d, reader)
  {
    if d == [] {
      assert Put(d, key, t)[1..] == [];
    } else if d[0].key == key {
      assert Put(d, key, t)[1..] == d[1..];
      assert Prefix(reader) <= key ==> Project(d, reader)[1..] == Project(d[1..], reader);
    } else {
      ProjectPut(d[1..], key, t, reader);
      assert Put(d, key, t)[1..] == Put(d[1..], key, t);
      assert Prefix(reader) <= d[0].key ==> Project(d, reader)[1..] == Project(d[1..], reader);
    }
  }

  lemma {:induction false} ProjectHasKey(d: Dict, key: string, reader: string)
    requires Prefix(reader) <= key
    ensures HasKey(Project(d, reader), key) == HasKey(d, key)
  {
    if d != [] {
      ProjectHasKey(d[1..], key, reader);
      assert Prefix(reader) <= d[0].key ==> Project(d, reader)[1..] == Project(d[1..], reader);
    }
  }

  lemma {:induction false} ProjectSeen(d: Dict, epcs: seq<string>, t: real, who: string, reader: string)
    requires NulFree(who) && NulFree(reader)
    ensures Project(Seen(d, epcs, t, Some(who)), reader)
         == if who == reader then Seen(Project(d, reader), epcs, t, Some(who)) else Project(d, reader)
    ensures who == reader ==> Enters(Project(d, reader), epcs, t, Some(who)) == Enters(d, epcs, t, Some(who))
    decreases |epcs|
  {
    if epcs != [] {
      var key := Key(who, epcs[0]);
      KeyBelongs(reader, who, epcs[0]);
      ProjectPut(d, key, t, reader);
      if who == reader {
        ProjectHasKey(d, key, reader);
      }
      ProjectSeen(Put(d, key, t), epcs[1..], t, who, reader);
    }
  }

  lemma {:induction false} ProjectKept(d: Dict, t: real, timeout: real, who: string, reader: string)
    requires NulFree(who) && NulFree(reader)
    ensures Project(Kept(d, t, timeout, Some(who)), reader)
         == if who == reader then Kept(Project(d, reader), t, timeout, Some(who)) else Project(d, reader)
    ensures who == reader ==> Exits(Project(d, reader), t, timeout, Some(who)) == Exits(d, t, timeout, Some(who))
  {
    if d != [] {
      ProjectKept(d[1..], t, timeout, who, reader);
      var kept := Kept(d[1..], t, timeout, Some(who));
      assert ([d[0]] + kept)[1..] == kept;
      if Prefix(reader) <= d[0].key {
        assert Project(d, reader)[1..] == Project(d[1..], reader);
        if who != reader && Prefix(who) <= d[0].key {
          KeysSeparateReaders(who, reader, d[0].key);
        }
      }
    }
  }

  lemma {:induction false} LogOfAppend(a: seq<Detection>, b: seq<Detection>, reader: string)
    ensures LogOf(a + b, reader) == LogOf(a, reader) + LogOf(b, reader)
  {
    if a == [] {
      assert a + b == b;
    } else {
      assert (a + b)[1..] == a[1..] + b;
      LogOfAppend(a[1..], b, reader);
    }
  }

  /** Every event of an update carries the id of the reader that made it. */
  predicate AllBy(events: seq<Detection>, reader: string) {
    forall i :: 0 <= i < |events| ==> events[i].readerId == Some(reader)
  }

  lemma {:induction false} EntersBy(d: Dict, epcs: seq<string>, t: real, who: string)
    ensures AllBy(Enters(d, epcs, t, Some(who)), who)
    decreases |epcs|
  {
    if epcs != [] {
      EntersBy(Put(d, Key(who, epcs[0]), t), epcs[1..], t, who);
    }
  }

  lemma {:induction false} ExitsBy(d: Dict, t: real, timeout: real, who: string)
    ensures AllBy(Exits(d, t, timeout, Some(who)), who)
  {
    if d != [] {
      ExitsBy(d[1..], t, timeout, who);
    }
  }

  lemma {:induction false} LogOfAllBy(events: seq<Detection>, who: string, reader: string)
    requires AllBy(events, who)
    ensures LogOf(events, reader) == if who == reader then events else []
  {
    if events != [] {
      assert events[0].readerId == Some(who);
      assert AllBy(events[1..], who);
      LogOfAllBy(events[1..], who, reader);
      Seqs.HeadAndTail(events);
    }
  }

  /** Non-interference: what the shared engine emits for a reader, in order, and keeps for it, is
      what a fresh engine that serves this reader alone would emit and keep. */
  lemma {:induction false} ReadersDoNotInterfere(run: seq<Scan>, reader: string, timeout: real)
    requires NulFreeReaders(run) && NulFree(reader)
    ensures LogOf(Log(run, timeout), reader) == Log(Only(run, reader), timeout)
    ensures Project(After(run, timeout), reader) == After(Only(run, reader), timeout)
  {
    if run != [] {
      var before, u := run[..|run| - 1], run[|run| - 1];
      var d := After(before, timeout);
      ReadersDoNotInterfere(before, reader, timeout);
      ProjectSeen(d, u.epcs, u.at, u.reader, reader);
      ProjectKept(Seen(d, u.epcs, u.at, Some(u.reader)), u.at, timeout, u.reader, reader);
      EntersBy(d, u.epcs, u.at, u.reader);
      ExitsBy(Seen(d, u.epcs, u.at, Some(u.reader)), u.at, timeout, u.reader);
      LogOfAppend(Log(before, timeout), StepEvents(d, u, timeout), reader);
      LogOfAllBy(StepEvents(d, u, timeout), u.reader, reader);
      if u.reader == reader {
        var only := Only(before, reader);
        assert Only(run, reader)[..|only|] == only;
      }
    }
  }

  // ----- the sliding window -----

  function Last(d: Dict, key: string): Option<real> {
    if d == [] then None else if d[0].key == key then Some(d[0].lastSeen) else Last(d[1..], key)
  }

  predicate Tracked(run: seq<Scan>, timeout: real, reader: string, epc: string) {
    Last(After(run, timeout), Key(reader, epc)).Some?
  }

  lemma {:induction false} LastIsHasKey(d: Dict, key: string)
    ensures Last(d, key).Some? == HasKey(d, key)
  {
    if d != [] {
      LastIsHasKey(d[1..], key);
    }
  }

  lemma {:induction false} LastPut(d: Dict, key: string, t: real, k: string)
    ensures Last(Put(d, key, t), k) == if k == key then Some(t) else Last(d, k)
  {
    if d == [] {
      assert Put(d, key, t)[1..] == [];
    } else if d[0].key == key {
      assert Put(d, key, t)[1..] == d[1..];
    } else {
      LastPut(d[1..], key, t, k);
      assert Put(d, key, t)[1..] == Put(d[1..], key, t);
    }
  }

  lemma {:induction false} LastSeen(d: Dict, epcs: seq<string>, t: real, who: string, reader: string, epc: string)
    requires NulFree(who) && NulFree(reader)
    ensures Last(Seen(d, epcs, t, Some(who)), Key(reader, epc))
         == if reader == who && epc in epcs then Some(t) else Last(d, Key(reader, epc))
    decreases |epcs|
  {
    if epcs != [] {
      var key := Key(who, epcs[0]);
      LastPut(d, key, t, Key(reader, epc));
      LastSeen(Put(d, key, t), epcs[1..], t, who, reader, epc);
      if key == Key(reader, epc) {
        KeyIsInjective(who, epcs[0], reader, epc);
      }
      Seqs.HeadAndTail(epcs);
    }
  }

  function Unexpired(last: Option<real>, key: string, t: real, timeout: real, readerId: Option<string>): Option<real> {
    if last.Some? && Due(Entry(key, last.value), t, timeout, readerId) then None else last
  }

  lemma {:induction false} LastKept(d: Dict, t: real, timeout: real, readerId: Option<string>, key: string)
    requires UniqueKeys(d)
    ensures Last(Kept(d, t, timeout, readerId), key) == Unexpired(Last(d, key), key, t, timeout, readerId)
  {
    if d != [] {
      LastKept(d[1..], t, timeout, readerId, key);
      LastIsHasKey(d[1..], d[0].key);
      var kept := Kept(d[1..], t, timeout, readerId);
      assert ([d[0]] + kept)[1..] == kept;
    }
  }

  lemma {:induction false} SeenUnique(d: Dict, epcs: seq<string>, t: real, readerId: Option<string>)
    requires UniqueKeys(d)
    ensures UniqueKeys(Seen(d, epcs, t, readerId))
    decreases |epcs|
  {
    if epcs != [] {
      PutKeepsUnique(d, TagKey(epcs[0], readerId), t);
      SeenUnique(Put(d, TagKey(epcs[0], readerId), t), epcs[1..], t, readerId);
    }
  }

  lemma {:induction false} AfterUnique(run: seq<Scan>, timeout: real)
    ensures UniqueKeys(After(run, timeout))
  {
    if run != [] {
      var before, u := run[..|run| - 1], run[|run| - 1];
      AfterUnique(before, timeout);
      SeenUnique(After(before, timeout), u.epcs, u.at, Some(u.reader));
      KeptKeepsUnique(Seen(After(before, timeout), u.epcs, u.at, Some(u.reader)), u.at, timeout, Some(u.reader));
    }
  }

  /** One update, seen from one tag of one reader. */
  function NextSighting(last: Option<real>, u: Scan, timeout: real, reader: string, epc: string): Option<real> {
    if u.reader != reader then last
    else
      var seen := if epc in u.epcs then Some(u.at) else last;
      if seen.Some? && u.at - seen.value >= timeout then None else seen
  }

  lemma LastUpdated(d: Dict, u: Scan, timeout: real, reader: string, epc: string)
    requires UniqueKeys(d) && NulFree(u.reader) && NulFree(reader)
    ensures Last(Updated(d, u.epcs, u.at, timeout, Some(u.reader)), Key(reader, epc))
         == NextSighting(Last(d, Key(reader, epc)), u, timeout, reader, epc)
  {
    LastSeen(d, u.epcs, u.at, u.reader, reader, epc);
    SeenUnique(d, u.epcs, u.at, Some(u.reader));
    LastKept(Seen(d, u.epcs, u.at, Some(u.reader)), u.at, timeout, Some(u.reader), Key(reader, epc));
    KeyBelongs(u.reader, reader, epc);
  }

  /** The i-th update is the reader's latest that sighted the tag. */
  predicate Sighted(run: seq<Scan>, reader: string, epc: string, i: nat) {
    && i < |run| && run[i].reader == reader && epc in run[i].epcs
    && forall j :: i < j < |run| && run[j].reader == reader ==> epc !in run[j].epcs
  }

  /** No update of the reader, from the i-th on, has come timeout or more after the i-th. */
  predicate InTime(run: seq<Scan>, reader: string, i: nat, timeout: real)
    requires i < |run|
  {
    forall j :: i <= j < |run| && run[j].reader == reader ==> run[j].at - run[i].at < timeout
  }

  ghost predicate InWindow(run: seq<Scan>, reader: string, epc: string, s: real, timeout: real) {
    exists i: nat :: Sighted(run, reader, epc, i) && InTime(run, reader, i, timeout) && run[i].at == s
  }

  /** The sliding window, for every clock: the engine holds a tag, with time s, exactly when the tag's
      latest sighting was at s and every update of its reader since then came within the timeout. */
  lemma {:induction false} EntriesAreTheWindow(run: seq<Scan>, reader: string, epc: string, s: real, timeout: real)
    requires NulFreeReaders(run) && NulFree(reader)
    ensures Last(After(run, timeout), Key(reader, epc)) == Some(s) <==> InWindow(run, reader, epc, s, timeout)
  {
    if run != [] {
      var n := |run| - 1;
      var before, u := run[..n], run[n];
      EntriesAreTheWindow(before, reader, epc, s, timeout);
      AfterUnique(before, timeout);
      LastUpdated(After(before, timeout), u, timeout, reader, epc);
      WindowStep(run, reader, epc, s, timeout);
    }
  }

  lemma WindowStep(run: seq<Scan>, reader: string, epc: string, s: real, timeout: real)
    requires run != []
    ensures var u := run[|run| - 1];
            InWindow(run, reader, epc, s, timeout) <==>
              if u.reader == reader && epc in u.epcs then s == u.at && 0.0 < timeout
              else InWindow(run[..|run| - 1], reader, epc, s, timeout)
                   && (u.reader == reader ==> u.at - s < timeout)
  {
    var n := |run| - 1;
    if run[n].reader == reader && epc in run[n].epcs {
      if s == run[n].at && 0.0 < timeout {
        assert Sighted(run, reader, epc, n) && InTime(run, reader, n, timeout);
      }
    } else {
      if i: nat :| Sighted(run, reader, epc, i) && InTime(run, reader, i, timeout) && run[i].at == s {
        SightingStep(run, reader, epc, i, timeout);
        assert run[..n][i].at == s;
      }
      if i: nat :| Sighted(run[..n], reader, epc, i) && InTime(run[..n], reader, i, timeout) && run[..n][i].at == s {
        SightingStep(run, reader, epc, i, timeout);
      }
    }
  }

  lemma SightingStep(run: seq<Scan>, reader: string, epc: string, i: nat, timeout: real)
    requires i < |run| && !(run[|run| - 1].reader == reader && epc in run[|run| - 1].epcs)
    ensures Sighted(run, reader, epc, i) <==> Sighted(run[..|run| - 1], reader, epc, i)
    ensures i < |run| - 1 ==>
              (InTime(run, reader, i, timeout) <==>
                InTime(run[..|run| - 1], reader, i, timeout)
                && (run[|run| - 1].reader == reader ==> run[|run| - 1].at - run[i].at < timeout))
  {
    var n := |run| - 1;
    assert forall j :: 0 <= j < n ==> run[..n][j] == run[j];
  }

  /** The simple reading of the window, at the reader's last update, the l-th. */
  ghost predicate InSimpleWindow(run: seq<Scan>, reader: string, epc: string, s: real, timeout: real, l: nat)
    requires l < |run|
  {
    run[l].at - s < timeout && exists i: nat :: Sighted(run, reader, epc, i) && run[i].at == s
  }

  predicate IsLastUpdate(run: seq<Scan>, reader: string, l: nat) {
    l < |run| && run[l].reader == reader && forall j :: l < j < |run| ==> run[j].reader != reader
  }

  /** With a clock that does not run backwards only the reader's last update, the l-th, matters. */
  lemma WindowUnderMonotoneClock(run: seq<Scan>, reader: string, epc: string, s: real, timeout: real, l: nat)
    requires NulFreeReaders(run) && NulFree(reader)
    requires IsLastUpdate(run, reader, l)
    requires forall i, j :: 0 <= i < j < |run| && run[i].reader == reader == run[j].reader ==> run[i].at <= run[j].at
    ensures Last(After(run, timeout), Key(reader, epc)) == Some(s) <==> InSimpleWindow(run, reader, epc, s, timeout, l)
  {
    EntriesAreTheWindow(run, reader, epc, s, timeout);
    if i: nat :| Sighted(run, reader, epc, i) && run[i].at == s && run[l].at - s < timeout {
      assert InTime(run, reader, i, timeout);
    }
  }

  /** Since the i-th update one of the reader's has come too late to keep a tag last sighted by the i-th. */
  predicate CameLate(run: seq<Scan>, reader: string, i: nat, timeout: real)
    requires i < |run|
  {
    exists j :: i <= j < |run| && run[j].reader == reader && run[j].at - run[i].at >= timeout
  }

  /** For every clock: the simple reading is right about a tag exactly unless an update came late since
      its latest sighting, and the reader's last update did not. */
  lemma SimpleWindowIsRightExactlyWhen(run: seq<Scan>, reader: string, epc: string, timeout: real, i: nat, l: nat)
    requires NulFreeReaders(run) && NulFree(reader) && IsLastUpdate(run, reader, l) && Sighted(run, reader, epc, i)
    ensures (forall s ::
               Last(After(run, timeout), Key(reader, epc)) == Some(s) <==>
               InSimpleWindow(run, reader, epc, s, timeout, l))
         <==> !(CameLate(run, reader, i, timeout) && run[l].at - run[i].at < timeout)
  {
    forall s
      ensures Last(After(run, timeout), Key(reader, epc)) == Some(s)
         <==> s == run[i].at && !CameLate(run, reader, i, timeout)
      ensures InSimpleWindow(run, reader, epc, s, timeout, l) <==> s == run[i].at && run[l].at - s < timeout
    {
      EntriesAreTheWindow(run, reader, epc, s, timeout);
      if k: nat :| Sighted(run, reader, epc, k) {
        assert k == i;
      }
    }
    assert i <= l;
    if run[l].at - run[i].at >= timeout {
      assert CameLate(run, reader, i, timeout);
    }
    assert InSimpleWindow(run, reader, epc, run[i].at, timeout, l) <==> run[l].at - run[i].at < timeout;
  }

  /** For every tag and timeout there is such a run: the clock runs ahead for one update and is set back. */
  lemma SetBackClockLosesATag(reader: string, epc: string, timeout: real)
    requires NulFree(reader) && timeout > 0.0
    ensures var run := [Scan(reader, [epc], 0.0), Scan(reader, [], timeout), Scan(reader, [], 0.0)];
            InSimpleWindow(run, reader, epc, 0.0, timeout, 2) && !Tracked(run, timeout, reader, epc)
  {
    var run := [Scan(reader, [epc], 0.0), Scan(reader, [], timeout), Scan(reader, [], 0.0)];
    assert Sighted(run, reader, epc, 0);
    forall i: nat | Sighted(run, reader, epc, i)
      ensures !InTime(run, reader, i, timeout)
    {
      assert run[1].at - run[i].at >= timeout;
    }
    forall s
      ensures Last(After(run, timeout), Key(reader, epc)) != Some(s)
    {
      EntriesAreTheWindow(run, reader, epc, s, timeout);
    }
  }

  // ----- which events an update emits -----

  /** The kinds of the events about one tag of one reader, in order. */
  function Kinds(log: seq<Detection>, reader: string, epc: string): seq<Kind> {
    if log == [] then [] else
      var rest := Kinds(log[1..], reader, epc);
      if log[0].epc == epc && log[0].readerId == Some(reader) then [log[0].kind] + rest else rest
  }

  lemma {:induction false} KindsAppend(a: seq<Detection>, b: seq<Detection>, reader: string, epc: string)
    ensures Kinds(a + b, reader, epc) == Kinds(a, reader, epc) + Kinds(b, reader, epc)
  {
    if a == [] {
      assert a + b == b;
    } else {
      assert (a + b)[1..] == a[1..] + b;
      KindsAppend(a[1..], b, reader, epc);
    }
  }

  lemma {:induction false} KindsOfEnters(d: Dict, epcs: seq<string>, t: real, who: string, reader: string, epc: string)
    requires NulFree(who) && NulFree(reader)
    ensures Kinds(Enters(d, epcs, t, Some(who)), reader, epc)
         == if reader == who && epc in epcs && Last(d, Key(reader, epc)).None? then [ENTER] else []
    decreases |epcs|
  {
    if epcs != [] {
      var key := Key(who, epcs[0]);
      var rest := Enters(Put(d, key, t), epcs[1..], t, Some(who));
      KindsOfEnters(Put(d, key, t), epcs[1..], t, who, reader, epc);
      LastPut(d, key, t, Key(reader, epc));
      LastIsHasKey(d, key);
      if key == Key(reader, epc) {
        KeyIsInjective(who, epcs[0], reader, epc);
      }
      Seqs.HeadAndTail(epcs);
      assert ([Detection(ENTER, epcs[0], Some(who))] + rest)[1..] == rest;
    }
  }

  lemma {:induction false} KindsOfExits(d: Dict, t: real, timeout: real, who: string, reader: string, epc: string)
    requires UniqueKeys(d) && NulFree(who) && NulFree(reader)
    ensures var last := Last(d, Key(reader, epc));
            Kinds(Exits(d, t, timeout, Some(who)), reader, epc)
            == (if reader == who && last.Some? && t - last.value >= timeout then [EXIT] else [])
  {
    if d != [] {
      var key, rest := d[0].key, Exits(d[1..], t, timeout, Some(who));
      KindsOfExits(d[1..], t, timeout, who, reader, epc);
      LastIsHasKey(d[1..], key);
      KeyBelongs(who, reader, epc);
      if Due(d[0], t, timeout, Some(who)) {
        var e := key[|Prefix(who)|..];
        assert key == Key(who, e);
        EpcOfKey(who, e);
        assert ([Detection(EXIT, e, Some(who))] + rest)[1..] == rest;
      }
    }
  }

  /** ENTER exactly when an untracked tag is sighted, EXIT exactly when a tag the update holds or
      sights is not held afterwards; each at most once, ENTER first, and nothing about other readers. */
  lemma EventsAreWindowChanges(run: seq<Scan>, u: Scan, timeout: real, reader: string, epc: string)
    requires NulFreeReaders(run) && NulFree(u.reader) && NulFree(reader)
    ensures var was := Tracked(run, timeout, reader, epc);
            var held := Tracked(run + [u], timeout, reader, epc);
            var sighted := u.reader == reader && epc in u.epcs;
            Kinds(StepEvents(After(run, timeout), u, timeout), reader, epc)
            == (if !was && sighted then [ENTER] else []) + (if (was || sighted) && !held then [EXIT] else [])
    ensures AllBy(StepEvents(After(run, timeout), u, timeout), u.reader)
  {
    var d := After(run, timeout);
    var seen := Seen(d, u.epcs, u.at, Some(u.reader));
    assert (run + [u])[..|run|] == run;
    AfterUnique(run, timeout);
    SeenUnique(d, u.epcs, u.at, Some(u.reader));
    LastUpdated(d, u, timeout, reader, epc);
    LastSeen(d, u.epcs, u.at, u.reader, reader, epc);
    KindsOfEnters(d, u.epcs, u.at, u.reader, reader, epc);
    KindsOfExits(seen, u.at, timeout, u.reader, reader, epc);
    KindsAppend(Enters(d, u.epcs, u.at, Some(u.reader)), Exits(seen, u.at, timeout, Some(u.reader)), reader, epc);
    EntersBy(d, u.epcs, u.at, u.reader);
    ExitsBy(seen, u.at, timeout, u.reader);
  }

  /** With a positive timeout the events are exactly the changes between successive windows. */
  lemma EventsAreMembershipChanges(run: seq<Scan>, u: Scan, timeout: real, reader: string, epc: string)
    requires NulFreeReaders(run) && NulFree(u.reader) && NulFree(reader) && timeout > 0.0
    ensures var was := Tracked(run, timeout, reader, epc);
            var held := Tracked(run + [u], timeout, reader, epc);
            Kinds(StepEvents(After(run, timeout), u, timeout), reader, epc)
            == if !was && held then [ENTER] else if was && !held then [EXIT] else []
  {
    EventsAreWindowChanges(run, u, timeout, reader, epc);
    assert (run + [u])[..|run|] == run;
    AfterUnique(run, timeout);
    LastUpdated(After(run, timeout), u, timeout, reader, epc);
  }

  /** A tag that is still tracked, however old its entry, and is sighted again causes no event. */
  lemma ResightedTagIsSilent(run: seq<Scan>, u: Scan, timeout: real, epc: string)
    requires NulFreeReaders(run) && NulFree(u.reader) && timeout > 0.0
    requires Tracked(run, timeout, u.reader, epc) && epc in u.epcs
    ensures Kinds(StepEvents(After(run, timeout), u, timeout), u.reader, epc) == []
    ensures Tracked(run + [u], timeout, u.reader, epc)
  {
    EventsAreMembershipChanges(run, u, timeout, u.reader, epc);
    assert (run + [u])[..|run|] == run;
    AfterUnique(run, timeout);
    LastUpdated(After(run, timeout), u, timeout, u.reader, epc);
  }

  // ----- whole runs -----

  predicate Alternates(kinds: seq<Kind>) {
    forall i :: 0 <= i < |kinds| ==> kinds[i] == if i % 2 == 0 then ENTER else EXIT
  }

  /** How one more update changes the kinds about a tag, and whether the tag is held. */
  predicate NextKinds(was: bool, more: seq<Kind>, held: bool) {
    || (more == [] && held == was)
    || (more == [ENTER] && !was && held)
    || (more == [EXIT] && was && !held)
    || (more == [ENTER, EXIT] && !was && !held)
  }

  lemma AlternationGoesOn(kinds: seq<Kind>, was: bool, more: seq<Kind>, held: bool)
    requires Alternates(kinds) && (was <==> |kinds| % 2 == 1)
    requires NextKinds(was, more, held)
    ensures Alternates(kinds + more) && (held <==> |kinds + more| % 2 == 1)
  {
  }

  /** Whatever the clock does, the events about a tag alternate, starting with ENTER, and the tag is
      tracked exactly when the last of them is an ENTER. */
  lemma {:induction false} EventsAlternate(run: seq<Scan>, timeout: real, reader: string, epc: string)
    requires NulFreeReaders(run) && NulFree(reader)
    ensures Alternates(Kinds(Log(run, timeout), reader, epc))
    ensures Tracked(run, timeout, reader, epc) <==> |Kinds(Log(run, timeout), reader, epc)| % 2 == 1
  {
    if run != [] {
      var before, u := run[..|run| - 1], run[|run| - 1];
      EventsAlternate(before, timeout, reader, epc);
      AlternationStep(before, u, timeout, reader, epc);
      assert before + [u] == run;
    }
  }

  lemma AlternationStep(run: seq<Scan>, u: Scan, timeout: real, reader: string, epc: string)
    requires NulFreeReaders(run) && NulFree(u.reader) && NulFree(reader)
    requires Alternates(Kinds(Log(run, timeout), reader, epc))
    requires Tracked(run, timeout, reader, epc) <==> |Kinds(Log(run, timeout), reader, epc)| % 2 == 1
    ensures Alternates(Kinds(Log(run + [u], timeout), reader, epc))
    ensures Tracked(run + [u], timeout, reader, epc) <==> |Kinds(Log(run + [u], timeout), reader, epc)| % 2 == 1
  {
    var more := StepEvents(After(run, timeout), u, timeout);
    KindsOfUpdate(run, u, timeout, reader, epc);
    KindsAppend(Log(run, timeout), more, reader, epc);
    AlternationGoesOn(Kinds(Log(run, timeout), reader, epc), Tracked(run, timeout, reader, epc),
                      Kinds(more, reader, epc), Tracked(run + [u], timeout, reader, epc));
    assert (run + [u])[..|run|] == run;
    assert Log(run + [u], timeout) == Log(run, timeout) + more;
  }

  lemma KindsOfUpdate(run: seq<Scan>, u: Scan, timeout: real, reader: string, epc: string)
    requires NulFreeReaders(run) && NulFree(u.reader) && NulFree(reader)
    ensures NextKinds(Tracked(run, timeout, reader, epc),
                      Kinds(StepEvents(After(run, timeout), u, timeout), reader, epc),
                      Tracked(run + [u], timeout, reader, epc))
  {
    EventsAreWindowChanges(run, u, timeout, reader, epc);
    assert (run + [u])[..|run|] == run;
    AfterUnique(run, timeout);
    LastUpdated(After(run, timeout), u, timeout, reader, epc);
  }

  function Count(log: seq<Detection>, kind: Kind): nat {
    if log == [] then 0 else (if log[0].kind == kind then 1 else 0) + Count(log[1..], kind)
  }

  lemma {:induction false} CountAppend(a: seq<Detection>, b: seq<Detection>, kind: Kind)
    ensures Count(a + b, kind) == Count(a, kind) + Count(b, kind)
  {
    if a == [] {
      assert a + b == b;
    } else {
      assert (a + b)[1..] == a[1..] + b;
      CountAppend(a[1..], b, kind);
    }
  }

  lemma {:induction false} PutSize(d: Dict, key: string, t: real)
    ensures |Put(d, key, t)| == |d| + (if HasKey(d, key) then 0 else 1)
  {
    if d != [] && d[0].key != key {
      PutSize(d[1..], key, t);
    }
  }

  lemma {:induction false} EntersSize(d: Dict, epcs: seq<string>, t: real, readerId: Option<string>)
    ensures |Seen(d, epcs, t, readerId)| == |d| + Count(Enters(d, epcs, t, readerId), ENTER)
    ensures Count(Enters(d, epcs, t, readerId), EXIT) == 0
    decreases |epcs|
  {
    if epcs != [] {
      var key := TagKey(epcs[0], readerId);
      var rest := Enters(Put(d, key, t), epcs[1..], t, readerId);
      PutSize(d, key, t);
      EntersSize(Put(d, key, t), epcs[1..], t, readerId);
      assert ([Detection(ENTER, epcs[0], readerId)] + rest)[1..] == rest;
    }
  }

  lemma {:induction false} ExitsSize(d: Dict, t: real, timeout: real, readerId: Option<string>)
    ensures |d| == |Kept(d, t, timeout, readerId)| + Count(Exits(d, t, timeout, readerId), EXIT)
    ensures Count(Exits(d, t, timeout, readerId), ENTER) == 0
  {
    if d != [] {
      var rest := Exits(d[1..], t, timeout, readerId);
      ExitsSize(d[1..], t, timeout, readerId);
      assert ([Detection(EXIT, EpcFromKey(d[0].key), readerId)] + rest)[1..] == rest;
    }
  }

  /** Conservation: ENTERs less EXITs is the number of tracked tags, always. */
  lemma {:induction false} EntersLessExitsAreTracked(run: seq<Scan>, timeout: real)
    ensures Count(Log(run, timeout), ENTER) == Count(Log(run, timeout), EXIT) + |After(run, timeout)|
  {
    if run != [] {
      var before, u := run[..|run| - 1], run[|run| - 1];
      var d := After(before, timeout);
      var seen := Seen(d, u.epcs, u.at, Some(u.reader));
      var enters, exits := Enters(d, u.epcs, u.at, Some(u.reader)), Exits(seen, u.at, timeout, Some(u.reader));
      EntersLessExitsAreTracked(before, timeout);
      EntersSize(d, u.epcs, u.at, Some(u.reader));
      ExitsSize(seen, u.at, timeout, Some(u.reader));
      CountAppend(enters, exits, ENTER);
      CountAppend(enters, exits, EXIT);
      CountAppend(Log(before, timeout), enters + exits, ENTER);
      CountAppend(Log(before, timeout), enters + exits, EXIT);
    }
  }
}
