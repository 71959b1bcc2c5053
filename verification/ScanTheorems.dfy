/** What a run of the agent makes of the replies of the reader. */
module ScanTheorems {
  import opened Wrappers
  import opened Streams
  import opened Frames
  import opened Inventory
  import opened SerialLine
  import opened Health
  import opened Presence
  import opened PresenceTheorems
  import opened DeliveryProtocol
  import opened Turns
  import opened TurnTheorems

  // ----- from the replies to the presence engine -----

  /** The record of a scan is what came of that inventory command, at that reading of the clock. */
  predicate HeardAt(s: Setup, r: ScanRecord, command: nat, reading: nat) {
    match s.wiring.arrivals.At(command)
    case Fault(_, _) => r.outcome == FaultyScan
    case Bytes(available) =>
      var answer := Classified(ReadFrame(available));
      && (r.outcome == ValidScan <==> answer.status == VALID)
      && (r.outcome == NoResponseScan <==> answer.status == NO_RESPONSE)
      && (r.outcome == MalformedScan <==> answer.status == MALFORMED)
      && (r.outcome == ValidScan ==> r.epcs == answer.tags && r.at == s.env.clock.At(reading))
  }

  lemma ScanIsHeard(s: Setup, command: nat, reading: nat)
    ensures HeardAt(s, ScanOf(s.wiring.arrivals.At(command), s.env.clock.At(reading)), command, reading)
  {
  }

  predicate Increasing(numbers: seq<nat>) {
    forall k, l :: 0 <= k < l < |numbers| ==> numbers[k] < numbers[l]
  }

  predicate ScansOk(s: Setup, x: Snapshot) {
    && |x.senses.history| == |x.senses.heard| == |x.link.scans| && |x.link.asked| == x.link.commands
    && Increasing(x.link.scans) && Increasing(x.senses.heard)
    && (forall k :: 0 <= k < |x.link.scans| ==>
          x.link.scans[k] < x.link.commands && x.link.asked[x.link.scans[k]] == s.commands.inventory)
    && (forall k :: 0 <= k < |x.senses.heard| ==> x.senses.heard[k] <= x.readings)
    && (forall k :: 0 <= k < |x.senses.history| ==> HeardAt(s, x.senses.history[k], x.link.scans[k], x.senses.heard[k]))
  }

  lemma ScansCarryOver(s: Setup, x: Snapshot, y: Snapshot)
    requires ScansOk(s, x) && y.senses == x.senses && y.link.scans == x.link.scans
    requires y.readings >= x.readings && x.link.asked <= y.link.asked && |y.link.asked| == y.link.commands
    ensures ScansOk(s, y)
  {
  }

  lemma OneMore(numbers: seq<nat>, number: nat)
    requires Increasing(numbers) && forall k :: 0 <= k < |numbers| ==> numbers[k] < number
    ensures Increasing(numbers + [number])
  {
  }

  lemma OneMoreHeard(s: Setup, x: Snapshot, y: Snapshot, r: ScanRecord)
    requires ScansOk(s, x) && forall k :: 0 <= k < |x.senses.heard| ==> x.senses.heard[k] < x.readings
    requires HeardAt(s, r, x.link.commands, x.readings)
    requires y.senses.history == x.senses.history + [r] && y.senses.heard == x.senses.heard + [x.readings]
    requires y.link.scans == x.link.scans + [x.link.commands] && y.link.commands == x.link.commands + 1
    requires y.link.asked == x.link.asked + [s.commands.inventory]
    requires y.readings >= x.readings
    ensures ScansOk(s, y)
  {
    OneMore(x.link.scans, x.link.commands);
    OneMore(x.senses.heard, x.readings);
  }

  /** The commands sent for looking and connecting are no inventory commands. */
  lemma TriedScans(s: Setup, l: Link, reading: nat)
    requires |l.asked| == l.commands
    ensures var tried := Tried(s, l, reading);
            tried.scans == l.scans && l.asked <= tried.asked && |tried.asked| == tried.commands
  {
  }

  lemma ScansThroughTurn(s: Setup, x: Snapshot)
    requires ScansOk(s, x)
    ensures ScansOk(s, Turn(s, x))
  {
    if !x.aborted {
      var c := Connecting(s, x);
      TriedScans(s, x.link, x.readings);
      ScansCarryOver(s, x, c);
      if !c.aborted {
        var n := Scanning(s, c);
        if c.link.state == READY {
          ScanIsHeard(s, c.link.commands, c.readings);
          OneMoreHeard(s, c, n, ScanOf(s.wiring.arrivals.At(c.link.commands), s.env.clock.At(c.readings)));
        }
        ProceedingIsScanning(s, c);
        ScansCarryOver(s, n, Proceeding(s, c));
      }
    }
  }

  lemma ScansAlongRun(s: Setup, x: Snapshot, n: nat)
    requires ScansOk(s, x)
    ensures ScansOk(s, TurnsFrom(s, x, n))
  {
    forall y | ScansOk(s, y)
      ensures ScansOk(s, Turn(s, y))
    {
      ScansThroughTurn(s, y);
    }
    AlongRun(s, x, n, (y: Snapshot) => ScansOk(s, y));
  }

  /** The history of a run is what came of its inventory commands, one record for each, in order. */
  lemma HistoryIsWhatWasHeard(s: Setup, w: World, n: nat)
    ensures ScansOk(s, RunOf(s, w, n))
  {
    ScansAlongRun(s, Delivering(s, Initial(w)), n);
  }

  /** The valid scans alone, as updates of the presence engine. */
  function ValidScans(history: seq<ScanRecord>, readerId: string): seq<Scan> {
    if history == [] then [] else
      var before, last := ValidScans(history[..|history| - 1], readerId), history[|history| - 1];
      if last.outcome == ValidScan then before + [Scan(readerId, last.epcs, last.at)] else before
  }

  lemma OneMoreScan(history: seq<ScanRecord>, r: ScanRecord, readerId: string)
    ensures ValidScans(history + [r], readerId)
         == ValidScans(history, readerId) + if r.outcome == ValidScan then [Scan(readerId, r.epcs, r.at)] else []
  {
    assert (history + [r])[..|history|] == history;
  }

  lemma OneMoreUpdate(run: seq<Scan>, u: Scan, timeout: real)
    ensures After(run + [u], timeout) == Updated(After(run, timeout), u.epcs, u.at, timeout, Some(u.reader))
    ensures Log(run + [u], timeout) == Log(run, timeout) + StepEvents(After(run, timeout), u, timeout)
  {
    assert (run + [u])[..|run|] == run;
  }

  predicate SensesOk(c: Config, n: Senses) {
    var run := ValidScans(n.history, c.readerId);
    n.tags == After(run, c.exitTimeout) && n.log == Log(run, c.exitTimeout)
  }

  lemma SensesAfterScanOk(s: Setup, n: Senses, r: ScanRecord, reading: nat)
    requires SensesOk(s.config, n)
    ensures SensesOk(s.config, SensesAfterScan(s, n, r, reading))
  {
    OneMoreScan(n.history, r, s.config.readerId);
    OneMoreUpdate(ValidScans(n.history, s.config.readerId), Scan(s.config.readerId, r.epcs, r.at),
                  s.config.exitTimeout);
  }

  lemma SensesThroughTurn(s: Setup, x: Snapshot)
    requires SensesOk(s.config, x.senses)
    ensures SensesOk(s.config, Turn(s, x).senses)
  {
    if !x.aborted {
      var c := Connecting(s, x);
      var r := ScanOf(s.wiring.arrivals.At(c.link.commands), s.env.clock.At(c.readings));
      SensesAfterScanOk(s, c.senses, r, c.readings);
      ProceedingIsScanning(s, c);
    }
  }

  lemma SensesAlongRun(s: Setup, x: Snapshot, n: nat)
    requires SensesOk(s.config, x.senses)
    ensures SensesOk(s.config, TurnsFrom(s, x, n).senses)
  {
    forall y: Snapshot | SensesOk(s.config, y.senses)
      ensures SensesOk(s.config, Turn(s, y).senses)
    {
      SensesThroughTurn(s, y);
    }
    AlongRun(s, x, n, (y: Snapshot) => SensesOk(s.config, y.senses));
  }

  /** Outages leave no trace: the tracked tags and the events of a run are those of its valid scans alone. */
  lemma OutagesLeaveNoTrace(s: Setup, w: World, n: nat)
    ensures var x := RunOf(s, w, n);
            var run := ValidScans(x.senses.history, s.config.readerId);
            x.senses.tags == After(run, s.config.exitTimeout) && x.senses.log == Log(run, s.config.exitTimeout)
  {
    SensesAlongRun(s, Delivering(s, Initial(w)), n);
  }

  // ----- from the bytes of a reply to an ENTER -----

  /** The reply to this command is valid and carries the tag. */
  predicate Sights(s: Setup, command: nat, epc: string) {
    var arrival := s.wiring.arrivals.At(command);
    && arrival.Bytes? && Classified(ReadFrame(arrival.available)).status == VALID
    && epc in Classified(ReadFrame(arrival.available)).tags
  }

  /** It does when it is an inventory reply printed from a list with the EPC in it, whatever arrives after it. */
  lemma PrintedTagIsSighted(s: Setup, command: nat, address: byte, status: byte, epcs: seq<Epc>, crc: bv16,
                            more: seq<byte>, k: nat)
    requires |epcs| <= 255 && |Records(epcs)| + 6 <= 255 && 1 <= status <= 4 && k < |epcs|
    requires s.wiring.arrivals.At(command) == Bytes(InventoryFrame(address, status, epcs, crc) + more)
    ensures Sights(s, command, Hex(epcs[k]))
  {
    var reply := InventoryFrame(address, status, epcs, crc);
    ReadFrameLength(reply + more);
    assert ReadFrame(reply + more) == reply;
    ClassifyUndoesPrint(address, status, epcs, crc);
    HexAllAt(epcs, k);
  }

  lemma {:induction false} HexAllAt(epcs: seq<Epc>, k: nat)
    requires k < |epcs|
    ensures Hex(epcs[k]) in HexAll(epcs)
  {
    if k > 0 {
      HexAllAt(epcs[1..], k - 1);
    }
  }

  lemma TurnSenses(s: Setup, x: Snapshot) returns (r: ScanRecord, reading: nat)
    ensures Turn(s, x).senses == x.senses || Turn(s, x).senses == SensesAfterScan(s, x.senses, r, reading)
  {
    var c := Connecting(s, x);
    r, reading := ScanOf(s.wiring.arrivals.At(c.link.commands), s.env.clock.At(c.readings)), c.readings;
    ProceedingIsScanning(s, c);
  }

  lemma {:induction false} NewKeyEnters(d: Dict, epcs: seq<string>, t: real, readerId: Option<string>, epc: string)
    requires epc in epcs && !HasKey(d, TagKey(epc, readerId))
    ensures Detection(ENTER, epc, readerId) in Enters(d, epcs, t, readerId)
    decreases |epcs|
  {
    var key := TagKey(epcs[0], readerId);
    if epcs[0] != epc {
      OtherTagOtherKey(epcs[0], epc, readerId);
      PutKey(d, key, t, TagKey(epc, readerId));
      NewKeyEnters(Put(d, key, t), epcs[1..], t, readerId, epc);
    }
  }

  lemma OtherTagOtherKey(epc: string, other: string, readerId: Option<string>)
    requires epc != other
    ensures TagKey(epc, readerId) != TagKey(other, readerId)
  {
    if readerId.Some? {
      assert TagKey(epc, readerId)[|Prefix(readerId.value)|..] == epc;
      assert TagKey(other, readerId)[|Prefix(readerId.value)|..] == other;
    }
  }

  lemma NewTagIsLogged(s: Setup, n: Senses, r: ScanRecord, reading: nat, epc: string)
    requires r.outcome == ValidScan && epc in r.epcs && !HasKey(n.tags, Key(s.config.readerId, epc))
    ensures var log := SensesAfterScan(s, n, r, reading).log;
            n.log <= log && Detection(ENTER, epc, Some(s.config.readerId)) in log[|n.log|..]
  {
    var reader := Some(s.config.readerId);
    var emitted := Emitted(n.tags, r.epcs, r.at, s.config.exitTimeout, reader);
    NewKeyEnters(n.tags, r.epcs, r.at, reader, epc);
    assert (n.log + emitted)[|n.log|..] == emitted;
  }

  /** A scan was made from x to y, and its reply carries a tag that was not tracked before. */
  predicate SightsNewTag(s: Setup, x: Snapshot, y: Snapshot, epc: string) {
    && |y.link.scans| > |x.link.scans| && Sights(s, y.link.scans[|y.link.scans| - 1], epc)
    && !HasKey(x.senses.tags, Key(s.config.readerId, epc))
  }

  predicate LogsEnter(s: Setup, x: Snapshot, y: Snapshot, epc: string) {
    && x.senses.log <= y.senses.log
    && Detection(ENTER, epc, Some(s.config.readerId)) in y.senses.log[|x.senses.log|..]
  }

  /** A tag that the reply to a scan carries, and that was not tracked before it, has its ENTER among the events that
      the turn adds to the log. */
  lemma NewTagEnters(s: Setup, w: World, n: nat, epc: string)
    requires SightsNewTag(s, RunOf(s, w, n), RunOf(s, w, n + 1), epc)
    ensures LogsEnter(s, RunOf(s, w, n), RunOf(s, w, n + 1), epc)
  {
    HistoryIsWhatWasHeard(s, w, n);
    NewTagInTurn(s, RunOf(s, w, n), epc);
  }

  lemma NewTagInTurn(s: Setup, x: Snapshot, epc: string)
    requires ScansOk(s, x) && SightsNewTag(s, x, Turn(s, x), epc)
    ensures LogsEnter(s, x, Turn(s, x), epc)
  {
    ScansThroughTurn(s, x);
    var y := Turn(s, x);
    var r, reading := TurnSenses(s, x);
    assert HeardAt(s, y.senses.history[|y.senses.history| - 1], y.link.scans[|y.link.scans| - 1],
                   y.senses.heard[|y.senses.heard| - 1]);
    NewTagIsLogged(s, x.senses, r, reading, epc);
  }

  lemma {:induction false} RefusedScansDoNotCount(history: seq<ScanRecord>, outage: seq<ScanRecord>, readerId: string)
    requires forall i :: 0 <= i < |outage| ==> outage[i].outcome != ValidScan
    ensures ValidScans(history + outage, readerId) == ValidScans(history, readerId)
    decreases |outage|
  {
    if outage == [] {
      assert history + outage == history;
    } else {
      var n := |outage| - 1;
      assert (history + outage)[..|history| + n] == history + outage[..n];
      RefusedScansDoNotCount(history, outage[..n], readerId);
    }
  }

  lemma {:induction false} ScansBy(history: seq<ScanRecord>, readerId: string)
    ensures forall i :: 0 <= i < |ValidScans(history, readerId)| ==> ValidScans(history, readerId)[i].reader == readerId
  {
    if history != [] {
      ScansBy(history[..|history| - 1], readerId);
    }
  }

  /** The later history is the earlier one, an outage of any length, and a valid scan that sights the tag. */
  predicate ReturnsAfterOutage(before: seq<ScanRecord>, after: seq<ScanRecord>, outage: seq<ScanRecord>,
                               scan: ScanRecord, epc: string)
  {
    && after == before + outage + [scan]
    && (forall i :: 0 <= i < |outage| ==> outage[i].outcome != ValidScan)
    && scan.outcome == ValidScan && epc in scan.epcs
  }

  /** Between two such moments of a run a tag that was tracked has caused no event. */
  lemma ReturningTagIsSilent(s: Setup, w: World, m: nat, n: nat, outage: seq<ScanRecord>, scan: ScanRecord, epc: string)
    requires NulFree(s.config.readerId) && s.config.exitTimeout > 0.0
    ensures var before, after := RunOf(s, w, m).senses, RunOf(s, w, n).senses;
            ReturnsAfterOutage(before.history, after.history, outage, scan, epc)
            && HasKey(before.tags, Key(s.config.readerId, epc)) ==>
              Kinds(after.log, s.config.readerId, epc) == Kinds(before.log, s.config.readerId, epc)
  {
    var before, after := RunOf(s, w, m).senses, RunOf(s, w, n).senses;
    OutagesLeaveNoTrace(s, w, m);
    OutagesLeaveNoTrace(s, w, n);
    if ReturnsAfterOutage(before.history, after.history, outage, scan, epc)
       && HasKey(before.tags, Key(s.config.readerId, epc)) {
      LastIsHasKey(before.tags, Key(s.config.readerId, epc));
      SilentReturn(before.history, outage, scan, s.config.readerId, s.config.exitTimeout, epc);
    }
  }

  lemma SilentReturn(history: seq<ScanRecord>, outage: seq<ScanRecord>, scan: ScanRecord,
                     readerId: string, timeout: real, epc: string)
    requires forall i :: 0 <= i < |outage| ==> outage[i].outcome != ValidScan
    requires scan.outcome == ValidScan && epc in scan.epcs && NulFree(readerId) && timeout > 0.0
    requires Tracked(ValidScans(history, readerId), timeout, readerId, epc)
    ensures Kinds(Log(ValidScans(history + outage + [scan], readerId), timeout), readerId, epc)
         == Kinds(Log(ValidScans(history, readerId), timeout), readerId, epc)
  {
    var run, u := ValidScans(history, readerId), Scan(readerId, scan.epcs, scan.at);
    RefusedScansDoNotCount(history, outage, readerId);
    OneMoreScan(history + outage, scan, readerId);
    OneMoreUpdate(run, u, timeout);
    ScansBy(history, readerId);
    ResightedTagIsSilent(run, u, timeout, epc);
    KindsAppend(Log(run, timeout), StepEvents(After(run, timeout), u, timeout), readerId, epc);
  }
}
