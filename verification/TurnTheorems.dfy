/** What holds after any number of turns of the supervisor loop, whatever the clock, the reader, the cloud
    and the disk do. */
module TurnTheorems {
  import opened Streams
  import opened SerialLine
  import opened Health
  import opened DeliveryProtocol
  import opened Delivery
  import opened Turns

  // ----- which stage touches what -----

  lemma {:induction false} EnqueueingKeeps(s: Setup, x: Snapshot)
    ensures var y := Enqueueing(s, x);
            && y.link == x.link && y.senses == x.senses && y.pulse == x.pulse && y.readings >= x.readings
            && (x.store.stamped <= |x.senses.log| && !y.aborted ==> y.store.stamped == |x.senses.log|)
    decreases |x.senses.log| - x.store.stamped
  {
    if x.store.stamped < |x.senses.log| && s.env.inserts.At(x.store.inserted) {
      EnqueueingKeeps(s, InsertOne(s, x));
    }
  }

  lemma ForwardingKeeps(s: Setup, x: Snapshot)
    ensures var y := Forwarding(s, x);
            && y.link == x.link && y.senses == x.senses && y.pulse == x.pulse && y.readings >= x.readings
            && (x.store.stamped <= |x.senses.log| && !y.aborted ==> y.store.stamped == |x.senses.log|)
  {
    EnqueueingKeeps(s, x);
  }

  /** After the scan a turn changes neither link nor senses. */
  lemma ProceedingIsScanning(s: Setup, x: Snapshot)
    ensures var y, n := Proceeding(s, x), Scanning(s, x);
            && y.link == n.link && y.senses == n.senses && y.readings >= n.readings
            && (y.pulse == n.pulse || (!y.aborted && exists hb ::
                  && y.pulse.heartbeats == n.pulse.heartbeats + [hb] && hb.beat.vitals == y.link.vitals
                  && hb.scans == |y.senses.history| && hb.attempts == |y.link.attempts|))
            && (n.store.stamped <= |n.senses.log| && !y.aborted ==> y.store.stamped == |n.senses.log|)
  {
    ForwardingKeeps(s, Scanning(s, x));
    var forwarded := Forwarding(s, Scanning(s, x));
    if Proceeding(s, x).pulse != forwarded.pulse {
      assert Proceeding(s, x).pulse.heartbeats == forwarded.pulse.heartbeats + [HeartbeatOf(forwarded)];
    }
  }

  /** What every turn keeps from some turn on holds after any later one. */
  lemma {:induction false} AlongRunFrom(s: Setup, x: Snapshot, m: nat, n: nat, p: Snapshot -> bool)
    requires m <= n && p(TurnsFrom(s, x, m)) && forall y {:trigger Turn(s, y)} :: p(y) ==> p(Turn(s, y))
    ensures p(TurnsFrom(s, x, n))
  {
    if m < n {
      AlongRunFrom(s, x, m, n - 1, p);
    }
  }

  lemma AlongRun(s: Setup, x: Snapshot, n: nat, p: Snapshot -> bool)
    requires p(x) && forall y {:trigger Turn(s, y)} :: p(y) ==> p(Turn(s, y))
    ensures p(TurnsFrom(s, x, n))
  {
    AlongRunFrom(s, x, 0, n, p);
  }

  lemma ReadingsGrow(s: Setup, x: Snapshot)
    ensures x.readings <= Turn(s, x).readings
  {
    ForwardingKeeps(s, Scanning(s, Connecting(s, x)));
  }

  lemma RunReadings(s: Setup, x: Snapshot, n: nat)
    ensures x.readings <= TurnsFrom(s, x, n).readings
  {
    forall y: Snapshot | x.readings <= y.readings
      ensures x.readings <= Turn(s, y).readings
    {
      ReadingsGrow(s, y);
    }
    AlongRun(s, x, n, (y: Snapshot) => x.readings <= y.readings);
  }

  // ----- the past does not depend on later readings -----

  /** The same world, with a clock that may differ from the r-th reading on. */
  ghost predicate SameUpTo(s: Setup, s': Setup, r: nat) {
    && s'.config == s.config && s'.wiring == s.wiring && s'.commands == s.commands
    && s'.env == s.env.(clock := s'.env.clock)
    && forall k: nat :: k < r ==> s'.env.clock.At(k) == s.env.clock.At(k)
  }

  lemma SameFound(s: Setup, s': Setup, l: Link)
    requires SameUpTo(s, s', 0)
    ensures Resolution(s', l.handles, l.commands, l.discoveries) == Resolution(s, l.handles, l.commands, l.discoveries)
    ensures Found(s', l) == Found(s, l)
  {
    assert Probes(s', l.discoveries) == Probes(s, l.discoveries);
    assert Searched(s', l) == Searched(s, l);
    assert Reached(s', Searched(s, l)) == Reached(s, Searched(s, l));
  }

  lemma SameTried(s: Setup, s': Setup, l: Link, reading: nat)
    requires SameUpTo(s, s', reading + 1)
    ensures Tried(s', l, reading) == Tried(s, l, reading)
  {
    SameFound(s, s', Trying(l, reading));
  }

  lemma SameConnecting(s: Setup, s': Setup, x: Snapshot)
    requires SameUpTo(s, s', x.readings + 1)
    ensures Connecting(s', x) == Connecting(s, x)
  {
    SameFound(s, s', x.link);
    SameTried(s, s', x.link, x.readings);
  }

  lemma SameScanning(s: Setup, s': Setup, x: Snapshot)
    requires SameUpTo(s, s', Scanning(s, x).readings)
    ensures Scanning(s', x) == Scanning(s, x)
  {
    if x.link.state == READY {
      var r, r' := ScanOf(s.wiring.arrivals.At(x.link.commands), s.env.clock.At(x.readings)),
                   ScanOf(s.wiring.arrivals.At(x.link.commands), s'.env.clock.At(x.readings));
      assert r.outcome == r'.outcome;
      if r.outcome != ValidScan && r.outcome != FaultyScan {
        assert r == r';
      }
    }
  }

  lemma {:induction false} SameEnqueueing(s: Setup, s': Setup, x: Snapshot)
    requires SameUpTo(s, s', Enqueueing(s, x).readings)
    ensures Enqueueing(s', x) == Enqueueing(s, x)
    decreases |x.senses.log| - x.store.stamped
  {
    if x.store.stamped < |x.senses.log| && s.env.inserts.At(x.store.inserted) {
      EnqueueingKeeps(s, InsertOne(s, x));
      assert InsertOne(s', x) == InsertOne(s, x);
      SameEnqueueing(s, s', InsertOne(s, x));
    }
  }

  lemma SameDelivering(s: Setup, s': Setup, x: Snapshot)
    requires SameUpTo(s, s', x.readings + 1)
    ensures Delivering(s', x) == Delivering(s, x)
  {
  }

  lemma SameRetrying(s: Setup, s': Setup, x: Snapshot)
    requires SameUpTo(s, s', Retrying(s, x).readings)
    ensures Retrying(s', x) == Retrying(s, x)
  {
    if s.env.clock.At(x.readings) - x.store.lastDelivery >= s.config.queueRetryInterval {
      SameDelivering(s, s', x.(readings := x.readings + 1));
    }
  }

  lemma SameForwarding(s: Setup, s': Setup, x: Snapshot)
    requires SameUpTo(s, s', Forwarding(s, x).readings)
    ensures Forwarding(s', x) == Forwarding(s, x)
  {
    var queued := Enqueueing(s, x);
    SameEnqueueing(s, s', x);
    if !queued.aborted {
      if x.store.stamped < |x.senses.log| {
        SameDelivering(s, s', queued);
        SameRetrying(s, s', Delivering(s, queued));
      } else {
        SameRetrying(s, s', queued);
      }
    }
  }

  lemma SameProceeding(s: Setup, s': Setup, x: Snapshot)
    requires SameUpTo(s, s', Proceeding(s, x).readings)
    ensures Proceeding(s', x) == Proceeding(s, x)
  {
    ForwardingKeeps(s, Scanning(s, x));
    SameScanning(s, s', x);
    SameForwarding(s, s', Scanning(s, x));
  }

  lemma SameTurn(s: Setup, s': Setup, x: Snapshot)
    requires SameUpTo(s, s', Turn(s, x).readings)
    ensures Turn(s', x) == Turn(s, x)
  {
    if !x.aborted {
      ProceedingIsScanning(s, Connecting(s, x));
      SameConnecting(s, s', x);
      if !Connecting(s, x).aborted {
        SameProceeding(s, s', Connecting(s, x));
      }
    }
  }

  /** What turns in two worlds keep holds after any number of them. */
  lemma {:induction false} AlongBothRuns(s: Setup, s': Setup, x: Snapshot, n: nat, r: (Snapshot, Snapshot) -> bool)
    requires r(x, x) && forall y, y' {:trigger Turn(s, y), Turn(s', y')} :: r(y, y') ==> r(Turn(s, y), Turn(s', y'))
    ensures r(TurnsFrom(s, x, n), TurnsFrom(s', x, n))
  {
    if n > 0 {
      AlongBothRuns(s, s', x, n - 1, r);
    }
  }

  /** A run is the same whatever the clock shows when it is over. */
  lemma PastIsFixed(s: Setup, s': Setup, x: Snapshot, n: nat, r: nat)
    requires SameUpTo(s, s', r)
    ensures TurnsFrom(s, x, n).readings <= r ==> TurnsFrom(s', x, n) == TurnsFrom(s, x, n)
  {
    forall y: Snapshot, y' | y.readings <= r ==> y' == y
      ensures Turn(s, y).readings <= r ==> Turn(s', y') == Turn(s, y)
    {
      ReadingsGrow(s, y);
      if Turn(s, y).readings <= r {
        SameTurn(s, s', y);
      }
    }
    AlongBothRuns(s, s', x, n, (y: Snapshot, y': Snapshot) => y.readings <= r ==> y' == y);
  }

  // ----- the health flags -----

  function Outcomes(history: seq<ScanRecord>): (outcomes: seq<ScanOutcome>)
    ensures |outcomes| == |history|
  {
    seq(|history|, i requires 0 <= i < |history| => history[i].outcome)
  }

  lemma OneMoreOutcome(history: seq<ScanRecord>, r: ScanRecord)
    ensures Outcomes(history + [r]) == Outcomes(history) + [r.outcome]
  {
  }

  predicate CountersOk(l: Link, history: seq<ScanRecord>) {
    CountersAgree(l.vitals, Outcomes(history), |l.attempts|)
  }

  predicate FlagsOk(l: Link, history: seq<ScanRecord>) {
    Agrees(l.vitals, l.state, Outcomes(history), |l.attempts|)
  }

  lemma TryingFlags(s: Setup, l: Link, reading: nat, history: seq<ScanRecord>)
    requires CountersOk(l, history)
    ensures var tried := Tried(s, l, reading);
            && CountersOk(tried, history)
            && (Resolution(s, l.handles, l.commands, l.discoveries).Success? ==>
                  && tried.vitals.readerState == tried.state != CONNECTING
                  && (tried.state != READY ==> FlagsOk(tried, history)))
  {
    var found := Found(s, Trying(l, reading));
    if Resolution(s, l.handles, l.commands, l.discoveries).Success? && found.state != READY {
      FailedAttemptAgrees(l.vitals, Outcomes(history), |l.attempts|, found.state);
    }
  }

  lemma ScanningFlags(s: Setup, x: Snapshot)
    requires CountersOk(x.link, x.senses.history) && x.link.vitals.readerState == x.link.state != CONNECTING
    requires x.link.state != READY ==> FlagsOk(x.link, x.senses.history)
    ensures FlagsOk(Scanning(s, x).link, Scanning(s, x).senses.history)
  {
    if x.link.state == READY {
      var r := ScanOf(s.wiring.arrivals.At(x.link.commands), s.env.clock.At(x.readings));
      ScanAgrees(x.link.vitals, Outcomes(x.senses.history), |x.link.attempts|, r.outcome);
      OneMoreOutcome(x.senses.history, r);
    }
  }

  /** Each heartbeat told the truth about the scans and attempts made before it. */
  predicate HeartbeatsAgree(heartbeats: seq<Heartbeat>, history: seq<ScanRecord>, attempts: nat) {
    forall i :: 0 <= i < |heartbeats| ==>
      var hb := heartbeats[i];
      && hb.scans <= |history| && hb.attempts <= attempts
      && Agrees(hb.beat.vitals, hb.beat.vitals.readerState, Outcomes(history[..hb.scans]), hb.attempts)
  }

  lemma HeartbeatsStayTrue(heartbeats: seq<Heartbeat>, history: seq<ScanRecord>, attempts: nat,
                           history': seq<ScanRecord>, attempts': nat)
    requires HeartbeatsAgree(heartbeats, history, attempts) && history <= history' && attempts <= attempts'
    ensures HeartbeatsAgree(heartbeats, history', attempts')
  {
    forall i | 0 <= i < |heartbeats|
      ensures history'[..heartbeats[i].scans] == history[..heartbeats[i].scans]
    {
    }
  }

  ghost predicate HealthOk(x: Snapshot) {
    && CountersOk(x.link, x.senses.history) && (!x.aborted ==> FlagsOk(x.link, x.senses.history))
    && HeartbeatsAgree(x.pulse.heartbeats, x.senses.history, |x.link.attempts|)
  }

  lemma ConnectingHealth(s: Setup, x: Snapshot)
    requires HealthOk(x) && !x.aborted
    ensures var c := Connecting(s, x);
            && CountersOk(c.link, c.senses.history)
            && HeartbeatsAgree(c.pulse.heartbeats, c.senses.history, |c.link.attempts|)
            && (!c.aborted ==>
                  && c.link.vitals.readerState == c.link.state != CONNECTING
                  && (c.link.state != READY ==> FlagsOk(c.link, c.senses.history)))
  {
    TryingFlags(s, x.link, x.readings, x.senses.history);
    HeartbeatsStayTrue(x.pulse.heartbeats, x.senses.history, |x.link.attempts|,
                       x.senses.history, |Connecting(s, x).link.attempts|);
  }

  lemma ProceedingHealth(s: Setup, x: Snapshot)
    requires CountersOk(x.link, x.senses.history) && x.link.vitals.readerState == x.link.state != CONNECTING
    requires x.link.state != READY ==> FlagsOk(x.link, x.senses.history)
    requires HeartbeatsAgree(x.pulse.heartbeats, x.senses.history, |x.link.attempts|)
    ensures HealthOk(Proceeding(s, x))
  {
    var n, y := Scanning(s, x), Proceeding(s, x);
    ProceedingIsScanning(s, x);
    ScanningFlags(s, x);
    HeartbeatsStayTrue(x.pulse.heartbeats, x.senses.history, |x.link.attempts|, n.senses.history, |n.link.attempts|);
    assert n.senses.history[..|n.senses.history|] == n.senses.history;
  }

  lemma HealthThroughTurn(s: Setup, x: Snapshot)
    requires HealthOk(x)
    ensures HealthOk(Turn(s, x))
  {
    if !x.aborted {
      ConnectingHealth(s, x);
      if !Connecting(s, x).aborted {
        ProceedingHealth(s, Connecting(s, x));
      }
    }
  }

  lemma HealthAlongRun(s: Setup, x: Snapshot, n: nat)
    requires HealthOk(x)
    ensures HealthOk(TurnsFrom(s, x, n))
  {
    forall y | HealthOk(y)
      ensures HealthOk(Turn(s, y))
    {
      HealthThroughTurn(s, y);
    }
    AlongRun(s, x, n, (y: Snapshot) => HealthOk(y));
  }

  /** At the head of every turn, and in every heartbeat, the flags agree with the scans and attempts made. */
  lemma FlagsAgreeWithHistory(s: Setup, w: World, n: nat)
    ensures var x := RunOf(s, w, n);
            && CountersAgree(x.link.vitals, Outcomes(x.senses.history), |x.link.attempts|)
            && (!x.aborted ==> Agrees(x.link.vitals, x.link.state, Outcomes(x.senses.history), |x.link.attempts|))
            && HeartbeatsAgree(x.pulse.heartbeats, x.senses.history, |x.link.attempts|)
  {
    HealthAlongRun(s, Delivering(s, Initial(w)), n);
  }

  // ----- when connection attempts are made -----

  /** Attempts are made at successive readings, each at least the interval after the reading that the retry
      of the one before counts from. */
  predicate AttemptsOk(s: Setup, attempts: seq<Attempt>, readings: nat) {
    && (forall i :: 0 <= i < |attempts| ==> attempts[i].made <= attempts[i].base < readings)
    && (forall i, j :: 0 <= i < |attempts| && 0 <= j < |attempts| && j == i + 1 ==> Waited(s, attempts[i], attempts[j]))
  }

  predicate Waited(s: Setup, one: Attempt, next: Attempt) {
    && one.base < next.made
    && s.env.clock.At(next.made) >= s.env.clock.At(one.base) + s.config.discoveryInterval
  }

  /** When the next attempt is due. */
  function RetryTime(s: Setup, attempts: seq<Attempt>): real {
    if attempts == [] then 0.0
    else s.env.clock.At(attempts[|attempts| - 1].base) + s.config.discoveryInterval
  }

  predicate LinkTimesOk(s: Setup, l: Link, readings: nat) {
    && AttemptsOk(s, l.attempts, readings)
    && (l.state == READY ==> l.attempts != [] && l.attempts[|l.attempts| - 1].base == l.attempts[|l.attempts| - 1].made)
    && (l.state != READY && l.state != CONNECTING ==> l.nextAttempt == RetryTime(s, l.attempts))
  }

  predicate TimesOk(s: Setup, x: Snapshot) {
    LinkTimesOk(s, x.link, x.readings) && (x.aborted || x.link.state != CONNECTING)
  }

  lemma OneMoreAttempt(s: Setup, attempts: seq<Attempt>, reading: nat)
    requires AttemptsOk(s, attempts, reading) && s.env.clock.At(reading) >= RetryTime(s, attempts)
    ensures AttemptsOk(s, attempts + [Attempt(reading, reading)], reading + 1)
    ensures RetryTime(s, attempts + [Attempt(reading, reading)]) == s.env.clock.At(reading) + s.config.discoveryInterval
  {
  }

  lemma TriedTimes(s: Setup, l: Link, reading: nat)
    requires LinkTimesOk(s, l, reading) && l.state != READY && l.state != CONNECTING
    requires s.env.clock.At(reading) >= l.nextAttempt
    ensures var tried := Tried(s, l, reading);
            && LinkTimesOk(s, tried, reading + 1)
            && tried.attempts == l.attempts + [Attempt(reading, reading)]
            && (tried.state == CONNECTING <==> Resolution(s, l.handles, l.commands, l.discoveries).Failure?)
  {
    OneMoreAttempt(s, l.attempts, reading);
    var found := Found(s, Trying(l, reading));
    assert found.attempts == l.attempts + [Attempt(reading, reading)];
    assert found.state == CONNECTING <==> Resolution(s, l.handles, l.commands, l.discoveries).Failure?;
  }

  lemma ConnectingTimes(s: Setup, x: Snapshot)
    requires TimesOk(s, x) && !x.aborted
    ensures TimesOk(s, Connecting(s, x))
  {
    if AttemptDue(s, x.link, x.readings) {
      TriedTimes(s, x.link, x.readings);
    }
  }

  /** The reading at a drop takes the place of the attempt's own, and is later. */
  lemma RebasedAttempts(s: Setup, attempts: seq<Attempt>, reading: nat)
    requires AttemptsOk(s, attempts, reading) && attempts != []
    ensures var last := attempts[|attempts| - 1];
            AttemptsOk(s, attempts[..|attempts| - 1] + [last.(base := reading)], reading + 1)
  {
  }

  lemma LostTimes(s: Setup, l: Link, reading: nat)
    requires LinkTimesOk(s, l, reading) && l.state == READY
    ensures LinkTimesOk(s, LinkLost(s, l, reading), reading + 1)
  {
    RebasedAttempts(s, l.attempts, reading);
  }

  lemma LaterTimes(s: Setup, l: Link, reading: nat, later: nat)
    requires LinkTimesOk(s, l, reading) && reading <= later
    ensures LinkTimesOk(s, l, later)
  {
  }

  lemma ScannedTimes(s: Setup, l: Link, outcome: ScanOutcome, reading: nat)
    requires LinkTimesOk(s, l, reading) && l.state == READY
    ensures var after := LinkAfterScan(s, InventoryAsked(s, l), outcome, reading);
            && LinkTimesOk(s, after, if outcome == ValidScan || outcome == FaultyScan then reading + 1 else reading)
            && after.state != CONNECTING && |after.attempts| == |l.attempts|
            && forall i :: 0 <= i < |l.attempts| ==> after.attempts[i].made == l.attempts[i].made
  {
    LaterTimes(s, l, reading, reading + 1);
    if outcome == FaultyScan {
      LostTimes(s, l, reading);
    }
  }

  lemma ScanningTimes(s: Setup, x: Snapshot)
    requires TimesOk(s, x) && x.link.state != CONNECTING
    ensures TimesOk(s, Scanning(s, x)) && Scanning(s, x).link.state != CONNECTING
    ensures |Scanning(s, x).link.attempts| == |x.link.attempts|
    ensures forall i :: 0 <= i < |x.link.attempts| ==> Scanning(s, x).link.attempts[i].made == x.link.attempts[i].made
  {
    if x.link.state == READY {
      var r := ScanOf(s.wiring.arrivals.At(x.link.commands), s.env.clock.At(x.readings));
      ScannedTimes(s, x.link, r.outcome, x.readings);
    }
  }

  lemma ProceedingTimes(s: Setup, x: Snapshot)
    requires TimesOk(s, x) && x.link.state != CONNECTING
    ensures TimesOk(s, Proceeding(s, x))
  {
    ScanningTimes(s, x);
    ProceedingIsScanning(s, x);
    LaterTimes(s, Scanning(s, x).link, Scanning(s, x).readings, Proceeding(s, x).readings);
  }

  lemma TimesThroughTurn(s: Setup, x: Snapshot)
    requires TimesOk(s, x)
    ensures TimesOk(s, Turn(s, x))
  {
    if !x.aborted {
      ConnectingTimes(s, x);
      if !Connecting(s, x).aborted {
        ProceedingTimes(s, Connecting(s, x));
      }
    }
  }

  lemma TimesAlongRun(s: Setup, x: Snapshot, n: nat)
    requires TimesOk(s, x)
    ensures TimesOk(s, TurnsFrom(s, x, n))
  {
    forall y | TimesOk(s, y)
      ensures TimesOk(s, Turn(s, y))
    {
      TimesThroughTurn(s, y);
    }
    AlongRun(s, x, n, (y: Snapshot) => TimesOk(s, y));
  }

  /** For every clock: the i-th attempt comes at least the interval after the reading from which the retry
      of the attempt before counts, which is that attempt's own reading if it failed, and the reading at the
      drop if it succeeded. */
  lemma RetriesWaitForTheInterval(s: Setup, w: World, n: nat, i: nat)
    ensures var attempts := RunOf(s, w, n).link.attempts;
            i + 1 < |attempts| ==>
              && attempts[i].made <= attempts[i].base < attempts[i + 1].made
              && s.env.clock.At(attempts[i + 1].made) >= s.env.clock.At(attempts[i].base) + s.config.discoveryInterval
  {
    TimesAlongRun(s, Delivering(s, Initial(w)), n);
  }

  /** And no later than that: a turn attempts to connect exactly when there is no READY reader and its
      reading has reached the retry time. */
  lemma RetriesAreTimely(s: Setup, w: World, n: nat)
    requires !RunOf(s, w, n).aborted
    ensures var x, y := RunOf(s, w, n), RunOf(s, w, n + 1);
            if x.link.state != READY && s.env.clock.At(x.readings) >= RetryTime(s, x.link.attempts) then
              |y.link.attempts| == |x.link.attempts| + 1 && y.link.attempts[|x.link.attempts|].made == x.readings
            else
              |y.link.attempts| == |x.link.attempts|
  {
    var x := RunOf(s, w, n);
    TimesAlongRun(s, Delivering(s, Initial(w)), n);
    TurnAttempts(s, x);
  }

  lemma TurnAttempts(s: Setup, x: Snapshot)
    requires TimesOk(s, x) && !x.aborted
    ensures var y := Turn(s, x);
            if x.link.state != READY && s.env.clock.At(x.readings) >= RetryTime(s, x.link.attempts) then
              |y.link.attempts| == |x.link.attempts| + 1 && y.link.attempts[|x.link.attempts|].made == x.readings
            else
              |y.link.attempts| == |x.link.attempts|
    ensures forall i :: 0 <= i < |x.link.attempts| ==> Turn(s, x).link.attempts[i].made == x.link.attempts[i].made
  {
    var c := Connecting(s, x);
    ConnectingTimes(s, x);
    if AttemptDue(s, x.link, x.readings) {
      TriedTimes(s, x.link, x.readings);
    }
    if !c.aborted {
      ScanningTimes(s, c);
      ProceedingIsScanning(s, c);
    }
  }

  /** The same setup, with another time at one reading of the clock. */
  function WithReading(s: Setup, k: nat, t: real): Setup {
    s.(env := s.env.(clock := s.env.clock.(given := s.env.clock.given[k := t])))
  }

  /** Whatever the next reading is, an attempt made at it comes at least the interval after the last one. */
  ghost predicate SpacingIsSure(s: Setup, x: Snapshot) {
    forall t: real :: SpacedAt(s, x, t)
  }

  predicate SpacedAt(s: Setup, x: Snapshot, t: real) {
    x.link.attempts != [] && |Turn(WithReading(s, x.readings, t), x).link.attempts| > |x.link.attempts| ==>
      t - s.env.clock.At(x.link.attempts[|x.link.attempts| - 1].made) >= s.config.discoveryInterval
  }

  /** That is so exactly when the clock was not set back between the last attempt and the reading from which
      its retry counts. */
  predicate SpacingLaw(s: Setup, x: Snapshot, sure: bool) {
    !x.aborted && x.link.state != READY && x.link.attempts != [] ==>
      var last := x.link.attempts[|x.link.attempts| - 1];
      sure <==> s.env.clock.At(last.base) >= s.env.clock.At(last.made)
  }

  /** In every run: and a run with another next reading has come to the same state before it. */
  lemma SpacingIsSureExactlyWhen(s: Setup, w: World, n: nat, t: real)
    ensures SpacingLaw(s, RunOf(s, w, n), SpacingIsSure(s, RunOf(s, w, n)))
    ensures RunOf(WithReading(s, RunOf(s, w, n).readings, t), w, n) == RunOf(s, w, n)
  {
    TimesAlongRun(s, Delivering(s, Initial(w)), n);
    SpacingIsSureAt(s, RunOf(s, w, n));
    AnotherNextReading(s, w, n, RunOf(s, w, n).readings, t);
  }

  lemma AnotherNextReading(s: Setup, w: World, n: nat, r: nat, t: real)
    requires RunOf(s, w, n).readings <= r
    ensures RunOf(WithReading(s, r, t), w, n) == RunOf(s, w, n)
  {
    var s', start := WithReading(s, r, t), Delivering(s, Initial(w));
    RunReadings(s, start, n);
    SameDelivering(s, s', Initial(w));
    PastIsFixed(s, s', start, n, r);
  }

  lemma SpacingIsSureAt(s: Setup, x: Snapshot)
    requires TimesOk(s, x)
    ensures SpacingLaw(s, x, SpacingIsSure(s, x))
  {
    if !x.aborted && x.link.state != READY && x.link.attempts != [] {
      var last := x.link.attempts[|x.link.attempts| - 1];
      forall t: real
        ensures SpacedAt(s, x, t) <==>
                  (t >= s.env.clock.At(last.base) + s.config.discoveryInterval ==>
                    t - s.env.clock.At(last.made) >= s.config.discoveryInterval)
      {
        AnotherReading(s, x, t);
      }
      assert SpacedAt(s, x, s.env.clock.At(last.base) + s.config.discoveryInterval) <==>
               s.env.clock.At(last.base) >= s.env.clock.At(last.made);
    }
  }

  lemma AnotherReading(s: Setup, x: Snapshot, t: real)
    requires TimesOk(s, x) && !x.aborted && x.link.state != READY
    ensures |Turn(WithReading(s, x.readings, t), x).link.attempts| > |x.link.attempts| <==>
              t >= RetryTime(s, x.link.attempts)
  {
    var s' := WithReading(s, x.readings, t);
    assert forall k: nat :: k < x.readings ==> s'.env.clock.At(k) == s.env.clock.At(k);
    assert TimesOk(s', x);
    TurnAttempts(s', x);
  }

  /** The clock does not run backwards, as far as it has been read. */
  predicate Monotone(clock: Stream<real>, readings: nat) {
    forall i, j :: 0 <= i <= j < readings ==> clock.At(i) <= clock.At(j)
  }

  lemma {:induction false} SpacedAttemptsTakeTime(s: Setup, attempts: seq<Attempt>, readings: nat)
    requires AttemptsOk(s, attempts, readings) && Monotone(s.env.clock, readings) && attempts != []
    ensures s.env.clock.At(attempts[|attempts| - 1].made) - s.env.clock.At(attempts[0].made)
         >= Times(|attempts| - 1, s.config.discoveryInterval)
  {
    if |attempts| > 1 {
      var n := |attempts| - 1;
      SpacedAttemptsTakeTime(s, attempts[..n], readings);
      assert s.env.clock.At(attempts[n - 1].base) >= s.env.clock.At(attempts[n - 1].made);
      assert Waited(s, attempts[n - 1], attempts[n]);
    }
  }

  function Times(n: nat, t: real): real {
    if n == 0 then 0.0 else Times(n - 1, t) + t
  }

  lemma {:induction false} TimesIsProduct(n: nat, t: real)
    ensures Times(n, t) == n as real * t
  {
    if n > 0 {
      TimesIsProduct(n - 1, t);
      var m := (n - 1) as real;
      assert n as real == m + 1.0 && (m + 1.0) * t == m * t + t;
    }
  }

  lemma AsProduct(n: nat, t: real, elapsed: real)
    requires Times(n, t) <= elapsed
    ensures n as real * t <= elapsed
  {
    TimesIsProduct(n, t);
  }

  /** The reconnect count bounds the time from the first attempt to the last reading. */
  predicate RateLaw(s: Setup, x: Snapshot) {
    x.link.attempts != [] ==>
      && x.readings > 0 && x.link.vitals.reconnects > 0
      && (x.link.vitals.reconnects - 1) as real * s.config.discoveryInterval
         <= s.env.clock.At(x.readings - 1) - s.env.clock.At(x.link.attempts[0].made)
  }

  /** It does when the clock has not run backwards. */
  lemma ReconnectsAreRateLimited(s: Setup, w: World, n: nat)
    requires Monotone(s.env.clock, RunOf(s, w, n).readings)
    ensures RateLaw(s, RunOf(s, w, n))
  {
    TimesAlongRun(s, Delivering(s, Initial(w)), n);
    HealthAlongRun(s, Delivering(s, Initial(w)), n);
    RateLawAt(s, RunOf(s, w, n));
  }

  lemma RateLawAt(s: Setup, x: Snapshot)
    requires TimesOk(s, x) && HealthOk(x) && Monotone(s.env.clock, x.readings)
    ensures RateLaw(s, x)
  {
    if x.link.attempts != [] {
      assert x.link.vitals.reconnects == |x.link.attempts|;
      ElapsedTime(s, x.link.attempts, x.readings);
      AsProduct(x.link.vitals.reconnects - 1, s.config.discoveryInterval,
                s.env.clock.At(x.readings - 1) - s.env.clock.At(x.link.attempts[0].made));
    }
  }

  lemma ElapsedTime(s: Setup, attempts: seq<Attempt>, readings: nat)
    requires AttemptsOk(s, attempts, readings) && Monotone(s.env.clock, readings) && attempts != []
    ensures readings > 0
    ensures Times(|attempts| - 1, s.config.discoveryInterval)
         <= s.env.clock.At(readings - 1) - s.env.clock.At(attempts[0].made)
  {
    SpacedAttemptsTakeTime(s, attempts, readings);
    assert attempts[|attempts| - 1].made <= readings - 1;
  }
}
