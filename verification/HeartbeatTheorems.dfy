/** When a run of the agent sends heartbeats, and what they report. */
module HeartbeatTheorems {
  import opened Streams
  import opened EventQueues
  import opened DeliveryProtocol
  import opened Delivery
  import opened Turns
  import opened TurnTheorems

  /** The time from which the next heartbeat counts. */
  function LastBeat(s: Setup, heartbeats: seq<Heartbeat>): real {
    if heartbeats == [] then 0.0 else s.env.clock.At(heartbeats[|heartbeats| - 1].sent)
  }

  /** Each heartbeat was found due at least the interval after the one before was sent. */
  predicate BeatsApart(s: Setup, heartbeats: seq<Heartbeat>, readings: nat) {
    && (forall i :: 0 <= i < |heartbeats| ==> heartbeats[i].due < heartbeats[i].sent < readings)
    && (forall i :: 0 <= i < |heartbeats| ==>
          s.env.clock.At(heartbeats[i].due) - LastBeat(s, heartbeats[..i]) >= s.config.heartbeatInterval)
  }

  ghost predicate PulseOk(s: Setup, x: Snapshot) {
    PulseHolds(s, x.pulse, x.readings)
  }

  /** Put so that lemmas which only pass it on need not look inside. */
  ghost predicate PulseHolds(s: Setup, p: Pulse, readings: nat) {
    forall pulse: Pulse :: pulse == p ==> BeatsOk(s, pulse, readings)
  }

  /** And exactly these heartbeats have been sent. */
  predicate BeatsOk(s: Setup, p: Pulse, readings: nat) {
    && BeatsApart(s, p.heartbeats, readings) && p.lastHeartbeat == LastBeat(s, p.heartbeats)
    && |p.sent| == |p.heartbeats| && forall i :: 0 <= i < |p.sent| ==> p.sent[i] == p.heartbeats[i].beat
  }

  lemma OneMoreBeat(s: Setup, heartbeats: seq<Heartbeat>, readings: nat, hb: Heartbeat, later: nat)
    requires BeatsApart(s, heartbeats, readings) && readings <= hb.due < hb.sent < later
    requires s.env.clock.At(hb.due) - LastBeat(s, heartbeats) >= s.config.heartbeatInterval
    ensures BeatsApart(s, heartbeats + [hb], later)
  {
    var more := heartbeats + [hb];
    forall i | 0 <= i < |more|
      ensures s.env.clock.At(more[i].due) - LastBeat(s, more[..i]) >= s.config.heartbeatInterval
    {
      assert more[..i] == heartbeats[..i];
      if i == |heartbeats| {
        assert heartbeats[..i] == heartbeats;
      }
    }
  }

  lemma OneMoreOk(s: Setup, p: Pulse, readings: nat, hb: Heartbeat)
    requires PulseHolds(s, p, readings) && hb.due == readings && hb.sent == readings + 1
    requires s.env.clock.At(readings) - p.lastHeartbeat >= s.config.heartbeatInterval
    ensures PulseHolds(s, Beating(p, hb, s.env.clock.At(readings + 1)), readings + 2)
  {
    assert BeatsOk(s, p, readings);
    OneMoreBeat(s, p.heartbeats, readings, hb, readings + 2);
  }

  lemma ReportingPulse(s: Setup, x: Snapshot)
    requires PulseOk(s, x)
    ensures PulseOk(s, Reporting(s, x))
  {
    if s.env.clock.At(x.readings) - x.pulse.lastHeartbeat >= s.config.heartbeatInterval {
      OneMoreOk(s, x.pulse, x.readings, HeartbeatOf(x));
    } else {
      LaterOk(s, x.pulse, x.readings, x.readings + 1);
    }
  }

  lemma LaterOk(s: Setup, p: Pulse, readings: nat, later: nat)
    requires PulseHolds(s, p, readings) && readings <= later
    ensures PulseHolds(s, p, later)
  {
    assert BeatsOk(s, p, readings);
  }

  /** Only the end of a turn, if it gets there, does anything about heartbeats. */
  lemma TurnIsReporting(s: Setup, x: Snapshot) returns (z: Snapshot)
    ensures z.pulse == x.pulse && z.readings >= x.readings
    ensures Turn(s, x) == if x.aborted || z.aborted then z else Reporting(s, z)
    ensures x.aborted ==> z == x
  {
    var c := Connecting(s, x);
    if x.aborted {
      z := x;
    } else if c.aborted {
      z := c;
    } else {
      z := Forwarding(s, Scanning(s, c));
      ForwardingKeeps(s, Scanning(s, c));
    }
  }

  lemma PulseThroughTurn(s: Setup, x: Snapshot)
    requires PulseOk(s, x)
    ensures PulseOk(s, Turn(s, x))
  {
    var z := TurnIsReporting(s, x);
    LaterOk(s, x.pulse, x.readings, z.readings);
    ReportingPulse(s, z);
  }

  lemma PulseAlongRun(s: Setup, x: Snapshot, n: nat)
    requires PulseOk(s, x)
    ensures PulseOk(s, TurnsFrom(s, x, n))
  {
    forall y | PulseOk(s, y)
      ensures PulseOk(s, Turn(s, y))
    {
      PulseThroughTurn(s, y);
    }
    AlongRun(s, x, n, (y: Snapshot) => PulseOk(s, y));
  }

  /** For every clock: a heartbeat comes at least the interval after the reading that followed the one before, and
      exactly these heartbeats have been sent. */
  lemma HeartbeatsAreApart(s: Setup, w: World, n: nat)
    ensures BeatsOk(s, RunOf(s, w, n).pulse, RunOf(s, w, n).readings)
  {
    PulseAlongRun(s, Delivering(s, Initial(w)), n);
  }

  /** A turn from x to y sends a heartbeat exactly when its last reading of the clock, not counting one made after
      sending, is the interval after the last heartbeat; and the heartbeat shows the flags and the number of pending
      rows at the end of the turn. */
  predicate BeatWhenDue(s: Setup, x: Snapshot, y: Snapshot) {
    var beats, last := |x.pulse.heartbeats|, LastBeat(s, x.pulse.heartbeats);
    if |y.pulse.heartbeats| == beats then
      y.pulse == x.pulse && y.readings > 0 && s.env.clock.At(y.readings - 1) - last < s.config.heartbeatInterval
    else
      && |y.pulse.heartbeats| == beats + 1 && y.readings > 1
      && s.env.clock.At(y.readings - 2) - last >= s.config.heartbeatInterval
      && y.pulse.heartbeats[beats].due == y.readings - 2
      && y.pulse.sent == x.pulse.sent + [Beat(y.link.vitals, |PendingPlaces(y.store.rows)|)]
  }

  lemma TurnBeats(s: Setup, x: Snapshot)
    requires BeatsOk(s, x.pulse, x.readings) && !x.aborted && !Turn(s, x).aborted
    ensures BeatWhenDue(s, x, Turn(s, x))
  {
    var z := TurnIsReporting(s, x);
  }

  lemma HeartbeatsAreTimely(s: Setup, w: World, n: nat)
    requires !RunOf(s, w, n).aborted && !RunOf(s, w, n + 1).aborted
    ensures BeatWhenDue(s, RunOf(s, w, n), RunOf(s, w, n + 1))
  {
    HeartbeatsAreApart(s, w, n);
    TurnBeats(s, RunOf(s, w, n));
  }
}
