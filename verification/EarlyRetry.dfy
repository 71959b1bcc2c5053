/** With a clock that is set back between an attempt and the drop of its connection, the agent tries again
    before the interval is over, whatever its configuration. */
module EarlyRetry {
  import opened Wrappers
  import opened Streams
  import opened Frames
  import opened SerialLine
  import opened Health
  import opened Reader
  import opened EventQueues
  import opened DeliveryProtocol
  import opened Delivery
  import opened Turns
  import opened TurnTheorems

  const READER_INFO_REPLY: Frame := [4, 0, GET_READER_INFO_COMMAND, 0, 0]
  const ANSWER_REPLY: Frame := [4, 0, GET_WORK_MODE_COMMAND, 0, ANSWER_MODE]

  /** A reader that is found and in answer mode, and unplugged before the first inventory. */
  function UnpluggedReader(m: VerifyMethod): Wiring {
    var verified: Arrival := Bytes(if m == WORK_MODE then ANSWER_REPLY else READER_INFO_REPLY);
    Wiring(Stream(imap[], Opens), Stream(imap[0 := verified, 1 := Bytes(ANSWER_REPLY)], Fault(false, "unplugged")))
  }

  /** The clock shows the interval, but for the reading at the drop, which shows zero. */
  function SetBackClock(interval: real): Stream<real> {
    Stream(imap[2 := 0.0], interval)
  }

  function Unlucky(c: Config, commands: Commands): Setup {
    var noPorts: Result<seq<string>, string> := Success([]);
    var noTrip := Trip("", NotStored(""), 0.0, 0.0);
    var quiet := Stream(imap[], noTrip);
    Setup(c, Environment(SetBackClock(c.discoveryInterval), Stream(imap[], noPorts),
                         Stream(imap[], Presence.Stamp("", "")),
                         Stream(imap[], ""), Stream(imap[], ""), RoundTrips(imap[], quiet),
                         Stream(imap[], NotStored("")),
                         Stream(imap[], true)),
          UnpluggedReader(c.verifyMethod), commands)
  }

  predicate Attemptable(c: Config) {
    c.serialPort.Some? && c.serialPort.value != "" && !c.verifyMethod.UNSUPPORTED? && c.discoveryInterval > 0.0
  }

  lemma Replies(m: VerifyMethod)
    requires !m.UNSUPPORTED?
    ensures Connects(UnpluggedReader(m), 0, 0, m, false) && Connects(UnpluggedReader(m), 0, 0, m, true)
    ensures ConnectCommands(UnpluggedReader(m), 0, 0, m, false) == 2
            == ConnectCommands(UnpluggedReader(m), 0, 0, m, true)
  {
    assert ReadFrame(READER_INFO_REPLY) == READER_INFO_REPLY;
    assert ReadFrame(ANSWER_REPLY) == ANSWER_REPLY;
  }

  lemma FirstConnection(c: Config, commands: Commands, x: Snapshot)
    requires Attemptable(c) && !x.aborted && x.readings == 1 && x.link == Initial(FRESH).link
    ensures var y := Connecting(Unlucky(c, commands), x);
            && y == x.(readings := 2, link := y.link)
            && y.link.attempts == [Attempt(1, 1)] && y.link.state == READY && y.link.commands == 2
  {
    Replies(c.verifyMethod);
  }

  /** The first turn connects, and loses the reader at reading 2. */
  lemma FirstTurn(c: Config, commands: Commands, x: Snapshot)
    requires Attemptable(c) && !x.aborted && x.readings == 1 && x.link == Initial(FRESH).link
    requires x.store.stamped == 0 && x.senses.log == []
    ensures var y := Turn(Unlucky(c, commands), x);
            y.readings >= 3 && !y.aborted && y.link.state == DISCONNECTED && y.link.attempts == [Attempt(1, 2)]
  {
    FirstConnection(c, commands, x);
    FirstLoss(Unlucky(c, commands), Connecting(Unlucky(c, commands), x));
  }

  lemma FirstLoss(s: Setup, x: Snapshot)
    requires !x.aborted && x.readings == 2 && x.link.attempts == [Attempt(1, 1)] && x.link.state == READY
    requires s.wiring.arrivals.At(x.link.commands).Fault? && x.store.stamped == |x.senses.log|
    ensures var y := Proceeding(s, x);
            y.readings >= 3 && !y.aborted && y.link.state == DISCONNECTED && y.link.attempts == [Attempt(1, 2)]
  {
    ProceedingIsScanning(s, x);
    assert Enqueueing(s, Scanning(s, x)) == Scanning(s, x);
  }

  /** For every configuration with a port: two turns, two attempts, and less than the interval between them,
      although the retry waited for the interval after the drop. */
  lemma SetBackClockRetriesEarly(c: Config, commands: Commands)
    requires Attemptable(c)
    ensures var s := Unlucky(c, commands);
            var attempts := RunOf(s, FRESH, 2).link.attempts;
            && |attempts| == 2
            && s.env.clock.At(attempts[1].made) - s.env.clock.At(attempts[0].made) < c.discoveryInterval
  {
    var s := Unlucky(c, commands);
    var start := Delivering(s, Initial(FRESH));
    var x := TurnsFrom(s, start, 1);
    FirstTurn(c, commands, start);
    assert x == Turn(s, start) by {
      assert TurnsFrom(s, start, 0) == start;
    }
    TimesAlongRun(s, start, 1);
    TurnAttempts(s, x);
  }
}
