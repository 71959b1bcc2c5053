/** When the agent gets to scan: an attempt to connect that can succeed does. */
module LinkTheorems {
  import opened Wrappers
  import opened Streams
  import opened Frames
  import opened SerialLine
  import opened Health
  import opened Reader
  import opened ReaderTheorems
  import opened DeliveryProtocol
  import opened Turns
  import opened TurnTheorems
  import opened ScanTheorems

  /** The reader that is opened as the h-th handle, and sent commands from the k-th on, lets itself be connected: it
      opens, and connecting ends in a work-mode reply that says ANSWER. */
  predicate Connectable(s: Setup, h: nat, k: nat) {
    var c := s.config;
    && s.wiring.opens.At(h).Opens?
    && EndsInAnswer(s.wiring, k, ConnectFrames(s.wiring, h, k, c.verifyMethod, c.autoConfigureReader, s.commands))
  }

  /** Put so that lemmas which only pass it on need not look inside. */
  ghost predicate ConnectableAt(s: Setup, h: nat, k: nat) {
    forall handle: nat :: handle == h ==> Connectable(s, handle, k)
  }

  /** The ports that are probed first: none when one is configured, or those listed. */
  function Probed(s: Setup, l: Link): nat {
    if s.config.serialPort.Some? then 0
    else match s.env.ports.At(l.discoveries)
      case Failure(_) => 0
      case Success(ports) => |ports|
  }

  /** There is a port: the one configured, or the only one of those listed that answers when it is probed. */
  ghost predicate IsPortFor(s: Setup, l: Link) {
    if s.config.serialPort.Some? then s.config.serialPort.value != ""
    else match s.env.ports.At(l.discoveries)
      case Failure(_) => false
      case Success(ports) =>
        exists i: nat ::
          OnlyAt(Answering(s.wiring, l.handles, l.commands, s.config.verifyMethod, |ports|), i) && ports[i] != ""
  }

  ghost predicate FindsPort(s: Setup, l: Link) {
    forall link: Link :: link == l ==> IsPortFor(s, link)
  }

  /** A search that starts with this link finds a port, and the reader there is connectable. */
  ghost predicate CanConnect(s: Setup, l: Link) {
    var probed, m := Probed(s, l), s.config.verifyMethod;
    && FindsPort(s, l)
    && ConnectableAt(s, l.handles + probed, l.commands + ProbeCommands(s.wiring, l.handles, l.commands, m, probed))
  }

  lemma ConnectsAsReady(s: Setup, h: nat, k: nat)
    requires AreFor(s.commands, s.config.address)
    ensures Connects(s.wiring, h, k, s.config.verifyMethod, s.config.autoConfigureReader) <==> ConnectableAt(s, h, k)
  {
    assert ConnectableAt(s, h, k) <==> Connectable(s, h, k);
    ReadyExactlyWhen(s.wiring, h, k, s.config.verifyMethod, s.config.autoConfigureReader, s.commands, s.config.address);
  }

  lemma PortIsFound(s: Setup, l: Link)
    ensures var r := Resolution(s, l.handles, l.commands, l.discoveries);
            FindsPort(s, l) <==> r.Success? && HasPort(r.value)
  {
    assert FindsPort(s, l) <==> IsPortFor(s, l);
    if s.config.serialPort.None? && s.env.ports.At(l.discoveries).Success? {
      SelectedExactlyWhen(s.wiring, l.handles, l.commands, s.config.verifyMethod,
                          s.env.ports.At(l.discoveries).value);
    }
  }

  lemma ReadyWhenFound(s: Setup, l: Link)
    requires l.state == CONNECTING && Resolution(s, l.handles, l.commands, l.discoveries).Success?
    ensures var searched := Searched(s, l);
            Found(s, l).state == READY <==>
              && HasPort(Resolution(s, l.handles, l.commands, l.discoveries).value)
              && Connects(s.wiring, searched.handles, searched.commands, s.config.verifyMethod,
                          s.config.autoConfigureReader)
  {
  }

  lemma AfterSearching(s: Setup, l: Link, reading: nat)
    ensures var probed, searched := Probed(s, l), Searched(s, Trying(l, reading));
            && searched.handles == l.handles + probed
            && searched.commands
               == l.commands + ProbeCommands(s.wiring, l.handles, l.commands, s.config.verifyMethod, probed)
  {
  }

  lemma TriedState(s: Setup, l: Link, reading: nat)
    ensures Tried(s, l, reading).state == Found(s, Trying(l, reading)).state
  {
  }

  /** Where the reader is opened, and from which command on it is asked. */
  lemma WhereTried(s: Setup, l: Link, reading: nat) returns (h: nat, k: nat)
    requires AreFor(s.commands, s.config.address) && Resolution(s, l.handles, l.commands, l.discoveries).Success?
    ensures var probed := Probed(s, l);
            && h == l.handles + probed
            && k == l.commands + ProbeCommands(s.wiring, l.handles, l.commands, s.config.verifyMethod, probed)
    ensures Tried(s, l, reading).state == READY <==> FindsPort(s, l) && ConnectableAt(s, h, k)
  {
    PortIsFound(s, l);
    var searched := Searched(s, Trying(l, reading));
    h, k := searched.handles, searched.commands;
    TriedState(s, l, reading);
    ReadyWhenFound(s, Trying(l, reading));
    AfterSearching(s, l, reading);
    ConnectsAsReady(s, h, k);
  }

  /** An attempt that is not ended by an exception ends READY exactly when it can. */
  lemma AttemptSucceedsExactlyWhen(s: Setup, l: Link, reading: nat)
    requires AreFor(s.commands, s.config.address) && Resolution(s, l.handles, l.commands, l.discoveries).Success?
    ensures Tried(s, l, reading).state == READY <==> CanConnect(s, l)
  {
    var h, k := WhereTried(s, l, reading);
  }

  /** From x to y one scan is made exactly when the reader was READY, or an attempt was due and could succeed. */
  ghost predicate ScansWhenReady(s: Setup, x: Snapshot, y: Snapshot) {
    && x.link.scans <= y.link.scans && |y.link.scans| <= |x.link.scans| + 1
    && (|y.link.scans| > |x.link.scans| <==>
          || x.link.state == READY
          || (s.env.clock.At(x.readings) >= RetryTime(s, x.link.attempts) && CanConnect(s, x.link)))
  }

  lemma TurnScans(s: Setup, x: Snapshot)
    requires AreFor(s.commands, s.config.address) && !x.aborted && TimesOk(s, x) && |x.link.asked| == x.link.commands
    ensures ScansWhenReady(s, x, Turn(s, x))
  {
    var c := Connecting(s, x);
    PortIsFound(s, x.link);
    if Resolution(s, x.link.handles, x.link.commands, x.link.discoveries).Success? {
      AttemptSucceedsExactlyWhen(s, x.link, x.readings);
    }
    TriedScans(s, x.link, x.readings);
    if !c.aborted {
      ProceedingIsScanning(s, c);
    }
  }

  /** Whether a turn scans: with the reader it has, or with the one it can connect when the retry is due. */
  lemma TurnScansExactlyWhen(s: Setup, w: World, n: nat)
    requires AreFor(s.commands, s.config.address) && !RunOf(s, w, n).aborted
    ensures ScansWhenReady(s, RunOf(s, w, n), RunOf(s, w, n + 1))
  {
    HistoryIsWhatWasHeard(s, w, n);
    TimesAlongRun(s, Delivering(s, Initial(w)), n);
    TurnScans(s, RunOf(s, w, n));
  }
}
