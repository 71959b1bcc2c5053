/** The supervisor loop on values: what one turn makes of the state of the agent, given everything the
    agent cannot decide (src/mvd_edge/app.py run_agent). */
module Turns {
  import opened Wrappers
  import opened Streams
  import opened Frames
  import opened Inventory
  import opened SerialLine
  import opened Health
  import opened Reader
  import opened Presence
  import opened EventQueues
  import opened DeliveryProtocol
  import opened Delivery

  /** The settings that decide anything; no serial port means AUTO. */
  datatype Config = Config(
    serialPort: Option<string>, address: byte, verifyMethod: VerifyMethod, autoConfigureReader: bool,
    readerId: string, identity: Identity, exitTimeout: real, discoveryInterval: real,
    queueRetryInterval: real, heartbeatInterval: real, queueBatchSize: int)

  /** The clock, the ports found at each discovery (or an exception), ids and stamps, the fate of each
      request of each delivery round and of each heartbeat, and whether an insert succeeds. */
  datatype Environment = Environment(
    clock: Stream<real>, ports: Stream<Result<seq<string>, string>>, stamps: Stream<Stamp>,
    sendStamps: Stream<string>, utc: Stream<string>, trips: RoundTrips, beatReplies: Stream<Reply>,
    inserts: Stream<bool>)

  /** With the commands prepared for the configured address. */
  datatype Setup = Setup(config: Config, env: Environment, wiring: Wiring, commands: Commands)

  function SetupFor(config: Config, env: Environment, wiring: Wiring): Setup {
    Setup(config, env, wiring, CommandsFor(config.address))
  }

  // ----- the state, in four parts -----

  /** A connection attempt: the reading of the clock that made it, and the one its retry interval counts
      from, by number. */
  datatype Attempt = Attempt(made: nat, base: nat)

  datatype Link = Link(
    state: ReaderState, vitals: Vitals, nextAttempt: real, attempts: seq<Attempt>,
    discoveries: nat, handles: nat, commands: nat, asked: seq<Frame>, scans: seq<nat>)

  /** One inventory attempt; epcs and at matter for a valid one only. */
  datatype ScanRecord = ScanRecord(outcome: ScanOutcome, epcs: seq<string>, at: real)

  /** heard: how often the clock had been read when each scan was made. */
  datatype Senses = Senses(tags: Dict, history: seq<ScanRecord>, heard: seq<nat>, log: seq<Detection>)

  /** steps and acts are history: the run of the delivery protocol, and what was done in it. */
  datatype Store = Store(
    stamped: nat, inserted: nat, rounds: nat, rows: Table, nextId: nat, cloud: Cloud,
    steps: seq<Step>, acts: seq<Act>, lastDelivery: real)

  /** A heartbeat that was sent, with the number of scans and connection attempts made before it, and the readings
      of the clock that found it due and that came after it, by number. */
  datatype Heartbeat = Heartbeat(beat: Beat, scans: nat, attempts: nat, due: nat, sent: nat)

  datatype Pulse = Pulse(lastHeartbeat: real, heartbeats: seq<Heartbeat>, sent: seq<Beat>)

  /** readings counts those of the clock; aborted: an exception has ended the loop. */
  datatype Snapshot = Snapshot(readings: nat, aborted: bool, link: Link, senses: Senses, store: Store, pulse: Pulse)

  // ----- connecting -----

  /** What looking for the port comes to, when it opens handles from h on, sends commands from k on and
      is the d-th to list the ports. */
  function Resolution(s: Setup, h: nat, k: nat, d: nat): Result<DiscoveryResult, string> {
    if s.config.serialPort.Some? then
      Success(DiscoveryResult(s.config.serialPort, [], Configured))
    else match s.env.ports.At(d)
      case Failure(error) => Failure(error)
      case Success(ports) => Success(Discovered(s.wiring, h, k, s.config.verifyMethod, ports))
  }

  /** The ports probed for it. */
  function Probes(s: Setup, d: nat): nat {
    if s.config.serialPort.None? && s.env.ports.At(d).Success? then |s.env.ports.At(d).value| else 0
  }

  /** A port was configured, or exactly one was found. */
  predicate HasPort(found: DiscoveryResult) {
    found.selectedPort.Some? && found.selectedPort.value != ""
  }

  /** The link when the port has been looked for. */
  function Searched(s: Setup, l: Link): Link {
    var probes := Probes(s, l.discoveries);
    l.(discoveries := if s.config.serialPort.None? then l.discoveries + 1 else l.discoveries,
       handles := l.handles + probes,
       commands := l.commands + ProbeCommands(s.wiring, l.handles, l.commands, s.config.verifyMethod, probes),
       asked := l.asked + ProbeFrames(s.wiring, l.handles, l.commands, s.config.verifyMethod, s.commands, probes))
  }

  /** And when the reader there has been opened and verified. */
  function Reached(s: Setup, l: Link): Link {
    var m, auto := s.config.verifyMethod, s.config.autoConfigureReader;
    l.(state := if Connects(s.wiring, l.handles, l.commands, m, auto) then READY
                else if ConnectingFails(s.wiring, l.handles, l.commands, m, auto) then DISCONNECTED
                else CONFIG_ERROR,
       handles := l.handles + 1,
       commands := l.commands + ConnectCommands(s.wiring, l.handles, l.commands, m, auto),
       asked := l.asked + ConnectFrames(s.wiring, l.handles, l.commands, m, auto, s.commands))
  }

  /** The attempt is on record, and the health flags show it. */
  function Trying(l: Link, reading: nat): Link {
    l.(state := CONNECTING, vitals := Reconnecting(l.vitals.(readerState := CONNECTING)),
       attempts := l.attempts + [Attempt(reading, reading)])
  }

  /** The flags and the time of the next attempt when an attempt is over. */
  function Concluded(l: Link, next: real): Link {
    var v := l.vitals.(readerState := l.state);
    if l.state == READY then l.(vitals := Readied(v)) else l.(vitals := WentOffline(v), nextAttempt := next)
  }

  /** Looking for the port, and for the reader there. */
  function Found(s: Setup, l: Link): Link {
    var searched := Searched(s, l);
    match Resolution(s, l.handles, l.commands, l.discoveries)
    case Failure(_) => searched
    case Success(found) =>
      if HasPort(found) then Reached(s, searched)
      else searched.(state := if |found.supported| > 1 then CONFIG_ERROR else DISCONNECTED)
  }

  /** What is said of it. */
  function FoundMessage(s: Setup, l: Link): Message {
    var searched := Searched(s, l);
    match Resolution(s, l.handles, l.commands, l.discoveries)
    case Failure(error) => Failed(Raised(error))
    case Success(found) =>
      if HasPort(found) then
        ConnectMessage(s.wiring, searched.handles, searched.commands, s.config.verifyMethod,
                       s.config.autoConfigureReader)
      else found.message
  }

  /** The message is that of a search from this link, put so that it is not spelled out. */
  ghost predicate Tells(s: Setup, l: Link, message: Message) {
    forall link: Link :: link == l ==> message == FoundMessage(s, link)
  }

  /** An attempt made at this reading: an exception while ports are listed ends the loop. */
  function Tried(s: Setup, l: Link, reading: nat): Link {
    var found := Found(s, Trying(l, reading));
    if Resolution(s, l.handles, l.commands, l.discoveries).Failure? then found
    else Concluded(found, s.env.clock.At(reading) + s.config.discoveryInterval)
  }

  predicate AttemptDue(s: Setup, l: Link, reading: nat) {
    l.state != READY && s.env.clock.At(reading) >= l.nextAttempt
  }

  function Connecting(s: Setup, x: Snapshot): Snapshot {
    if AttemptDue(s, x.link, x.readings) then
      x.(readings := x.readings + 1, link := Tried(s, x.link, x.readings),
         aborted := Resolution(s, x.link.handles, x.link.commands, x.link.discoveries).Failure?)
    else x.(readings := x.readings + 1)
  }

  // ----- scanning -----

  /** What a scan comes to, at the given time. */
  function RecordOf(result: Result<InventoryResult, Problem>, at: real): ScanRecord {
    match result
    case Failure(_) => ScanRecord(FaultyScan, [], 0.0)
    case Success(answer) =>
      match answer.status
      case VALID => ScanRecord(ValidScan, answer.tags, at)
      case NO_RESPONSE => ScanRecord(NoResponseScan, [], 0.0)
      case MALFORMED => ScanRecord(MalformedScan, [], 0.0)
  }

  /** By what arrives for the inventory command. */
  function ScanOf(arrival: Arrival, at: real): ScanRecord {
    RecordOf(ScanResult(arrival), at)
  }

  /** An exception loses the reader: the retry interval counts from that reading. */
  function LinkLost(s: Setup, l: Link, reading: nat): Link {
    l.(state := DISCONNECTED, nextAttempt := s.env.clock.At(reading) + s.config.discoveryInterval,
       attempts := if l.attempts == [] then [] else
                     l.attempts[..|l.attempts| - 1] + [l.attempts[|l.attempts| - 1].(base := reading)])
  }

  function InventoryAsked(s: Setup, l: Link): Link {
    l.(commands := l.commands + 1, asked := l.asked + [s.commands.inventory], scans := l.scans + [l.commands])
  }

  function LinkAfterScan(s: Setup, l: Link, outcome: ScanOutcome, reading: nat): Link {
    var v := Scanned(l.vitals, outcome);
    if outcome == FaultyScan then LinkLost(s, l.(vitals := v.(readerState := DISCONNECTED)), reading)
    else l.(vitals := v.(readerState := l.state))
  }

  /** Only a valid scan reaches the presence engine. */
  function SensesAfterScan(s: Setup, n: Senses, r: ScanRecord, reading: nat): Senses {
    var noted := n.(history := n.history + [r], heard := n.heard + [reading]);
    if r.outcome != ValidScan then noted
    else
      var timeout, reader := s.config.exitTimeout, Some(s.config.readerId);
      noted.(tags := Updated(n.tags, r.epcs, r.at, timeout, reader),
             log := n.log + Emitted(n.tags, r.epcs, r.at, timeout, reader))
  }

  lemma SensesAfterValidScan(s: Setup, n: Senses, tags: seq<string>, at: real, reading: nat)
    ensures var reader := Some(s.config.readerId);
            SensesAfterScan(s, n, ScanRecord(ValidScan, tags, at), reading)
            == Senses(Updated(n.tags, tags, at, s.config.exitTimeout, reader),
                      n.history + [ScanRecord(ValidScan, tags, at)], n.heard + [reading],
                      n.log + Emitted(n.tags, tags, at, s.config.exitTimeout, reader))
  {
  }

  /** A scan that has been asked for ends like this. */
  function Noting(s: Setup, x: Snapshot, r: ScanRecord): Snapshot {
    x.(link := LinkAfterScan(s, x.link, r.outcome, x.readings), senses := SensesAfterScan(s, x.senses, r, x.readings),
       readings := if r.outcome == ValidScan || r.outcome == FaultyScan then x.readings + 1 else x.readings)
  }

  function Scanning(s: Setup, x: Snapshot): Snapshot {
    if x.link.state != READY then x
    else
      Noting(s, x.(link := InventoryAsked(s, x.link)),
             ScanOf(s.wiring.arrivals.At(x.link.commands), s.env.clock.At(x.readings)))
  }

  lemma ScanningMeans(s: Setup, x: Snapshot, r: ScanRecord)
    requires x.link.state == READY
    requires r == ScanOf(s.wiring.arrivals.At(x.link.commands), s.env.clock.At(x.readings))
    ensures Scanning(s, x) == x.(link := LinkAfterScan(s, InventoryAsked(s, x.link), r.outcome, x.readings),
                                 senses := SensesAfterScan(s, x.senses, r, x.readings),
                                 readings := x.readings
                                             + if r.outcome == ValidScan || r.outcome == FaultyScan then 1 else 0)
  {
  }

  // ----- forwarding -----

  /** build_event_payload */
  function BuildEventPayload(event: DetectedEvent, config: Config, sendAt: string): Payload {
    Payload(event.edgeEventId, event.kind, event.epc,
            if event.readerId.Some? && event.readerId.value != "" then event.readerId.value else config.readerId,
            config.identity, event.edgeEventAt, event.edgeEventAt, sendAt)
  }

  /** For the k-th event of the run. */
  function PayloadOf(s: Setup, d: Detection, k: nat): Payload {
    BuildEventPayload(Stamped(d, s.env.stamps.At(k)), s.config, s.env.sendStamps.At(k))
  }

  function Inserted(t: Store, payload: Payload, now: real): Store {
    t.(stamped := t.stamped + 1, inserted := t.inserted + 1,
       rows := Enqueued(t.rows, t.nextId, payload, now),
       nextId := if HasEvent(t.rows, payload.edgeEventId) then t.nextId else t.nextId + 1,
       steps := t.steps + [Enqueue(payload, now)], acts := t.acts + [Inserts(payload, now)])
  }

  function InsertOne(s: Setup, x: Snapshot): Snapshot
    requires x.store.stamped < |x.senses.log|
  {
    var payload := PayloadOf(s, x.senses.log[x.store.stamped], x.store.stamped);
    x.(readings := x.readings + 1, store := Inserted(x.store, payload, s.env.clock.At(x.readings)))
  }

  /** Every event that has no row yet gets one, unless an insert raises. */
  function Enqueueing(s: Setup, x: Snapshot): Snapshot
    decreases |x.senses.log| - x.store.stamped
  {
    if x.store.stamped >= |x.senses.log| then x
    else if !s.env.inserts.At(x.store.inserted) then
      x.(aborted := true, store := x.store.(inserted := x.store.inserted + 1))
    else Enqueueing(s, InsertOne(s, x))
  }

  function DeliveredStore(t: Store, limit: int, trips: Stream<Trip>): Store {
    var batch := Fetched(t.rows, limit);
    t.(rounds := t.rounds + 1, rows := Round(t.rows, limit, trips),
       cloud := RoundCloud(t.cloud, batch, trips, |batch|),
       steps := t.steps + RoundSteps(t.rows, limit, trips),
       acts := t.acts + RoundActs(batch, trips, |batch|))
  }

  /** One round, and the time after it. */
  function Delivering(s: Setup, x: Snapshot): Snapshot {
    x.(readings := x.readings + 1,
       store := DeliveredStore(x.store, s.config.queueBatchSize, s.env.trips.At(x.store.rounds))
                  .(lastDelivery := s.env.clock.At(x.readings)))
  }

  /** The retry of the queue, when it is due. */
  function Retrying(s: Setup, x: Snapshot): Snapshot {
    var now, read := s.env.clock.At(x.readings), x.(readings := x.readings + 1);
    if now - x.store.lastDelivery >= s.config.queueRetryInterval then Delivering(s, read) else read
  }

  function Forwarding(s: Setup, x: Snapshot): Snapshot {
    var queued := Enqueueing(s, x);
    if queued.aborted then queued
    else if x.store.stamped < |x.senses.log| then Retrying(s, Delivering(s, queued))
    else Retrying(s, queued)
  }

  // ----- reporting -----

  function HeartbeatOf(x: Snapshot): Heartbeat {
    Heartbeat(Beat(x.link.vitals, |PendingPlaces(x.store.rows)|), |x.senses.history|, |x.link.attempts|,
              x.readings, x.readings + 1)
  }

  function Beating(p: Pulse, hb: Heartbeat, at: real): Pulse {
    Pulse(at, p.heartbeats + [hb], p.sent + [hb.beat])
  }

  function Reporting(s: Setup, x: Snapshot): Snapshot {
    if s.env.clock.At(x.readings) - x.pulse.lastHeartbeat >= s.config.heartbeatInterval then
      x.(readings := x.readings + 2, pulse := Beating(x.pulse, HeartbeatOf(x), s.env.clock.At(x.readings + 1)))
    else x.(readings := x.readings + 1)
  }

  // ----- the run -----

  /** What a turn does after connecting. */
  function Proceeding(s: Setup, x: Snapshot): Snapshot {
    var forwarded := Forwarding(s, Scanning(s, x));
    if forwarded.aborted then forwarded else Reporting(s, forwarded)
  }

  /** One turn; nothing happens after an exception. */
  function Turn(s: Setup, x: Snapshot): Snapshot {
    if x.aborted then x
    else
      var connected := Connecting(s, x);
      if connected.aborted then connected else Proceeding(s, connected)
  }

  lemma TurnMeans(s: Setup, x: Snapshot)
    requires !x.aborted
    ensures Turn(s, x) == if Connecting(s, x).aborted then Connecting(s, x) else Proceeding(s, Connecting(s, x))
  {
  }

  function TurnsFrom(s: Setup, x: Snapshot, n: nat): Snapshot {
    if n == 0 then x else Turn(s, TurnsFrom(s, x, n - 1))
  }

  const UNSEEN := Vitals(DISCONNECTED, false, false, 0, 0, 0, OFFLINE)

  function Initial(w: World): Snapshot {
    Snapshot(0, false, Link(DISCONNECTED, UNSEEN, 0.0, [], 0, 0, 0, [], []), Senses([], [], [], []),
             Store(0, 0, 0, w.rows, w.nextId, w.cloud, [], [], 0.0), Pulse(0.0, [], []))
  }

  /** The delivery before the loop, and n turns of the loop. */
  function RunOf(s: Setup, w: World, n: nat): Snapshot {
    TurnsFrom(s, Delivering(s, Initial(w)), n)
  }
}
