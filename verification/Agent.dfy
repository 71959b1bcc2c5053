/** The supervisor: connect, scan, enqueue, deliver, report, for as long as the agent runs
    (src/mvd_edge/app.py run_agent). Every method does what the function on values of Turns says. */
module Agent {
  import opened Wrappers
  import opened Streams
  import opened Frames
  import opened Inventory
  import opened SerialLine
  import opened Health
  import opened Reader
  import opened Presence
  import opened EventQueues
  import opened DeliveryProtocol
  import opened Delivery
  import opened Turns
  import opened Texts

  class Agent {
    const setup: Setup
    const bus: SerialBus
    const presence: PresenceState
    const queue: EventQueue
    const transport: CloudTransport
    const health: HealthState

    var reader: IDT85Reader?
    var readerState: ReaderState
    var nextReaderAttempt: real
    var lastDeliveryAttempt: real
    var lastHeartbeatAttempt: real

    // how much of the environment has been used up
    var clockReads: nat
    var discoveries: nat
    var stampsUsed: nat
    var inserted: nat
    var rounds: nat

    // history
    ghost var attempts: seq<Attempt>
    ghost var history: seq<ScanRecord>
    ghost var heard: seq<nat>
    ghost var log: seq<Detection>
    ghost var steps: seq<Step>
    ghost var heartbeats: seq<Heartbeat>

    // ----- the state as a value -----

    ghost function LinkNow(): Link
      reads this`readerState, this`nextReaderAttempt, this`attempts, this`discoveries, bus, health
    {
      Link(readerState, health.Now(), nextReaderAttempt, attempts, discoveries, bus.handles, bus.commands,
           bus.Line().asked, bus.Line().scans)
    }

    ghost function SensesNow(): Senses
      reads this`history, this`heard, this`heard, this`log, presence
    {
      Senses(presence.visibleTags, history, heard, log)
    }

    ghost function StoreNow(): Store
      reads this`stampsUsed, this`inserted, this`rounds, this`steps, this`lastDeliveryAttempt
      reads queue`rows, queue`nextId, transport`stored, queue.journal`acts
    {
      Store(stampsUsed, inserted, rounds, queue.rows, queue.nextId, transport.stored, steps, queue.journal.acts,
            lastDeliveryAttempt)
    }

    ghost function PulseNow(): Pulse
      reads this`lastHeartbeatAttempt, this`heartbeats, transport`beats
    {
      Pulse(lastHeartbeatAttempt, heartbeats, transport.beats)
    }

    ghost function Now(aborted: bool): Snapshot
      reads this, bus, health, presence, queue, transport, queue.journal
    {
      Snapshot(clockReads, aborted, LinkNow(), SensesNow(), StoreNow(), PulseNow())
    }

    twostate predicate QueueUntouched()
      reads queue, queue.journal, transport
    {
      && queue.rows == old(queue.rows) && queue.nextId == old(queue.nextId)
      && queue.journal.acts == old(queue.journal.acts)
      && transport.stored == old(transport.stored) && transport.beats == old(transport.beats)
    }

    ghost predicate Equipped() {
      AreFor(setup.commands, setup.config.address)
    }

    /** The only open handle is the current reader's, and it is open exactly when the state is READY. */
    ghost predicate LineHolds(state: ReaderState)
      reads this`reader, reader, bus
    {
      && bus.Valid() && bus.wiring == setup.wiring && bus.Line().safe && Equipped()
      && (!setup.config.autoConfigureReader ==> !bus.Line().configured)
      && (reader != null ==> reader.bus == bus)
      && (state == READY ==>
            && reader != null && reader.Live() && reader.WellBuilt() && !reader.probing
            && reader.Prepared() == setup.commands
            && reader.serial.Some? && reader.serial.value in bus.Line().answering
            && bus.Line().open == {reader.serial.value})
      && (state != READY ==> bus.Line().open == {} && (reader != null ==> reader.serial == None))
    }

    /** The same of the present state, said so that methods which only pass it on need not look inside. */
    ghost predicate LineOk()
      reads this`reader, this`readerState, reader, bus
    {
      forall state: ReaderState :: state == readerState ==> LineHolds(state)
    }

    ghost predicate PartsOk()
      reads presence, queue
    {
      presence.Valid() && presence.exitTimeout == setup.config.exitTimeout && Wired(queue, transport)
    }

    /** The events are those of the log that have no rows yet, with the next stamps of the environment. */
    ghost predicate Logged(events: seq<DetectedEvent>)
      reads this`log, this`stampsUsed
    {
      && stampsUsed + |events| == |log|
      && forall k :: 0 <= k < |events| ==>
           events[k] == Stamped(log[stampsUsed + k], setup.env.stamps.At(stampsUsed + k))
    }

    constructor (setup: Setup, bus: SerialBus, queue: EventQueue, transport: CloudTransport, ghost w: World)
      requires bus.Valid() && bus.trace == [] && bus.handles == bus.commands == 0 && bus.wiring == setup.wiring
      requires Wired(queue, transport) && queue.journal.acts == []
      requires queue.rows == w.rows && queue.nextId == w.nextId && transport.stored == w.cloud && transport.beats == []
      requires AreFor(setup.commands, setup.config.address)
      ensures this.setup == setup && this.bus == bus && this.queue == queue && this.transport == transport
      ensures fresh(presence) && fresh(health) && reader == null
      ensures LineOk() && PartsOk() && Now(false) == Initial(w)
    {
      this.setup, this.bus, this.queue, this.transport := setup, bus, queue, transport;
      presence := new PresenceState(setup.config.exitTimeout);
      health := new HealthState(DISCONNECTED);
      reader, readerState := null, DISCONNECTED;
      nextReaderAttempt, lastDeliveryAttempt, lastHeartbeatAttempt := 0.0, 0.0, 0.0;
      clockReads, discoveries, stampsUsed, inserted, rounds := 0, 0, 0, 0, 0;
      attempts, history, heard, log, steps, heartbeats := [], [], [], [], [], [];
    }

    method Time() returns (t: real)
      modifies this`clockReads
      ensures clockReads == old(clockReads) + 1 && t == setup.env.clock.At(old(clockReads))
    {
      t := setup.env.clock.At(clockReads);
      clockReads := clockReads + 1;
    }

    // ----- connecting -----

    /** resolve_reader_port; an exception while ports are listed is not caught here. */
    method ResolveReaderPort() returns (r: Result<DiscoveryResult, string>)
      requires bus.Valid() && bus.wiring == setup.wiring && Equipped()
      modifies bus, this`discoveries
      ensures bus.Valid() && bus.Line().open == old(bus.Line().open) && bus.Line().safe == old(bus.Line().safe)
      ensures bus.Line().configured == old(bus.Line().configured)
      ensures LinkNow() == Searched(setup, old(LinkNow()))
      ensures r == Resolution(setup, old(bus.handles), old(bus.commands), old(discoveries))
    {
      if setup.config.serialPort.Some? {
        return Success(DiscoveryResult(setup.config.serialPort, [], Configured));
      }
      var candidates := setup.env.ports.At(discoveries);
      discoveries := discoveries + 1;
      if candidates.Failure? {
        return Failure(candidates.error);
      }
      var c := setup.config;
      var result := DiscoverReaderPort(bus, candidates.value, c.address, c.verifyMethod, setup.commands);
      r := Success(result);
    }

    method ConnectTo() returns (message: Message)
      requires LineOk() && readerState == CONNECTING
      modifies this`reader, this`readerState, bus
      ensures LineOk() && fresh(reader) && LinkNow() == Reached(setup, old(LinkNow()))
      ensures message == ConnectMessage(bus.wiring, old(bus.handles), old(bus.commands), setup.config.verifyMethod,
                                        setup.config.autoConfigureReader)
    {
      assert LineHolds(readerState);
      var attempt := NewReader(bus, setup.config.address, setup.config.verifyMethod, false, setup.commands);
      reader := attempt;
      readerState, message := ConnectAndVerifyReader(attempt, setup.config.autoConfigureReader);
    }

    /** Look for the port and connect to the reader there. */
    method FindAndConnect() returns (aborted: bool, message: Message)
      requires LineOk() && readerState == CONNECTING
      modifies this`reader, this`readerState, this`discoveries, bus
      ensures LineOk() && (reader == old(reader) || fresh(reader))
      ensures aborted <==> Resolution(setup, old(bus.handles), old(bus.commands), old(discoveries)).Failure?
      ensures LinkNow() == Found(setup, old(LinkNow())) && Tells(setup, old(LinkNow()), message)
    {
      assert LineHolds(readerState);
      var resolved := ResolveReaderPort();
      if resolved.Failure? {
        return true, Failed(Raised(resolved.error));
      }
      message := resolved.value.message;
      if HasPort(resolved.value) {
        message := ConnectTo();
      } else {
        readerState := if |resolved.value.supported| > 1 then CONFIG_ERROR else DISCONNECTED;
      }
      aborted := false;
    }

    method BeginAttempt()
      requires LineOk() && readerState != READY && clockReads > 0
      modifies this`readerState, this`attempts, health
      ensures LineOk() && readerState == CONNECTING
      ensures health.Now() == Reconnecting(old(health.Now()).(readerState := CONNECTING))
      ensures attempts == old(attempts) + [Attempt(clockReads - 1, clockReads - 1)]
    {
      assert LineHolds(readerState);
      readerState := CONNECTING;
      health.SetReaderState(readerState);
      health.MarkReconnectAttempt();
      attempts := attempts + [Attempt(clockReads - 1, clockReads - 1)];
    }

    method EndAttempt(now: real, message: Message)
      modifies this`nextReaderAttempt, health
      ensures var v := old(health.Now()).(readerState := readerState);
              health.Now() == if readerState == READY then Readied(v) else WentOffline(v)
      ensures nextReaderAttempt
           == if readerState == READY then old(nextReaderAttempt) else now + setup.config.discoveryInterval
      ensures readerState != READY ==> Shows(message)
    {
      health.SetReaderState(readerState);
      if readerState != READY {
        NoteFailure(message);
        nextReaderAttempt := now + setup.config.discoveryInterval;
      } else {
        health.MarkReaderReady();
      }
    }

    /** The reader error that heartbeats show, put so that the text is not spelled out. */
    ghost predicate Shows(message: Message)
      reads health
    {
      forall m: Message :: m == message ==> health.lastReaderError == Some(Sanitized(Text(m), 200))
    }

    method NoteFailure(message: Message)
      modifies health
      ensures health.Now() == WentOffline(old(health.Now())) && Shows(message)
    {
      health.MarkReaderOffline(Text(message));
    }

    /** The part of the loop that tries to connect, at the latest reading. */
    method TryToConnect(now: real) returns (aborted: bool)
      requires LineOk() && readerState != READY && clockReads > 0 && now == setup.env.clock.At(clockReads - 1)
      modifies this`reader, this`readerState, this`nextReaderAttempt, this`discoveries, this`attempts, bus, health
      ensures LineOk() && (reader == old(reader) || fresh(reader))
      ensures LinkNow() == Tried(setup, old(LinkNow()), clockReads - 1)
      ensures aborted <==> Resolution(setup, old(bus.handles), old(bus.commands), old(discoveries)).Failure?
      ensures !aborted && readerState != READY ==>
                exists message :: Tells(setup, Trying(old(LinkNow()), clockReads - 1), message) && Shows(message)
    {
      BeginAttempt();
      var message;
      aborted, message := FindAndConnect();
      if aborted {
        return;
      }
      EndAttempt(now, message);
    }

    method ConnectIfDue() returns (aborted: bool)
      requires LineOk()
      modifies this`reader, this`readerState, this`nextReaderAttempt, this`discoveries, this`attempts, this`clockReads
      modifies bus, health
      ensures LineOk() && (reader == old(reader) || fresh(reader)) && clockReads == old(clockReads) + 1
      ensures if AttemptDue(setup, old(LinkNow()), old(clockReads)) then
                && LinkNow() == Tried(setup, old(LinkNow()), old(clockReads))
                && (aborted <==> Resolution(setup, old(bus.handles), old(bus.commands), old(discoveries)).Failure?)
              else
                LinkNow() == old(LinkNow()) && !aborted
    {
      var now := Time();
      aborted := false;
      if now >= nextReaderAttempt && readerState != READY {
        aborted := TryToConnect(now);
      }
    }

    // ----- scanning -----

    /** read_inventory_events, and what the loop does about its outcome. */
    method ScanOnce() returns (events: seq<DetectedEvent>)
      requires LineOk() && PartsOk() && readerState == READY && stampsUsed == |log|
      modifies this`readerState, this`nextReaderAttempt, this`attempts, this`clockReads
      modifies this`history, this`heard, this`log
      modifies bus, presence, health, reader
      ensures LineOk() && PartsOk() && Logged(events)
      ensures Now(false) == Scanning(setup, old(Now(false)))
    {
      ghost var x := Now(false);
      events := ScanApart();
      assert StoreNow() == x.store && PulseNow() == x.pulse;
    }

    /** The queue is none of its business. */
    method ScanApart() returns (events: seq<DetectedEvent>)
      requires LineOk() && PartsOk() && readerState == READY && stampsUsed == |log|
      modifies this`readerState, this`nextReaderAttempt, this`attempts, this`clockReads
      modifies this`history, this`heard, this`log
      modifies bus, presence, health, reader
      ensures LineOk() && PartsOk() && Logged(events)
      ensures var y := Scanning(setup, old(Now(false)));
              LinkNow() == y.link && SensesNow() == y.senses && clockReads == y.readings
      ensures QueueUntouched()
    {
      ScanningMeans(setup, Now(false), ScanOf(setup.wiring.arrivals.At(bus.commands), setup.env.clock.At(clockReads)));
      events := AskAndNote();
    }

    /** What it changes. */
    method AskAndNote() returns (events: seq<DetectedEvent>)
      requires LineOk() && PartsOk() && readerState == READY && stampsUsed == |log|
      modifies this`readerState, this`nextReaderAttempt, this`attempts, this`clockReads
      modifies this`history, this`heard, this`log
      modifies bus, presence, health, reader
      ensures LineOk() && PartsOk() && Logged(events)
      ensures var r := ScanOf(setup.wiring.arrivals.At(old(bus.commands)), setup.env.clock.At(old(clockReads)));
              && LinkNow() == LinkAfterScan(setup, InventoryAsked(setup, old(LinkNow())), r.outcome, old(clockReads))
              && SensesNow() == SensesAfterScan(setup, old(SensesNow()), r, old(clockReads))
              && clockReads == old(clockReads) + if r.outcome == ValidScan || r.outcome == FaultyScan then 1 else 0
    {
      var result := Ask();
      events := Note(result);
    }

    method Ask() returns (result: Result<InventoryResult, Problem>)
      requires LineOk() && readerState == READY
      modifies bus
      ensures LineOk() && LinkNow() == InventoryAsked(setup, old(LinkNow()))
      ensures result == ScanResult(setup.wiring.arrivals.At(old(bus.commands)))
    {
      assert LineHolds(readerState);
      result := reader.Inventory();
    }

    method Note(result: Result<InventoryResult, Problem>) returns (events: seq<DetectedEvent>)
      requires LineOk() && PartsOk() && readerState == READY && stampsUsed == |log|
      modifies this`readerState, this`nextReaderAttempt, this`attempts, this`clockReads
      modifies this`history, this`heard, this`log
      modifies bus, presence, health, reader
      ensures LineOk() && PartsOk() && Logged(events)
      ensures var r := RecordOf(result, setup.env.clock.At(old(clockReads)));
              && LinkNow() == LinkAfterScan(setup, old(LinkNow()), r.outcome, old(clockReads))
              && SensesNow() == SensesAfterScan(setup, old(SensesNow()), r, old(clockReads))
              && clockReads == old(clockReads) + if r.outcome == ValidScan || r.outcome == FaultyScan then 1 else 0
    {
      events := [];
      if result.Failure? {
        LoseReader(result.error);
      } else {
        events := NoteAnswer(result.value);
      }
    }

    method NoteAnswer(answer: InventoryResult) returns (events: seq<DetectedEvent>)
      requires PartsOk() && stampsUsed == |log|
      modifies this`clockReads, this`history, this`heard, this`log
      modifies presence, health
      ensures PartsOk() && Logged(events)
      ensures var r := RecordOf(Success(answer), setup.env.clock.At(old(clockReads)));
              && health.Now() == Scanned(old(health.Now()), r.outcome).(readerState := readerState)
              && SensesNow() == SensesAfterScan(setup, old(SensesNow()), r, old(clockReads))
              && clockReads == old(clockReads) + if r.outcome == ValidScan then 1 else 0
    {
      if answer.status == VALID {
        events := SenseTags(answer.tags);
      } else {
        events := [];
        NoteRefusal(answer.status);
      }
    }

    /** An exception closes the reader. */
    method LoseReader(problem: Problem)
      requires LineOk() && readerState == READY
      modifies this`readerState, this`nextReaderAttempt, this`attempts, this`clockReads, this`history, this`heard
      modifies bus, health, reader
      ensures LineOk() && clockReads == old(clockReads) + 1
      ensures history == old(history) + [ScanRecord(FaultyScan, [], 0.0)] && heard == old(heard) + [old(clockReads)]
      ensures readerState == DISCONNECTED && bus.handles == old(bus.handles) && bus.commands == old(bus.commands)
      ensures bus.Line().asked == old(bus.Line().asked) && bus.Line().scans == old(bus.Line().scans)
      ensures health.Now() == Scanned(old(health.Now()), FaultyScan)
      ensures nextReaderAttempt == setup.env.clock.At(old(clockReads)) + setup.config.discoveryInterval
      ensures attempts == if old(attempts) == [] then [] else
                            old(attempts)[..|old(attempts)| - 1]
                            + [old(attempts)[|old(attempts)| - 1].(base := old(clockReads))]
      ensures Shows(Failed(problem))
    {
      assert LineHolds(readerState);
      reader.Close();
      readerState := DISCONNECTED;
      NoteLoss(problem);
    }

    method NoteLoss(problem: Problem)
      requires readerState == DISCONNECTED
      modifies this`nextReaderAttempt, this`attempts, this`clockReads, this`history, this`heard, health
      ensures clockReads == old(clockReads) + 1
      ensures history == old(history) + [ScanRecord(FaultyScan, [], 0.0)] && heard == old(heard) + [old(clockReads)]
      ensures health.Now() == Scanned(old(health.Now()), FaultyScan)
      ensures nextReaderAttempt == setup.env.clock.At(old(clockReads)) + setup.config.discoveryInterval
      ensures attempts == if old(attempts) == [] then [] else
                            old(attempts)[..|old(attempts)| - 1]
                            + [old(attempts)[|old(attempts)| - 1].(base := old(clockReads))]
      ensures Shows(Failed(problem))
    {
      health.SetReaderState(DISCONNECTED);
      NoteFailure(Failed(problem));
      history, heard := history + [ScanRecord(FaultyScan, [], 0.0)], heard + [clockReads];
      attempts := if attempts == [] then [] else
                    attempts[..|attempts| - 1] + [attempts[|attempts| - 1].(base := clockReads)];
      var now := Time();
      nextReaderAttempt := now + setup.config.discoveryInterval;
    }

    method SenseTags(tags: seq<string>) returns (events: seq<DetectedEvent>)
      requires PartsOk() && stampsUsed == |log|
      modifies this`clockReads, this`history, this`heard, this`log, presence, health
      ensures PartsOk() && clockReads == old(clockReads) + 1 && Logged(events)
      ensures SensesNow() == SensesAfterScan(setup, old(SensesNow()),
                                             ScanRecord(ValidScan, tags, setup.env.clock.At(old(clockReads))),
                                             old(clockReads))
      ensures health.Now() == Scanned(old(health.Now()), ValidScan).(readerState := readerState)
    {
      health.MarkInventorySuccess(tags, setup.env.utc.At(clockReads));
      health.SetReaderState(readerState);
      SensesAfterValidScan(setup, SensesNow(), tags, setup.env.clock.At(clockReads), clockReads);
      events := UpdatePresence(tags);
      EventsAreLogged(events);
    }

    method UpdatePresence(tags: seq<string>) returns (events: seq<DetectedEvent>)
      requires PartsOk()
      modifies this`clockReads, this`history, this`heard, this`log, presence
      ensures PartsOk() && clockReads == old(clockReads) + 1
      ensures var now, reader := setup.env.clock.At(old(clockReads)), Some(setup.config.readerId);
              var emitted := Emitted(old(presence.visibleTags), tags, now, setup.config.exitTimeout, reader);
              && presence.visibleTags
                 == Updated(old(presence.visibleTags), tags, now, setup.config.exitTimeout, reader)
              && events == StampAll(emitted, setup.env.stamps, stampsUsed) && log == old(log) + emitted
              && history == old(history) + [ScanRecord(ValidScan, tags, now)]
              && heard == old(heard) + [old(clockReads)]
    {
      ghost var before := presence.visibleTags;
      heard := heard + [clockReads];
      var now := Time();
      events := presence.Update(tags, now, Some(setup.config.readerId), setup.env.stamps, stampsUsed);
      history := history + [ScanRecord(ValidScan, tags, now)];
      log := log + Emitted(before, tags, now, setup.config.exitTimeout, Some(setup.config.readerId));
    }

    lemma EventsAreLogged(events: seq<DetectedEvent>)
      requires stampsUsed + |events| == |log|
      requires events == StampAll(log[stampsUsed..], setup.env.stamps, stampsUsed)
      ensures Logged(events)
    {
    }

    method NoteRefusal(status: InventoryStatus)
      requires status != VALID
      modifies this`history, this`heard, health
      ensures var outcome := if status == NO_RESPONSE then NoResponseScan else MalformedScan;
              && history == old(history) + [ScanRecord(outcome, [], 0.0)] && heard == old(heard) + [clockReads]
              && health.Now() == Scanned(old(health.Now()), outcome).(readerState := readerState)
    {
      if status == NO_RESPONSE {
        health.MarkInventoryNoResponse();
        history := history + [ScanRecord(NoResponseScan, [], 0.0)];
      } else {
        health.MarkInventoryMalformed();
        history := history + [ScanRecord(MalformedScan, [], 0.0)];
      }
      heard := heard + [clockReads];
      health.SetReaderState(readerState);
    }

    /** A READY state always comes with a reader, so the loop never has to correct it. */
    method ScanIfReady() returns (events: seq<DetectedEvent>)
      requires LineOk() && PartsOk() && stampsUsed == |log|
      modifies this`readerState, this`nextReaderAttempt, this`attempts, this`clockReads
      modifies this`history, this`heard, this`log
      modifies bus, presence, health, reader
      ensures LineOk() && PartsOk() && Logged(events)
      ensures Now(false) == Scanning(setup, old(Now(false)))
    {
      assert LineHolds(readerState);
      events := [];
      if readerState == READY {
        assert reader != null;
        events := ScanOnce();
      }
    }

    // ----- forwarding -----

    method EnqueueOne(event: DetectedEvent)
      requires PartsOk() && stampsUsed < |log|
      requires event == Stamped(log[stampsUsed], setup.env.stamps.At(stampsUsed))
      modifies this`steps, this`stampsUsed, this`inserted, this`clockReads, queue, queue.journal
      ensures PartsOk() && clockReads == old(clockReads) + 1
      ensures StoreNow() == Inserted(old(StoreNow()), PayloadOf(setup, log[old(stampsUsed)], old(stampsUsed)),
                                     setup.env.clock.At(old(clockReads)))
    {
      var payload := BuildEventPayload(event, setup.config, setup.env.sendStamps.At(stampsUsed));
      var now := Time();
      queue.Enqueue(payload, now);
      steps := steps + [Enqueue(payload, now)];
      stampsUsed, inserted := stampsUsed + 1, inserted + 1;
    }

    method EnqueueNext(event: DetectedEvent)
      requires PartsOk() && stampsUsed < |log|
      requires event == Stamped(log[stampsUsed], setup.env.stamps.At(stampsUsed))
      modifies this`steps, this`stampsUsed, this`inserted, this`clockReads, queue, queue.journal
      ensures PartsOk() && Now(false) == InsertOne(setup, old(Now(false)))
    {
      EnqueueOne(event);
      assert LinkNow() == old(LinkNow()) && SensesNow() == old(SensesNow()) && PulseNow() == old(PulseNow());
    }

    /** What is left to do stays the same while events become rows. */
    method EnqueueOrRaise(event: DetectedEvent) returns (raised: bool)
      requires PartsOk() && stampsUsed < |log|
      requires event == Stamped(log[stampsUsed], setup.env.stamps.At(stampsUsed))
      modifies this`steps, this`stampsUsed, this`inserted, this`clockReads, queue, queue.journal
      ensures PartsOk() && (!raised ==> stampsUsed == old(stampsUsed) + 1)
      ensures (if raised then Now(true) else Enqueueing(setup, Now(false))) == Enqueueing(setup, old(Now(false)))
    {
      raised := !setup.env.inserts.At(inserted);
      if raised {
        inserted := inserted + 1;
      } else {
        EnqueueNext(event);
      }
    }

    /** Every event becomes a row, unless an insert raises. */
    method EnqueueAll(events: seq<DetectedEvent>) returns (aborted: bool)
      requires PartsOk() && Logged(events)
      modifies this`steps, this`stampsUsed, this`inserted, this`clockReads, queue, queue.journal
      ensures PartsOk() && (!aborted ==> stampsUsed == |log|)
      ensures Now(aborted) == Enqueueing(setup, old(Now(false)))
    {
      aborted := false;
      for k := 0 to |events|
        invariant PartsOk() && stampsUsed == old(stampsUsed) + k && !aborted
        invariant Enqueueing(setup, Now(false)) == Enqueueing(setup, old(Now(false)))
      {
        aborted := EnqueueOrRaise(events[k]);
        if aborted {
          return;
        }
      }
    }

    /** attempt_immediate_delivery, or the delivery before the loop. */
    method Deliver()
      requires PartsOk()
      modifies this`steps, this`rounds, this`lastDeliveryAttempt, this`clockReads
      modifies queue, transport`stored, queue.journal
      ensures PartsOk() && clockReads == old(clockReads) + 1
      ensures StoreNow()
              == DeliveredStore(old(StoreNow()), setup.config.queueBatchSize, setup.env.trips.At(old(rounds)))
                            .(lastDelivery := setup.env.clock.At(old(clockReads)))
    {
      DeliverRound();
      lastDeliveryAttempt := Time();
    }

    method DeliverRound()
      requires PartsOk()
      modifies this`steps, this`rounds, queue, transport`stored, queue.journal
      ensures PartsOk()
      ensures StoreNow()
              == DeliveredStore(old(StoreNow()), setup.config.queueBatchSize, setup.env.trips.At(old(rounds)))
    {
      var trips := setup.env.trips.At(rounds);
      steps := steps + RoundSteps(queue.rows, setup.config.queueBatchSize, trips);
      rounds := rounds + 1;
      var delivered := ProcessPendingDeliveries(queue, transport, setup.config.queueBatchSize, trips);
    }

    method DeliverQueue()
      requires PartsOk()
      modifies this`steps, this`rounds, this`lastDeliveryAttempt, this`clockReads
      modifies queue, transport`stored, queue.journal
      ensures PartsOk() && Now(false) == Delivering(setup, old(Now(false)))
    {
      Deliver();
      assert LinkNow() == old(LinkNow()) && SensesNow() == old(SensesNow()) && PulseNow() == old(PulseNow());
    }

    method RetryIfDue()
      requires PartsOk()
      modifies this`steps, this`rounds, this`lastDeliveryAttempt, this`clockReads
      modifies queue, transport`stored, queue.journal
      ensures PartsOk() && Now(false) == Retrying(setup, old(Now(false)))
    {
      var now := Time();
      if now - lastDeliveryAttempt >= setup.config.queueRetryInterval {
        DeliverQueue();
      }
    }

    method Forward(events: seq<DetectedEvent>) returns (aborted: bool)
      requires PartsOk() && Logged(events)
      modifies this`steps, this`stampsUsed, this`inserted, this`rounds, this`lastDeliveryAttempt, this`clockReads
      modifies queue, transport`stored, queue.journal
      ensures PartsOk() && (!aborted ==> stampsUsed == |log|)
      ensures Now(aborted) == Forwarding(setup, old(Now(false)))
    {
      aborted := EnqueueAll(events);
      if aborted {
        return;
      }
      if events != [] {
        DeliverQueue();
      }
      RetryIfDue();
    }

    // ----- reporting -----

    /** send_heartbeat, when it is due. */
    method SendHeartbeat()
      requires PartsOk()
      modifies this`heartbeats, this`lastHeartbeatAttempt, this`clockReads, transport`beats
      ensures if setup.env.clock.At(old(clockReads)) - old(lastHeartbeatAttempt) >= setup.config.heartbeatInterval then
                && clockReads == old(clockReads) + 2
                && PulseNow() == Beating(old(PulseNow()), HeartbeatOf(old(Now(false))),
                                         setup.env.clock.At(old(clockReads) + 1))
              else
                clockReads == old(clockReads) + 1 && PulseNow() == old(PulseNow())
    {
      var now := Time();
      if now - lastHeartbeatAttempt >= setup.config.heartbeatInterval {
        var pending := queue.PendingCount();
        var beat := Beat(health.Now(), pending);
        var result := transport.SendHeartbeat(beat, setup.env.beatReplies.At(|transport.beats|));
        heartbeats := heartbeats + [Heartbeat(beat, |history|, |attempts|, clockReads - 1, clockReads)];
        lastHeartbeatAttempt := Time();
      }
    }

    method Report()
      requires PartsOk()
      modifies this`heartbeats, this`lastHeartbeatAttempt, this`clockReads, transport`beats
      ensures Now(false) == Reporting(setup, old(Now(false)))
    {
      SendHeartbeat();
      assert LinkNow() == old(LinkNow()) && SensesNow() == old(SensesNow()) && StoreNow() == old(StoreNow());
    }

    // ----- the loop -----

    /** The queue is none of its business either. */
    method ConnectApart() returns (aborted: bool)
      requires LineOk()
      modifies this`reader, this`readerState, this`nextReaderAttempt, this`discoveries, this`attempts, this`clockReads
      modifies bus, health
      ensures LineOk() && (reader == old(reader) || fresh(reader)) && clockReads == old(clockReads) + 1
      ensures var y := Connecting(setup, old(Now(false))); LinkNow() == y.link && aborted == y.aborted
      ensures QueueUntouched() && presence.visibleTags == old(presence.visibleTags)
    {
      aborted := ConnectIfDue();
    }

    method Connect() returns (aborted: bool)
      requires LineOk()
      modifies this`reader, this`readerState, this`nextReaderAttempt, this`discoveries, this`attempts, this`clockReads
      modifies bus, health
      ensures LineOk() && (reader == old(reader) || fresh(reader))
      ensures Now(aborted) == Connecting(setup, old(Now(false)))
    {
      ghost var x := Now(false);
      aborted := ConnectApart();
      assert SensesNow() == x.senses && StoreNow() == x.store && PulseNow() == x.pulse;
    }

    /** What a turn does after connecting. */
    method Proceed() returns (aborted: bool)
      requires LineOk() && PartsOk() && stampsUsed == |log|
      modifies this`readerState, this`nextReaderAttempt, this`attempts, this`clockReads
      modifies this`history, this`heard, this`log
      modifies this`steps, this`stampsUsed, this`inserted, this`rounds, this`lastDeliveryAttempt
      modifies this`heartbeats, this`lastHeartbeatAttempt
      modifies bus, presence, queue, transport, queue.journal, health, reader
      ensures LineOk() && PartsOk() && (!aborted ==> stampsUsed == |log|)
      ensures Now(aborted) == Proceeding(setup, old(Now(false)))
    {
      var events := ScanIfReady();
      aborted := Finish(events);
    }

    method ForwardAndReport(events: seq<DetectedEvent>) returns (aborted: bool)
      requires PartsOk() && Logged(events)
      modifies this`steps, this`stampsUsed, this`inserted, this`rounds, this`lastDeliveryAttempt, this`clockReads
      modifies this`heartbeats, this`lastHeartbeatAttempt, queue, transport, queue.journal
      ensures PartsOk() && (!aborted ==> stampsUsed == |log|)
      ensures var forwarded := Forwarding(setup, old(Now(false)));
              Now(aborted) == if forwarded.aborted then forwarded else Reporting(setup, forwarded)
    {
      aborted := Forward(events);
      if !aborted {
        Report();
      }
    }

    /** The line is none of its business. */
    method Finish(events: seq<DetectedEvent>) returns (aborted: bool)
      requires LineOk() && PartsOk() && Logged(events)
      modifies this`steps, this`stampsUsed, this`inserted, this`rounds, this`lastDeliveryAttempt, this`clockReads
      modifies this`heartbeats, this`lastHeartbeatAttempt, queue, transport, queue.journal
      ensures LineOk() && PartsOk() && (!aborted ==> stampsUsed == |log|)
      ensures var forwarded := Forwarding(setup, old(Now(false)));
              Now(aborted) == if forwarded.aborted then forwarded else Reporting(setup, forwarded)
    {
      aborted := ForwardAndReport(events);
    }

    /** One turn of the loop. */
    method Tick() returns (aborted: bool)
      requires LineOk() && PartsOk() && stampsUsed == |log|
      modifies this, bus, presence, queue, transport, queue.journal, health, reader
      ensures LineOk() && PartsOk() && (!aborted ==> stampsUsed == |log|) && (reader == old(reader) || fresh(reader))
      ensures Now(aborted) == Turn(setup, old(Now(false)))
    {
      ghost var x := Now(false);
      aborted := Connect();
      TurnMeans(setup, x);
      if !aborted {
        aborted := Proceed();
      }
    }

    method Loop(turns: nat) returns (aborted: bool)
      requires LineOk() && PartsOk() && stampsUsed == |log| && reader == null
      modifies this, bus, presence, queue, transport, queue.journal, health
      ensures LineOk() && (reader != null ==> fresh(reader))
      ensures Now(aborted) == TurnsFrom(setup, old(Now(false)), turns)
    {
      aborted := false;
      for i := 0 to turns
        invariant LineOk() && PartsOk() && (!aborted ==> stampsUsed == |log|) && (reader != null ==> fresh(reader))
        invariant Now(aborted) == TurnsFrom(setup, old(Now(false)), i)
      {
        if !aborted {
          aborted := Tick();
        }
      }
    }

    /** The finally block of run_agent. */
    method Shutdown()
      requires LineOk()
      modifies bus, reader
      ensures bus.Line().open == {} && bus.Line().safe
      ensures !setup.config.autoConfigureReader ==> !bus.Line().configured
      ensures LinkNow() == old(LinkNow())
    {
      assert LineHolds(readerState);
      if reader != null {
        reader.Close();
      }
    }

    /** The delivery before the loop, the loop, and the finally block. */
    method DeliverAndLoop(turns: nat) returns (aborted: bool)
      requires LineOk() && PartsOk() && stampsUsed == |log| && reader == null
      modifies this, bus, presence, queue, transport, queue.journal, health
      ensures bus.Line().open == {} && bus.Line().safe
      ensures !setup.config.autoConfigureReader ==> !bus.Line().configured
      ensures Now(aborted) == TurnsFrom(setup, Delivering(setup, old(Now(false))), turns)
    {
      DeliverQueue();
      aborted := Loop(turns);
      Shutdown();
    }
  }

  /** run_agent for some number of turns of the loop, ended by a shutdown request or by an exception, on an
      agent with its own serial bus and the tables as they were left. */
  method RunAgent(config: Config, env: Environment, wiring: Wiring, queue: EventQueue, transport: CloudTransport,
                  turns: nat, ghost w: World)
    returns (agent: Agent, aborted: bool)
    requires Wired(queue, transport) && queue.journal.acts == [] && transport.beats == []
    requires queue.rows == w.rows && queue.nextId == w.nextId && transport.stored == w.cloud
    modifies queue, transport, queue.journal
    ensures agent.queue == queue && agent.transport == transport && agent.bus.wiring == wiring
    ensures agent.bus.Line().open == {} && agent.bus.Line().safe
    ensures !config.autoConfigureReader ==> !agent.bus.Line().configured
    ensures agent.Now(aborted) == RunOf(SetupFor(config, env, wiring), w, turns)
  {
    var bus := new SerialBus(wiring);
    agent := new Agent(SetupFor(config, env, wiring), bus, queue, transport, w);
    aborted := agent.DeliverAndLoop(turns);
  }
}
