/** The health flags the heartbeat reports (src/mvd_edge/health/state.py), and what they mean in terms
    of the scans that were made. */
module Health {
  import opened Wrappers
  import opened Inventory
  import opened Texts

  datatype ReaderState = DISCONNECTED | CONNECTING | READY | CONFIG_ERROR

  datatype HealthStatus = HEALTHY | DEGRADED | OFFLINE | RECONNECTING

  /** The flags and counters of a HealthState as one value. */
  datatype Vitals = Vitals(
    readerState: ReaderState, connected: bool, responding: bool, noResponses: nat,
    malformed: nat, reconnects: nat, status: HealthStatus)

  const OFFLINE_FAILURE_THRESHOLD: nat := 3
  const READER_ERROR_LENGTH: nat := 200

  class HealthState {
    var readerState: ReaderState
    var readerConnected: bool
    var inventoryResponding: bool
    var lastInventoryEpcs: Option<seq<string>>
    var lastEpcSeen: Option<string>
    var lastReaderActivityAt: Option<string>
    var lastSuccessfulInventoryAt: Option<string>
    var lastTagSeenAt: Option<string>
    var lastReaderError: Option<string>
    var consecutiveNoResponseCount: nat
    var malformedResponseCount: nat
    var reconnectCount: nat
    var healthStatus: HealthStatus

    function Now(): Vitals
      reads this
    {
      Vitals(readerState, readerConnected, inventoryResponding, consecutiveNoResponseCount,
             malformedResponseCount, reconnectCount, healthStatus)
    }

    constructor (readerState: ReaderState)
      ensures Now() == Vitals(readerState, false, false, 0, 0, 0, OFFLINE)
      ensures lastInventoryEpcs == None && lastEpcSeen == None && lastReaderError == None
      ensures lastReaderActivityAt == lastSuccessfulInventoryAt == lastTagSeenAt == None
    {
      this.readerState := readerState;
      readerConnected, inventoryResponding := false, false;
      lastInventoryEpcs, lastEpcSeen, lastReaderError := None, None, None;
      lastReaderActivityAt, lastSuccessfulInventoryAt, lastTagSeenAt := None, None, None;
      consecutiveNoResponseCount, malformedResponseCount, reconnectCount := 0, 0, 0;
      healthStatus := OFFLINE;
    }

    method SetReaderState(readerState: ReaderState)
      modifies this`readerState
      ensures this.readerState == readerState
    {
      this.readerState := readerState;
    }

    method MarkReaderConnecting()
      modifies this`readerConnected, this`inventoryResponding, this`healthStatus
      ensures Now() == old(Now()).(connected := false, responding := false, status := RECONNECTING)
    {
      readerConnected := false;
      inventoryResponding := false;
      healthStatus := RECONNECTING;
    }

    method MarkReaderReady()
      modifies this`readerConnected, this`healthStatus
      ensures Now() == Readied(old(Now()))
      ensures readerConnected
      ensures healthStatus
           == if old(healthStatus) == OFFLINE || old(healthStatus) == RECONNECTING then DEGRADED else old(healthStatus)
    {
      readerConnected := true;
      if healthStatus == OFFLINE || healthStatus == RECONNECTING {
        healthStatus := DEGRADED;
      }
    }

    method MarkReconnectAttempt()
      modifies this`reconnectCount, this`readerConnected, this`inventoryResponding, this`healthStatus
      ensures Now() == Reconnecting(old(Now()))
      ensures reconnectCount == old(reconnectCount) + 1 && healthStatus == RECONNECTING
      ensures !readerConnected && !inventoryResponding
    {
      reconnectCount := reconnectCount + 1;
      MarkReaderConnecting();
    }

    /** A valid scan, and when it was. */
    method MarkInventorySuccess(tags: seq<string>, now: string)
      modifies this`readerConnected, this`inventoryResponding, this`lastInventoryEpcs, this`lastEpcSeen,
               this`consecutiveNoResponseCount, this`healthStatus, this`lastReaderError,
               this`lastReaderActivityAt, this`lastSuccessfulInventoryAt, this`lastTagSeenAt
      ensures Now() == Scanned(old(Now()), ValidScan)
      ensures readerConnected && inventoryResponding && consecutiveNoResponseCount == 0 && healthStatus == HEALTHY
      ensures lastInventoryEpcs == Some(tags) && lastReaderError == None
      ensures lastReaderActivityAt == lastSuccessfulInventoryAt == Some(now)
      ensures lastTagSeenAt == if tags == [] then old(lastTagSeenAt) else Some(now)
      ensures lastEpcSeen == if tags == [] then old(lastEpcSeen) else Some(tags[|tags| - 1])
    {
      readerConnected, inventoryResponding := true, true;
      lastReaderActivityAt, lastSuccessfulInventoryAt := Some(now), Some(now);
      lastInventoryEpcs := Some(tags);
      consecutiveNoResponseCount, lastReaderError, healthStatus := 0, None, HEALTHY;
      RememberTags(tags, now);
    }

    method RememberTags(tags: seq<string>, now: string)
      modifies this`lastEpcSeen, this`lastTagSeenAt
      ensures lastTagSeenAt == if tags == [] then old(lastTagSeenAt) else Some(now)
      ensures lastEpcSeen == if tags == [] then old(lastEpcSeen) else Some(tags[|tags| - 1])
    {
      if tags != [] {
        lastTagSeenAt, lastEpcSeen := Some(now), Some(tags[|tags| - 1]);
      }
    }

    method MarkInventoryNoResponse()
      modifies this`readerConnected, this`inventoryResponding, this`consecutiveNoResponseCount, this`healthStatus,
               this`lastReaderError
      ensures Now() == Scanned(old(Now()), NoResponseScan) && lastReaderError == Some("NO_RESPONSE")
      ensures readerConnected && !inventoryResponding
      ensures consecutiveNoResponseCount == old(consecutiveNoResponseCount) + 1
      ensures healthStatus == if consecutiveNoResponseCount >= 3 then OFFLINE else DEGRADED
    {
      readerConnected := true;
      inventoryResponding := false;
      consecutiveNoResponseCount := consecutiveNoResponseCount + 1;
      lastReaderError := Some("NO_RESPONSE");
      healthStatus := if consecutiveNoResponseCount >= OFFLINE_FAILURE_THRESHOLD then OFFLINE else DEGRADED;
    }

    method MarkInventoryMalformed()
      modifies this`readerConnected, this`inventoryResponding, this`malformedResponseCount, this`healthStatus,
               this`lastReaderError
      ensures Now() == Scanned(old(Now()), MalformedScan) && lastReaderError == Some("MALFORMED")
      ensures readerConnected && !inventoryResponding
      ensures malformedResponseCount == old(malformedResponseCount) + 1 && healthStatus == DEGRADED
    {
      readerConnected := true;
      inventoryResponding := false;
      malformedResponseCount := malformedResponseCount + 1;
      lastReaderError := Some("MALFORMED");
      healthStatus := DEGRADED;
    }

    method MarkReaderOffline(error: string)
      modifies this`readerConnected, this`inventoryResponding, this`healthStatus, this`lastReaderError
      ensures Now() == WentOffline(old(Now())) && lastReaderError == Some(Sanitized(error, READER_ERROR_LENGTH))
      ensures !readerConnected && !inventoryResponding && healthStatus == OFFLINE
    {
      readerConnected := false;
      inventoryResponding := false;
      lastReaderError := Some(Sanitized(error, READER_ERROR_LENGTH));
      healthStatus := OFFLINE;
    }
  }

  // ----- the transitions on values -----

  /** How one inventory attempt ended; FaultyScan is an exception on the serial line. */
  datatype ScanOutcome = ValidScan | NoResponseScan | MalformedScan | FaultyScan

  function Reconnecting(v: Vitals): Vitals {
    v.(reconnects := v.reconnects + 1, connected := false, responding := false, status := RECONNECTING)
  }

  function Readied(v: Vitals): Vitals {
    v.(connected := true, status := if v.status == OFFLINE || v.status == RECONNECTING then DEGRADED else v.status)
  }

  function WentOffline(v: Vitals): Vitals {
    v.(connected := false, responding := false, status := OFFLINE)
  }

  function Scanned(v: Vitals, outcome: ScanOutcome): Vitals {
    match outcome
    case ValidScan => v.(connected := true, responding := true, noResponses := 0, status := HEALTHY)
    case NoResponseScan =>
      v.(connected := true, responding := false, noResponses := v.noResponses + 1,
         status := if v.noResponses + 1 >= OFFLINE_FAILURE_THRESHOLD then OFFLINE else DEGRADED)
    case MalformedScan =>
      v.(connected := true, responding := false, malformed := v.malformed + 1, status := DEGRADED)
    case FaultyScan => WentOffline(v.(readerState := DISCONNECTED))
  }

  // ----- what the flags mean -----

  /** How many scans went unanswered since the last valid one. */
  function UnansweredSinceValid(scans: seq<ScanOutcome>): nat {
    if scans == [] then 0 else
      var before := UnansweredSinceValid(scans[..|scans| - 1]);
      match scans[|scans| - 1]
      case ValidScan => 0
      case NoResponseScan => before + 1
      case _ => before
  }

  function CountMalformed(scans: seq<ScanOutcome>): nat {
    if scans == [] then 0 else
      CountMalformed(scans[..|scans| - 1]) + if scans[|scans| - 1] == MalformedScan then 1 else 0
  }

  /** The status a heartbeat must show: OFFLINE without a reader, else by the last scan. */
  function StatusOf(state: ReaderState, scans: seq<ScanOutcome>): HealthStatus {
    if state != READY || scans == [] then OFFLINE
    else match scans[|scans| - 1]
      case ValidScan => HEALTHY
      case NoResponseScan => if UnansweredSinceValid(scans) >= 3 then OFFLINE else DEGRADED
      case MalformedScan => DEGRADED
      case FaultyScan => OFFLINE
  }

  /** The counters agree with the scans and the connection attempts made so far. */
  predicate CountersAgree(v: Vitals, scans: seq<ScanOutcome>, attempts: nat) {
    v.noResponses == UnansweredSinceValid(scans) && v.malformed == CountMalformed(scans) && v.reconnects == attempts
  }

  /** All of it agrees, as at the head of the loop and at every heartbeat. */
  predicate Agrees(v: Vitals, state: ReaderState, scans: seq<ScanOutcome>, attempts: nat) {
    && CountersAgree(v, scans, attempts)
    && v.readerState == state && state != CONNECTING
    && (v.connected <==> state == READY)
    && v.status == StatusOf(state, scans)
    && (v.responding <==> v.status == HEALTHY)
    && (state == READY ==> scans != [] && scans[|scans| - 1] != FaultyScan)
  }

  /** A failed connection attempt. */
  lemma FailedAttemptAgrees(v: Vitals, scans: seq<ScanOutcome>, attempts: nat, state: ReaderState)
    requires CountersAgree(v, scans, attempts) && (state == DISCONNECTED || state == CONFIG_ERROR)
    ensures Agrees(WentOffline(Reconnecting(v.(readerState := CONNECTING)).(readerState := state)),
                   state, scans, attempts + 1)
  {
  }

  /** A scan over a connected reader, whichever way it ends. */
  lemma ScanAgrees(v: Vitals, scans: seq<ScanOutcome>, attempts: nat, outcome: ScanOutcome)
    requires CountersAgree(v, scans, attempts) && v.readerState == READY
    ensures Agrees(Scanned(v, outcome), if outcome == FaultyScan then DISCONNECTED else READY,
                   scans + [outcome], attempts)
  {
    assert (scans + [outcome])[..|scans|] == scans;
  }
}
