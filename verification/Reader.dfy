/** The IDT-85 adapter over a serial handle, connecting to it, and looking for it
    (src/mvd_edge/adapters/idt85.py, src/mvd_edge/app.py, src/mvd_edge/discovery/serial.py). */
module Reader {
  import opened Wrappers
  import opened Streams
  import opened Frames
  import opened Inventory
  import opened SerialLine
  import opened Health
  import Seqs

  class IDT85Reader {
    const bus: SerialBus
    const address: byte
    const verifyMethod: VerifyMethod
    ghost const probing: bool
    const inventoryCommand: Frame
    const readerInfoCommand: Frame
    const getWorkModeCommand: Frame
    const setAnswerModeCommand: Frame
    var serial: Option<nat>

    constructor (bus: SerialBus, address: byte, verifyMethod: VerifyMethod, ghost probing: bool)
      ensures this.bus == bus && this.address == address && this.verifyMethod == verifyMethod
      ensures this.probing == probing && serial == None && WellBuilt()
      ensures Prepared() == CommandsFor(address)
    {
      this.bus := bus;
      this.address, this.verifyMethod, this.probing := address, verifyMethod, probing;
      serial := None;
      inventoryCommand := InventoryCommand(address);
      readerInfoCommand := GetReaderInfoCommand();
      getWorkModeCommand := GetWorkModeCommand(address);
      setAnswerModeCommand := SetAnswerModeCommand(address);
      new;
      CommandCodes(address);
    }

    function Prepared(): Commands {
      Commands(inventoryCommand, readerInfoCommand, getWorkModeCommand, setAnswerModeCommand)
    }

    /** Each prepared command carries its own command code. */
    predicate WellBuilt() {
      && IsCommand(inventoryCommand, INVENTORY_COMMAND) && IsCommand(readerInfoCommand, GET_READER_INFO_COMMAND)
      && IsCommand(getWorkModeCommand, GET_WORK_MODE_COMMAND) && IsCommand(setAnswerModeCommand, SET_WORK_MODE_COMMAND)
    }

    /** The handle is one that this reader opened and that is open. */
    ghost predicate Live()
      reads this, bus
    {
      serial.Some? ==> serial.value in bus.Line().open && (serial.value in bus.Line().probes <==> probing)
    }

    /** The reader takes the new handle; an earlier one, if it had one, is left open. */
    method Open() returns (r: Result<(), Problem>)
      requires bus.Valid()
      modifies this, bus
      ensures bus.Valid() && bus.handles == old(bus.handles) + 1 && bus.commands == old(bus.commands)
      ensures match bus.wiring.opens.At(old(bus.handles))
              case Refuses(error) =>
                r == Failure(Raised(error)) && serial == old(serial) && bus.Line() == old(bus.Line())
              case Opens =>
                && r == Success(()) && serial == Some(old(bus.handles)) && Live()
                && bus.Line() == Watch(old(bus.Line()), Opened(serial.value, probing))
    {
      var h := bus.handles;
      var opening := bus.wiring.opens.At(h);
      bus.handles := h + 1;
      if opening.Refuses? {
        return Failure(Raised(opening.error));
      }
      serial := Some(h);
      bus.Log(Opened(h, probing));
      r := Success(());
    }

    method Close()
      requires bus.Valid()
      modifies this, bus
      ensures bus.Valid() && serial == None && bus.handles == old(bus.handles) && bus.commands == old(bus.commands)
      ensures bus.Line() == old(bus.Line()).(open := old(bus.Line().open)
                                                     - if old(serial).Some? then {old(serial).value} else {})
    {
      if serial.Some? {
        bus.Log(Closed(serial.value));
        serial := None;
      }
    }

    /** _send_command */
    method SendCommand(command: Frame) returns (r: Result<Frame, Problem>)
      requires bus.Valid()
      modifies bus
      ensures bus.Valid() && bus.handles == old(bus.handles)
      ensures bus.Line().open == old(bus.Line().open) && bus.Line().probes == old(bus.Line().probes)
      ensures serial == None ==>
                r == Failure(PortClosed) && bus.Line() == old(bus.Line()) && bus.commands == old(bus.commands)
      ensures serial.Some? ==> bus.commands == old(bus.commands) + 1
      ensures serial.Some? ==> r == ReplyTo(bus.wiring.arrivals.At(old(bus.commands)))
      ensures serial.Some? ==>
                (bus.Line().safe <==>
                  && old(bus.Line().safe)
                  && (Reaches(bus.wiring.arrivals.At(old(bus.commands))) ==>
                        Permitted(old(bus.Line()), serial.value, command)))
      ensures !IsCommand(command, SET_WORK_MODE_COMMAND) ==> bus.Line().configured == old(bus.Line().configured)
      ensures !IsCommand(command, GET_WORK_MODE_COMMAND) ==> bus.Line().answering == old(bus.Line().answering)
      ensures IsCommand(command, GET_WORK_MODE_COMMAND) && r.Success?
              && ParseWorkModeResponse(r.value) == Some(ANSWER_MODE) ==>
                serial.Some? && serial.value in bus.Line().answering
      ensures serial.Some? ==> match bus.wiring.arrivals.At(old(bus.commands))
              case Fault(false, _) => bus.trace == old(bus.trace) + [Asked(old(bus.commands), serial.value, command)]
              case Fault(true, _) =>
                bus.trace == old(bus.trace) + [Asked(old(bus.commands), serial.value, command)]
                             + [Wrote(serial.value, command)]
              case Bytes(available) =>
                bus.trace == old(bus.trace) + [Asked(old(bus.commands), serial.value, command)]
                             + [Wrote(serial.value, command)]
                             + [Replied(serial.value, command, ReadFrame(available))]
      ensures bus.Line().asked == old(bus.Line().asked) + if serial.Some? then [command] else []
      ensures bus.Line().scans == old(bus.Line().scans) +
                (if serial.Some? && IsCommand(command, INVENTORY_COMMAND) then [old(bus.commands)] else [])
    {
      if serial == None {
        return Failure(PortClosed);
      }
      ToldFacts(bus.Line(), bus.commands, serial.value, command, bus.wiring.arrivals.At(bus.commands));
      r := Exchange(command);
    }

    method Exchange(command: Frame) returns (r: Result<Frame, Problem>)
      requires bus.Valid() && serial.Some?
      modifies bus
      ensures bus.Valid() && bus.handles == old(bus.handles) && bus.commands == old(bus.commands) + 1
      ensures r == ReplyTo(bus.wiring.arrivals.At(old(bus.commands)))
      ensures bus.Line() == Told(old(bus.Line()), old(bus.commands), serial.value, command,
                                 bus.wiring.arrivals.At(old(bus.commands)))
      ensures match bus.wiring.arrivals.At(old(bus.commands))
              case Fault(false, _) => bus.trace == old(bus.trace) + [Asked(old(bus.commands), serial.value, command)]
              case Fault(true, _) =>
                bus.trace == old(bus.trace) + [Asked(old(bus.commands), serial.value, command)]
                             + [Wrote(serial.value, command)]
              case Bytes(available) =>
                bus.trace == old(bus.trace) + [Asked(old(bus.commands), serial.value, command)]
                             + [Wrote(serial.value, command)]
                             + [Replied(serial.value, command, ReadFrame(available))]
    {
      var k := bus.commands;
      var arrival := bus.wiring.arrivals.At(k);
      bus.commands := k + 1;
      bus.Log(Asked(k, serial.value, command));
      if arrival.Fault? && !arrival.written {
        return Failure(Raised(arrival.error));
      }
      bus.Log(Wrote(serial.value, command));
      if arrival.Fault? {
        return Failure(Raised(arrival.error));
      }
      var reply := ReadFrame(arrival.available);
      bus.Log(Replied(serial.value, command, reply));
      r := Success(reply);
    }

    /** verify_reader */
    method VerifyReader() returns (r: Result<bool, Problem>)
      requires bus.Valid() && Live() && WellBuilt()
      modifies bus
      ensures bus.Valid() && Live() && bus.handles == old(bus.handles)
      ensures bus.Line() == old(bus.Line()).(
                answering := bus.Line().answering,
                asked := old(bus.Line().asked)
                         + if serial.Some? then VerifyFrames(bus.wiring, old(bus.commands), verifyMethod, Prepared())
                           else [])
      ensures serial == None ==> r.Failure?
      ensures serial.Some? ==> r == VerifyResult(bus.wiring, old(bus.commands), verifyMethod)
      ensures r.Failure? <==> serial == None || verifyMethod.UNSUPPORTED?
                              || !AllAnswered(bus.wiring, old(bus.commands), bus.commands)
      ensures r == Success(true) <==> serial.Some? && VerificationPasses(bus.wiring, old(bus.commands), verifyMethod)
    {
      VerifyResultMeans(bus.wiring, bus.commands, verifyMethod);
      if verifyMethod.UNSUPPORTED? {
        return Failure(UnsupportedMethod(verifyMethod.name));
      }
      if verifyMethod == AUTO || verifyMethod == READER_INFO {
        var info := SendCommand(readerInfoCommand);
        if info.Failure? {
          return Failure(info.error);
        }
        if IsValidCommandResponse(info.value, GET_READER_INFO_COMMAND) {
          return Success(true);
        }
        if verifyMethod == READER_INFO {
          return Success(false);
        }
      }
      var mode := SendCommand(getWorkModeCommand);
      if mode.Failure? {
        return Failure(mode.error);
      }
      r := Success(IsValidCommandResponse(mode.value, GET_WORK_MODE_COMMAND));
    }

    /** get_work_mode */
    method GetWorkMode() returns (r: Result<Option<byte>, Problem>)
      requires bus.Valid() && Live() && WellBuilt()
      modifies bus
      ensures bus.Valid() && Live() && bus.handles == old(bus.handles)
      ensures bus.Line() == old(bus.Line()).(
                answering := bus.Line().answering,
                asked := old(bus.Line().asked) + if serial.Some? then [getWorkModeCommand] else [])
      ensures r == if serial == None then Failure(PortClosed) else ModeResult(bus.wiring, old(bus.commands))
      ensures r == Success(Some(ANSWER_MODE)) ==> serial.Some? && serial.value in bus.Line().answering
    {
      var mode := SendCommand(getWorkModeCommand);
      if mode.Failure? {
        return Failure(mode.error);
      }
      r := Success(ParseWorkModeResponse(mode.value));
    }

    /** set_answer_mode */
    method SetAnswerMode() returns (r: Result<bool, Problem>)
      requires bus.Valid() && Live() && WellBuilt()
      modifies bus
      ensures bus.Valid() && Live() && bus.handles == old(bus.handles)
      ensures bus.Line() == old(bus.Line()).(
                safe := bus.Line().safe, configured := bus.Line().configured,
                asked := old(bus.Line().asked) + if serial.Some? then [setAnswerModeCommand] else [])
      ensures !probing ==> bus.Line().safe == old(bus.Line().safe)
      ensures r == if serial == None then Failure(PortClosed)
                   else QueryResult(bus.wiring, old(bus.commands), SET_WORK_MODE_COMMAND)
    {
      var reply := SendCommand(setAnswerModeCommand);
      if reply.Failure? {
        return Failure(reply.error);
      }
      r := Success(IsValidCommandResponse(reply.value, SET_WORK_MODE_COMMAND));
    }

    /** inventory_result; permitted only once the reader is known to be in answer mode. */
    method Inventory() returns (r: Result<InventoryResult, Problem>)
      requires bus.Valid() && Live() && WellBuilt()
      modifies bus
      ensures bus.Valid() && Live() && bus.handles == old(bus.handles)
      ensures bus.Line() == old(bus.Line()).(
                safe := bus.Line().safe,
                asked := old(bus.Line().asked) + (if serial.Some? then [inventoryCommand] else []),
                scans := old(bus.Line().scans) + if serial.Some? then [old(bus.commands)] else [])
      ensures !probing && (serial.Some? ==> serial.value in bus.Line().answering) ==>
                bus.Line().safe == old(bus.Line().safe)
      ensures r == if serial == None then Failure(PortClosed) else ScanResult(bus.wiring.arrivals.At(old(bus.commands)))
    {
      var reply := SendCommand(inventoryCommand);
      if reply.Failure? {
        return Failure(reply.error);
      }
      var result := ClassifyInventoryResponse(reply.value);
      r := Success(result);
    }
  }

  /** A reader that has not been opened, for this address. */
  method NewReader(bus: SerialBus, address: byte, verifyMethod: VerifyMethod, ghost probing: bool, ghost c: Commands)
    returns (reader: IDT85Reader)
    requires AreFor(c, address)
    ensures fresh(reader) && reader.bus == bus && reader.verifyMethod == verifyMethod && reader.probing == probing
    ensures reader.serial == None && reader.WellBuilt() && reader.Prepared() == c
  {
    reader := new IDT85Reader(bus, address, verifyMethod, probing);
    assert c == CommandsFor(address);
  }

  /** What _send_command makes of what arrives. */
  function ReplyTo(arrival: Arrival): Result<Frame, Problem> {
    match arrival
    case Fault(_, error) => Failure(Raised(error))
    case Bytes(available) => Success(ReadFrame(available))
  }

  /** And inventory of what that makes. */
  function ScanResult(arrival: Arrival): Result<InventoryResult, Problem> {
    match arrival
    case Fault(_, error) => Failure(Raised(error))
    case Bytes(available) => Success(Classified(ReadFrame(available)))
  }

  lemma CommandCodes(address: byte)
    ensures IsCommand(InventoryCommand(address), INVENTORY_COMMAND)
    ensures IsCommand(GetReaderInfoCommand(), GET_READER_INFO_COMMAND)
    ensures IsCommand(GetWorkModeCommand(address), GET_WORK_MODE_COMMAND)
    ensures IsCommand(SetAnswerModeCommand(address), SET_WORK_MODE_COMMAND)
  {
    CommandFrame(address, INVENTORY_COMMAND, []);
    CommandFrame(BROADCAST_ADDRESS, GET_READER_INFO_COMMAND, []);
    CommandFrame(address, GET_WORK_MODE_COMMAND, []);
    CommandFrame(address, SET_WORK_MODE_COMMAND, ANSWER_MODE_PARAMS);
  }

  /** What is reported about an attempt to find and connect a reader. */
  datatype Message =
    | Configured | Selected | NoneFound | ManyFound
    | Verified | NotVerified | NotInAnswerMode(mode: Option<byte>)
    | NotConfigurable | StillNotInAnswerMode(mode: Option<byte>) | Failed(problem: Problem)

  function Text(message: Message): string {
    match message
    case Configured => "Using configured serial port"
    case Selected => "Reader selected"
    case NoneFound => "No supported reader found"
    case ManyFound => "Multiple supported readers found; configure SERIAL_PORT explicitly"
    case Verified => "Communication verified"
    case NotVerified => "Reader communication failed verification"
    case NotInAnswerMode(mode) => "Reader Work Mode: " + ModeText(mode) + "; Required: ANSWER"
    case NotConfigurable => "Unable to set reader work mode to ANSWER"
    case StillNotInAnswerMode(mode) => "Reader Work Mode after configuration: " + ModeText(mode) + "; Required: ANSWER"
    case Failed(problem) => ProblemText(problem)
  }

  function ProblemText(problem: Problem): string {
    match problem
    case PortClosed => "Serial port is not open"
    case UnsupportedMethod(name) => "Unsupported reader verify method: " + name
    case Raised(error) => error
  }

  /** format_work_mode */
  function ModeText(mode: Option<byte>): string {
    if mode == None then "UNKNOWN"
    else if mode.value == ANSWER_MODE then "ANSWER"
    else if mode.value == SCAN_MODE then "SCAN"
    else "UNKNOWN(0x" + [LowDigit(mode.value / 16), LowDigit(mode.value % 16)] + ")"
  }

  function LowDigit(n: nat): char
    requires n < 16
  {
    if n < 10 then '0' + n as char else 'a' + (n - 10) as char
  }

  // ----- what is reported -----

  /** Of opening the h-th handle, and what follows. */
  function ConnectMessage(w: Wiring, h: nat, k: nat, m: VerifyMethod, autoConfigureReader: bool): Message {
    match w.opens.At(h)
    case Refuses(error) => Failed(Raised(error))
    case Opens => ReaderMessage(w, k, m, autoConfigureReader)
  }

  function ReaderMessage(w: Wiring, k: nat, m: VerifyMethod, autoConfigureReader: bool): Message {
    match VerifyResult(w, k, m)
    case Failure(problem) => Failed(problem)
    case Success(verified) =>
      if verified then ModeMessage(w, k + VerifyCommands(w, k, m), autoConfigureReader) else NotVerified
  }

  function ModeMessage(w: Wiring, k: nat, autoConfigureReader: bool): Message {
    match ModeResult(w, k)
    case Failure(problem) => Failed(problem)
    case Success(mode) =>
      if mode == Some(ANSWER_MODE) then Verified
      else if autoConfigureReader then ConfigureMessage(w, k + 1)
      else NotInAnswerMode(mode)
  }

  function ConfigureMessage(w: Wiring, k: nat): Message {
    match QueryResult(w, k, SET_WORK_MODE_COMMAND)
    case Failure(problem) => Failed(problem)
    case Success(accepted) =>
      if !accepted then NotConfigurable
      else match ModeResult(w, k + 1)
        case Failure(problem) => Failed(problem)
        case Success(mode) => if mode == Some(ANSWER_MODE) then Verified else StillNotInAnswerMode(mode)
  }

  /** connect_and_verify_reader: READY is reported exactly when a handle stays open, and then its latest
      work-mode reply was ANSWER; SET_WORK_MODE goes out only where configuring is allowed. */
  method ConnectAndVerifyReader(reader: IDT85Reader, autoConfigureReader: bool)
    returns (state: ReaderState, message: Message)
    requires reader.bus.Valid() && reader.serial == None && !reader.probing && reader.WellBuilt()
    modifies reader, reader.bus
    ensures var w, h, k, m := reader.bus.wiring, old(reader.bus.handles), old(reader.bus.commands), reader.verifyMethod;
            && (state == READY <==> Connects(w, h, k, m, autoConfigureReader))
            && (state == DISCONNECTED <==> ConnectingFails(w, h, k, m, autoConfigureReader))
            && reader.bus.handles == h + 1
            && reader.bus.Line().asked == old(reader.bus.Line().asked)
                                          + ConnectFrames(w, h, k, m, autoConfigureReader, reader.Prepared())
            && message == ConnectMessage(w, h, k, m, autoConfigureReader)
    ensures reader.bus.Valid() && EndsAs(reader, state, Some(old(reader.bus.handles)), old(reader.bus.Line()))
    ensures !autoConfigureReader ==> reader.bus.Line().configured == old(reader.bus.Line().configured)
  {
    var opening := reader.Open();
    if opening.Failure? {
      reader.Close();
      return DISCONNECTED, Failed(opening.error);
    }
    assert reader.serial.value !in old(reader.bus.Line().open);
    state, message := RequireReader(reader, autoConfigureReader);
  }

  /** The part of connect_and_verify_reader after the port is open. */
  method RequireReader(reader: IDT85Reader, autoConfigureReader: bool) returns (state: ReaderState, message: Message)
    requires reader.bus.Valid() && reader.serial.Some? && reader.Live() && !reader.probing && reader.WellBuilt()
    modifies reader, reader.bus
    ensures var w, k, m := reader.bus.wiring, old(reader.bus.commands), reader.verifyMethod;
            && (state == READY <==>
                  VerificationPasses(w, k, m) && Complies(w, k + VerifyCommands(w, k, m), autoConfigureReader))
            && (state == DISCONNECTED <==> m.UNSUPPORTED? || !AllAnswered(w, k, reader.bus.commands))
            && reader.bus.Line().asked == old(reader.bus.Line().asked)
                                          + ReaderFrames(w, k, m, autoConfigureReader, reader.Prepared())
            && message == ReaderMessage(w, k, m, autoConfigureReader)
    ensures reader.bus.Valid() && reader.bus.handles == old(reader.bus.handles)
    ensures EndsAs(reader, state, old(reader.serial), old(reader.bus.Line()))
    ensures !autoConfigureReader ==> reader.bus.Line().configured == old(reader.bus.Line().configured)
  {
    ghost var asked := reader.bus.Line().asked;
    ghost var queries := VerifyFrames(reader.bus.wiring, reader.bus.commands, reader.verifyMethod, reader.Prepared());
    var verified := reader.VerifyReader();
    if verified.Failure? {
      reader.Close();
      return DISCONNECTED, Failed(verified.error);
    }
    if !verified.value {
      reader.Close();
      return CONFIG_ERROR, NotVerified;
    }
    Seqs.Assoc(asked, queries,
               ModeFrames(reader.bus.wiring, reader.bus.commands, autoConfigureReader, reader.Prepared()));
    state, message := RequireAnswerMode(reader, autoConfigureReader);
  }

  /** The part of connect_and_verify_reader after the verification. */
  method RequireAnswerMode(reader: IDT85Reader, autoConfigureReader: bool)
    returns (state: ReaderState, message: Message)
    requires reader.bus.Valid() && reader.serial.Some? && reader.Live() && !reader.probing && reader.WellBuilt()
    modifies reader, reader.bus
    ensures reader.bus.Valid() && reader.bus.handles == old(reader.bus.handles)
    ensures reader.bus.Line().asked
         == old(reader.bus.Line().asked)
            + ModeFrames(reader.bus.wiring, old(reader.bus.commands), autoConfigureReader, reader.Prepared())
    ensures EndsAs(reader, state, old(reader.serial), old(reader.bus.Line()))
    ensures !autoConfigureReader ==> reader.bus.Line().configured == old(reader.bus.Line().configured)
    ensures state == DISCONNECTED <==> !AllAnswered(reader.bus.wiring, old(reader.bus.commands), reader.bus.commands)
    ensures state == READY <==> Complies(reader.bus.wiring, old(reader.bus.commands), autoConfigureReader)
    ensures message == ModeMessage(reader.bus.wiring, old(reader.bus.commands), autoConfigureReader)
  {
    var workMode := reader.GetWorkMode();
    if workMode.Failure? {
      reader.Close();
      return DISCONNECTED, Failed(workMode.error);
    }
    if workMode.value == Some(ANSWER_MODE) {
      return READY, Verified;
    }
    if !autoConfigureReader {
      reader.Close();
      return CONFIG_ERROR, NotInAnswerMode(workMode.value);
    }
    state, message := ConfigureAnswerMode(reader);
  }

  /** The part of it that puts the reader in answer mode. */
  method ConfigureAnswerMode(reader: IDT85Reader) returns (state: ReaderState, message: Message)
    requires reader.bus.Valid() && reader.serial.Some? && reader.Live() && !reader.probing && reader.WellBuilt()
    modifies reader, reader.bus
    ensures reader.bus.Valid() && reader.bus.handles == old(reader.bus.handles)
    ensures reader.bus.Line().asked
         == old(reader.bus.Line().asked)
            + if Answered(reader.bus.wiring, old(reader.bus.commands), SET_WORK_MODE_COMMAND)
              then [reader.setAnswerModeCommand, reader.getWorkModeCommand] else [reader.setAnswerModeCommand]
    ensures EndsAs(reader, state, old(reader.serial), old(reader.bus.Line()))
    ensures state == DISCONNECTED <==> !AllAnswered(reader.bus.wiring, old(reader.bus.commands), reader.bus.commands)
    ensures state == READY <==> CanBeConfigured(reader.bus.wiring, old(reader.bus.commands))
    ensures message == ConfigureMessage(reader.bus.wiring, old(reader.bus.commands))
  {
    var configured := reader.SetAnswerMode();
    if configured.Failure? {
      reader.Close();
      return DISCONNECTED, Failed(configured.error);
    }
    if !configured.value {
      reader.Close();
      return CONFIG_ERROR, NotConfigurable;
    }
    var verifiedMode := reader.GetWorkMode();
    if verifiedMode.Failure? {
      reader.Close();
      return DISCONNECTED, Failed(verifiedMode.error);
    }
    if verifiedMode.value != Some(ANSWER_MODE) {
      reader.Close();
      return CONFIG_ERROR, StillNotInAnswerMode(verifiedMode.value);
    }
    return READY, Verified;
  }

  /** READY: the reader keeps its handle, whose latest work-mode reply was ANSWER. Otherwise: the handle
      is closed. Every write was permitted, and none was an inventory command. */
  ghost predicate EndsAs(reader: IDT85Reader, state: ReaderState, handle: Option<nat>, before: Line)
    reads reader, reader.bus
    requires handle.Some?
  {
    var now := reader.bus.Line();
    && reader.Live() && now.safe == before.safe && now.scans == before.scans
    && (state == READY || state == CONFIG_ERROR || state == DISCONNECTED)
    && reader.serial == (if state == READY then handle else None)
    && now.open == (if state == READY then before.open + {handle.value} else before.open - {handle.value})
    && (state == READY ==> handle.value in now.answering)
  }

  /** The same handles are open as before; just these frames were asked, all queries, and permitted. */
  predicate Undisturbed(before: Line, now: Line, frames: seq<Frame>) {
    && now.open == before.open && now.safe == before.safe && now.configured == before.configured
    && now.scans == before.scans && now.asked == before.asked + frames
  }

  lemma StillUndisturbed(first: Line, before: Line, now: Line, frames: seq<Frame>, more: seq<Frame>)
    requires Undisturbed(first, before, frames) && Undisturbed(before, now, more)
    ensures Undisturbed(first, now, frames + more)
  {
    Seqs.Assoc(first.asked, frames, more);
  }

  /** probe_reader_port: whatever happens, the handle is closed again. */
  method ProbeReaderPort(bus: SerialBus, address: byte, verifyMethod: VerifyMethod, ghost c: Commands)
    returns (verified: bool, error: Option<Problem>)
    requires bus.Valid() && AreFor(c, address)
    modifies bus
    ensures bus.Valid() && bus.handles == old(bus.handles) + 1
    ensures var w, h, k := bus.wiring, old(bus.handles), old(bus.commands);
            && bus.commands == k + |ProbeAsks(w, h, k, verifyMethod, c)|
            && Undisturbed(old(bus.Line()), bus.Line(), ProbeAsks(w, h, k, verifyMethod, c))
            && (verified <==> ProbeSucceeds(w, h, k, verifyMethod))
            && error == ProbeError(w, h, k, verifyMethod)
  {
    var reader := NewReader(bus, address, verifyMethod, true, c);
    var opening := reader.Open();
    if opening.Failure? {
      verified, error := false, Some(opening.error);
    } else {
      assert reader.serial.value !in old(bus.Line().open);
      var answer := reader.VerifyReader();
      verified := answer == Success(true);
      error := if answer.Failure? then Some(answer.error) else None;
    }
    reader.Close();
  }

  function ProbeError(w: Wiring, h: nat, k: nat, m: VerifyMethod): Option<Problem> {
    match w.opens.At(h)
    case Refuses(error) => Some(Raised(error))
    case Opens => if VerifyResult(w, k, m).Failure? then Some(VerifyResult(w, k, m).error) else None
  }

  datatype DiscoveryResult = DiscoveryResult(selectedPort: Option<string>, supported: seq<string>, message: Message)

  function Discovered(w: Wiring, h: nat, k: nat, m: VerifyMethod, candidates: seq<string>): DiscoveryResult {
    var supported := Supported(w, h, k, m, candidates, |candidates|);
    if |supported| == 1 then DiscoveryResult(Some(supported[0]), supported, Selected)
    else if supported == [] then DiscoveryResult(None, supported, NoneFound)
    else DiscoveryResult(None, supported, ManyFound)
  }

  /** discover_reader_port, from the ranked candidates on: probe every one, and select a port only when
      it is the only one that answered. */
  method DiscoverReaderPort(bus: SerialBus, candidates: seq<string>, address: byte, verifyMethod: VerifyMethod,
                            ghost c: Commands)
    returns (result: DiscoveryResult)
    requires bus.Valid() && AreFor(c, address)
    modifies bus
    ensures bus.Valid() && bus.handles == old(bus.handles) + |candidates|
    ensures var w, h, k := bus.wiring, old(bus.handles), old(bus.commands);
            && Undisturbed(old(bus.Line()), bus.Line(), ProbeFrames(w, h, k, verifyMethod, c, |candidates|))
            && result == Discovered(w, h, k, verifyMethod, candidates)
  {
    var supported := ProbeAll(bus, candidates, address, verifyMethod, c);
    if |supported| == 1 {
      return DiscoveryResult(Some(supported[0]), supported, Selected);
    }
    if supported == [] {
      return DiscoveryResult(None, supported, NoneFound);
    }
    return DiscoveryResult(None, supported, ManyFound);
  }

  /** Its loop: the candidates at which a probe succeeds. */
  method ProbeAll(bus: SerialBus, candidates: seq<string>, address: byte, verifyMethod: VerifyMethod, ghost c: Commands)
    returns (supported: seq<string>)
    requires bus.Valid() && AreFor(c, address)
    modifies bus
    ensures bus.Valid() && bus.handles == old(bus.handles) + |candidates|
    ensures var w, h, k := bus.wiring, old(bus.handles), old(bus.commands);
            && Undisturbed(old(bus.Line()), bus.Line(), ProbeFrames(w, h, k, verifyMethod, c, |candidates|))
            && supported == Supported(w, h, k, verifyMethod, candidates, |candidates|)
  {
    ghost var start := Start(bus.wiring, bus.handles, bus.commands, verifyMethod, c, bus.Line());
    supported := [];
    for i := 0 to |candidates|
      invariant bus.Valid() && bus.handles == start.handles + i
      invariant Probed(start, candidates, i, bus.Line(), bus.commands, supported)
    {
      ghost var before, j := bus.Line(), bus.commands;
      var verified, error := ProbeReaderPort(bus, address, verifyMethod, c);
      OneMoreProbed(start, candidates, i, before, j, bus.Line(), supported, verified);
      if verified {
        supported := supported + [candidates[i]];
      }
    }
  }

  /** Where the probing starts from, and how. */
  datatype Start = Start(
    wiring: Wiring, handles: nat, commands: nat, verifyMethod: VerifyMethod, prepared: Commands, line: Line)

  /** What is known when the first n candidates have been probed. */
  ghost predicate Probed(s: Start, candidates: seq<string>, n: nat, now: Line, commands: nat, supported: seq<string>) {
    forall m: nat :: m == n && m <= |candidates| ==>
      && commands == s.commands + ProbeCommands(s.wiring, s.handles, s.commands, s.verifyMethod, m)
      && Undisturbed(s.line, now, ProbeFrames(s.wiring, s.handles, s.commands, s.verifyMethod, s.prepared, m))
      && supported == Supported(s.wiring, s.handles, s.commands, s.verifyMethod, candidates, m)
  }

  lemma OneMoreProbed(s: Start, candidates: seq<string>, n: nat, before: Line, j: nat, now: Line,
                      supported: seq<string>, verified: bool)
    requires n < |candidates| && Probed(s, candidates, n, before, j, supported)
    requires Undisturbed(before, now, ProbeAsks(s.wiring, s.handles + n, j, s.verifyMethod, s.prepared))
    requires verified <==> ProbeSucceeds(s.wiring, s.handles + n, j, s.verifyMethod)
    ensures Probed(s, candidates, n + 1, now, j + |ProbeAsks(s.wiring, s.handles + n, j, s.verifyMethod, s.prepared)|,
                   supported + if verified then [candidates[n]] else [])
  {
    OneMoreProbe(s.wiring, s.handles, s.commands, s.verifyMethod, s.prepared, candidates, n, j);
    StillUndisturbed(s.line, before, now, ProbeFrames(s.wiring, s.handles, s.commands, s.verifyMethod, s.prepared, n),
                     ProbeAsks(s.wiring, s.handles + n, j, s.verifyMethod, s.prepared));
  }
}
