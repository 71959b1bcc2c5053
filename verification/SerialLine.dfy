/** Serial handles, what may be written on them, and a monitor that watches every byte frame that is
    (the serial.Serial uses in src/mvd_edge/adapters/idt85.py). */
module SerialLine {
  import opened Wrappers
  import opened Streams
  import opened Frames

  datatype Io =
    | Opened(handle: nat, probing: bool)
    | Asked(command: nat, handle: nat, frame: Frame)
    | Wrote(handle: nat, frame: Frame)
    | Replied(handle: nat, frame: Frame, reply: Frame)
    | Closed(handle: nat)

  predicate IsCommand(frame: Frame, command: byte) {
    |frame| >= 3 && frame[2] == command
  }

  /** What the monitor knows: the open handles, those opened to probe a port, those whose latest
      work-mode reply since opening parsed as ANSWER, whether every write so far was permitted,
      whether SET_WORK_MODE was ever written, the frames asked, in order, and which of them, by number,
      were inventory commands. */
  datatype Line = Line(
    open: set<nat>, probes: set<nat>, answering: set<nat>, safe: bool, configured: bool,
    asked: seq<Frame>, scans: seq<nat>)

  predicate Permitted(l: Line, h: nat, frame: Frame) {
    && h in l.open
    && (IsCommand(frame, INVENTORY_COMMAND) ==> h in l.answering && h !in l.probes)
    && (IsCommand(frame, SET_WORK_MODE_COMMAND) ==> h !in l.probes)
    && (h in l.probes ==> IsCommand(frame, GET_READER_INFO_COMMAND) || IsCommand(frame, GET_WORK_MODE_COMMAND))
  }

  function Watch(l: Line, e: Io): Line {
    match e
    case Opened(h, probing) =>
      l.(open := l.open + {h}, probes := if probing then l.probes + {h} else l.probes - {h},
         answering := l.answering - {h})
    case Asked(k, _, frame) =>
      l.(asked := l.asked + [frame],
         scans := if IsCommand(frame, INVENTORY_COMMAND) then l.scans + [k] else l.scans)
    case Wrote(h, frame) =>
      l.(safe := l.safe && Permitted(l, h, frame),
         configured := l.configured || IsCommand(frame, SET_WORK_MODE_COMMAND))
    case Replied(h, frame, reply) =>
      if !IsCommand(frame, GET_WORK_MODE_COMMAND) then l
      else if ParseWorkModeResponse(reply) == Some(ANSWER_MODE) then l.(answering := l.answering + {h})
      else l.(answering := l.answering - {h})
    case Closed(h) => l.(open := l.open - {h})
  }

  function Watched(trace: seq<Io>): Line {
    if trace == [] then Line({}, {}, {}, true, false, [], [])
    else Watch(Watched(trace[..|trace| - 1]), trace[|trace| - 1])
  }

  lemma WatchOneMore(trace: seq<Io>, e: Io)
    ensures Watched(trace + [e]) == Watch(Watched(trace), e)
  {
    assert (trace + [e])[..|trace|] == trace;
  }

  // ----- what the monitor's verdict means -----

  predicate IsModeReply(e: Io, h: nat) {
    e.Replied? && e.handle == h && IsCommand(e.frame, GET_WORK_MODE_COMMAND)
  }

  predicate Opens(e: Io, h: nat) {
    e.Opened? && e.handle == h
  }

  /** The latest work-mode reply on h, with no opening of h after it, is at j and parsed as ANSWER. */
  predicate AnswerAt(trace: seq<Io>, h: nat, j: nat) {
    && j < |trace| && IsModeReply(trace[j], h) && ParseWorkModeResponse(trace[j].reply) == Some(ANSWER_MODE)
    && forall k :: j < k < |trace| ==> !IsModeReply(trace[k], h) && !Opens(trace[k], h)
  }

  /** h is open at the end of the trace, and was opened last at j, to probe a port or not. */
  predicate OpenSince(trace: seq<Io>, h: nat, j: nat, probing: bool) {
    && j < |trace| && trace[j] == Opened(h, probing)
    && forall k :: j < k < |trace| ==> !Opens(trace[k], h) && trace[k] != Closed(h)
  }

  ghost predicate IsOpen(trace: seq<Io>, h: nat, probing: bool) {
    exists j: nat :: OpenSince(trace, h, j, probing)
  }

  lemma {:induction false} AnsweringMeans(trace: seq<Io>, h: nat)
    ensures h in Watched(trace).answering <==> exists j: nat :: AnswerAt(trace, h, j)
  {
    if trace != [] {
      var n := |trace| - 1;
      var before, e := trace[..n], trace[n];
      AnsweringMeans(before, h);
      if j: nat :| AnswerAt(trace, h, j) {
        assert j < n ==> AnswerAt(before, h, j);
      }
      if j: nat :| AnswerAt(before, h, j) {
        if !IsModeReply(e, h) && !Opens(e, h) {
          assert AnswerAt(trace, h, j);
        }
      }
      if IsModeReply(e, h) && ParseWorkModeResponse(e.reply) == Some(ANSWER_MODE) {
        assert AnswerAt(trace, h, n);
      }
    }
  }

  lemma {:induction false} OpenMeans(trace: seq<Io>, h: nat)
    ensures h in Watched(trace).open && h in Watched(trace).probes <==> IsOpen(trace, h, true)
    ensures h in Watched(trace).open && h !in Watched(trace).probes <==> IsOpen(trace, h, false)
  {
    if trace != [] {
      OpenMeans(trace[..|trace| - 1], h);
      OpenStep(trace, h, true);
      OpenStep(trace, h, false);
    }
  }

  lemma OpenStep(trace: seq<Io>, h: nat, probing: bool)
    requires trace != []
    ensures var e := trace[|trace| - 1];
            IsOpen(trace, h, probing) <==>
              e == Opened(h, probing) || (!Opens(e, h) && e != Closed(h) && IsOpen(trace[..|trace| - 1], h, probing))
  {
    var n := |trace| - 1;
    if j: nat :| OpenSince(trace, h, j, probing) {
      assert j < n ==> OpenSince(trace[..n], h, j, probing);
    }
    if j: nat :| OpenSince(trace[..n], h, j, probing) {
      if !Opens(trace[n], h) && trace[n] != Closed(h) {
        assert OpenSince(trace, h, j, probing);
      }
    }
    if trace[n] == Opened(h, probing) {
      assert OpenSince(trace, h, n, probing);
    }
  }

  /** A trace the monitor calls safe, write by write: only on open handles; inventory only where the
      latest work-mode reply was ANSWER; on probing handles nothing but the two queries. */
  lemma {:induction false} SafeMeans(trace: seq<Io>, i: nat)
    requires Watched(trace).safe && i < |trace| && trace[i].Wrote?
    ensures var h, frame, before := trace[i].handle, trace[i].frame, trace[..i];
            && (IsOpen(before, h, true) || IsOpen(before, h, false))
            && (IsCommand(frame, INVENTORY_COMMAND) ==>
                  IsOpen(before, h, false) && exists j: nat :: AnswerAt(before, h, j))
            && (IsCommand(frame, SET_WORK_MODE_COMMAND) ==> IsOpen(before, h, false))
            && (IsOpen(before, h, true) ==>
                  IsCommand(frame, GET_READER_INFO_COMMAND) || IsCommand(frame, GET_WORK_MODE_COMMAND))
  {
    var n := |trace| - 1;
    if i < n {
      SafeMeans(trace[..n], i);
      assert trace[..n][..i] == trace[..i];
    } else {
      OpenMeans(trace[..n], trace[n].handle);
      AnsweringMeans(trace[..n], trace[n].handle);
    }
  }

  /** The latest reply to a work-mode query on h is at j, and h has not been opened again since. */
  predicate LatestModeReply(trace: seq<Io>, h: nat, j: nat) {
    && j < |trace| && RepliesToModeQuery(trace[j], h)
    && forall k :: j < k < |trace| ==> !RepliesToModeQuery(trace[k], h) && !Opens(trace[k], h)
  }

  predicate RepliesToModeQuery(e: Io, h: nat) {
    e.Replied? && e.handle == h && |e.frame| >= 3 && e.frame[2] == 0x36
  }

  /** In bytes: before an inventory is written, the latest reply to a work-mode query on its handle is a
      work-mode reply that says 0, which is ANSWER. */
  lemma InventoryOnlyInAnswerMode(trace: seq<Io>, i: nat)
    requires Watched(trace).safe && i < |trace| && trace[i].Wrote?
    requires |trace[i].frame| >= 3 && trace[i].frame[2] == 0x01
    ensures exists j: nat ::
              && LatestModeReply(trace[..i], trace[i].handle, j)
              && |trace[j].reply| >= 5 && trace[j].reply[2] == 0x36 && trace[j].reply[4] == 0x00
  {
    SafeMeans(trace, i);
    var h, before := trace[i].handle, trace[..i];
    var j: nat :| AnswerAt(before, h, j);
    WorkModeInBytes(before[j].reply, 0x00);
    forall k | 0 <= k < i
      ensures IsModeReply(before[k], h) <==> RepliesToModeQuery(before[k], h)
    {
    }
    assert LatestModeReply(before, h, j) && trace[j] == before[j];
  }

  lemma {:induction false} ConfiguredMeans(trace: seq<Io>)
    ensures Watched(trace).configured <==>
              exists i :: 0 <= i < |trace| && trace[i].Wrote? && IsCommand(trace[i].frame, SET_WORK_MODE_COMMAND)
  {
    if trace != [] {
      var n := |trace| - 1;
      ConfiguredMeans(trace[..n]);
      if i :| 0 <= i < |trace| && trace[i].Wrote? && IsCommand(trace[i].frame, SET_WORK_MODE_COMMAND) {
        assert i < n ==> trace[..n][i] == trace[i];
      }
      if i :| 0 <= i < n && trace[..n][i].Wrote? && IsCommand(trace[..n][i].frame, SET_WORK_MODE_COMMAND) {
        assert trace[i] == trace[..n][i];
      }
    }
  }

  /** The k-th command, an inventory. */
  predicate AsksInventory(e: Io, k: nat) {
    e.Asked? && e.command == k && IsCommand(e.frame, INVENTORY_COMMAND)
  }

  /** The inventory commands among those asked. */
  lemma {:induction false} ScansMean(trace: seq<Io>, k: nat)
    ensures k in Watched(trace).scans <==> exists i :: 0 <= i < |trace| && AsksInventory(trace[i], k)
  {
    if trace != [] {
      var n := |trace| - 1;
      ScansMean(trace[..n], k);
      OneMoreInventory(Watched(trace[..n]), trace[n], k);
      if i :| 0 <= i < n && AsksInventory(trace[..n][i], k) {
        assert trace[i] == trace[..n][i];
      }
      if i :| 0 <= i < n && AsksInventory(trace[i], k) {
        assert trace[..n][i] == trace[i];
      }
    }
  }

  lemma OneMoreInventory(l: Line, e: Io, k: nat)
    ensures k in Watch(l, e).scans <==> k in l.scans || AsksInventory(e, k)
  {
  }

  // ----- the bus -----

  /** What comes of one command: an exception, before or after the write, or bytes that arrive in time. */
  datatype Arrival = Fault(written: bool, error: string) | Bytes(available: seq<byte>)

  datatype Opening = Opens | Refuses(error: string)

  /** The environment: what comes of the k-th open, and of the k-th command. */
  datatype Wiring = Wiring(opens: Stream<Opening>, arrivals: Stream<Arrival>)

  /** What is raised. */
  datatype Problem = PortClosed | UnsupportedMethod(name: string) | Raised(error: string)

  /** The command is written, whatever comes of it. */
  predicate Reaches(arrival: Arrival) {
    arrival.Bytes? || arrival.written
  }

  /** What the monitor knows after the k-th command, on handle h. */
  function Told(l: Line, k: nat, h: nat, frame: Frame, arrival: Arrival): Line {
    var asked := Watch(l, Asked(k, h, frame));
    if !Reaches(arrival) then asked
    else if arrival.Fault? then Watch(asked, Wrote(h, frame))
    else Watch(Watch(asked, Wrote(h, frame)), Replied(h, frame, ReadFrame(arrival.available)))
  }

  predicate ShowsAnswer(arrival: Arrival) {
    arrival.Bytes? && ParseWorkModeResponse(ReadFrame(arrival.available)) == Some(ANSWER_MODE)
  }

  lemma ToldFacts(l: Line, k: nat, h: nat, frame: Frame, arrival: Arrival)
    ensures var told := Told(l, k, h, frame, arrival);
            && told.open == l.open && told.probes == l.probes
            && (told.safe <==> l.safe && (Reaches(arrival) ==> Permitted(l, h, frame)))
            && (!IsCommand(frame, SET_WORK_MODE_COMMAND) ==> told.configured == l.configured)
            && (!IsCommand(frame, GET_WORK_MODE_COMMAND) ==> told.answering == l.answering)
            && (IsCommand(frame, GET_WORK_MODE_COMMAND) && ShowsAnswer(arrival) ==> h in told.answering)
            && told.asked == l.asked + [frame]
            && told.scans == l.scans + if IsCommand(frame, INVENTORY_COMMAND) then [k] else []
  {
  }

  /** No exception came of the commands from..to. */
  predicate AllAnswered(w: Wiring, from: nat, to: nat) {
    forall k: nat :: from <= k < to ==> w.arrivals.At(k).Bytes?
  }

  /** The k-th command is answered by a response to this kind of command. */
  predicate Answered(w: Wiring, k: nat, command: byte) {
    w.arrivals.At(k).Bytes? && IsValidCommandResponse(ReadFrame(w.arrivals.At(k).available), command)
  }

  class SerialBus {
    const wiring: Wiring
    var handles: nat
    var commands: nat
    ghost var trace: seq<Io>

    ghost predicate Valid()
      reads this
    {
      (forall h :: h in Watched(trace).open ==> h < handles) && |Watched(trace).asked| == commands
    }

    ghost function Line(): Line
      reads this
    {
      Watched(trace)
    }

    constructor (wiring: Wiring)
      ensures Valid() && trace == [] && handles == commands == 0 && this.wiring == wiring
    {
      this.wiring := wiring;
      handles, commands, trace := 0, 0, [];
    }

    ghost method Log(e: Io)
      modifies this`trace
      ensures trace == old(trace) + [e] && Line() == Watch(old(Line()), e)
    {
      WatchOneMore(trace, e);
      trace := trace + [e];
    }
  }

  /** The queries of verify_reader, sent from the k-th command on, are answered as the method demands. */
  predicate VerificationPasses(w: Wiring, k: nat, m: VerifyMethod) {
    match m
    case AUTO =>
      Answered(w, k, GET_READER_INFO_COMMAND) || (w.arrivals.At(k).Bytes? && Answered(w, k + 1, GET_WORK_MODE_COMMAND))
    case READER_INFO => Answered(w, k, GET_READER_INFO_COMMAND)
    case WORK_MODE => Answered(w, k, GET_WORK_MODE_COMMAND)
    case UNSUPPORTED(_) => false
  }

  /** The queries it sends. */
  function VerifyFrames(w: Wiring, k: nat, m: VerifyMethod, c: Commands): (frames: seq<Frame>)
    ensures |frames| == VerifyCommands(w, k, m)
  {
    match m
    case AUTO =>
      if w.arrivals.At(k).Bytes? && !Answered(w, k, GET_READER_INFO_COMMAND) then [c.readerInfo, c.getWorkMode]
      else [c.readerInfo]
    case READER_INFO => [c.readerInfo]
    case WORK_MODE => [c.getWorkMode]
    case UNSUPPORTED(_) => []
  }

  /** Their number. */
  function VerifyCommands(w: Wiring, k: nat, m: VerifyMethod): nat {
    match m
    case AUTO => if w.arrivals.At(k).Bytes? && !Answered(w, k, GET_READER_INFO_COMMAND) then 2 else 1
    case READER_INFO => 1
    case WORK_MODE => 1
    case UNSUPPORTED(_) => 0
  }

  /** And what comes of them. */
  function VerifyResult(w: Wiring, k: nat, m: VerifyMethod): Result<bool, Problem> {
    match m
    case AUTO =>
      if w.arrivals.At(k).Fault? then Failure(Raised(w.arrivals.At(k).error))
      else if Answered(w, k, GET_READER_INFO_COMMAND) then Success(true)
      else QueryResult(w, k + 1, GET_WORK_MODE_COMMAND)
    case READER_INFO => QueryResult(w, k, GET_READER_INFO_COMMAND)
    case WORK_MODE => QueryResult(w, k, GET_WORK_MODE_COMMAND)
    case UNSUPPORTED(name) => Failure(UnsupportedMethod(name))
  }

  lemma VerifyResultMeans(w: Wiring, k: nat, m: VerifyMethod)
    ensures VerifyResult(w, k, m).Failure? <==> m.UNSUPPORTED? || !AllAnswered(w, k, k + VerifyCommands(w, k, m))
    ensures VerifyResult(w, k, m) == Success(true) <==> VerificationPasses(w, k, m)
  {
    if m != AUTO && !m.UNSUPPORTED? {
      assert VerifyCommands(w, k, m) == 1;
    }
  }

  /** What comes of the k-th command, if a response of its own kind is wanted. */
  function QueryResult(w: Wiring, k: nat, command: byte): Result<bool, Problem> {
    if w.arrivals.At(k).Fault? then Failure(Raised(w.arrivals.At(k).error)) else Success(Answered(w, k, command))
  }

  /** If the work mode is wanted. */
  function ModeResult(w: Wiring, k: nat): Result<Option<byte>, Problem> {
    if w.arrivals.At(k).Fault? then Failure(Raised(w.arrivals.At(k).error))
    else Success(ParseWorkModeResponse(ReadFrame(w.arrivals.At(k).available)))
  }

  /** The k-th command, a work-mode query, is answered by ANSWER. */
  predicate AnswersAnswer(w: Wiring, k: nat) {
    ShowsAnswer(w.arrivals.At(k))
  }

  /** Asked for its work mode by the k-th command, the reader is in answer mode. */
  predicate Complies(w: Wiring, k: nat, autoConfigureReader: bool) {
    || AnswersAnswer(w, k)
    || (autoConfigureReader && w.arrivals.At(k).Bytes? && CanBeConfigured(w, k + 1))
  }

  /** It accepts answer mode by the k-th command, and reports it when it is asked again. */
  predicate CanBeConfigured(w: Wiring, k: nat) {
    Answered(w, k, SET_WORK_MODE_COMMAND) && AnswersAnswer(w, k + 1)
  }

  /** The commands this takes: ask, and then set, if there is an answer mode to set, and ask again. */
  function ModeFrames(w: Wiring, k: nat, autoConfigureReader: bool, c: Commands): (frames: seq<Frame>)
    ensures |frames| == ModeCommands(w, k, autoConfigureReader)
  {
    if !autoConfigureReader || w.arrivals.At(k).Fault? || AnswersAnswer(w, k) then [c.getWorkMode]
    else if Answered(w, k + 1, SET_WORK_MODE_COMMAND) then [c.getWorkMode, c.setAnswerMode, c.getWorkMode]
    else [c.getWorkMode, c.setAnswerMode]
  }

  /** Their number. */
  function ModeCommands(w: Wiring, k: nat, autoConfigureReader: bool): nat {
    if !autoConfigureReader || w.arrivals.At(k).Fault? || AnswersAnswer(w, k) then 1
    else if Answered(w, k + 1, SET_WORK_MODE_COMMAND) then 3 else 2
  }

  /** A reader that is opened as the h-th handle, and sent commands from the k-th on, becomes READY: it
      opens, verifies, and is in answer mode, or lets itself be put there when that is allowed. */
  predicate Connects(w: Wiring, h: nat, k: nat, m: VerifyMethod, autoConfigureReader: bool) {
    w.opens.At(h).Opens? && VerificationPasses(w, k, m) && Complies(w, k + VerifyCommands(w, k, m), autoConfigureReader)
  }

  /** The commands this takes. */
  function ConnectCommands(w: Wiring, h: nat, k: nat, m: VerifyMethod, autoConfigureReader: bool): nat {
    if w.opens.At(h).Opens? then ReaderCommands(w, k, m, autoConfigureReader) else 0
  }

  function ReaderCommands(w: Wiring, k: nat, m: VerifyMethod, autoConfigureReader: bool): nat {
    var v := VerifyCommands(w, k, m);
    v + if VerificationPasses(w, k, m) then ModeCommands(w, k + v, autoConfigureReader) else 0
  }

  function ConnectFrames(w: Wiring, h: nat, k: nat, m: VerifyMethod, autoConfigureReader: bool, c: Commands)
    : (frames: seq<Frame>)
    ensures |frames| == ConnectCommands(w, h, k, m, autoConfigureReader)
  {
    if w.opens.At(h).Opens? then ReaderFrames(w, k, m, autoConfigureReader, c) else []
  }

  function ReaderFrames(w: Wiring, k: nat, m: VerifyMethod, autoConfigureReader: bool, c: Commands)
    : (frames: seq<Frame>)
    ensures |frames| == ReaderCommands(w, k, m, autoConfigureReader)
  {
    VerifyFrames(w, k, m, c)
    + if VerificationPasses(w, k, m) then ModeFrames(w, k + VerifyCommands(w, k, m), autoConfigureReader, c) else []
  }

  /** It ends in an exception: the port does not open, the method is unknown, or a command faults. */
  predicate ConnectingFails(w: Wiring, h: nat, k: nat, m: VerifyMethod, autoConfigureReader: bool) {
    !w.opens.At(h).Opens? || m.UNSUPPORTED? || !AllAnswered(w, k, k + ConnectCommands(w, h, k, m, autoConfigureReader))
  }

  /** A port probed as the h-th handle, from the k-th command on, is that of a reader. */
  predicate ProbeSucceeds(w: Wiring, h: nat, k: nat, m: VerifyMethod) {
    w.opens.At(h).Opens? && VerificationPasses(w, k, m)
  }

  /** The number of commands sent when the n ports from handle h on are probed one after the other. */
  function ProbeCommands(w: Wiring, h: nat, k: nat, m: VerifyMethod, n: nat): nat {
    if n == 0 then 0 else
      var before := ProbeCommands(w, h, k, m, n - 1);
      before + if w.opens.At(h + n - 1).Opens? then VerifyCommands(w, k + before, m) else 0
  }

  /** What is asked at the port probed as the h-th handle. */
  function ProbeAsks(w: Wiring, h: nat, k: nat, m: VerifyMethod, c: Commands): (frames: seq<Frame>)
    ensures |frames| == if w.opens.At(h).Opens? then VerifyCommands(w, k, m) else 0
  {
    if w.opens.At(h).Opens? then VerifyFrames(w, k, m, c) else []
  }

  /** The commands of n probes are these. */
  function ProbeFrames(w: Wiring, h: nat, k: nat, m: VerifyMethod, c: Commands, n: nat): (frames: seq<Frame>)
    ensures |frames| == ProbeCommands(w, h, k, m, n)
  {
    if n == 0 then [] else
      ProbeFrames(w, h, k, m, c, n - 1) + ProbeAsks(w, h + n - 1, k + ProbeCommands(w, h, k, m, n - 1), m, c)
  }

  /** Those of the first n candidates whose probe succeeds. */
  function Supported(w: Wiring, h: nat, k: nat, m: VerifyMethod, candidates: seq<string>, n: nat): seq<string>
    requires n <= |candidates|
  {
    if n == 0 then [] else
      Supported(w, h, k, m, candidates, n - 1)
      + if ProbeSucceeds(w, h + n - 1, k + ProbeCommands(w, h, k, m, n - 1), m) then [candidates[n - 1]] else []
  }

  lemma OneMoreProbe(w: Wiring, h: nat, k: nat, m: VerifyMethod, c: Commands, candidates: seq<string>, n: nat, j: nat)
    requires n < |candidates| && j == k + ProbeCommands(w, h, k, m, n)
    ensures k + ProbeCommands(w, h, k, m, n + 1) == j + |ProbeAsks(w, h + n, j, m, c)|
    ensures ProbeFrames(w, h, k, m, c, n + 1) == ProbeFrames(w, h, k, m, c, n) + ProbeAsks(w, h + n, j, m, c)
    ensures Supported(w, h, k, m, candidates, n + 1)
         == Supported(w, h, k, m, candidates, n) + if ProbeSucceeds(w, h + n, j, m) then [candidates[n]] else []
  {
  }

  datatype VerifyMethod = AUTO | READER_INFO | WORK_MODE | UNSUPPORTED(name: string)
}
