/** Commands on the wire, and the rule by which a reply is read back
    (src/mvd_edge/adapters/idt85.py). */
module Frames {
  import opened Wrappers
  import opened Crc16
  import CrcTheorems

  /** A byte as a number, for lengths and positions; the CRC sees it as eight bits. */
  type byte = x: int | 0 <= x < 256

  const INVENTORY_COMMAND: byte := 0x01
  const INVENTORY_NO_TAG_STATUS: byte := 0xFB
  const GET_READER_INFO_COMMAND: byte := 0x21
  const GET_WORK_MODE_COMMAND: byte := 0x36
  const SET_WORK_MODE_COMMAND: byte := 0x35
  const ANSWER_MODE: byte := 0x00
  const SCAN_MODE: byte := 0x01
  const BROADCAST_ADDRESS: byte := 0xFF
  const ANSWER_MODE_PARAMS: seq<byte> := [0x00, 0x00, 0x05, 0x00, 0x01, 0x00]

  type Frame = seq<byte>

  function Raw(frame: Frame): (raw: seq<bv8>)
    ensures |raw| == |frame|
    ensures forall i :: 0 <= i < |frame| ==> raw[i] == frame[i] as bv8
  {
    seq(|frame|, i requires 0 <= i < |frame| => frame[i] as bv8)
  }

  /** make_command; more than 251 parameter bytes do not fit the one-byte length field. */
  function MakeCommand(address: byte, command: byte, params: seq<byte>): (r: Result<Frame, string>) {
    var length := 1 + 1 + |params| + 2;
    if length > 255 then
      Failure("bytes must be in range(0, 256)")
    else
      var body: Frame := [length, address, command] + params;
      Success(body + Trailer(Checksum(Raw(body))))
  }

  /** The CRC bytes, low byte first. */
  function Trailer(crc: bv16): (bytes: seq<byte>) {
    [(crc & 0xFF) as int, ((crc >> 8) & 0xFF) as int]
  }

  function Command(address: byte, command: byte, params: seq<byte>): (frame: Frame)
    requires |params| <= 251
  {
    MakeCommand(address, command, params).value
  }

  function InventoryCommand(address: byte): Frame {
    Command(address, INVENTORY_COMMAND, [])
  }

  function GetReaderInfoCommand(): Frame {
    Command(BROADCAST_ADDRESS, GET_READER_INFO_COMMAND, [])
  }

  function GetWorkModeCommand(address: byte): Frame {
    Command(address, GET_WORK_MODE_COMMAND, [])
  }

  function SetAnswerModeCommand(address: byte): Frame {
    Command(address, SET_WORK_MODE_COMMAND, ANSWER_MODE_PARAMS)
  }

  /** The commands that a reader keeps ready. */
  datatype Commands = Commands(inventory: Frame, readerInfo: Frame, getWorkMode: Frame, setAnswerMode: Frame)

  function CommandsFor(address: byte): Commands {
    Commands(InventoryCommand(address), GetReaderInfoCommand(), GetWorkModeCommand(address),
             SetAnswerModeCommand(address))
  }

  /** c are the commands for this address; put so that proofs that need no more than that do not see the bytes. */
  ghost predicate AreFor(c: Commands, address: byte) {
    forall a: byte :: a == address ==> c == CommandsFor(a)
  }

  predicate IsValidCommandResponse(response: Frame, command: byte) {
    |response| >= 5 && response[2] == command
  }

  function ParseWorkModeResponse(response: Frame): (mode: Option<byte>) {
    if IsValidCommandResponse(response, GET_WORK_MODE_COMMAND) then Some(response[4]) else None
  }

  lemma TrailerWord(crc: bv16)
    ensures Word(Trailer(crc)[0] as bv8, Trailer(crc)[1] as bv8) == crc
  {
    var lo, hi := (crc & 0xFF) as bv8, ((crc >> 8) & 0xFF) as bv8;
    assert Trailer(crc)[0] as bv8 == lo && Trailer(crc)[1] as bv8 == hi;
    assert Word(lo, hi) == crc;
  }

  /** Which commands can be framed, and what every framed command looks like: the first byte
      counts the bytes that follow it, and the frame passes the CRC check with residue zero. */
  lemma CommandFrame(address: byte, command: byte, params: seq<byte>)
    ensures MakeCommand(address, command, params).Success? <==> |params| <= 251
    ensures |params| <= 251 ==>
              var frame := Command(address, command, params);
              && |frame| == |params| + 5
              && SelfDelimiting(frame)
              && frame[1] == address && frame[2] == command && frame[3..|frame| - 2] == params
              && HasValidCrc(Raw(frame)) && Checksum(Raw(frame)) == 0
  {
    if |params| <= 251 {
      var frame := Command(address, command, params);
      var body := frame[..|frame| - 2];
      assert body == [|params| + 4, address, command] + params;
      assert Raw(frame)[..|frame| - 2] == Raw(body);
      TrailerWord(Checksum(Raw(body)));
      CrcTheorems.ResidueIsZero(Raw(frame));
    }
  }

  lemma CommandsDiffer(a: byte, c: byte, p: seq<byte>, a': byte, c': byte, p': seq<byte>)
    requires |p| <= 251 && |p'| <= 251
    requires Command(a, c, p) == Command(a', c', p')
    ensures a == a' && c == c' && p == p'
  {
    CommandFrame(a, c, p);
    CommandFrame(a', c', p');
  }

  /** The body, and the right CRC. */
  predicate HasBody(frame: Frame, body: seq<byte>) {
    |frame| == |body| + 2 && frame[..|body|] == body && HasValidCrc(Raw(frame))
  }

  /** The commands, byte by byte. */
  lemma CommandBytes(address: byte)
    ensures var c := CommandsFor(address);
            && HasBody(c.inventory, [0x04, address, 0x01])
            && HasBody(c.readerInfo, [0x04, 0xFF, 0x21])
            && HasBody(c.getWorkMode, [0x04, address, 0x36])
            && HasBody(c.setAnswerMode, [0x0A, address, 0x35, 0x00, 0x00, 0x05, 0x00, 0x01, 0x00])
  {
    BareCommand(address, INVENTORY_COMMAND);
    BareCommand(BROADCAST_ADDRESS, GET_READER_INFO_COMMAND);
    BareCommand(address, GET_WORK_MODE_COMMAND);
    ModeCommand(address, ANSWER_MODE_PARAMS);
  }

  lemma BareCommand(address: byte, command: byte)
    ensures HasBody(Command(address, command, []), [0x04, address, command])
  {
    CommandFrame(address, command, []);
  }

  lemma CommandBody(address: byte, command: byte, params: seq<byte>)
    requires |params| <= 251
    ensures HasBody(Command(address, command, params), [|params| + 4, address, command] + params)
  {
    CommandFrame(address, command, params);
    var frame := Command(address, command, params);
    assert frame[..|params| + 3] == frame[..3] + frame[3..|frame| - 2];
  }

  lemma ModeCommand(address: byte, params: seq<byte>)
    requires params == [0x00, 0x00, 0x05, 0x00, 0x01, 0x00]
    ensures HasBody(Command(address, SET_WORK_MODE_COMMAND, params),
                    [0x0A, address, 0x35, 0x00, 0x00, 0x05, 0x00, 0x01, 0x00])
  {
    CommandBody(address, SET_WORK_MODE_COMMAND, params);
    ModeBody(address, params);
  }

  lemma ModeBody(address: byte, params: seq<byte>)
    requires params == [0x00, 0x00, 0x05, 0x00, 0x01, 0x00]
    ensures [|params| + 4, address, SET_WORK_MODE_COMMAND] + params
         == [0x0A, address, 0x35, 0x00, 0x00, 0x05, 0x00, 0x01, 0x00]
  {
  }

  // ----- replies -----

  /** A well-formed reply to a command of one kind is taken for that, and for nothing else. */
  lemma RepliesAreToldApart(address: byte, command: byte, params: seq<byte>, asked: byte)
    requires |params| <= 251
    ensures IsValidCommandResponse(Command(address, command, params), asked) <==> command == asked
  {
    CommandFrame(address, command, params);
  }

  /** A reply to the work-mode query: its status and mode, and whatever else the reader sends along. */
  function WorkModeReply(address: byte, status: byte, mode: byte, tail: seq<byte>): (reply: Frame)
    requires |tail| <= 249
  {
    var body: Frame := [|tail| + 6, address, 0x36, status, mode] + tail;
    body + Trailer(Checksum(Raw(body)))
  }

  /** The mode printed is the mode read, also when more bytes have arrived. */
  lemma WorkModeIsReadBack(address: byte, status: byte, mode: byte, tail: seq<byte>, more: seq<byte>)
    requires |tail| <= 249
    ensures var reply := WorkModeReply(address, status, mode, tail);
            ReadFrame(reply + more) == reply && ParseWorkModeResponse(reply) == Some(mode)
  {
    var reply := WorkModeReply(address, status, mode, tail);
    assert reply[0] == |reply| - 1 && reply[2] == 0x36 && reply[4] == mode;
    assert (reply + more)[..|reply|] == reply;
  }

  /** A mode is read exactly from these replies. */
  lemma WorkModeInBytes(reply: Frame, mode: byte)
    ensures ParseWorkModeResponse(reply) == Some(mode) <==> |reply| >= 5 && reply[2] == 0x36 && reply[4] == mode
  {
  }

  // ----- the read rule of _send_command: one byte, then as many as it says -----

  /** What _send_command returns when these bytes arrive before the reads time out. */
  function ReadFrame(available: seq<byte>): (frame: Frame)
    ensures frame <= available
    ensures available != [] ==> |frame| >= 1
  {
    if available == [] then [] else
      var remaining: nat := available[0];
      if 1 + remaining <= |available| then available[..1 + remaining] else available
  }

  /** A reply ends where its first byte says, or where the bytes do. */
  lemma ReadFrameLength(available: seq<byte>)
    ensures ReadFrame(available) <= available
    ensures available != [] ==>
              var told := 1 + available[0] as int;
              |ReadFrame(available)| == if |available| < told then |available| else told
  {
  }

  predicate SelfDelimiting(frame: Frame) {
    |frame| >= 1 && frame[0] == |frame| - 1
  }

  function Concat(frames: seq<Frame>): (stream: seq<byte>) {
    if frames == [] then [] else frames[0] + Concat(frames[1..])
  }

  /** The stream cut up by repeating the read rule. */
  function SplitFrames(stream: seq<byte>): (frames: seq<Frame>)
    decreases |stream|
  {
    if stream == [] then [] else
      [ReadFrame(stream)] + SplitFrames(stream[|ReadFrame(stream)|..])
  }

  /** Frames sent back to back are cut apart again at exactly their borders. */
  lemma {:induction false} SplitUndoesConcat(frames: seq<Frame>)
    requires forall f :: f in frames ==> SelfDelimiting(f)
    ensures SplitFrames(Concat(frames)) == frames
  {
    if frames != [] {
      var stream := Concat(frames);
      assert frames[0] in frames;
      assert ReadFrame(stream) == frames[0];
      assert stream[|frames[0]|..] == Concat(frames[1..]);
      SplitUndoesConcat(frames[1..]);
    }
  }

  datatype Request = Request(address: byte, command: byte, params: seq<byte>)

  predicate Framable(requests: seq<Request>) {
    forall r :: r in requests ==> |r.params| <= 251
  }

  function Encode(requests: seq<Request>): (frames: seq<Frame>)
    requires Framable(requests)
  {
    if requests == [] then [] else
      [Command(requests[0].address, requests[0].command, requests[0].params)] + Encode(requests[1..])
  }

  lemma {:induction false} EncodedFrames(requests: seq<Request>)
    requires Framable(requests)
    ensures forall f :: f in Encode(requests) ==> SelfDelimiting(f)
  {
    if requests != [] {
      CommandFrame(requests[0].address, requests[0].command, requests[0].params);
      EncodedFrames(requests[1..]);
    }
  }

  /** A byte stream of commands carries one sequence of requests only. */
  lemma {:induction false} CommandStreamsAreUnambiguous(x: seq<Request>, y: seq<Request>)
    requires Framable(x) && Framable(y)
    requires Concat(Encode(x)) == Concat(Encode(y))
    ensures SplitFrames(Concat(Encode(x))) == Encode(x)
    ensures x == y
  {
    EncodedFrames(x);
    EncodedFrames(y);
    SplitUndoesConcat(Encode(x));
    SplitUndoesConcat(Encode(y));
    EncodeIsInjective(x, y);
  }

  lemma {:induction false} EncodeIsInjective(x: seq<Request>, y: seq<Request>)
    requires Framable(x) && Framable(y)
    requires Encode(x) == Encode(y)
    ensures x == y
  {
    if x == [] || y == [] {
    } else {
      assert Encode(x)[0] == Encode(y)[0] && Encode(x)[1..] == Encode(y)[1..];
      CommandsDiffer(x[0].address, x[0].command, x[0].params, y[0].address, y[0].command, y[0].params);
      assert Encode(x[1..]) == Encode(x)[1..] && Encode(y[1..]) == Encode(y)[1..];
      EncodeIsInjective(x[1..], y[1..]);
      assert x == [x[0]] + x[1..] && y == [y[0]] + y[1..];
    }
  }
}
