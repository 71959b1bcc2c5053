/** The two inventory parsers: the lenient one drops a broken tail, the strict one refuses it
    (src/mvd_edge/adapters/idt85.py). */
module Inventory {
  import opened Crc16
  import opened Frames
  import Seqs

  datatype InventoryStatus = VALID | NO_RESPONSE | MALFORMED

  datatype InventoryResult = InventoryResult(status: InventoryStatus, tags: seq<string>)

  // ----- the upper-case hex of an EPC -----

  function Digit(n: nat): (digit: char)
    requires n < 16
  {
    if n < 10 then ('0' as int + n) as char else ('A' as int + n - 10) as char
  }

  function Hex(bytes: seq<byte>): (text: string) {
    if bytes == [] then "" else [Digit(bytes[0] / 16), Digit(bytes[0] % 16)] + Hex(bytes[1..])
  }

  function HexAll(epcs: seq<Epc>): (tags: seq<string>) {
    if epcs == [] then [] else [Hex(epcs[0])] + HexAll(epcs[1..])
  }

  // ----- the tag list on the wire: a length byte before each EPC -----

  type Epc = e: seq<byte> | |e| <= 255

  function Record(epc: Epc): (bytes: seq<byte>) {
    [|epc|] + epc
  }

  function Records(epcs: seq<Epc>): (bytes: seq<byte>) {
    if epcs == [] then [] else Record(epcs[0]) + Records(epcs[1..])
  }

  /** A whole record starts at offset p and ends within the bound. */
  predicate CompleteWithin(data: seq<byte>, bound: int, p: nat)
    requires bound <= |data|
  {
    p < bound && p + 1 + data[p] as int <= bound
  }

  /** The same in the body, which is a frame without its CRC. */
  predicate CompleteAt(body: seq<byte>, p: nat) {
    CompleteWithin(body, |body|, p)
  }

  /** The complete records from offset p on, but no more than n. */
  function RecordsAt(body: seq<byte>, p: nat, n: nat): (epcs: seq<Epc>)
    ensures |epcs| <= n
    decreases n
  {
    if n == 0 || !CompleteAt(body, p) then [] else
      var end := p + 1 + body[p] as int;
      [body[p + 1..end]] + RecordsAt(body, end, n - 1)
  }

  /** The same as text: what the loops have left to read at offset p when n tags are announced. */
  function Unread(body: seq<byte>, p: nat, n: nat): (tags: seq<string>)
    decreases n
  {
    if n == 0 || !CompleteAt(body, p) then [] else
      var end := p + 1 + body[p] as int;
      [Hex(body[p + 1..end])] + Unread(body, end, n - 1)
  }

  lemma {:induction false} UnreadIsHex(body: seq<byte>, p: nat, n: nat)
    ensures Unread(body, p, n) == HexAll(RecordsAt(body, p, n))
    ensures |Unread(body, p, n)| == |RecordsAt(body, p, n)|
    decreases n
  {
    if n > 0 && CompleteAt(body, p) {
      var end := p + 1 + body[p] as int;
      UnreadIsHex(body, end, n - 1);
      assert RecordsAt(body, p, n)[1..] == RecordsAt(body, end, n - 1);
    }
  }

  function Body(response: Frame): (body: seq<byte>) {
    if |response| < 2 then [] else response[..|response| - 2]
  }

  predicate IsTagStatus(status: byte) {
    status == 1 || status == 2 || status == 3 || status == 4
  }

  /** parse_inventory_response */
  method ParseInventoryResponse(response: Frame) returns (tags: seq<string>)
    ensures tags == Parsed(response)
  {
    if |response| < 6 {
      return [];
    }
    if response[2] != INVENTORY_COMMAND {
      return [];
    }
    if !IsTagStatus(response[3]) {
      return [];
    }
    tags := ReadTagList(response);
  }

  /** The loop of parse_inventory_response. */
  method ReadTagList(response: Frame) returns (tags: seq<string>)
    requires |response| >= 6
    ensures tags == Unread(Body(response), 5, response[4])
  {
    var tagCount := response[4] as int;
    var position: nat := 5;
    tags := [];
    ghost var starts, all := Trace(response, 5, tagCount);
    for i := 0 to tagCount
      invariant i <= |all| && position == starts[i] && tags == all[..i]
    {
      NextRecord(response, tagCount, starts, all, i);
      if position >= |response| - 2 {
        break;
      }
      var epcLength := response[position] as int;
      position := position + 1;
      if position + epcLength > |response| - 2 {
        break;
      }
      var epcBytes := response[position..position + epcLength];
      position := position + epcLength;
      tags := tags + [Hex(epcBytes)];
      Seqs.TakeOneMore(all, i);
    }
  }

  /** The loop goes on exactly while a record is there. */
  lemma NextRecord(response: Frame, n: nat, starts: seq<nat>, tags: seq<string>, i: nat)
    requires |response| >= 2 && Traces(response, 5, n, starts, tags) && i <= |tags| && i < n
    ensures i < |tags| <==> CompleteWithin(response, |response| - 2, starts[i])
    ensures i < |tags| ==>
              && starts[i + 1] == starts[i] + 1 + response[starts[i]] as int <= |response|
              && tags[i] == Hex(response[starts[i] + 1..starts[i + 1]])
  {
    assert i < |tags| ==> RecordFrom(response, starts, tags, i);
  }

  function Parsed(response: Frame): (tags: seq<string>) {
    if IsTagReply(response) then Unread(Body(response), 5, response[4]) else []
  }

  /** Where the records start, one after the other from p on, and where the last one ends. */
  predicate Traces(response: Frame, p: nat, n: nat, starts: seq<nat>, tags: seq<string>) {
    && |starts| == |tags| + 1 && starts[0] == p && |tags| <= n
    && (forall k :: 0 <= k < |tags| ==> RecordFrom(response, starts, tags, k))
    && (|tags| < n ==> !CompleteWithin(response, |response| - 2, starts[|tags|]))
  }

  predicate RecordFrom(response: Frame, starts: seq<nat>, tags: seq<string>, k: nat) {
    && k < |tags| && k + 1 < |starts| && CompleteWithin(response, |response| - 2, starts[k])
    && starts[k + 1] == starts[k] + 1 + response[starts[k]] as int
    && tags[k] == Hex(response[starts[k] + 1..starts[k + 1]])
  }

  lemma BodyIsResponse(response: Frame, p: nat)
    ensures CompleteAt(Body(response), p) <==> CompleteWithin(response, |response| - 2, p)
    ensures CompleteAt(Body(response), p) ==>
              var end := p + 1 + response[p] as int;
              Body(response)[p] == response[p] && Body(response)[p + 1..end] == response[p + 1..end]
  {
  }

  /** What is unread, laid out record by record for the loops to walk along. */
  lemma {:induction false} Trace(response: Frame, p: nat, n: nat) returns (starts: seq<nat>, tags: seq<string>)
    ensures tags == Unread(Body(response), p, n) && Traces(response, p, n, starts, tags)
    decreases n
  {
    BodyIsResponse(response, p);
    if n == 0 || !CompleteAt(Body(response), p) {
      starts, tags := [p], [];
    } else {
      var end := p + 1 + response[p] as int;
      var laterStarts, laterTags := Trace(response, end, n - 1);
      starts, tags := [p] + laterStarts, [Hex(response[p + 1..end])] + laterTags;
      OneMoreRecord(response, p, end, laterStarts, laterTags, starts, tags);
    }
  }

  lemma OneMoreRecord(response: Frame, p: nat, end: nat, laterStarts: seq<nat>, laterTags: seq<string>,
                      starts: seq<nat>, tags: seq<string>)
    requires CompleteWithin(response, |response| - 2, p) && end == p + 1 + response[p] as int
    requires |laterStarts| == |laterTags| + 1 && laterStarts[0] == end
    requires forall k :: 0 <= k < |laterTags| ==> RecordFrom(response, laterStarts, laterTags, k)
    requires starts == [p] + laterStarts && tags == [Hex(response[p + 1..end])] + laterTags
    ensures forall k :: 0 <= k < |tags| ==> RecordFrom(response, starts, tags, k)
  {
    forall k | 0 <= k < |tags|
      ensures RecordFrom(response, starts, tags, k)
    {
      if k > 0 {
        assert RecordFrom(response, laterStarts, laterTags, k - 1);
      }
    }
  }

  /** is_no_tag_inventory_response */
  predicate IsNoTagResponse(response: Frame) {
    && |response| == 6
    && response[0] == 0x05
    && response[2] == INVENTORY_COMMAND
    && response[3] == INVENTORY_NO_TAG_STATUS
    && HasValidCrc(Raw(response))
  }

  /** classify_inventory_response */
  method ClassifyInventoryResponse(response: Frame) returns (result: InventoryResult)
    ensures result == Classified(response)
  {
    if response == [] {
      return InventoryResult(NO_RESPONSE, []);
    }
    var expectedLength := response[0] as int + 1;
    if response[0] != 0 && |response| != expectedLength {
      return MALFORMED_RESULT;
    }
    if |response| < 6 {
      return MALFORMED_RESULT;
    }
    if response[2] != INVENTORY_COMMAND {
      return MALFORMED_RESULT;
    }
    if IsNoTagResponse(response) {
      return InventoryResult(VALID, []);
    }
    if !IsTagStatus(response[3]) {
      return MALFORMED_RESULT;
    }
    result := ClassifyTagList(response);
  }

  /** The loop of classify_inventory_response. */
  method ClassifyTagList(response: Frame) returns (result: InventoryResult)
    requires |response| >= 6
    ensures result == ClassifiedTags(response)
  {
    var tagCount := response[4] as int;
    var position: nat := 5;
    var tags := [];
    ghost var starts, all := ClassifiedByTrace(response, tagCount);
    for i := 0 to tagCount
      invariant i <= |all| && position == starts[i] && tags == all[..i]
    {
      NextRecord(response, tagCount, starts, all, i);
      if position >= |response| - 2 {
        return MALFORMED_RESULT;
      }
      var epcLength := response[position] as int;
      position := position + 1;
      if position + epcLength > |response| - 2 {
        return MALFORMED_RESULT;
      }
      var epcBytes := response[position..position + epcLength];
      position := position + epcLength;
      tags := tags + [Hex(epcBytes)];
      Seqs.TakeOneMore(all, i);
    }
    return InventoryResult(VALID, tags);
  }

  lemma ClassifiedByTrace(response: Frame, n: nat) returns (starts: seq<nat>, all: seq<string>)
    requires |response| >= 6 && n == response[4] as int
    ensures Traces(response, 5, n, starts, all)
    ensures ClassifiedTags(response) == if |all| < n then MALFORMED_RESULT else InventoryResult(VALID, all)
  {
    starts, all := Trace(response, 5, n);
  }

  function ClassifiedTags(response: Frame): (result: InventoryResult)
    requires |response| >= 6
  {
    var tags := Unread(Body(response), 5, response[4]);
    if |tags| < response[4] then MALFORMED_RESULT else InventoryResult(VALID, tags)
  }

  const MALFORMED_RESULT := InventoryResult(MALFORMED, [])

  function Classified(response: Frame): (result: InventoryResult) {
    if response == [] then InventoryResult(NO_RESPONSE, [])
    else if !Framed(response) then MALFORMED_RESULT
    else if IsNoTagResponse(response) then InventoryResult(VALID, [])
    else if !IsTagStatus(response[3]) then MALFORMED_RESULT
    else ClassifiedTags(response)
  }

  /** The length byte, when it is not zero, agrees with the length; the frame is an inventory reply. */
  predicate Framed(response: Frame) {
    && |response| >= 6
    && (response[0] == 0 || SelfDelimiting(response))
    && response[2] == INVENTORY_COMMAND
  }

  // ----- records in a body -----

  /** The records, one after the other, fill the body from p to end. */
  predicate LieAt(body: seq<byte>, p: nat, epcs: seq<Epc>, end: nat)
    requires p <= end <= |body|
    decreases |epcs|
  {
    if epcs == [] then p == end else
      var q := p + 1 + |epcs[0]|;
      q <= end && body[p] == |epcs[0]| && body[p + 1..q] == epcs[0] && LieAt(body, q, epcs[1..], end)
  }

  lemma {:induction false} LyingIsPrinting(body: seq<byte>, p: nat, epcs: seq<Epc>, end: nat)
    requires p <= end <= |body|
    ensures LieAt(body, p, epcs, end) <==> body[p..end] == Records(epcs)
    decreases |epcs|
  {
    if epcs != [] {
      var e, rest := epcs[0], Records(epcs[1..]);
      var q := p + 1 + |e|;
      if q <= end {
        LyingIsPrinting(body, q, epcs[1..], end);
        RecordThenRest(body[p..end], e, rest);
        Seqs.SliceSlice(body, p, end, 1 + |e|, end - p);
        Seqs.SliceSlice(body, p, end, 1, 1 + |e|);
      }
    }
  }

  lemma RecordThenRest(s: seq<byte>, e: Epc, rest: seq<byte>)
    requires |s| >= 1 + |e|
    ensures s == Record(e) + rest <==> s[0] == |e| && s[1..1 + |e|] == e && s[1 + |e|..] == rest
  {
    if s[0] == |e| && s[1..1 + |e|] == e && s[1 + |e|..] == rest {
      assert s == [s[0]] + s[1..1 + |e|] + s[1 + |e|..];
    }
    if s == Record(e) + rest {
      assert s[1..1 + |e|] == e;
    }
  }

  lemma {:induction false} ReadBack(body: seq<byte>, p: nat, epcs: seq<Epc>, end: nat, n: nat)
    requires p <= end <= |body| && LieAt(body, p, epcs, end) && |epcs| <= n
    ensures RecordsAt(body, p, n) == epcs + RecordsAt(body, end, n - |epcs|)
    decreases |epcs|
  {
    if epcs != [] {
      var q := p + 1 + |epcs[0]|;
      ReadBack(body, q, epcs[1..], end, n - 1);
      assert RecordsAt(body, p, n) == [epcs[0]] + RecordsAt(body, q, n - 1);
    }
  }

  lemma {:induction false} WhatIsReadLies(body: seq<byte>, p: nat, n: nat) returns (end: nat)
    requires p <= |body|
    ensures p <= end <= |body| && LieAt(body, p, RecordsAt(body, p, n), end)
    ensures |RecordsAt(body, p, n)| < n ==> !CompleteAt(body, end)
    decreases n
  {
    if n == 0 || !CompleteAt(body, p) {
      end := p;
    } else {
      var q := p + 1 + body[p] as int;
      end := WhatIsReadLies(body, q, n - 1);
      assert RecordsAt(body, p, n)[1..] == RecordsAt(body, q, n - 1);
    }
  }

  /** From offset p on, the body starts with these records. */
  predicate StartsWith(body: seq<byte>, p: nat, epcs: seq<Epc>) {
    Records(epcs) <= if p <= |body| then body[p..] else []
  }

  /** It does, and no complete record can be added without exceeding the body or the count. */
  ghost predicate StartsWithLongest(body: seq<byte>, p: nat, n: nat, epcs: seq<Epc>) {
    && |epcs| <= n && StartsWith(body, p, epcs)
    && (|epcs| < n ==> forall e: Epc :: !StartsWith(body, p, epcs + [e]))
  }

  lemma LongestIsRead(body: seq<byte>, p: nat, n: nat)
    ensures StartsWithLongest(body, p, n, RecordsAt(body, p, n))
  {
    var epcs := RecordsAt(body, p, n);
    if p <= |body| {
      var end := WhatIsReadLies(body, p, n);
      LyingIsPrinting(body, p, epcs, end);
      assert body[p..end] <= body[p..];
    }
    forall e: Epc | |epcs| < n
      ensures !StartsWith(body, p, epcs + [e])
    {
      if StartsWith(body, p, epcs + [e]) {
        NonEmptyRecords(epcs + [e]);
        ReadingIsUnique(body, p, n, epcs + [e]);
        assert false;
      }
    }
  }

  lemma NonEmptyRecords(epcs: seq<Epc>)
    ensures epcs != [] ==> Records(epcs) != []
  {
  }

  /** What a body starts with is what is read, as far as the count allows. */
  lemma ReadingIsUnique(body: seq<byte>, p: nat, n: nat, epcs: seq<Epc>)
    requires StartsWith(body, p, epcs) && |epcs| <= n
    ensures |RecordsAt(body, p, n)| >= |epcs| && RecordsAt(body, p, n)[..|epcs|] == epcs
  {
    if p <= |body| {
      var end := p + |Records(epcs)|;
      assert body[p..end] == body[p..][..|Records(epcs)|] == Records(epcs);
      LyingIsPrinting(body, p, epcs, end);
      ReadBack(body, p, epcs, end, n);
    }
  }

  // ----- what the parsers accept -----

  /** The announced number of complete records stands between the tag count and the CRC. */
  predicate TagsAre(response: Frame, epcs: seq<Epc>)
    requires |response| >= 6
  {
    |epcs| == response[4] && Records(epcs) <= if |response| >= 7 then response[5..|response| - 2] else []
  }

  lemma TagsInBody(response: Frame, epcs: seq<Epc>)
    requires |response| >= 6
    ensures TagsAre(response, epcs) <==> |epcs| == response[4] && StartsWith(Body(response), 5, epcs)
  {
    if |response| >= 7 {
      assert Body(response)[5..] == response[5..|response| - 2];
    }
  }

  /** Exactly these frames are accepted: the no-tag reply, and a framed reply with a tag status
      whose tag count is followed by as many complete records as it announces. */
  lemma AcceptedExactly(response: Frame)
    ensures Classified(response).status == NO_RESPONSE <==> response == []
    ensures Classified(response).status == VALID <==>
              && |response| >= 6 && (response[0] == 0 || response[0] == |response| - 1) && response[2] == 0x01
              && (|| (|response| == 6 && response[0] == 5 && response[3] == 0xFB && HasValidCrc(Raw(response)))
                  || (1 <= response[3] <= 4 && exists epcs :: TagsAre(response, epcs)))
    ensures Classified(response).status != VALID ==> Classified(response).tags == []
  {
    if Framed(response) && IsTagStatus(response[3]) {
      var epcs := RecordsAt(Body(response), 5, response[4]);
      UnreadIsHex(Body(response), 5, response[4]);
      LongestIsRead(Body(response), 5, response[4]);
      TagsInBody(response, epcs);
      if |epcs| == response[4] {
        assert TagsAre(response, epcs);
      }
      if es :| TagsAre(response, es) {
        TagsInBody(response, es);
        ReadingIsUnique(Body(response), 5, response[4], es);
      }
    }
  }

  /** The tags of an accepted tag frame re-encode to what follows its tag count, and only they do. */
  lemma TagsReencode(response: Frame, epcs: seq<Epc>)
    requires Classified(response).status == VALID && 1 <= response[3] <= 4
    ensures TagsAre(response, RecordsAt(Body(response), 5, response[4]))
    ensures TagsAre(response, epcs) <==> HexAll(epcs) == Classified(response).tags
  {
    TagsInBody(response, RecordsAt(Body(response), 5, response[4]));
    TagsInBody(response, epcs);
    var read := RecordsAt(Body(response), 5, response[4]);
    UnreadIsHex(Body(response), 5, response[4]);
    LongestIsRead(Body(response), 5, response[4]);
    if TagsAre(response, epcs) {
      ReadingIsUnique(Body(response), 5, response[4], epcs);
      assert read == epcs;
    }
    if HexAll(epcs) == Classified(response).tags {
      HexAllIsInjective(epcs, read);
    }
  }

  /** An inventory reply built from a tag list. */
  function InventoryFrame(address: byte, status: byte, epcs: seq<Epc>, crc: bv16): (frame: Frame)
    requires |epcs| <= 255 && |Records(epcs)| + 6 <= 255
  {
    [|Records(epcs)| + 6, address, 0x01, status, |epcs|] + Records(epcs) + Trailer(crc)
  }

  /** Printing a tag list and classifying the frame gives the upper-case hex of every EPC. */
  lemma ClassifyUndoesPrint(address: byte, status: byte, epcs: seq<Epc>, crc: bv16)
    requires |epcs| <= 255 && |Records(epcs)| + 6 <= 255
    requires 1 <= status <= 4
    ensures Classified(InventoryFrame(address, status, epcs, crc)) == InventoryResult(VALID, HexAll(epcs))
  {
    var frame := InventoryFrame(address, status, epcs, crc);
    assert Body(frame)[5..] == Records(epcs);
    UnreadIsHex(Body(frame), 5, |epcs|);
    ReadingIsUnique(Body(frame), 5, |epcs|, epcs);
    assert RecordsAt(Body(frame), 5, |epcs|) == epcs;
  }

  /** Whatever the strict parser accepts, the lenient one reads the same way. Of every inventory reply
      with a tag status, cut short or not, the lenient one returns the longest list of complete records;
      where the strict one refuses a framed reply that list is shorter than announced. */
  lemma ParsersAgree(response: Frame)
    ensures Classified(response).status == VALID ==> Parsed(response) == Classified(response).tags
    ensures IsTagReply(response) ==>
              exists epcs ::
                && Parsed(response) == HexAll(epcs)
                && StartsWithLongest(Body(response), 5, response[4], epcs)
                && (Framed(response) && Classified(response).status != VALID ==> |epcs| < response[4])
    ensures !IsTagReply(response) ==> Parsed(response) == []
  {
    if IsTagReply(response) {
      UnreadIsHex(Body(response), 5, response[4]);
      LongestIsRead(Body(response), 5, response[4]);
      var epcs := RecordsAt(Body(response), 5, response[4]);
      assert Parsed(response) == HexAll(epcs);
    }
  }

  /** What the lenient parser looks at. */
  predicate IsTagReply(response: Frame) {
    |response| >= 6 && response[2] == 0x01 && 1 <= response[3] <= 4
  }

  /** A reply cut short on the serial line is never taken for a valid one. */
  lemma ShortReadsAreRefused(available: seq<byte>)
    requires Classified(ReadFrame(available)).status == VALID
    ensures available != [] && |available| > available[0]
    ensures SelfDelimiting(ReadFrame(available))
  {
  }

  // ----- hex text determines the bytes -----

  /** Two digits a byte, the high half first. */
  lemma {:induction false} HexDigits(bytes: seq<byte>, i: nat)
    requires i < |bytes|
    ensures |Hex(bytes)| == 2 * |bytes|
    ensures Hex(bytes)[2 * i] == "0123456789ABCDEF"[bytes[i] / 16]
    ensures Hex(bytes)[2 * i + 1] == "0123456789ABCDEF"[bytes[i] % 16]
  {
    HexOfCons(bytes);
    DigitIs(bytes[0] / 16);
    DigitIs(bytes[0] % 16);
    if i > 0 {
      HexDigits(bytes[1..], i - 1);
    } else if |bytes| > 1 {
      HexDigits(bytes[1..], 0);
    }
  }

  lemma DigitIs(n: nat)
    requires n < 16
    ensures Digit(n) == "0123456789ABCDEF"[n]
  {
  }

  lemma DigitsDiffer(i: nat, j: nat)
    requires i < 16 && j < 16 && Digit(i) == Digit(j)
    ensures i == j
  {
  }

  lemma {:induction false} HexIsInjective(a: seq<byte>, b: seq<byte>)
    requires Hex(a) == Hex(b)
    ensures a == b
    decreases |a|
  {
    if a == [] || b == [] {
    } else {
      HexOfCons(a);
      HexOfCons(b);
      DigitsDiffer(a[0] / 16, b[0] / 16);
      DigitsDiffer(a[0] % 16, b[0] % 16);
      HexIsInjective(a[1..], b[1..]);
      Seqs.HeadAndTail(a);
      Seqs.HeadAndTail(b);
    }
  }

  lemma HexOfCons(a: seq<byte>)
    requires a != []
    ensures |Hex(a)| >= 2 && Hex(a)[0] == Digit(a[0] / 16) && Hex(a)[1] == Digit(a[0] % 16)
    ensures Hex(a)[2..] == Hex(a[1..])
  {
  }

  lemma {:induction false} HexAllIsInjective(a: seq<Epc>, b: seq<Epc>)
    requires HexAll(a) == HexAll(b)
    ensures a == b
    decreases |a|
  {
    if a == [] || b == [] {
    } else {
      assert HexAll(a)[0] == HexAll(b)[0] && HexAll(a)[1..] == HexAll(b)[1..];
      HexIsInjective(a[0], b[0]);
      HexAllIsInjective(a[1..], b[1..]);
      Seqs.HeadAndTail(a);
      Seqs.HeadAndTail(b);
    }
  }
}
