/** The register starts with all ones, and two frames recorded from the device. */
module CrcPreset {
  import opened Crc16
  import opened CrcTheorems
  import opened Frames
  import opened Inventory

  // ----- a preset of all ones complements the first two bytes -----

  lemma TwoBytes(c: bv16, a: bv8, b: bv8, rest: seq<bv8>)
    ensures BitFeed(c, MessageBits([a, b] + rest))
         == BitFeed(BitFeed(BitFeed(c, ByteBits(a)), ByteBits(b)), MessageBits(rest))
  {
    var tail := [b] + rest;
    assert [a, b] + rest == [a] + tail;
    assert ([a] + tail)[1..] == tail && tail[1..] == rest;
    BitFeedAppend(c, ByteBits(a), MessageBits(tail));
    BitFeedAppend(BitFeed(c, ByteBits(a)), ByteBits(b), MessageBits(rest));
  }

  lemma FirstByte(a: bv8)
    ensures BitFeed(0xFFFF, ByteBits(a)) == Xor(BitFeed(0, ByteBits(!a)), 0x00FF)
  {
    ByteAtOnce(0xFFFF, a);
    ByteAtOnce(0, !a);
    StepsAreLinear(Xor(0, !a as bv16), 0xFF00, 8);
    Complements(0, a);
    HighHalfComesDown();
  }

  lemma SecondByte(c: bv16, b: bv8)
    ensures BitFeed(Xor(c, 0x00FF), ByteBits(b)) == BitFeed(c, ByteBits(!b))
  {
    ByteAtOnce(Xor(c, 0x00FF), b);
    ByteAtOnce(c, !b);
    Complements(c, b);
  }

  lemma Complements(c: bv16, b: bv8)
    ensures Xor(Xor(c, 0x00FF), b as bv16) == Xor(c, !b as bv16)
    ensures Xor(0xFFFF, b as bv16) == Xor(Xor(0, !b as bv16), 0xFF00)
  {
  }

  lemma HighHalfComesDown()
    ensures BitSteps(0xFF00, 8) == 0x00FF
  {
    StepsAdd(0xFF00, 4, 4);
  }

  /** The preset, without naming it: the checksum is what a register that starts with zero makes of the message
      with its first two bytes complemented. */
  lemma PresetComplementsTwoBytes(a: bv8, b: bv8, rest: seq<bv8>)
    ensures Checksum([a, b] + rest) == BitFeed(0, MessageBits([!a, !b] + rest))
  {
    TwoBytes(INITIAL, a, b, rest);
    TwoBytes(0, !a, !b, rest);
    FirstByte(a);
    SecondByte(BitFeed(0, ByteBits(!a)), b);
  }

  /** That no other preset does, for no message. */
  lemma OnlyThisPreset(c: bv16, a: bv8, b: bv8, rest: seq<bv8>)
    ensures BitFeed(c, MessageBits([a, b] + rest)) == BitFeed(0, MessageBits([!a, !b] + rest)) <==> c == 0xFFFF
  {
    PresetComplementsTwoBytes(a, b, rest);
    if BitFeed(c, MessageBits([a, b] + rest)) == BitFeed(0, MessageBits([!a, !b] + rest)) {
      FeedIsInjective(c, INITIAL, MessageBits([a, b] + rest));
    }
  }

  // ----- two recorded frames -----

  lemma NextByte(data: seq<bv8>, b: bv8, before: bv16, x: bv16)
    requires Checksum(data) == before && x == Xor(before, b as bv16)
    ensures Checksum(data + [b]) == BitSteps(BitSteps(x, 4), 4)
  {
    MessageBitsSnoc(data, b);
    BitFeedAppend(INITIAL, MessageBits(data), ByteBits(b));
    ByteAtOnce(Checksum(data), b);
    StepsAdd(x, 4, 4);
  }

  lemma FourSteps(x: bv16, y: bv16, z: bv16, u: bv16, v: bv16, n: nat)
    requires n >= 4 && y == Next(x) && z == Next(y) && u == Next(z) && v == Next(u)
    ensures BitSteps(x, n) == BitSteps(v, n - 4)
  {
    OneStep(x, n);
    OneStep(y, n - 1);
    OneStep(z, n - 2);
    OneStep(u, n - 3);
  }

  lemma OneStep(x: bv16, n: nat)
    requires n > 0
    ensures BitSteps(x, n) == BitSteps(Next(x), n - 1)
  {
    LoopBody(x);
  }

  function Next(x: bv16): bv16 {
    if x & 1 == 1 then (x >> 1) ^ 0x8408 else x >> 1
  }

  lemma ReplyRegisters()
    ensures BitSteps(0xFFFA, 4) == 0xAAF5 && BitSteps(0xAAF5, 4) == 0x582A
    ensures BitSteps(0x582A, 4) == 0xA088 && BitSteps(0xA088, 4) == 0x8E00
    ensures BitSteps(0x8E01, 4) == 0x1861 && BitSteps(0x1861, 4) == 0x1107
    ensures BitSteps(0x11FC, 4) == 0xC713 && BitSteps(0xC713, 4) == 0x3DF2
  {
    FourSteps(0xFFFA, 0x7FFD, 0xBBF6, 0x5DFB, 0xAAF5, 4);
    FourSteps(0xAAF5, 0xD172, 0x68B9, 0xB054, 0x582A, 4);
    FourSteps(0x582A, 0x2C15, 0x9202, 0x4901, 0xA088, 4);
    FourSteps(0xA088, 0x5044, 0x2822, 0x1411, 0x8E00, 4);
    FourSteps(0x8E01, 0xC308, 0x6184, 0x30C2, 0x1861, 4);
    FourSteps(0x1861, 0x8838, 0x441C, 0x220E, 0x1107, 4);
    FourSteps(0x11FC, 0x08FE, 0x047F, 0x8637, 0xC713, 4);
    FourSteps(0xC713, 0xE781, 0xF7C8, 0x7BE4, 0x3DF2, 4);
  }

  lemma ReplyChecksum()
    ensures Checksum([0x05, 0x00, 0x01, 0xFB]) == 0x3DF2
  {
    var none: seq<bv8> := [];
    ReplyRegisters();
    NextByte(none, 0x05, 0xFFFF, 0xFFFA);
    NextByte(none + [0x05], 0x00, 0x582A, 0x582A);
    NextByte(none + [0x05] + [0x00], 0x01, 0x8E00, 0x8E01);
    NextByte(none + [0x05] + [0x00] + [0x01], 0xFB, 0x1107, 0x11FC);
    assert [0x05, 0x00, 0x01, 0xFB] == none + [0x05] + [0x00] + [0x01] + [0xFB];
  }

  lemma CommandRegisters()
    ensures BitSteps(0xFFFB, 4) == 0xBA74 && BitSteps(0xBA74, 4) == 0x49A3
    ensures BitSteps(0x49A3, 4) == 0x3519 && BitSteps(0x3519, 4) == 0x97D8
    ensures BitSteps(0x97D9, 4) == 0x9DF4 && BitSteps(0x9DF4, 4) == 0x4BDB
  {
    FourSteps(0xFFFB, 0xFBF5, 0xF9F2, 0x7CF9, 0xBA74, 4);
    FourSteps(0xBA74, 0x5D3A, 0x2E9D, 0x9346, 0x49A3, 4);
    FourSteps(0x49A3, 0xA0D9, 0xD464, 0x6A32, 0x3519, 4);
    FourSteps(0x3519, 0x9E84, 0x4F42, 0x27A1, 0x97D8, 4);
    FourSteps(0x97D9, 0xCFE4, 0x67F2, 0x33F9, 0x9DF4, 4);
    FourSteps(0x9DF4, 0x4EFA, 0x277D, 0x97B6, 0x4BDB, 4);
  }

  lemma CommandChecksum()
    ensures Checksum([0x04, 0x00, 0x01]) == 0x4BDB
  {
    var none: seq<bv8> := [];
    CommandRegisters();
    NextByte(none, 0x04, 0xFFFF, 0xFFFB);
    NextByte(none + [0x04], 0x00, 0x49A3, 0x49A3);
    NextByte(none + [0x04] + [0x00], 0x01, 0x97D8, 0x97D9);
    assert [0x04, 0x00, 0x01] == none + [0x04] + [0x00] + [0x01];
  }

  lemma TwoWords()
    ensures Word(0xF2, 0x3D) == 0x3DF2 && Trailer(0x4BDB) == [0xDB, 0x4B]
  {
  }

  lemma RawReply(reply: Frame)
    requires reply == [0x05, 0x00, 0x01, 0xFB, 0xF2, 0x3D]
    ensures |Raw(reply)| == 6 && Raw(reply)[..4] == [0x05, 0x00, 0x01, 0xFB]
    ensures Raw(reply)[4] == 0xF2 && Raw(reply)[5] == 0x3D
  {
  }

  /** The reply recorded from the device when no tag is in range is accepted. */
  lemma RecordedReplyIsValid(reply: Frame)
    requires reply == [0x05, 0x00, 0x01, 0xFB, 0xF2, 0x3D]
    ensures IsNoTagResponse(reply) && Classified(reply) == InventoryResult(VALID, [])
  {
    RawReply(reply);
    ReplyChecksum();
    TwoWords();
  }

  /** And this is the command that asks it. */
  lemma RecordedCommandIsBuilt()
    ensures InventoryCommand(0x00) == [0x04, 0x00, 0x01, 0xDB, 0x4B]
  {
    var body: Frame := [4, 0, 1];
    assert Raw(body) == [0x04, 0x00, 0x01];
    CommandChecksum();
    TwoWords();
    assert body == [2 + 2, 0, INVENTORY_COMMAND] + [];
  }
}
