/** What verifying, connecting and discovery come to, in terms of the bytes that arrive. */
module ReaderTheorems {
  import opened Wrappers
  import opened Streams
  import opened Frames
  import opened SerialLine
  import opened Reader

  /** What the read rule makes of the bytes that arrive for the k-th command. */
  function ReplyAt(w: Wiring, k: nat): Frame {
    match w.arrivals.At(k)
    case Fault(_, _) => []
    case Bytes(available) => ReadFrame(available)
  }

  /** The reply is long enough, and of the kind that was asked. */
  predicate InKind(reply: Frame, asked: Frame) {
    |reply| >= 5 && |asked| >= 3 && reply[2] == asked[2]
  }

  /** A work-mode reply that says ANSWER. */
  predicate SaysAnswer(reply: Frame) {
    |reply| >= 5 && reply[2] == 0x36 && reply[4] == 0x00
  }

  /** If a work-mode reply arrives, alone or with more behind it, its mode is the one returned. */
  lemma ModeIsReadBack(w: Wiring, k: nat, address: byte, status: byte, mode: byte, tail: seq<byte>, more: seq<byte>)
    requires |tail| <= 249 && w.arrivals.At(k) == Bytes(WorkModeReply(address, status, mode, tail) + more)
    ensures ModeResult(w, k) == Success(Some(mode))
  {
    WorkModeIsReadBack(address, status, mode, tail, more);
  }

  /** What the third byte of the commands says. */
  predicate ToldApart(c: Commands) {
    && |c.readerInfo| >= 3 && |c.getWorkMode| >= 3 && |c.setAnswerMode| >= 3
    && c.readerInfo[2] == 0x21 && c.getWorkMode[2] == 0x36 && c.setAnswerMode[2] == 0x35
  }

  lemma CommandsAreToldApart(c: Commands, address: byte)
    requires AreFor(c, address)
    ensures ToldApart(c)
  {
    assert c == CommandsFor(address);
    CommandFrame(BROADCAST_ADDRESS, GET_READER_INFO_COMMAND, []);
    CommandFrame(address, GET_WORK_MODE_COMMAND, []);
    CommandFrame(address, SET_WORK_MODE_COMMAND, ANSWER_MODE_PARAMS);
  }

  lemma AnsweredInKind(w: Wiring, k: nat, command: byte, asked: Frame)
    requires |asked| >= 3 && asked[2] == command
    ensures Answered(w, k, command) <==> w.arrivals.At(k).Bytes? && InKind(ReplyAt(w, k), asked)
  {
  }

  lemma AnswerInBytes(w: Wiring, k: nat)
    ensures AnswersAnswer(w, k) <==> w.arrivals.At(k).Bytes? && SaysAnswer(ReplyAt(w, k))
  {
    if w.arrivals.At(k).Bytes? {
      WorkModeInBytes(ReplyAt(w, k), 0x00);
    }
  }

  // ----- verifying -----

  /** A second query is sent exactly when the method is AUTO and the first is answered, but not in kind; the
      reader verifies exactly when the last query is answered in kind, and none failed. */
  predicate VerifiesByKind(w: Wiring, k: nat, m: VerifyMethod, frames: seq<Frame>) {
    var n := |frames|;
    && (n == 0 <==> m.UNSUPPORTED?) && n <= 2
    && (n == 2 <==> m == AUTO && w.arrivals.At(k).Bytes? && !InKind(ReplyAt(w, k), frames[0]))
    && (VerificationPasses(w, k, m) <==>
          n > 0 && AllAnswered(w, k, k + n) && InKind(ReplyAt(w, k + n - 1), frames[n - 1]))
  }

  lemma VerifiesExactlyWhen(w: Wiring, k: nat, m: VerifyMethod, c: Commands)
    requires ToldApart(c)
    ensures VerifiesByKind(w, k, m, VerifyFrames(w, k, m, c))
  {
    AnsweredInKind(w, k, 0x21, c.readerInfo);
    AnsweredInKind(w, k, 0x36, c.getWorkMode);
    AnsweredInKind(w, k + 1, 0x36, c.getWorkMode);
  }

  // ----- connecting -----

  /** No command failed, and the last one sent is a work-mode query whose reply says ANSWER. */
  predicate EndsInAnswer(w: Wiring, k: nat, frames: seq<Frame>) {
    var n := |frames|;
    && n > 0 && AllAnswered(w, k, k + n)
    && |frames[n - 1]| >= 3 && frames[n - 1][2] == 0x36 && SaysAnswer(ReplyAt(w, k + n - 1))
  }

  lemma CompliesExactlyWhen(w: Wiring, k: nat, autoConfigureReader: bool, c: Commands)
    requires ToldApart(c)
    ensures Complies(w, k, autoConfigureReader) <==> EndsInAnswer(w, k, ModeFrames(w, k, autoConfigureReader, c))
  {
    AnswerInBytes(w, k);
    AnswerInBytes(w, k + 2);
    AnsweredInKind(w, k + 1, 0x35, c.setAnswerMode);
  }

  lemma LastOfBoth(w: Wiring, k: nat, a: seq<Frame>, b: seq<Frame>)
    requires b != [] && AllAnswered(w, k, k + |a|)
    ensures EndsInAnswer(w, k, a + b) <==> EndsInAnswer(w, k + |a|, b)
  {
    assert (a + b)[|a + b| - 1] == b[|b| - 1];
    assert AllAnswered(w, k, k + |a + b|) <==> AllAnswered(w, k + |a|, k + |a| + |b|);
  }

  lemma OnlyInKind(w: Wiring, k: nat, m: VerifyMethod, frames: seq<Frame>)
    requires VerifiesByKind(w, k, m, frames) && !VerificationPasses(w, k, m)
    ensures !EndsInAnswer(w, k, frames)
  {
  }

  lemma ReaderCompliesExactlyWhen(w: Wiring, k: nat, m: VerifyMethod, autoConfigureReader: bool, c: Commands)
    requires ToldApart(c)
    ensures VerificationPasses(w, k, m) && Complies(w, k + VerifyCommands(w, k, m), autoConfigureReader) <==>
              EndsInAnswer(w, k, ReaderFrames(w, k, m, autoConfigureReader, c))
  {
    var a := VerifyFrames(w, k, m, c);
    VerifiesExactlyWhen(w, k, m, c);
    if VerificationPasses(w, k, m) {
      CompliesExactlyWhen(w, k + |a|, autoConfigureReader, c);
      LastOfBoth(w, k, a, ModeFrames(w, k + |a|, autoConfigureReader, c));
    } else {
      assert a + [] == a;
      OnlyInKind(w, k, m, a);
    }
  }

  /** Connecting ends READY exactly when the port opens and it ends in ANSWER. */
  lemma ReadyExactlyWhen(w: Wiring, h: nat, k: nat, m: VerifyMethod, autoConfigureReader: bool, c: Commands,
                         address: byte)
    requires AreFor(c, address)
    ensures Connects(w, h, k, m, autoConfigureReader) <==>
              w.opens.At(h).Opens? && EndsInAnswer(w, k, ConnectFrames(w, h, k, m, autoConfigureReader, c))
  {
    CommandsAreToldApart(c, address);
    ReaderCompliesExactlyWhen(w, k, m, autoConfigureReader, c);
  }

  // ----- discovery -----

  /** The i-th candidate opens and verifies when its turn to be probed comes. */
  predicate Answers(w: Wiring, h: nat, k: nat, m: VerifyMethod, i: nat) {
    w.opens.At(h + i).Opens? && VerificationPasses(w, k + ProbeCommands(w, h, k, m, i), m)
  }

  /** Which of the first n do. */
  function Answering(w: Wiring, h: nat, k: nat, m: VerifyMethod, n: nat): (answering: seq<bool>)
    ensures |answering| == n && forall i :: 0 <= i < n ==> answering[i] == Answers(w, h, k, m, i)
  {
    seq(n, i requires 0 <= i < n => Answers(w, h, k, m, i))
  }

  predicate OnlyAt(answering: seq<bool>, i: nat) {
    i < |answering| && answering[i] && forall j :: 0 <= j < |answering| && j != i ==> !answering[j]
  }

  function Picked(candidates: seq<string>, answering: seq<bool>): seq<string>
    requires |answering| <= |candidates|
    decreases |answering|
  {
    if answering == [] then [] else
      var n := |answering| - 1;
      Picked(candidates, answering[..n]) + if answering[n] then [candidates[n]] else []
  }

  lemma LastProbed(w: Wiring, h: nat, k: nat, m: VerifyMethod, candidates: seq<string>, n: nat)
    requires 0 < n <= |candidates|
    ensures Supported(w, h, k, m, candidates, n)
         == Supported(w, h, k, m, candidates, n - 1) + if Answers(w, h, k, m, n - 1) then [candidates[n - 1]] else []
  {
  }

  lemma {:induction false} SupportedArePicked(w: Wiring, h: nat, k: nat, m: VerifyMethod, candidates: seq<string>,
                                              answering: seq<bool>)
    requires |answering| <= |candidates|
    requires forall i :: 0 <= i < |answering| ==> answering[i] == Answers(w, h, k, m, i)
    ensures Supported(w, h, k, m, candidates, |answering|) == Picked(candidates, answering)
    decreases |answering|
  {
    if answering != [] {
      var n := |answering|;
      SupportedArePicked(w, h, k, m, candidates, answering[..n - 1]);
      LastProbed(w, h, k, m, candidates, n);
    }
  }

  lemma {:induction false} PickedAre(candidates: seq<string>, answering: seq<bool>)
    requires |answering| <= |candidates|
    ensures Picked(candidates, answering) == [] <==> forall j :: 0 <= j < |answering| ==> !answering[j]
    ensures |Picked(candidates, answering)| == 1 <==> exists i: nat :: OnlyAt(answering, i)
    ensures forall i: nat :: OnlyAt(answering, i) ==> Picked(candidates, answering) == [candidates[i]]
    decreases |answering|
  {
    if answering != [] {
      var n := |answering| - 1;
      PickedAre(candidates, answering[..n]);
      if answering[n] {
        assert (forall j :: 0 <= j < n ==> !answering[..n][j]) <==> OnlyAt(answering, n);
      } else {
        forall i: nat
          ensures OnlyAt(answering, i) <==> OnlyAt(answering[..n], i)
        {
          assert i < n ==> answering[..n][i] == answering[i];
        }
      }
    }
  }

  /** A port is selected exactly when one candidate alone answers, and then it is that one; otherwise the message
      says whether none did or several. */
  lemma SelectedExactlyWhen(w: Wiring, h: nat, k: nat, m: VerifyMethod, candidates: seq<string>)
    ensures var found, answering := Discovered(w, h, k, m, candidates), Answering(w, h, k, m, |candidates|);
            && (found.selectedPort.Some? <==> exists i: nat :: OnlyAt(answering, i))
            && (forall i: nat :: OnlyAt(answering, i) ==> found.selectedPort == Some(candidates[i]))
            && (found.message == NoneFound <==> forall j :: 0 <= j < |candidates| ==> !answering[j])
            && (found.message == Selected <==> found.selectedPort.Some?)
            && (found.message == NoneFound || found.message == Selected || found.message == ManyFound)
  {
    SupportedArePicked(w, h, k, m, candidates, Answering(w, h, k, m, |candidates|));
    PickedAre(candidates, Answering(w, h, k, m, |candidates|));
  }
}
