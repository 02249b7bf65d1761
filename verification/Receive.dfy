/**
 Receiving: cut frames out of the buffer, answer what can be answered at once, read more when no frame
 is complete.  The result is related to what the whole byte stream causes, however it was divided.
 */
module Receive {
  import opened Bytes
  import opened Frames
  import opened Buffers
  import opened Powers
  import opened StreamIo

  /**
   How a call ends; an error of the kind `UnexpectedEof` and the end of the stream are one to callers.
   `Broken(LengthOverflow)` stands for a panic.
   */
  datatype Outcome = Pending | Ready(received: Received) | IoError | EndOfStream | Broken(fault: Fault)

  /**
   A call and what it leaves: the items met, in order; the bytes read; whether the last fill had a read
   that filled the buffer exactly; and the most bytes held at any time.
   */
  datatype RecvRun = RecvRun(
    outcome: Outcome,
    buffer: BufferState,
    script: seq<ReadStep>,
    items: seq<Item>,
    taken: seq<Byte>,
    grew: bool,
    most: nat)

  /** `UntilRoom` is the policy of the source; `OnceThenCut` looks for a frame after every single read. */
  datatype FillPolicy = UntilRoom | OnceThenCut

  function FillOnce(b: BufferState, script: seq<ReadStep>): FillRun
    requires |b.data| < b.cap
  {
    var (result, left) := ReadOnce(script, b.cap - |b.data|);
    match result
    case ReadPending => FillRun(FillPending, b, left, false)
    case ReadFailed(kind) => FillRun(FillFailed(kind), b, left, false)
    case Got(bytes) =>
      var data := b.data + bytes;
      FillRun(Filled(|bytes|), BufferState(data, if |data| < b.cap then b.cap else 2 * b.cap), left, false)
  }

  function FillBy(policy: FillPolicy, b: BufferState, script: seq<ReadStep>): FillRun
    requires |b.data| < b.cap
  {
    if policy.UntilRoom? then Fill(b, script) else FillOnce(b, script)
  }

  lemma FillByConserves(policy: FillPolicy, b: BufferState, script: seq<ReadStep>)
    requires |b.data| < b.cap
    ensures var run := FillBy(policy, b, script);
            && b.data <= run.buffer.data
            && BytesOf(script) == run.buffer.data[|b.data|..] + BytesOf(run.script)
            && |run.buffer.data| < run.buffer.cap
            && (run.outcome.Filled? && run.outcome.count != 0 ==>
                  && Weight(run.script) + |run.buffer.data| <= Weight(script) + |b.data|
                  && Weight(run.script) < Weight(script))
  {
    hide Fill, ReadOnce, BytesOf, Weight;
    if policy.UntilRoom? {
      FillConserves(b, script);
    } else {
      ReadConserves(script, b.cap - |b.data|);
      var (result, left) := ReadOnce(script, b.cap - |b.data|);
      if result.Got? {
        assert (b.data + result.bytes)[|b.data|..] == result.bytes;
      }
    }
  }

  function Failure(kind: ErrorKind): Outcome {
    if kind.UnexpectedEof? then EndOfStream else IoError
  }

  /** One call.  It consumes frames until one is for the caller, or none is complete and no byte comes. */
  function Recv(config: Config, policy: FillPolicy, b: BufferState, script: seq<ReadStep>): (run: RecvRun)
    requires |b.data| < b.cap
    ensures |run.buffer.data| < run.buffer.cap
    decreases Weight(script) + |b.data|, Weight(script)
  {
    var (cut, rest) := CutBuffer(config.codec, b);
    match cut
    case CutOverflow => RecvRun(Broken(LengthOverflow), rest, script, [Fatal(LengthOverflow)], [], false, |b.data|)
    case CutBadHeader => RecvRun(Broken(UnreadableHeader), rest, script, [Fatal(UnreadableHeader)], [], false, |b.data|)
    case CutFrame(header, bytes) =>
      var item := React(config, header, bytes);
      (match item
       case Deliver(received) => RecvRun(Ready(received), rest, script, [item], [], false, |b.data|)
       case Fatal(fault) => RecvRun(Broken(fault), rest, script, [item], [], false, |b.data|)
       case Reply(_) =>
         var more := Recv(config, policy, rest, script);
         more.(items := [item] + more.items, most := Max(|b.data|, more.most)))
    case NoFrame =>
      FillByConserves(policy, b, script);
      var fill := FillBy(policy, b, script);
      var taken := fill.buffer.data[|b.data|..];
      (match fill.outcome
       case FillPending => RecvRun(Pending, fill.buffer, fill.script, [], taken, fill.grew, |fill.buffer.data|)
       case FillFailed(kind) =>
         RecvRun(Failure(kind), fill.buffer, fill.script, [], taken, fill.grew, |fill.buffer.data|)
       case Filled(count) =>
         if count == 0 then
           RecvRun(EndOfStream, fill.buffer, fill.script, [], taken, fill.grew, |fill.buffer.data|)
         else
           var more := Recv(config, policy, fill.buffer, fill.script);
           more.(taken := taken + more.taken))
  }

  /** A run that first met `items` and held up to `held` bytes. */
  function Preceded(items: seq<Item>, held: nat, run: RecvRun): RecvRun {
    run.(items := items + run.items, most := Max(held, run.most))
  }

  /** One frame answered at once, then the rest of the run. */
  lemma RecvStep(items: seq<Item>, held: nat, config: Config, policy: FillPolicy,
      b: BufferState, script: seq<ReadStep>)
    requires |b.data| < b.cap
    requires var cut := CutBuffer(config.codec, b).0; cut.CutFrame? && React(config, cut.header, cut.bytes).Reply?
    ensures var (cut, rest) := CutBuffer(config.codec, b);
            && |rest.data| < rest.cap
            && (Preceded(items, held, Recv(config, policy, b, script))
                == Preceded(items + [React(config, cut.header, cut.bytes)], Max(held, |b.data|),
                            Recv(config, policy, rest, script)))
  {
    hide React, CutBuffer, HeadOf;
    var (cut, rest) := CutBuffer(config.codec, b);
    CutCases(config, b);
    var item, more := React(config, cut.header, cut.bytes), Recv(config, policy, rest, script);
    assert items + ([item] + more.items) == items + [item] + more.items;
  }

  /** The other ways a call can go on. */
  lemma RecvEnds(config: Config, policy: FillPolicy, b: BufferState, script: seq<ReadStep>)
    requires |b.data| < b.cap
    ensures var (cut, rest) := CutBuffer(config.codec, b);
            var run := Recv(config, policy, b, script);
            match cut
            case CutOverflow =>
              run == RecvRun(Broken(LengthOverflow), rest, script, [Fatal(LengthOverflow)], [], false, |b.data|)
            case CutBadHeader =>
              run == RecvRun(Broken(UnreadableHeader), rest, script, [Fatal(UnreadableHeader)], [], false, |b.data|)
            case CutFrame(header, bytes) =>
              (match React(config, header, bytes)
               case Deliver(received) =>
                 run == RecvRun(Ready(received), rest, script, [Deliver(received)], [], false, |b.data|)
               case Fatal(fault) => run == RecvRun(Broken(fault), rest, script, [Fatal(fault)], [], false, |b.data|)
               case Reply(_) => true)
            case NoFrame =>
              var fill := FillBy(policy, b, script);
              if fill.outcome.Filled? && fill.outcome.count != 0 then
                && |fill.buffer.data| < fill.buffer.cap
                && var more := Recv(config, policy, fill.buffer, fill.script);
                  run.items == more.items && run.outcome == more.outcome && run.buffer == more.buffer
                      && run.script == more.script
              else
                && run.items == [] && run.buffer == fill.buffer && run.script == fill.script
                && run.outcome == (if fill.outcome.FillPending? then Pending
                                   else if fill.outcome.FillFailed? then Failure(fill.outcome.kind)
                                   else EndOfStream)
  {
    hide React, CutBuffer, FillBy;
    FillByConserves(policy, b, script);
  }

  /** What is left of the data behind its first `n` frames. */
  function AfterFrames(data: seq<Byte>, n: nat): seq<Byte>
    decreases n
  {
    if n > 0 && HeadOf(data).Whole? then AfterFrames(data[8 + |HeadOf(data).payload|..], n - 1) else data
  }

  predicate NoFatal(items: seq<Item>) {
    forall item :: item in items ==> !item.Fatal?
  }

  /** The contract of a call, between what was buffered before it and what it leaves. */
  ghost predicate Refines(config: Config, data: seq<Byte>, script: seq<ReadStep>, run: RecvRun) {
    && BytesOf(script) == run.taken + BytesOf(run.script)
    && (if run.outcome.Broken? then
          Items(config, data + run.taken) == run.items
        else
          && Items(config, data + run.taken) == run.items + Items(config, run.buffer.data)
          && NoFatal(run.items)
          && run.buffer.data == AfterFrames(data + run.taken, |run.items|))
    && |run.buffer.data| <= |data| + |run.taken|
  }

  lemma CutCases(config: Config, b: BufferState)
    requires |b.data| < b.cap
    ensures CutBuffer(config.codec, b).0.CutFrame?
        ==> |CutBuffer(config.codec, b).1.data| < CutBuffer(config.codec, b).1.cap
    ensures var (cut, rest) := CutBuffer(config.codec, b);
            match cut
            case NoFrame => HeadOf(b.data).Partial? && rest == b
            case CutOverflow => HeadOf(b.data).Oversized? && rest == b
            case CutBadHeader =>
              && HeadOf(b.data).Whole? && ItemOf(config, HeadOf(b.data).payload) == Fatal(UnreadableHeader)
              && |rest.data| <= |b.data|
            case CutFrame(header, bytes) =>
              && HeadOf(b.data).Whole? && ItemOf(config, HeadOf(b.data).payload) == React(config, header, bytes)
              && rest.data == b.data[8 + |HeadOf(b.data).payload|..]
  {
  }

  /** Items of a stream that starts with a whole frame. */
  lemma ItemsOfFrame(config: Config, data: seq<Byte>, more: seq<Byte>, n: nat)
    requires HeadOf(data).Whole?
    ensures var payload := HeadOf(data).payload;
            var item, rest := ItemOf(config, payload), data[8 + |payload|..];
            && Items(config, data + more) == (if item.Fatal? then [item] else [item] + Items(config, rest + more))
            && AfterFrames(data + more, n + 1) == AfterFrames(rest + more, n)
  {
    HeadIsStable(data, more);
  }

  /**
   A call meets exactly the items the stream causes next, consumes exactly their frames, and loses or
   repeats no byte: the items met now and the items still in the buffer are the items of everything
   received, whatever the division into reads.
   */
  lemma {:induction false} RecvRefines(config: Config, policy: FillPolicy, b: BufferState, script: seq<ReadStep>)
    requires |b.data| < b.cap
    ensures Refines(config, b.data, script, Recv(config, policy, b, script))
    decreases Weight(script) + |b.data|, Weight(script)
  {
    hide HeadOf, React, Refines, BytesOf, Weight, FillBy, CutBuffer;
    var (cut, rest) := CutBuffer(config.codec, b);
    var run := Recv(config, policy, b, script);
    CutCases(config, b);
    match cut
    case CutOverflow => BrokenAtOnce(config, b.data, script, run);
    case CutBadHeader => BrokenAtOnce(config, b.data, script, run);
    case CutFrame(header, bytes) =>
      var item := React(config, header, bytes);
      if item.Reply? {
        RecvRefines(config, policy, rest, script);
        ReplyThenMore(config, b.data, script, Recv(config, policy, rest, script), run.most);
      } else if item.Deliver? {
        DeliveredAtOnce(config, b.data, script, run);
      } else {
        BrokenAtOnce(config, b.data, script, run);
      }
    case NoFrame =>
      FillByConserves(policy, b, script);
      var fill := FillBy(policy, b, script);
      if fill.outcome.Filled? && fill.outcome.count != 0 {
        RecvRefines(config, policy, fill.buffer, fill.script);
        FillThenMore(config, b.data, script, fill, Recv(config, policy, fill.buffer, fill.script));
      } else {
        NothingCut(config, b.data, script, run);
      }
  }

  lemma ReplyThenMore(config: Config, data: seq<Byte>, script: seq<ReadStep>, more: RecvRun,
      most: nat)
    requires HeadOf(data).Whole? && ItemOf(config, HeadOf(data).payload).Reply?
    requires Refines(config, data[8 + |HeadOf(data).payload|..], script, more)
    ensures Refines(config, data, script, 
              more.(items := [ItemOf(config, HeadOf(data).payload)] + more.items, most := most))
  {
    hide BytesOf, HeadOf, ItemOf, Items, AfterFrames;
    var item := ItemOf(config, HeadOf(data).payload);
    ItemsOfFrame(config, data, more.taken, |more.items|);
    assert [item] + more.items + Items(config, more.buffer.data)
        == [item] + (more.items + Items(config, more.buffer.data));
  }

  lemma FillThenMore(config: Config, data: seq<Byte>, script: seq<ReadStep>, fill: FillRun,
      more: RecvRun)
    requires data <= fill.buffer.data && BytesOf(script) == fill.buffer.data[|data|..] + BytesOf(fill.script)
    requires Refines(config, fill.buffer.data, fill.script, more)
    ensures Refines(config, data, script, more.(taken := fill.buffer.data[|data|..] + more.taken))
  {
    hide BytesOf, Items, AfterFrames;
    var taken := fill.buffer.data[|data|..];
    assert data + (taken + more.taken) == fill.buffer.data + more.taken;
    assert taken + more.taken + BytesOf(more.script) == taken + (more.taken + BytesOf(more.script));
  }

  lemma BrokenAtOnce(config: Config, data: seq<Byte>, script: seq<ReadStep>, run: RecvRun)
    requires run.outcome.Broken? && run.taken == [] && run.script == script && |run.buffer.data| <= |data|
    requires run.items == [Fatal(run.outcome.fault)]
    requires if HeadOf(data).Whole? then ItemOf(config, HeadOf(data).payload) == Fatal(run.outcome.fault)
             else HeadOf(data).Oversized? && run.outcome.fault == LengthOverflow
    ensures Refines(config, data, script, run)
  {
    assert data + [] == data;
  }

  lemma DeliveredAtOnce(config: Config, data: seq<Byte>, script: seq<ReadStep>, run: RecvRun)
    requires run.outcome.Ready? && run.taken == [] && run.script == script
    requires HeadOf(data).Whole? && run.items == [ItemOf(config, HeadOf(data).payload)] && run.items[0].Deliver?
    requires run.buffer.data == data[8 + |HeadOf(data).payload|..]
    ensures Refines(config, data, script, run)
  {
    assert data + [] == data;
    assert AfterFrames(run.buffer.data, 0) == run.buffer.data;
  }

  lemma NothingCut(config: Config, data: seq<Byte>, script: seq<ReadStep>, run: RecvRun)
    requires !run.outcome.Broken? && run.items == []
    requires run.buffer.data == data + run.taken && BytesOf(script) == run.taken + BytesOf(run.script)
    ensures Refines(config, data, script, run)
  {
  }

  predicate AllReplies(items: seq<Item>) {
    forall item :: item in items ==> item.Reply?
  }

  /**
   What a call answers is the last item it met, if that is for the caller or a fault; all others were
   answered at once.
   */
  predicate AnswersLast(outcome: Outcome, items: seq<Item>) {
    match outcome
    case Ready(received) =>
      items != [] && items[|items| - 1] == Deliver(received) && AllReplies(items[..|items| - 1])
    case Broken(fault) => items != [] && items[|items| - 1] == Fatal(fault) && AllReplies(items[..|items| - 1])
    case _ => AllReplies(items)
  }

  /**
   What made a call end: an item, nothing more to read yet, an error, or the end of the stream; before it,
   only bytes were read.
   */
  ghost predicate RecvCause(script: seq<ReadStep>, run: RecvRun) {
    && |run.script| <= |script|
    && match run.outcome
       case Pending => ReadAll(script, run.script) || ReadUpTo(script, run.script, Stall)
       case IoError => ReadUpTo(script, run.script, Break(OtherError))
       case EndOfStream =>
         ReadUpTo(script, run.script, Chunk([])) || ReadUpTo(script, run.script, Break(UnexpectedEof))
       case _ => ReadSome(script, run.script)
  }

  lemma {:induction false} RecvAnswers(config: Config, policy: FillPolicy, b: BufferState, script: seq<ReadStep>)
    requires |b.data| < b.cap
    ensures var run := Recv(config, policy, b, script); AnswersLast(run.outcome, run.items)
    decreases Weight(script) + |b.data|, Weight(script)
  {
    hide HeadOf, React, FillBy, CutBuffer, Weight, BytesOf, AnswersLast;
    var (cut, rest) := CutBuffer(config.codec, b);
    var run := Recv(config, policy, b, script);
    CutCases(config, b);
    if cut.CutFrame? && React(config, cut.header, cut.bytes).Reply? {
      RecvAnswers(config, policy, rest, script);
      OneMoreReply(React(config, cut.header, cut.bytes), Recv(config, policy, rest, script));
    } else if cut.NoFrame? {
      FillByConserves(policy, b, script);
      var fill := FillBy(policy, b, script);
      if fill.outcome.Filled? && fill.outcome.count != 0 {
        RecvAnswers(config, policy, fill.buffer, fill.script);
      } else {
        NoItemsAnswered(run.outcome);
      }
    } else {
      OneItemAnswered(run.outcome, run.items);
    }
  }

  lemma OneMoreReply(item: Item, more: RecvRun)
    requires item.Reply? && AnswersLast(more.outcome, more.items)
    ensures AnswersLast(more.outcome, [item] + more.items)
  {
    var items := [item] + more.items;
    if more.items != [] {
      assert items[..|items| - 1] == [item] + more.items[..|more.items| - 1];
      assert items[|items| - 1] == more.items[|more.items| - 1];
    }
  }

  lemma NoItemsAnswered(outcome: Outcome)
    requires !outcome.Ready? && !outcome.Broken?
    ensures AnswersLast(outcome, [])
  {
  }

  lemma OneItemAnswered(outcome: Outcome, items: seq<Item>)
    requires (outcome.Ready? && items == [Deliver(outcome.received)])
          || (outcome.Broken? && items == [Fatal(outcome.fault)])
    ensures AnswersLast(outcome, items)
  {
  }

  lemma {:induction false} RecvEndsBecause(config: Config, b: BufferState, script: seq<ReadStep>)
    requires |b.data| < b.cap
    ensures RecvCause(script, Recv(config, UntilRoom, b, script))
    decreases Weight(script) + |b.data|, Weight(script)
  {
    hide HeadOf, React, Fill, CutBuffer, Weight, BytesOf;
    var (cut, rest) := CutBuffer(config.codec, b);
    CutCases(config, b);
    if cut.CutFrame? && React(config, cut.header, cut.bytes).Reply? {
      RecvEndsBecause(config, rest, script);
    } else if cut.NoFrame? {
      FillByConserves(UntilRoom, b, script);
      FillEndsBecause(b, script);
      var fill := Fill(b, script);
      if fill.outcome.Filled? && fill.outcome.count != 0 {
        RecvEndsBecause(config, fill.buffer, fill.script);
        FillPassesOn(b, script, Recv(config, UntilRoom, fill.buffer, fill.script));
      }
    }
  }

  /** Steps used up after a fill that got bytes are used up of the whole script. */
  lemma {:induction false} FillPassesOn(b: BufferState, script: seq<ReadStep>, more: RecvRun)
    requires |b.data| < b.cap && RecvCause(Fill(b, script).script, more)
    requires Fill(b, script).outcome.Filled? && Fill(b, script).outcome.count != 0
    ensures RecvCause(script, more)
    decreases Weight(script)
  {
    hide RecvCause, Fill, Weight;
    var space := b.cap - |b.data|;
    var (result, left) := ReadOnce(script, space);
    ReadConserves(script, space);
    if result.Got? {
      if |b.data + result.bytes| == b.cap {
        FillContinues(b, script);
        FillPassesOn(BufferState(b.data + result.bytes, 2 * b.cap), left, more);
      } else {
        FillEnds(b, script);
      }
      ReadPassesOn(script, space, more);
    } else {
      FillEnds(b, script);
    }
  }

  lemma ReadPassesOn(script: seq<ReadStep>, space: nat, more: RecvRun)
    requires var result := ReadOnce(script, space).0; result.Got? && result.bytes != []
    requires RecvCause(ReadOnce(script, space).1, more)
    ensures RecvCause(script, more)
  {
    hide ReadOnce, ReadUpTo, ReadAll, ReadSome;
    ReadLater(script, space, more.script, Stall);
    ReadLater(script, space, more.script, Chunk([]));
    ReadLater(script, space, more.script, Break(UnexpectedEof));
    ReadLater(script, space, more.script, Break(OtherError));
  }
}
