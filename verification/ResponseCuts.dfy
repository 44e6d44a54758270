/**
 * What the pieces of a stream do to a command. The verdict on a response is
 * the same for every cut; what the client consumes is not, because a piece in
 * which a parser fails is given back whole.
 */
module ResponseCuts {
  import opened UsbTypes
  import opened Packetise
  import opened BleuIo
  import At = AtResponse
  import Scan = ScanResponse
  import DeviceLine

  // ----- pushing pieces -------------------------------------------------------------------

  /** How many bytes successive pushes consume, and how they end. */
  datatype Feeding<+Out, +E> = Feeding(consumed: nat, outcome: Option<Result<Out, E>>)

  ghost function Fed<S(!new), Out(!new), E(!new)>(parse: ParserFn<S, Out, E>, state: S, pieces: seq<seq<byte>>)
    : Feeding<Out, E>
    decreases |pieces|
  {
    if pieces == [] then Feeding(0, None)
    else
      match parse(state, pieces[0])
      case Fails(error) => Feeding(0, Some(Err(error)))
      case Advances(count, next, output) =>
        if output.Some? then Feeding(count, Some(Ok(output.value)))
        else
          var rest := Fed(parse, next, pieces[1..]);
          rest.(consumed := count + rest.consumed)
  }

  /** Where the piece starts that holds a byte of the stream. */
  function PieceStart(pieces: seq<seq<byte>>, at: nat): (start: nat)
    requires at < |Concat(pieces)|
    ensures start <= at
    decreases |pieces|
  {
    if at < |pieces[0]| then 0 else |pieces[0]| + PieceStart(pieces[1..], at - |pieces[0]|)
  }

  /** The start is that of a piece, and the byte lies in it. */
  lemma {:induction false} PieceStartIsStart(pieces: seq<seq<byte>>, at: nat) returns (k: nat)
    requires at < |Concat(pieces)|
    ensures k < |pieces| && PieceStart(pieces, at) == |Concat(pieces[..k])|
    ensures at < |Concat(pieces[..k])| + |pieces[k]|
    decreases |pieces|
  {
    if at < |pieces[0]| {
      k := 0;
    } else {
      k := PieceStartIsStart(pieces[1..], at - |pieces[0]|);
      assert pieces[..k + 1] == [pieces[0]] + pieces[1..][..k];
      k := k + 1;
    }
  }

  lemma TwoPieces(s: seq<byte>, at: nat)
    requires at < |s|
    ensures Concat([s]) == s && PieceStart([s], at) == 0
    ensures Concat([s[..at], s[at..]]) == s && PieceStart([s[..at], s[at..]], at) == at
  {
    var cut := [s[..at], s[at..]];
    assert [s][1..] == [] && cut[1..] == [s[at..]] && cut[1..][1..] == [];
    assert Concat(cut) == s[..at] + Concat(cut[1..]) && Concat(cut[1..]) == s[at..] + Concat([]);
  }

  lemma OneOnTop(pieces: seq<seq<byte>>)
    requires pieces != []
    ensures Concat(pieces) == pieces[0] + Concat(pieces[1..])
  {}

  // ----- AT responses ---------------------------------------------------------------------

  /** What the pushes of any pieces come to: an overflow gives back the piece that holds the first byte too many. */
  lemma {:induction false} AtFed(text: seq<byte>, pieces: seq<seq<byte>>)
    requires At.Judge(text) == At.More
    ensures |text| <= At.CAPACITY
    ensures var fed, more := Fed(AtParse, text, pieces), Concat(pieces);
      match At.Judge(text + more)
      case More => fed == Feeding(|more|, None)
      case Terminal(status, n) => |text| <= n && fed == Feeding(n - |text|, Some(Ok(status)))
      case Full =>
        && At.CAPACITY - |text| < |more|
        && fed == Feeding(PieceStart(pieces, At.CAPACITY - |text|), Some(Err(At.Overflow)))
    decreases |pieces|
  {
    AtSizes(text);
    hide At.Judge;
    if pieces == [] {
      assert text + Concat([]) == text;
    } else {
      var p, rest := pieces[0], Concat(pieces[1..]);
      OneOnTop(pieces);
      assert text + p + rest == text + (p + rest);
      AtStep(text, p);
      AtSizes(text + p);
      if At.Judge(text + p) == At.More {
        AtFed(text + p, pieces[1..]);
      } else {
        At.VerdictIsStable(text + p, rest);
      }
    }
  }

  lemma AtSizes(s: seq<byte>)
    ensures At.Judge(s) == At.More ==> |s| <= At.CAPACITY
    ensures At.Judge(s) == At.Full ==> |s| > At.CAPACITY
  {
    At.JudgeIff(s, 0);
    hide At.Judge, At.Quiet;
  }

  /** The cuts of a byte string. */
  ghost predicate CutOf(pieces: seq<seq<byte>>, s: seq<byte>) { Concat(pieces) == s }

  ghost predicate AtSameCount(s: seq<byte>) {
    forall a, b | CutOf(a, s) && CutOf(b, s) :: Fed(AtParse, [], a).consumed == Fed(AtParse, [], b).consumed
  }

  /**
   * The verdict on a response does not depend on how it is cut, and what is
   * consumed does not exactly when the response does not overflow.
   */
  lemma AtConsumesTheSameIff(s: seq<byte>)
    ensures forall a, b | CutOf(a, s) && CutOf(b, s) :: Fed(AtParse, [], a).outcome == Fed(AtParse, [], b).outcome
    ensures AtSameCount(s) <==> At.Judge(s) != At.Full
  {
    At.NothingYet();
    assert [] + s == s;
    hide At.Judge;
    forall a | CutOf(a, s)
      ensures Fed(AtParse, [], a).outcome == match At.Judge(s)
        case More => None
        case Terminal(status, _) => Some(Ok(status))
        case Full => Some(Err(At.Overflow))
      ensures At.Judge(s) == At.More ==> Fed(AtParse, [], a).consumed == |s|
      ensures At.Judge(s).Terminal? ==> Fed(AtParse, [], a).consumed == At.Judge(s).consumed
    {
      AtFed([], a);
    }
    if At.Judge(s) == At.Full {
      OverflowDependsOnTheCut(s);
    }
  }

  /** Every overflowing response is consumed differently: not at all in one piece, sixty-four bytes of it in two. */
  lemma OverflowDependsOnTheCut(s: seq<byte>)
    requires At.Judge(s) == At.Full
    ensures |s| > At.CAPACITY
    ensures var whole, two := [s], [s[..At.CAPACITY], s[At.CAPACITY..]];
      && CutOf(whole, s) && Fed(AtParse, [], whole) == Feeding(0, Some(Err(At.Overflow)))
      && CutOf(two, s) && Fed(AtParse, [], two) == Feeding(At.CAPACITY, Some(Err(At.Overflow)))
  {
    At.NothingYet();
    AtSizes(s);
    TwoPieces(s, At.CAPACITY);
    hide At.Judge, Fed;
    assert [] + s == s;
    AtFed([], [s]);
    AtFed([], [s[..At.CAPACITY], s[At.CAPACITY..]]);
  }

  /** Such a response: 65 letters x. */
  lemma SixtyFiveLettersOverflow()
    ensures var s := seq(65, _ => 0x78 as byte);
      && At.Judge(s) == At.Full
      && Fed(AtParse, [], [s]).consumed == 0 && Fed(AtParse, [], [s[..64], s[64..]]).consumed == 64
  {
    var s := seq(65, _ => 0x78 as byte);
    forall j | 0 <= j <= 64 ensures At.LastLine(s[..j]) == At.Pending {
      NoLineEnd(s[..j]);
    }
    At.JudgeIff(s, 64);
    hide At.Judge, At.LastLine;
    assert At.Quiet(s, 64);
    OverflowDependsOnTheCut(s);
    assert s[..At.CAPACITY] == s[..64] && s[At.CAPACITY..] == s[64..];
  }

  lemma NoLineEnd(s: seq<byte>)
    requires At.LF !in s
    ensures At.LastLine(s) == At.Pending
  {
    if s != [] {
      assert s == s[..|s| - 1] + [s[|s| - 1]];
      At.NotAtLineEnd(s[..|s| - 1], s[|s| - 1]);
    }
  }

  // ----- scans ----------------------------------------------------------------------------

  /** What the pushes of any pieces come to: an error gives back the piece that holds the failing byte. */
  lemma {:induction false} ScanFed(q: Transcript, pieces: seq<seq<byte>>)
    requires q.progress.Scanned?
    ensures var fed, after := Fed(ScanParse, q, pieces), Scanned(q, Concat(pieces));
      match after.progress
      case Scanned(_, _) => fed == Feeding(|Concat(pieces)|, None)
      case Complete(device) => after.taken >= q.taken && fed == Feeding(after.taken - q.taken, Some(Ok(device)))
      case Broken(error) =>
        && q.taken < after.taken <= q.taken + |Concat(pieces)|
        && fed == Feeding(PieceStart(pieces, after.taken - q.taken - 1), Some(Err(error)))
    decreases |pieces|
  {
    if pieces == [] {
      NoBytes(q);
    } else {
      var p, rest := pieces[0], Concat(pieces[1..]);
      var before := Scanned(q, p);
      OneOnTop(pieces);
      ScanPush(q, p, rest);
      if before.progress.Scanned? {
        ScanFed(before, pieces[1..]);
      }
      hide Scanned, ScanParse, Concat;
    }
  }

  lemma NoBytes(q: Transcript)
    ensures Scanned(q, Concat([])) == q && Concat([]) == []
  {}

  /** One push, and what it means for everything that follows. */
  lemma ScanPush(q: Transcript, p: seq<byte>, rest: seq<byte>)
    requires q.progress.Scanned?
    ensures var before := Scanned(q, p);
      match before.progress
      case Scanned(_, _) =>
        && before.taken == q.taken + |p| && ScanParse(q, p) == Advances(|p|, before, None)
        && Scanned(q, p + rest) == Scanned(before, rest)
      case Complete(device) =>
        && q.taken < before.taken <= q.taken + |p| && Scanned(q, p + rest) == before
        && ScanParse(q, p) == Advances(before.taken - q.taken, before, Some(device))
      case Broken(error) =>
        && q.taken < before.taken <= q.taken + |p| && Scanned(q, p + rest) == before
        && ScanParse(q, p) == Fails(error)
  {
    Scan.OnBytesConcat(q, p, rest, DeviceLine.Classify);
    OnlyTaken(q, p);
    EndsWithAByte(q, p);
    var before := Scanned(q, p);
    if !before.progress.Scanned? {
      Scan.FinishedStays(before, rest, DeviceLine.Classify);
    }
    hide Scan.OnBytes, DeviceLine.Classify;
  }

  /** A transcript ends at a byte that it takes. */
  lemma EndsWithAByte(q: Transcript, bytes: seq<byte>)
    requires q.progress.Scanned?
    ensures !Scanned(q, bytes).progress.Scanned? ==> Scanned(q, bytes).taken > q.taken
  {
    OnlyTaken(q, bytes);
    hide DeviceLine.Classify;
    assert bytes[..0] == [];
  }

  ghost predicate ScanSameCount(s: seq<byte>) {
    forall a, b | CutOf(a, s) && CutOf(b, s) ::
      Fed(ScanParse, ScanStart(), a).consumed == Fed(ScanParse, ScanStart(), b).consumed
  }

  /**
   * The outcome of a scan does not depend on how it is cut, and what is
   * consumed does not exactly when the scan does not fail.
   */
  lemma ScanConsumesTheSameIff(s: seq<byte>)
    ensures forall a, b | CutOf(a, s) && CutOf(b, s) ::
      Fed(ScanParse, ScanStart(), a).outcome == Fed(ScanParse, ScanStart(), b).outcome
    ensures ScanSameCount(s) <==> !Scanned(ScanStart(), s).progress.Broken?
  {
    var after := Scanned(ScanStart(), s);
    forall a | CutOf(a, s)
      ensures Fed(ScanParse, ScanStart(), a).outcome == match after.progress
        case Scanned(_, _) => None
        case Complete(device) => Some(Ok(device))
        case Broken(error) => Some(Err(error))
      ensures after.progress.Scanned? ==> Fed(ScanParse, ScanStart(), a).consumed == |s|
      ensures after.progress.Complete? ==> Fed(ScanParse, ScanStart(), a).consumed == after.taken
    {
      ScanFed(ScanStart(), a);
    }
    if after.progress.Broken? {
      FailureDependsOnTheCut(s);
    }
  }

  /** Every failing scan is consumed differently: not at all in one piece, up to the failing byte in two. */
  lemma FailureDependsOnTheCut(s: seq<byte>)
    requires Scanned(ScanStart(), s).progress.Broken?
    ensures var at := Scanned(ScanStart(), s).taken - 1;
      && 0 < at < |s|
      && CutOf([s], s) && Fed(ScanParse, ScanStart(), [s]).consumed == 0
      && CutOf([s[..at], s[at..]], s) && Fed(ScanParse, ScanStart(), [s[..at], s[at..]]).consumed == at
  {
    var after := Scanned(ScanStart(), s);
    OnlyTaken(ScanStart(), s);
    EndsWithAByte(ScanStart(), s);
    FirstByteIsFine(s[0]);
    assert s[..1] == [s[0]];
    var at := after.taken - 1;
    TwoPieces(s, at);
    hide Fed, Scan.OnBytes, DeviceLine.Classify;
    ScanFed(ScanStart(), [s]);
    ScanFed(ScanStart(), [s[..at], s[at..]]);
  }

  lemma FirstByteIsFine(b: byte)
    ensures Scanned(ScanStart(), [b]).progress.Scanned?
  {
    hide DeviceLine.Classify, Scan.OnLine;
    Scan.OnBytesAppend(ScanStart(), [], b, DeviceLine.Classify);
    assert [] + [b] == [b];
  }

  // ----- the client -----------------------------------------------------------------------

  /** A parser that takes all of its input while the response is incomplete, and never more than its input. */
  ghost predicate Greedy<S(!new), Out(!new), E(!new)>(parse: ParserFn<S, Out, E>) {
    forall state, input :: Takes(parse(state, input), |input|)
  }

  predicate Takes<S, Out, E>(step: Step<S, Out, E>, size: nat) {
    step.Advances? ==> step.consumed <= size && (step.output.None? ==> step.consumed == size)
  }

  lemma BothAreGreedy()
    ensures Greedy(AtParse) && Greedy(ScanParse)
  {
    forall text, input ensures Takes(AtParse(text, input), |input|) {
      hide At.Judge;
    }
    forall q, input ensures Takes(ScanParse(q, input), |input|) {
      OnlyTaken(q, input);
      hide Scan.OnBytes, DeviceLine.Classify;
    }
  }

  function Reads(pieces: seq<seq<byte>>): (items: seq<ReadResult>)
    ensures |items| == |pieces| && forall i | 0 <= i < |pieces| :: items[i] == Data(pieces[i])
  {
    if pieces == [] then [] else [Data(pieces[0])] + Reads(pieces[1..])
  }

  /** Reads that the client accepts: some bytes, and no more than its buffer holds. */
  predicate Readable(pieces: seq<seq<byte>>) { forall i | 0 <= i < |pieces| :: 0 < |pieces[i]| <= RX_BYTES }

  function OnTop(buffered: seq<byte>, pieces: seq<seq<byte>>): seq<seq<byte>> {
    if buffered == [] then pieces else [buffered] + pieces
  }

  /** How a command reports what its pushes came to. */
  function Reported<Out, E>(outcome: Option<Result<Out, E>>): Option<Result<Out, BleuIoError<E>>> {
    match outcome
    case None => None
    case Some(Ok(output)) => Some(Ok(output))
    case Some(Err(error)) => Some(Err(Protocol(error)))
  }

  /**
   * An answer is that of the pushes: it consumes what they consume, keeps the
   * rest of what was read in order, and after a parser's error keeps the
   * failing piece whole.
   */
  ghost predicate Answers<S(!new), Out(!new), E(!new)>(a: Answer<S, Out, E>, fed: Feeding<Out, E>,
                                                      buffered: seq<byte>, pieces: seq<seq<byte>>)
  {
    && a.result == Reported(fed.outcome) && |a.eaten| == fed.consumed && a.fetched <= |pieces|
    && a.eaten + a.left == buffered + Concat(pieces[..a.fetched])
    && (fed.outcome.Some? ==> buffered != [] || a.fetched > 0)
    && (fed.outcome.Some? && fed.outcome.value.Err? ==>
          a.left == if a.fetched == 0 then buffered else pieces[a.fetched - 1])
  }

  /** A command is its pushes. */
  lemma {:induction false} ClientIsItsPushes<S(!new), Out(!new), E(!new)>(
      parse: ParserFn<S, Out, E>, state: S, buffered: seq<byte>, pieces: seq<seq<byte>>)
    requires Greedy(parse) && Readable(pieces)
    ensures Answers(Respond(parse, state, buffered, Reads(pieces)), Fed(parse, state, OnTop(buffered, pieces)),
                    buffered, pieces)
    decreases |pieces|, |buffered|
  {
    if buffered != [] {
      BufferedPush(parse, state, buffered, pieces);
    } else if pieces != [] {
      ClientIsItsPushes(parse, state, pieces[0], pieces[1..]);
      OneRead(parse, state, pieces);
      hide Respond, Fed, Reads, Greedy, Answers;
      assert OnTop([], pieces) == pieces && OnTop(pieces[0], pieces[1..]) == pieces;
      ReadAnswers(Respond(parse, state, pieces[0], Reads(pieces[1..])), Fed(parse, state, pieces), pieces);
    } else {
      NoPieces();
    }
  }

  lemma ReadAnswers<S(!new), Out(!new), E(!new)>(rest: Answer<S, Out, E>, fed: Feeding<Out, E>, pieces: seq<seq<byte>>)
    requires pieces != [] && Answers(rest, fed, pieces[0], pieces[1..])
    ensures Answers(After([], 1, rest), fed, [], pieces)
  {
    OnePieceMore(pieces, rest.fetched);
    assert [] + rest.eaten == rest.eaten;
    assert [] + Concat(pieces[..rest.fetched + 1]) == Concat(pieces[..rest.fetched + 1]);
    hide Concat;
  }

  lemma PendingAnswers<S(!new), Out(!new), E(!new)>(rest: Answer<S, Out, E>, fed: Feeding<Out, E>, buffered: seq<byte>,
                                                   pieces: seq<seq<byte>>)
    requires Answers(rest, fed, [], pieces) && buffered != []
    ensures Answers(After(buffered, 0, rest), Feeding(|buffered| + fed.consumed, fed.outcome), buffered, pieces)
  {
    assert (buffered + rest.eaten) + rest.left == buffered + (rest.eaten + rest.left);
    assert [] + Concat(pieces[..rest.fetched]) == Concat(pieces[..rest.fetched]);
    hide Concat;
  }

  lemma NoPieces()
    ensures Concat([]) == []
  {}

  lemma OneRead<S(!new), Out(!new), E(!new)>(parse: ParserFn<S, Out, E>, state: S, pieces: seq<seq<byte>>)
    requires pieces != [] && Readable(pieces)
    ensures Respond(parse, state, [], Reads(pieces))
         == After([], 1, Respond(parse, state, pieces[0], Reads(pieces[1..])))
  {
    assert Reads(pieces)[1..] == Reads(pieces[1..]);
    assert ReadError(Reads(pieces)[0]).None?;
    hide Reads, ReadError;
  }

  lemma OnePieceMore(pieces: seq<seq<byte>>, n: nat)
    requires n + 1 <= |pieces|
    ensures Concat(pieces[..n + 1]) == pieces[0] + Concat(pieces[1..][..n])
  {
    assert pieces[..n + 1][1..] == pieces[1..][..n];
  }

  /** One push of everything buffered. */
  lemma {:induction false} BufferedPush<S(!new), Out(!new), E(!new)>(
      parse: ParserFn<S, Out, E>, state: S, buffered: seq<byte>, pieces: seq<seq<byte>>)
    requires Greedy(parse) && Readable(pieces) && buffered != []
    ensures Answers(Respond(parse, state, buffered, Reads(pieces)), Fed(parse, state, [buffered] + pieces),
                    buffered, pieces)
    decreases |pieces|, |buffered|, 0
  {
    var step := parse(state, buffered);
    assert Takes(step, |buffered|);
    hide Greedy;
    if step.Advances? && step.output.None? {
      PendingPush(parse, state, buffered, pieces);
      ClientIsItsPushes(parse, step.next, [], pieces);
      hide Respond, Fed, Reads, Answers;
      assert OnTop([], pieces) == pieces;
      PendingAnswers(Respond(parse, step.next, [], Reads(pieces)), Fed(parse, step.next, pieces), buffered, pieces);
    } else {
      EndingPush(parse, state, buffered, pieces);
    }
  }

  lemma PendingPush<S(!new), Out(!new), E(!new)>(
      parse: ParserFn<S, Out, E>, state: S, buffered: seq<byte>, pieces: seq<seq<byte>>)
    requires buffered != [] && parse(state, buffered).Advances? && parse(state, buffered).output.None?
    requires parse(state, buffered).consumed == |buffered|
    ensures var next := parse(state, buffered).next;
      && Respond(parse, state, buffered, Reads(pieces)) == After(buffered, 0, Respond(parse, next, [], Reads(pieces)))
      && Fed(parse, state, [buffered] + pieces)
         == Feeding(|buffered| + Fed(parse, next, pieces).consumed, Fed(parse, next, pieces).outcome)
  {
    WholeTaken(buffered);
    assert ([buffered] + pieces)[1..] == pieces;
    hide Reads;
  }

  lemma EndingPush<S(!new), Out(!new), E(!new)>(
      parse: ParserFn<S, Out, E>, state: S, buffered: seq<byte>, pieces: seq<seq<byte>>)
    requires buffered != [] && Takes(parse(state, buffered), |buffered|)
    requires parse(state, buffered).Fails? || parse(state, buffered).output.Some?
    ensures Answers(Respond(parse, state, buffered, Reads(pieces)), Fed(parse, state, [buffered] + pieces),
                    buffered, pieces)
  {
    var step := parse(state, buffered);
    NoPieces();
    hide Reads;
    assert buffered + [] == buffered && [] + buffered == buffered && pieces[..0] == [];
    if step.Advances? {
      assert buffered[..step.consumed] + buffered[step.consumed..] == buffered;
    }
  }

  lemma WholeTaken<T>(s: seq<T>)
    ensures s[..|s|] == s && s[|s|..] == []
  {}

  lemma OnTopJoins(buffered: seq<byte>, pieces: seq<seq<byte>>)
    ensures Concat(OnTop(buffered, pieces)) == buffered + Concat(pieces)
  {
    if buffered != [] {
      OneOnTop([buffered] + pieces);
      assert ([buffered] + pieces)[1..] == pieces;
    } else {
      assert [] + Concat(pieces) == Concat(pieces);
    }
  }

  /** What was eaten is the front of everything that came. */
  lemma EatenIsFront<S(!new), Out(!new), E(!new)>(a: Answer<S, Out, E>, fed: Feeding<Out, E>, buffered: seq<byte>,
                                                 pieces: seq<seq<byte>>)
    requires Answers(a, fed, buffered, pieces)
    ensures fed.consumed <= |buffered + Concat(pieces)| && a.eaten == (buffered + Concat(pieces))[..fed.consumed]
  {
    hide Concat, Reported;
    ConcatAppend(pieces[..a.fetched], pieces[a.fetched..]);
    assert pieces == pieces[..a.fetched] + pieces[a.fetched..];
    var rest := Concat(pieces[a.fetched..]);
    assert buffered + Concat(pieces) == a.eaten + (a.left + rest) by {
      assert buffered + (Concat(pieces[..a.fetched]) + rest) == (buffered + Concat(pieces[..a.fetched])) + rest;
      assert (a.eaten + a.left) + rest == a.eaten + (a.left + rest);
    }
  }

  /**
   * A basic command on any cut of what is buffered and read: it eats up to the
   * terminal line, or everything while there is none; on an overflow it eats
   * the pieces before the one with byte sixty-five, and keeps that one.
   */
  lemma BasicCommandConsumes(buffered: seq<byte>, pieces: seq<seq<byte>>)
    requires Readable(pieces)
    ensures var a, s := Respond(AtParse, [], buffered, Reads(pieces)), buffered + Concat(pieces);
      match At.Judge(s)
      case More => a.result == None && a.eaten == s
      case Terminal(status, n) => n <= |s| && a.result == Some(Ok(status)) && a.eaten == s[..n]
      case Full =>
        && a.result == Some(Err(Protocol(At.Overflow)))
        && At.CAPACITY < |Concat(OnTop(buffered, pieces))|
        && a.eaten == s[..PieceStart(OnTop(buffered, pieces), At.CAPACITY)]
        && a.fetched <= |pieces| && a.left == if a.fetched == 0 then buffered else pieces[a.fetched - 1]
  {
    hide At.Judge, Respond, Fed, Reads, Concat, OnTop, Greedy, AtParse, Readable;
    var s, all := buffered + Concat(pieces), OnTop(buffered, pieces);
    BothAreGreedy();
    ClientIsItsPushes(AtParse, [], buffered, pieces);
    OnTopJoins(buffered, pieces);
    At.NothingYet();
    AtFed([], all);
    assert [] + s == s;
    EatenIsFront(Respond(AtParse, [], buffered, Reads(pieces)), Fed(AtParse, [], all), buffered, pieces);
    assert s[..|s|] == s;
  }

  /** A scan on any cut: it eats up to its last line, or everything so far; an error keeps the failing piece. */
  lemma ScanConsumes(buffered: seq<byte>, pieces: seq<seq<byte>>)
    requires Readable(pieces)
    ensures var a, s := Respond(ScanParse, ScanStart(), buffered, Reads(pieces)), buffered + Concat(pieces);
      var after := Scanned(ScanStart(), s);
      match after.progress
      case Scanned(_, _) => a.result == None && a.eaten == s
      case Complete(device) => after.taken <= |s| && a.result == Some(Ok(device)) && a.eaten == s[..after.taken]
      case Broken(error) =>
        && a.result == Some(Err(Protocol(error)))
        && 0 < after.taken <= |Concat(OnTop(buffered, pieces))|
        && a.eaten == s[..PieceStart(OnTop(buffered, pieces), after.taken - 1)]
        && a.fetched <= |pieces| && a.left == if a.fetched == 0 then buffered else pieces[a.fetched - 1]
  {
    var s, all := buffered + Concat(pieces), OnTop(buffered, pieces);
    BothAreGreedy();
    ClientIsItsPushes(ScanParse, ScanStart(), buffered, pieces);
    OnTopJoins(buffered, pieces);
    ScanFed(ScanStart(), all);
    OnlyTaken(ScanStart(), s);
    EatenIsFront(Respond(ScanParse, ScanStart(), buffered, Reads(pieces)), Fed(ScanParse, ScanStart(), all),
                 buffered, pieces);
    StartTakesNothing();
    hide Respond, Fed, Reads, Concat, OnTop, Greedy, Scanned, ScanParse, ScanStart;
    assert s[..|s|] == s;
  }

  lemma StartTakesNothing()
    ensures ScanStart().taken == 0 && ScanStart().progress.Scanned?
  {}

  // ----- a client that is stuck -----------------------------------------------------------

  /** A command fails at once, reading and consuming nothing, exactly where the parser refuses what is buffered. */
  lemma StuckIff<S(!new), Out(!new), E(!new)>(parse: ParserFn<S, Out, E>, start: S, buffered: seq<byte>,
                                              stream: seq<ReadResult>)
    requires buffered != []
    ensures var a := Respond(parse, start, buffered, stream);
      (a.result.Some? && a.result.value.Err? && a.result.value.error.Protocol? && a.eaten == [] && a.fetched == 0)
      <==> parse(start, buffered).Fails?
    ensures parse(start, buffered).Fails? ==> Respond(parse, start, buffered, stream).left == buffered
  {
    var step := parse(start, buffered);
    if step.Advances? && step.output.None? && 0 < step.consumed <= |buffered| {
      assert |buffered[..step.consumed]| > 0;
    }
  }

  /** One basic command after the other, each on its own stretch of the stream. */
  ghost function BasicCommands(buffered: seq<byte>, streams: seq<seq<ReadResult>>)
    : seq<Answer<seq<byte>, At.Status, At.AtError>>
    decreases |streams|
  {
    if streams == [] then []
    else
      var first := Respond(AtParse, [], buffered, streams[0]);
      [first] + BasicCommands(first.left, streams[1..])
  }

  /**
   * Once more than sixty-four bytes without an answer are buffered the client
   * is stuck: every later basic command fails with the overflow, whatever the
   * stream would deliver, and nothing is ever read or consumed.
   */
  lemma {:induction false} OverflowSticks(buffered: seq<byte>, streams: seq<seq<ReadResult>>)
    requires At.Judge(buffered) == At.Full
    ensures |BasicCommands(buffered, streams)| == |streams|
    ensures forall i | 0 <= i < |streams| ::
      BasicCommands(buffered, streams)[i] == Answer(Some(Err(Protocol(At.Overflow))), [], [], buffered, 0)
    decreases |streams|
  {
    if streams != [] {
      AtSizes(buffered);
      assert [] + buffered == buffered;
      hide At.Judge;
      var first := Respond(AtParse, [], buffered, streams[0]);
      assert first == Answer(Some(Err(Protocol(At.Overflow))), [], [], buffered, 0);
      OverflowSticks(buffered, streams[1..]);
    }
  }

  /** A basic command finds the client stuck exactly when what is buffered overflows. */
  lemma AtStuckIff(buffered: seq<byte>)
    ensures AtParse([], buffered).Fails? <==> At.Judge(buffered) == At.Full
  {
    assert [] + buffered == buffered;
    hide At.Judge;
  }

  // ----- completed commands ---------------------------------------------------------------

  /** Any two commands that complete on the same stream give the same status and eat the same bytes. */
  lemma SameAtAnswer(a: seq<Call<seq<byte>>>, endA: seq<byte>, statusA: At.Status, restA: seq<byte>,
                     b: seq<Call<seq<byte>>>, endB: seq<byte>, statusB: At.Status, restB: seq<byte>)
    requires Calls(AtParse, [], a, endA, Some(statusA)) && Calls(AtParse, [], b, endB, Some(statusB))
    requires Eaten(a) + restA == Eaten(b) + restB
    ensures statusA == statusB && Eaten(a) == Eaten(b) && restA == restB
  {
    BasicCommandAnswer(a, endA, statusA, restA);
    BasicCommandAnswer(b, endB, statusB, restB);
    hide At.Judge, Calls, Eaten;
    SamePrefixes(Eaten(a), restA, Eaten(b), restB);
  }

  lemma SamePrefixes<T>(a: seq<T>, restA: seq<T>, b: seq<T>, restB: seq<T>)
    requires |a| == |b| && a + restA == b + restB
    ensures a == b && restA == restB
  {
    assert (a + restA)[..|a|] == a && (b + restB)[..|b|] == b;
    assert (a + restA)[|a|..] == restA && (b + restB)[|b|..] == restB;
  }

  /** Any two scans that complete on the same stream give the same device and eat the same bytes. */
  lemma SameScanAnswer(a: seq<Call<Transcript>>, endA: Transcript, deviceA: DeviceLine.ScanResult, restA: seq<byte>,
                       b: seq<Call<Transcript>>, endB: Transcript, deviceB: DeviceLine.ScanResult, restB: seq<byte>)
    requires Calls(ScanParse, ScanStart(), a, endA, Some(deviceA))
    requires Calls(ScanParse, ScanStart(), b, endB, Some(deviceB))
    requires Eaten(a) + restA == Eaten(b) + restB
    ensures deviceA == deviceB && Eaten(a) == Eaten(b) && restA == restB
  {
    ScanAnswer(a, endA, deviceA, restA);
    ScanAnswer(b, endB, deviceB, restB);
    ScanCalls(a, endA, Some(deviceA));
    ScanCalls(b, endB, Some(deviceB));
    hide Calls, Eaten, Scan.OnBytes, DeviceLine.Classify;
    SamePrefixes(Eaten(a), restA, Eaten(b), restB);
  }
}
