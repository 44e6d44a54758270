/**
 * The command client over a byte stream: a persistent receive buffer, and
 * responses parsed by whatever incremental parser a command brings.
 */
module BleuIo {
  import opened UsbTypes
  import At = AtResponse
  import Scan = ScanResponse
  import DeviceLine

  const RX_BYTES: nat := 256

  datatype TransportError = Io | UnexpectedEof | ContractViolation

  datatype BleuIoError<+P> = Transport(error: TransportError) | Protocol(error_: P)

  /** What a parser makes of some input: the bytes it consumed, its next state, and the response if complete. */
  datatype Step<+S, +Out, +E> = Fails(error: E) | Advances(consumed: nat, next: S, output: Option<Out>)

  type ParserFn<!S, !Out, !E> = (S, seq<byte>) -> Step<S, Out, E>

  /** One call of the parser that was accepted. */
  datatype Call<+S> = Call(state: S, input: seq<byte>, consumed: nat)

  /** A chain of parser calls from a state: each consumed part of its input, at least one byte unless it completed. */
  ghost predicate Calls<S(!new), Out(!new), E(!new)>(parse: ParserFn<S, Out, E>, start: S, calls: seq<Call<S>>, end: S,
                                                  output: Option<Out>)
    decreases |calls|
  {
    if calls == [] then end == start && output.None?
    else
      var n := |calls| - 1;
      var last := calls[n];
      && Calls(parse, start, calls[..n], last.state, None)
      && last.consumed <= |last.input|
      && parse(last.state, last.input) == Advances(last.consumed, end, output)
      && (last.consumed > 0 || output.Some?)
  }

  /** The bytes that the calls consumed. */
  function Eaten<S>(calls: seq<Call<S>>): seq<byte> {
    if calls == [] then []
    else
      var last := calls[|calls| - 1];
      Eaten(calls[..|calls| - 1]) + (if last.consumed <= |last.input| then last.input[..last.consumed] else [])
  }

  /** What the stream answers to one read; `TooMany` is an impossible byte count. */
  datatype ReadResult = Data(bytes: seq<byte>) | TooMany | Failed

  /** Why a read of an empty buffer fails, if it does. */
  function ReadError(item: ReadResult): Option<TransportError> {
    match item
    case Failed => Some(Io)
    case TooMany => Some(ContractViolation)
    case Data(bytes) =>
      if bytes == [] then Some(UnexpectedEof) else if |bytes| > RX_BYTES then Some(ContractViolation) else None
  }

  /** The bytes that these reads delivered. */
  function Delivered(items: seq<ReadResult>): seq<byte> {
    if items == [] then []
    else
      var last := items[|items| - 1];
      Delivered(items[..|items| - 1]) + (if last.Data? then last.bytes else [])
  }

  lemma OneMoreRead(stream: seq<ReadResult>, n: nat)
    requires n < |stream| && stream[n].Data?
    ensures Delivered(stream[..n + 1]) == Delivered(stream[..n]) + stream[n].bytes
  {
    assert stream[..n + 1][..n] == stream[..n];
  }

  /** How reading ends without a response: the parser objects to what is buffered, or the stream to an empty buffer. */
  ghost predicate NoResponse<S(!new), Out(!new), E(!new)>(parse: ParserFn<S, Out, E>, state: S, buffered: seq<byte>,
                                                         stream: seq<ReadResult>, fetched: nat,
                                                         result: Option<Result<Out, BleuIoError<E>>>)
  {
    if buffered != [] then
      match parse(state, buffered)
      case Fails(error) => result == Some(Err(Protocol(error)))
      case Advances(consumed, _, output) =>
        (consumed > |buffered| || (consumed == 0 && output.None?)) && result == Some(Err(Transport(ContractViolation)))
    else if fetched == |stream| then result == None
    else
      && fetched < |stream| && ReadError(stream[fetched]).Some?
      && result == Some(Err(Transport(ReadError(stream[fetched]).value)))
  }

  lemma ParserObjects<S(!new), Out(!new), E(!new)>(parse: ParserFn<S, Out, E>, state: S, buffered: seq<byte>,
                                                  stream: seq<ReadResult>, fetched: nat)
    requires buffered != []
    ensures var step := parse(state, buffered);
      && (step.Fails? ==> NoResponse(parse, state, buffered, stream, fetched, Some(Err(Protocol(step.error)))))
      && (step.Advances? && (step.consumed > |buffered| || (step.consumed == 0 && step.output.None?)) ==>
            NoResponse(parse, state, buffered, stream, fetched, Some(Err(Transport(ContractViolation)))))
  {}

  lemma StreamStops<S(!new), Out(!new), E(!new)>(parse: ParserFn<S, Out, E>, state: S, buffered: seq<byte>,
                                                stream: seq<ReadResult>, fetched: nat)
    requires buffered == [] && fetched <= |stream|
    ensures fetched == |stream| ==> NoResponse(parse, state, buffered, stream, fetched, None)
    ensures fetched < |stream| && ReadError(stream[fetched]).Some? ==>
      NoResponse(parse, state, buffered, stream, fetched, Some(Err(Transport(ReadError(stream[fetched]).value))))
  {}

  // ----- what one command comes to ----------------------------------------------------------------

  /** How a command ends: its result, the parser's last state, what it ate, what it leaves, how many reads it took. */
  datatype Answer<+S, +Out, +E> =
    Answer(result: Option<Result<Out, BleuIoError<E>>>, end: S, eaten: seq<byte>, left: seq<byte>, fetched: nat)

  /** The parser gets everything that is buffered, again and again; an empty buffer gets one more read. */
  ghost function Respond<S(!new), Out(!new), E(!new)>(parse: ParserFn<S, Out, E>, state: S, buffered: seq<byte>,
                                                     stream: seq<ReadResult>): Answer<S, Out, E>
    decreases |stream|, |buffered|
  {
    if buffered != [] then
      match parse(state, buffered)
      case Fails(error) => Answer(Some(Err(Protocol(error))), state, [], buffered, 0)
      case Advances(count, next, output) =>
        if count > |buffered| || (count == 0 && output.None?)
        then Answer(Some(Err(Transport(ContractViolation))), state, [], buffered, 0)
        else if output.Some? then Answer(Some(Ok(output.value)), next, buffered[..count], buffered[count..], 0)
        else After(buffered[..count], 0, Respond(parse, next, buffered[count..], stream))
    else if stream == [] then Answer(None, state, [], [], 0)
    else if ReadError(stream[0]).Some? then Answer(Some(Err(Transport(ReadError(stream[0]).value))), state, [], [], 0)
    else After([], 1, Respond(parse, state, stream[0].bytes, stream[1..]))
  }

  /** An answer with what was eaten and fetched before it. */
  function After<S, Out, E>(eaten: seq<byte>, fetched: nat, a: Answer<S, Out, E>): Answer<S, Out, E> {
    a.(eaten := eaten + a.eaten, fetched := fetched + a.fetched)
  }

  /** In the middle of a command: the whole answer is the rest's, after what was eaten and fetched so far. */
  ghost predicate OnCourse<S(!new), Out(!new), E(!new)>(
      parse: ParserFn<S, Out, E>, start: S, before: seq<byte>, stream: seq<ReadResult>,
      state: S, eaten: seq<byte>, buffered: seq<byte>, fetched: nat)
  {
    && fetched <= |stream|
    && Respond(parse, start, before, stream)
       == After(eaten, fetched, Respond(parse, state, buffered, stream[fetched..]))
  }

  lemma CourseBegins<S(!new), Out(!new), E(!new)>(parse: ParserFn<S, Out, E>, start: S, before: seq<byte>,
                                                 stream: seq<ReadResult>)
    ensures OnCourse(parse, start, before, stream, start, [], before, 0)
  {
    hide Respond;
    var a := Respond(parse, start, before, stream);
    assert stream[0..] == stream && [] + a.eaten == a.eaten;
  }

  lemma AfterTwice<S, Out, E>(eaten: seq<byte>, more: seq<byte>, fetched: nat, n: nat, a: Answer<S, Out, E>)
    ensures After(eaten, fetched, After(more, n, a)) == After(eaten + more, fetched + n, a)
  {
    Associates(eaten, more, a.eaten);
  }

  lemma CourseParsed<S(!new), Out(!new), E(!new)>(
      parse: ParserFn<S, Out, E>, start: S, before: seq<byte>, stream: seq<ReadResult>,
      state: S, eaten: seq<byte>, buffered: seq<byte>, fetched: nat, count: nat, next: S)
    requires OnCourse(parse, start, before, stream, state, eaten, buffered, fetched)
    requires buffered != [] && 0 < count <= |buffered| && parse(state, buffered) == Advances(count, next, None)
    ensures OnCourse(parse, start, before, stream, next, eaten + buffered[..count], buffered[count..], fetched)
  {
    AfterTwice(eaten, buffered[..count], fetched, 0, Respond(parse, next, buffered[count..], stream[fetched..]));
    hide After;
  }

  lemma CourseFetched<S(!new), Out(!new), E(!new)>(
      parse: ParserFn<S, Out, E>, start: S, before: seq<byte>, stream: seq<ReadResult>,
      state: S, eaten: seq<byte>, fetched: nat)
    requires OnCourse(parse, start, before, stream, state, eaten, [], fetched)
    requires fetched < |stream| && ReadError(stream[fetched]).None?
    ensures OnCourse(parse, start, before, stream, state, eaten, stream[fetched].bytes, fetched + 1)
  {
    assert stream[fetched..][1..] == stream[fetched + 1..];
    AfterTwice(eaten, [], fetched, 1, Respond(parse, state, stream[fetched].bytes, stream[fetched + 1..]));
    assert eaten + [] == eaten;
    hide After, ReadError;
  }

  /** The answers that end a course. */
  lemma CourseEnds<S(!new), Out(!new), E(!new)>(
      parse: ParserFn<S, Out, E>, start: S, before: seq<byte>, stream: seq<ReadResult>,
      state: S, eaten: seq<byte>, buffered: seq<byte>, fetched: nat)
    requires OnCourse(parse, start, before, stream, state, eaten, buffered, fetched)
    ensures var a := Respond(parse, start, before, stream);
      if buffered != [] then
        match parse(state, buffered)
        case Fails(error) => a == Answer(Some(Err(Protocol(error))), state, eaten, buffered, fetched)
        case Advances(count, next, output) =>
          if count > |buffered| || (count == 0 && output.None?)
          then a == Answer(Some(Err(Transport(ContractViolation))), state, eaten, buffered, fetched)
          else output.Some? ==>
            a == Answer(Some(Ok(output.value)), next, eaten + buffered[..count], buffered[count..], fetched)
      else if fetched == |stream| then a == Answer(None, state, eaten, [], fetched)
      else ReadError(stream[fetched]).Some? ==>
        a == Answer(Some(Err(Transport(ReadError(stream[fetched]).value))), state, eaten, [], fetched)
  {
    assert eaten + [] == eaten;
    hide ReadError;
  }

  class BleuIo {
    const rx: array<byte>
    var rxStart: nat
    var rxEnd: nat
    /** Everything read off the stream, and everything that parsers consumed. */
    ghost var received: seq<byte>
    ghost var consumed: seq<byte>

    ghost predicate Valid()
      reads this, rx
    {
      && rx.Length == RX_BYTES && rxStart <= rxEnd <= RX_BYTES
      && (rxStart == rxEnd ==> rxStart == 0)
      && received == consumed + Buffered()
    }

    ghost function Buffered(): seq<byte>
      reads this, rx
      requires rxStart <= rxEnd <= rx.Length
    {
      rx[rxStart..rxEnd]
    }

    constructor ()
      ensures Valid() && received == [] && consumed == [] && fresh(rx)
    {
      rx := new byte[RX_BYTES](_ => 0);
      rxStart, rxEnd, received, consumed := 0, 0, [], [];
    }

    method ConsumeBuffered(count: nat)
      requires Valid() && count <= rxEnd - rxStart
      modifies this
      ensures Valid() && received == old(received)
      ensures consumed == old(consumed) + old(Buffered())[..count] && Buffered() == old(Buffered())[count..]
    {
      ghost var before := Buffered();
      assert before == before[..count] + before[count..];
      assert consumed + before == (consumed + before[..count]) + before[count..];
      consumed := consumed + before[..count];
      rxStart := rxStart + count;
      assert rx[rxStart..rxEnd] == before[count..];
      if rxStart == rxEnd {
        rxStart, rxEnd := 0, 0;
      }
    }

    /** Append what the stream delivers to the buffer. */
    method Fill(item: ReadResult) returns (error: Option<TransportError>)
      requires Valid() && rxEnd == 0
      modifies this, rx
      ensures Valid() && consumed == old(consumed) && error == ReadError(item)
      ensures error.None? ==> received == old(received) + item.bytes && Buffered() == item.bytes
      ensures error.Some? ==> received == old(received) && Buffered() == old(Buffered())
    {
      match item
      case Failed => error := Some(Io);
      case TooMany => error := Some(ContractViolation);
      case Data(bytes) =>
        if bytes == [] {
          return Some(UnexpectedEof);
        }
        if |bytes| > RX_BYTES - rxEnd {
          return Some(ContractViolation);
        }
        ghost var before := Buffered();
        forall i | 0 <= i < |bytes| {
          rx[rxEnd + i] := bytes[i];
        }
        rxEnd := rxEnd + |bytes|;
        received := received + bytes;
        assert Buffered() == before + bytes;
        assert consumed + (before + bytes) == (consumed + before) + bytes;
        error := None;
    }

    lemma Sizes()
      requires Valid()
      ensures rxStart <= rxEnd <= rx.Length && |Buffered()| == rxEnd - rxStart
      ensures rxStart == rxEnd ==> rxEnd == 0 && Buffered() == []
    {}

    lemma InputIsBuffered(input: seq<byte>)
      requires rxStart < rxEnd <= rx.Length && input == rx[rxStart..rxEnd]
      ensures input == Buffered() && input != [] && |input| == rxEnd - rxStart
    {}

    /**
     * Read until the parser completes. Whatever happens, no byte of the stream
     * is lost or seen twice: the bytes received are those consumed by parsers,
     * command after command, followed by those still in the buffer. `None` is
     * a dropped future.
     */
    method ReadResponse<S(!new), Out(!new), E(!new)>(parse: ParserFn<S, Out, E>, start: S, stream: seq<ReadResult>)
      returns (result: Option<Result<Out, BleuIoError<E>>>, fetched: nat, ghost calls: seq<Call<S>>, ghost end: S)
      requires Valid()
      modifies this, rx
      ensures Valid() && fetched <= |stream|
      ensures received == old(received) + Delivered(stream[..fetched])
      ensures consumed == old(consumed) + Eaten(calls)
      ensures var answer := Respond(parse, start, old(Buffered()), stream);
        && result == answer.result && end == answer.end && fetched == answer.fetched
        && Eaten(calls) == answer.eaten && Buffered() == answer.left
      ensures result.Some? && result.value.Ok? ==> Calls(parse, start, calls, end, Some(result.value.value))
      ensures !(result.Some? && result.value.Ok?) ==>
        Calls(parse, start, calls, end, None) && NoResponse(parse, end, Buffered(), stream, fetched, result)
    {
      var state := start;
      fetched, calls, end := 0, [], start;
      ghost var had, took, waiting := received, consumed, Buffered();
      Begins(parse, start, had, took, stream);
      CourseBegins(parse, start, waiting, stream);
      hide *;
      while true
        invariant Valid() && fetched <= |stream| && end == state
        invariant Underway(parse, start, calls, state, None, had, received, took, consumed, stream, fetched)
        invariant OnCourse(parse, start, waiting, stream, state, Eaten(calls), Buffered(), fetched)
        decreases |stream| - fetched, rxEnd - rxStart
      {
        UnderwayMeans(parse, start, calls, state, None, had, received, took, consumed, stream, fetched);
        CourseEnds(parse, start, waiting, stream, state, Eaten(calls), Buffered(), fetched);
        Sizes();
        if rxStart != rxEnd {
          var input := rx[rxStart..rxEnd];
          InputIsBuffered(input);
          var step := parse(state, input);
          ParserObjects(parse, state, input, stream, fetched);
          if step.Fails? {
            return Some(Err(Protocol(step.error))), fetched, calls, end;
          }
          if step.consumed > rxEnd - rxStart || (step.consumed == 0 && step.output.None?) {
            return Some(Err(Transport(ContractViolation))), fetched, calls, end;
          }
          ghost var before := consumed;
          ConsumeBuffered(step.consumed);
          ghost var call := Call(state, input, step.consumed);
          Parsed(parse, start, calls, call, step.next, step.output, had, received, took, before, stream, fetched);
          if step.output.None? {
            CourseParsed(parse, start, waiting, stream, state, Eaten(calls), input, fetched, step.consumed, step.next);
          }
          calls := calls + [call];
          state := step.next;
          end := state;
          if step.output.Some? {
            UnderwayMeans(parse, start, calls, state, step.output, had, received, took, consumed, stream, fetched);
            return Some(Ok(step.output.value)), fetched, calls, end;
          }
        } else {
          StreamStops(parse, state, Buffered(), stream, fetched);
          if fetched == |stream| {
            return None, fetched, calls, end;
          }
          ghost var before := received;
          var error := Fill(stream[fetched]);
          if error.Some? {
            return Some(Err(Transport(error.value))), fetched, calls, end;
          }
          Fetched(parse, start, calls, state, had, before, took, consumed, stream, fetched);
          CourseFetched(parse, start, waiting, stream, state, Eaten(calls), fetched);
          fetched := fetched + 1;
        }
      }
      assert false;
    }
  }

  lemma OneMoreCall<S(!new), Out(!new), E(!new)>(parse: ParserFn<S, Out, E>, start: S, calls: seq<Call<S>>,
                                                 call: Call<S>, end: S, output: Option<Out>)
    requires Calls(parse, start, calls, call.state, None)
    requires call.consumed <= |call.input| && parse(call.state, call.input) == Advances(call.consumed, end, output)
    requires call.consumed > 0 || output.Some?
    ensures Calls(parse, start, calls + [call], end, output)
    ensures Eaten(calls + [call]) == Eaten(calls) + call.input[..call.consumed]
  {
    assert (calls + [call])[..|calls|] == calls;
  }

  /** What holds between the turns of one command: nothing was lost between stream, buffer and parser. */
  ghost predicate Underway<S(!new), Out(!new), E(!new)>(
      parse: ParserFn<S, Out, E>, start: S, calls: seq<Call<S>>, end: S, output: Option<Out>,
      had: seq<byte>, received: seq<byte>, took: seq<byte>, consumed: seq<byte>, stream: seq<ReadResult>, fetched: nat)
  {
    && fetched <= |stream|
    && received == had + Delivered(stream[..fetched])
    && consumed == took + Eaten(calls)
    && Calls(parse, start, calls, end, output)
  }

  lemma UnderwayMeans<S(!new), Out(!new), E(!new)>(
      parse: ParserFn<S, Out, E>, start: S, calls: seq<Call<S>>, end: S, output: Option<Out>,
      had: seq<byte>, received: seq<byte>, took: seq<byte>, consumed: seq<byte>, stream: seq<ReadResult>, fetched: nat)
    requires Underway(parse, start, calls, end, output, had, received, took, consumed, stream, fetched)
    ensures fetched <= |stream|
    ensures received == had + Delivered(stream[..fetched])
    ensures consumed == took + Eaten(calls)
    ensures Calls(parse, start, calls, end, output)
  {
    hide Calls, Eaten, Delivered;
  }

  lemma Begins<S(!new), Out(!new), E(!new)>(parse: ParserFn<S, Out, E>, start: S, had: seq<byte>, took: seq<byte>,
                                           stream: seq<ReadResult>)
    ensures Underway(parse, start, [], start, None, had, had, took, took, stream, 0) && Eaten<S>([]) == []
  {}

  lemma Parsed<S(!new), Out(!new), E(!new)>(
      parse: ParserFn<S, Out, E>, start: S, calls: seq<Call<S>>, call: Call<S>, end: S, output: Option<Out>,
      had: seq<byte>, received: seq<byte>, took: seq<byte>, consumed: seq<byte>, stream: seq<ReadResult>, fetched: nat)
    requires Underway(parse, start, calls, call.state, None, had, received, took, consumed, stream, fetched)
    requires call.consumed <= |call.input| && parse(call.state, call.input) == Advances(call.consumed, end, output)
    requires call.consumed > 0 || output.Some?
    ensures Underway(parse, start, calls + [call], end, output, had, received, took,
                     consumed + call.input[..call.consumed], stream, fetched)
    ensures Eaten(calls + [call]) == Eaten(calls) + call.input[..call.consumed]
  {
    hide Calls, Eaten, Delivered;
    OneMoreCall(parse, start, calls, call, end, output);
    Associates(took, Eaten(calls), call.input[..call.consumed]);
  }

  lemma Fetched<S(!new), Out(!new), E(!new)>(
      parse: ParserFn<S, Out, E>, start: S, calls: seq<Call<S>>, end: S, had: seq<byte>, received: seq<byte>,
      took: seq<byte>, consumed: seq<byte>, stream: seq<ReadResult>, fetched: nat)
    requires Underway(parse, start, calls, end, None, had, received, took, consumed, stream, fetched)
    requires fetched < |stream| && stream[fetched].Data?
    ensures Underway(parse, start, calls, end, None, had, received + stream[fetched].bytes, took, consumed, stream,
      fetched + 1)
  {
    hide Calls, Eaten, Delivered;
    OneMoreRead(stream, fetched);
    Associates(had, Delivered(stream[..fetched]), stream[fetched].bytes);
  }

  lemma Associates<T>(a: seq<T>, b: seq<T>, c: seq<T>)
    ensures a + (b + c) == (a + b) + c
  {}

  // ----- basic commands -------------------------------------------------------------------------

  /** The AT response accumulator as a parser; its state is the text it has taken. */
  function AtParse(text: seq<byte>, input: seq<byte>): Step<seq<byte>, At.Status, At.AtError> {
    match At.Judge(text + input)
    case More => Advances(|input|, text + input, None)
    case Full => Fails(At.Overflow)
    case Terminal(status, n) =>
      var taken := if |text| <= n <= |text| + |input| then n - |text| else 0;
      Advances(taken, text + input[..taken], Some(status))
  }

  /** What the accumulator answers as a response parser is what the function says of its text. */
  method ParseAtResponse(accumulator: At.AtResponseAccumulator, input: seq<byte>)
    returns (step: Step<seq<byte>, At.Status, At.AtError>)
    requires accumulator.Valid() && accumulator.status == At.Pending
    modifies accumulator, accumulator.bytes
    ensures accumulator.Valid() && step == AtParse(old(accumulator.Contents()), input)
    ensures accumulator.Contents() == if step.Advances? then step.next else old(accumulator.Contents())
    ensures step.Advances? && step.output.None? ==> accumulator.status == At.Pending
  {
    hide At.Judge;
    ghost var text := accumulator.Contents();
    var pushed := accumulator.PushWithConsumed(input);
    if pushed.Err? {
      return Fails(pushed.error);
    }
    var (status, consumed) := pushed.value;
    if At.Judge(text + input).Terminal? {
      TakeBeyond(text, input, At.Judge(text + input).consumed);
      TerminalSays(text + input);
    }
    return Advances(consumed, accumulator.Contents(), if status == At.Pending then None else Some(status));
  }

  lemma TerminalSays(s: seq<byte>)
    requires At.Judge(s).Terminal?
    ensures At.Judge(s).status != At.Pending
  {
    hide At.LastLine, At.Quiet;
    At.JudgeIff(s, At.Judge(s).consumed);
  }

  /** While the response is incomplete the parser has taken exactly what it was given. */
  lemma {:induction false} AtCalls(calls: seq<Call<seq<byte>>>, end: seq<byte>, output: Option<At.Status>)
    requires Calls(AtParse, [], calls, end, output)
    ensures output.None? ==> end == Eaten(calls) && At.Judge(end) == At.More
    ensures output.Some? ==> At.Judge(Eaten(calls)) == At.Terminal(output.value, |Eaten(calls)|)
  {
    if calls == [] {
      At.NothingYet();
    } else {
      var n := |calls| - 1;
      var last := calls[n];
      AtCalls(calls[..n], last.state, None);
      hide At.Judge;
      AtStep(last.state, last.input);
    }
  }

  lemma TakeBeyond<T>(s: seq<T>, more: seq<T>, n: nat)
    requires |s| <= n <= |s| + |more|
    ensures (s + more)[..n] == s + more[..n - |s|]
  {}

  /** The verdict on the prefix at which a terminal line was found is the same. */
  lemma JudgePrefix(s: seq<byte>, p: seq<byte>)
    requires p <= s && At.Judge(s).Terminal? && At.Judge(s).consumed == |p|
    ensures At.Judge(p) == At.Judge(s)
  {
    hide At.Judge, At.Quiet, At.LastLine;
    var n := |p|;
    At.JudgeIff(s, n);
    At.JudgeIff(p, n);
    At.WholeTake(p);
    if n > 0 {
      At.SamePrefix(s, p, n, n - 1);
      At.QuietTogether(s, p, n - 1);
    }
  }

  lemma ConsumedInside(s: seq<byte>)
    requires At.Judge(s).Terminal?
    ensures At.Judge(s).consumed <= |s|
  {
    hide At.Judge, At.Quiet, At.LastLine;
    At.JudgeIff(s, At.Judge(s).consumed);
  }

  lemma NotYet(text: seq<byte>, input: seq<byte>)
    requires At.Judge(text) == At.More && At.Judge(text + input).Terminal?
    ensures |text| < At.Judge(text + input).consumed
  {
    hide At.Judge, At.LastLine;
    var n := At.Judge(text + input).consumed;
    At.JudgeIff(text + input, n);
    At.JudgeIff(text, n);
    if n <= |text| {
      At.TakeOfSum(text, input, n);
    }
  }

  lemma AtStep(text: seq<byte>, input: seq<byte>)
    requires At.Judge(text) == At.More
    ensures At.Judge(text + input).Terminal? ==>
      var n := At.Judge(text + input).consumed;
      && |text| < n <= |text| + |input|
      && At.Judge(text + input[..n - |text|]) == At.Judge(text + input)
  {
    hide At.Judge;
    if At.Judge(text + input).Terminal? {
      NotYet(text, input);
      ConsumedInside(text + input);
      var n := At.Judge(text + input).consumed;
      TakeBeyond(text, input, n);
      JudgePrefix(text + input, text + input[..n - |text|]);
    }
  }

  /**
   * A basic command's answer is the verdict on the bytes it consumed, up to
   * and including the terminal line and no further, whatever pieces the stream
   * delivered; the rest stays for the next command.
   */
  lemma BasicCommandAnswer(calls: seq<Call<seq<byte>>>, end: seq<byte>, status: At.Status, rest: seq<byte>)
    requires Calls(AtParse, [], calls, end, Some(status))
    ensures At.Judge(Eaten(calls) + rest) == At.Terminal(status, |Eaten(calls)|)
  {
    AtCalls(calls, end, Some(status));
    At.VerdictIsStable(Eaten(calls), rest);
  }

  // ----- scans ------------------------------------------------------------------------------------

  type Transcript = Scan.Parser<DeviceLine.ScanResult>

  function ScanStart(): Transcript { Scan.Start() }

  function Scanned(q: Transcript, bytes: seq<byte>): Transcript { Scan.OnBytes(q, bytes, DeviceLine.Classify) }

  /** The scan accumulator as a parser; its state is where the transcript stands. */
  function ScanParse(q: Transcript, input: seq<byte>): Step<Transcript, DeviceLine.ScanResult, Scan.ScanError> {
    var after := Scanned(q, input);
    match after.progress
    case Broken(error) => Fails(error)
    case Complete(device) => Advances(if after.taken >= q.taken then after.taken - q.taken else 0, after, Some(device))
    case Scanned(_, _) => Advances(|input|, after, None)
  }

  /** What the accumulator answers as a response parser is what the function says of its transcript. */
  method ParseScan(accumulator: Scan.ScanAccumulator<DeviceLine.ScanResult>, input: seq<byte>)
    returns (result: Result<(nat, Option<DeviceLine.ScanResult>), Scan.ScanError>)
    requires accumulator.Valid() && !accumulator.complete && accumulator.classify == DeviceLine.Classify
    modifies accumulator, accumulator.line
    ensures match ScanParse(old(accumulator.State()), input)
      case Fails(error) => result == Err(error)
      case Advances(count, next, output) =>
        && result == Ok((count, output)) && count <= |input|
        && accumulator.Valid() && accumulator.State() == next
        && accumulator.consumed == old(accumulator.consumed) + input[..count]
  {
    ghost var before := accumulator.State();
    Scan.OnBytesConcat(Scan.Start(), accumulator.consumed, input, DeviceLine.Classify);
    OnlyTaken(before, input);
    hide Scan.OnBytes, DeviceLine.Classify;
    var pushed := accumulator.PushWithConsumed(input, DeviceLine.Classify);
    if pushed.Err? {
      return Err(pushed.error);
    }
    return Ok((pushed.value.1, if pushed.value.0 then accumulator.firstResult else None));
  }

  /** A transcript takes bytes up to its end, and no more than those make its outcome. */
  lemma {:induction false} OnlyTaken(q: Transcript, bytes: seq<byte>)
    ensures var after := Scanned(q, bytes);
      && q.taken <= after.taken <= q.taken + |bytes|
      && (after.progress.Scanned? ==> after.taken == q.taken + |bytes|)
      && Scanned(q, bytes[..after.taken - q.taken]) == after
  {
    if bytes != [] {
      var n := |bytes| - 1;
      var before := Scanned(q, bytes[..n]);
      OnlyTaken(q, bytes[..n]);
      if before.progress.Scanned? {
        OneByte(before, bytes[n]);
        assert bytes[..|bytes|] == bytes;
      } else {
        assert bytes[..n][..before.taken - q.taken] == bytes[..before.taken - q.taken];
      }
    }
  }

  lemma OneByte(q: Transcript, b: byte)
    requires q.progress.Scanned?
    ensures Scan.OnByte(q, b, DeviceLine.Classify).taken == q.taken + 1
  {
    hide DeviceLine.Classify, Scan.OnLine;
  }

  /** The transcript of the bytes consumed is the parser's state, whatever pieces the stream delivered. */
  lemma {:induction false} ScanCalls(calls: seq<Call<Transcript>>, end: Transcript,
                                     output: Option<DeviceLine.ScanResult>)
    requires Calls(ScanParse, ScanStart(), calls, end, output)
    ensures end == Scanned(ScanStart(), Eaten(calls)) && end.taken == |Eaten(calls)|
    ensures output.Some? ==> end.progress == Scan.Complete(output.value)
    ensures output.None? ==> end.progress.Scanned?
  {
    if calls != [] {
      var n := |calls| - 1;
      var last := calls[n];
      ScanCalls(calls[..n], last.state, None);
      OnlyTaken(last.state, last.input);
      var taken := last.input[..last.consumed];
      assert last.input[..|last.input|] == last.input;
      Scan.OnBytesConcat(Scan.Start(), Eaten(calls[..n]), taken, DeviceLine.Classify);
      hide Scan.OnBytes, DeviceLine.Classify;
    }
  }

  /**
   * A scan's answer is the device that the transcript of the consumed bytes
   * ends with; nothing beyond its last line is consumed.
   */
  lemma ScanAnswer(calls: seq<Call<Transcript>>, end: Transcript, device: DeviceLine.ScanResult, rest: seq<byte>)
    requires Calls(ScanParse, ScanStart(), calls, end, Some(device))
    ensures Scanned(ScanStart(), Eaten(calls) + rest).progress == Scan.Complete(device)
    ensures Scanned(ScanStart(), Eaten(calls) + rest) == Scanned(ScanStart(), Eaten(calls))
  {
    ScanCalls(calls, end, Some(device));
    Scan.OnBytesConcat(Scan.Start(), Eaten(calls), rest, DeviceLine.Classify);
    Scan.FinishedStays(end, rest, DeviceLine.Classify);
    hide Scan.OnBytes, DeviceLine.Classify;
  }
}
