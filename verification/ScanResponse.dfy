/**
 * The streaming parser of a scan transcript: it keeps one line at a time, so
 * that any number of results passes through fixed storage.
 */
module ScanResponse {
  import opened UsbTypes
  import Packetise

  const LINE_CAPACITY: nat := 128
  const LF: byte := 0x0a
  const CR: byte := 0x0d

  datatype ScanError =
    | DeviceError | LineOverflow | MalformedDeviceLine | UnexpectedDevice | UnexpectedComplete | NoDevice

  datatype ScanLine<+Device> = Ignore | Scanning | Found(device: Device) | EndOfScan | DeviceFailed

  /** How one line reads; the text of a device line is read by a function of the caller. */
  type Classifier<!Device> = seq<byte> -> Result<ScanLine<Device>, ScanError>

  /** Where a scan stands after the lines so far. */
  datatype Progress<+Device> =
    | Scanned(sawScanning: bool, first: Option<Device>)
    | Complete(result: Device)
    | Broken(error: ScanError)

  /** One complete line. */
  function OnLine<Device>(p: Progress<Device>, line: seq<byte>, classify: Classifier<Device>): Progress<Device>
    requires p.Scanned?
  {
    match classify(line)
    case Err(error) => Broken(error)
    case Ok(Ignore) => p
    case Ok(Scanning) => p.(sawScanning := true)
    case Ok(Found(device)) =>
      if !p.sawScanning then Broken(UnexpectedDevice)
      else if p.first.Some? then p else p.(first := Some(device))
    case Ok(EndOfScan) =>
      if !p.sawScanning then Broken(UnexpectedComplete)
      else if p.first.None? then Broken(NoDevice) else Complete(p.first.value)
    case Ok(DeviceFailed) => Broken(DeviceError)
  }

  /** The parser after a byte string: the progress, the unfinished line, and how many bytes it took to end. */
  datatype Parser<+Device> = Parser(progress: Progress<Device>, line: seq<byte>, taken: nat)

  function OnByte<Device>(q: Parser<Device>, b: byte, classify: Classifier<Device>): Parser<Device> {
    if !q.progress.Scanned? then q
    else if b == LF && q.line != [] && q.line[|q.line| - 1] == CR then
      Parser(OnLine(q.progress, q.line[..|q.line| - 1], classify), [], q.taken + 1)
    else if |q.line| == LINE_CAPACITY then Parser(Broken(LineOverflow), q.line, q.taken + 1)
    else Parser(q.progress, q.line + [b], q.taken + 1)
  }

  function Start<Device>(): Parser<Device> { Parser(Scanned(false, None), [], 0) }

  function OnBytes<Device>(q: Parser<Device>, bytes: seq<byte>, classify: Classifier<Device>): Parser<Device> {
    if bytes == [] then q else OnByte(OnBytes(q, bytes[..|bytes| - 1], classify), bytes[|bytes| - 1], classify)
  }

  /** The line that stays in the buffer when a byte breaks the parser: none after a line that could be read. */
  function LineKept<Device>(q: Parser<Device>, b: byte, classify: Classifier<Device>): seq<byte> {
    if b == LF && q.line != [] && q.line[|q.line| - 1] == CR && classify(q.line[..|q.line| - 1]).Ok? then [] else q.line
  }

  /** The first byte of the piece that breaks the parser, and what stays of the progress and the line before it. */
  ghost predicate BreaksIn<Device>(before: seq<byte>, piece: seq<byte>, classify: Classifier<Device>, error: ScanError,
                                   progress: Progress<Device>, line: seq<byte>)
  {
    var q := OnBytes(Start(), before + piece, classify);
    && q.progress == Broken(error) && |before| < q.taken <= |before + piece|
    && var unbroken := OnBytes(Start(), (before + piece)[..q.taken - 1], classify);
       progress == unbroken.progress && line == LineKept(unbroken, (before + piece)[q.taken - 1], classify)
  }

  lemma BreaksHere<Device>(start: seq<byte>, payload: seq<byte>, index: nat, before: Parser<Device>,
                           classify: Classifier<Device>, error: ScanError)
    requires index < |payload| && before == OnBytes(Start(), start + payload[..index], classify)
    requires before.progress.Scanned? && before.taken == |start| + index
    requires OnByte(before, payload[index], classify).progress == Broken(error)
    ensures BreaksIn(start, payload, classify, error, before.progress, LineKept(before, payload[index], classify))
  {
    hide OnBytes, OnByte, LineKept, OnLine;
    OnBytesAppend(Start(), start + payload[..index], payload[index], classify);
    OneTaken(before, payload[index], classify);
    BreaksWhole(start, payload, index, before, classify, error);
  }

  lemma OneTaken<Device>(q: Parser<Device>, b: byte, classify: Classifier<Device>)
    requires q.progress.Scanned?
    ensures OnByte(q, b, classify).taken == q.taken + 1
  {
    hide OnLine;
  }

  lemma BreaksWhole<Device>(start: seq<byte>, payload: seq<byte>, index: nat, before: Parser<Device>,
                            classify: Classifier<Device>, error: ScanError)
    requires index < |payload| && before == OnBytes(Start(), start + payload[..index], classify)
    requires var q := OnBytes(Start(), start + payload[..index] + [payload[index]], classify);
      q.progress == Broken(error) && q.taken == |start| + index + 1
    ensures BreaksIn(start, payload, classify, error, before.progress, LineKept(before, payload[index], classify))
  {
    hide OnBytes, LineKept;
    NextPiece(start, payload, index);
    FinishedPrefix(start, payload, index + 1, classify);
  }

  lemma {:induction false} OnBytesConcat<Device>(q: Parser<Device>, a: seq<byte>, b: seq<byte>,
                                                 classify: Classifier<Device>)
    ensures OnBytes(q, a + b, classify) == OnBytes(OnBytes(q, a, classify), b, classify)
    decreases |b|
  {
    hide OnByte;
    if b == [] {
      assert a + b == a;
    } else {
      assert (a + b)[..|a + b| - 1] == a + b[..|b| - 1];
      OnBytesConcat(q, a, b[..|b| - 1], classify);
    }
  }

  lemma OnBytesAppend<Device>(q: Parser<Device>, a: seq<byte>, b: byte, classify: Classifier<Device>)
    ensures OnBytes(q, a + [b], classify) == OnByte(OnBytes(q, a, classify), b, classify)
  {
    hide OnByte;
    assert (a + [b])[..|a|] == a;
  }

  /** A finished parser takes nothing more. */
  lemma {:induction false} FinishedStays<Device>(q: Parser<Device>, bytes: seq<byte>, classify: Classifier<Device>)
    requires !q.progress.Scanned?
    ensures OnBytes(q, bytes, classify) == q
  {
    if bytes != [] {
      FinishedStays(q, bytes[..|bytes| - 1], classify);
    }
  }

  // ----- what the parser computes, line by line ------------------------------------------------

  /** A line as it can be sent: it fits the buffer with its carriage return and contains no line end. */
  ghost predicate IsLine(line: seq<byte>) {
    |line| < 128 && forall i | 0 < i < |line| :: !(line[i - 1] == 0x0d && line[i] == 0x0a)
  }

  function Transcript(lines: seq<seq<byte>>): seq<byte> {
    if lines == [] then [] else Transcript(lines[..|lines| - 1]) + lines[|lines| - 1] + [0x0d, 0x0a]
  }

  function OnLines<Device>(p: Progress<Device>, lines: seq<seq<byte>>, classify: Classifier<Device>): Progress<Device> {
    if lines == [] then p
    else
      var before := OnLines(p, lines[..|lines| - 1], classify);
      if before.Scanned? then OnLine(before, lines[|lines| - 1], classify) else before
  }

  /** The bytes of one line accumulate in the buffer. */
  lemma {:induction false} LineAccumulates<Device>(q: Parser<Device>, line: seq<byte>, n: nat,
                                                   classify: Classifier<Device>)
    requires q.progress.Scanned? && q.line == [] && IsLine(line) && n <= |line|
    ensures OnBytes(q, line[..n], classify) == Parser(q.progress, line[..n], q.taken + n)
  {
    hide OnLine, OnByte;
    if n > 0 {
      LineAccumulates(q, line, n - 1, classify);
      var b := line[n - 1];
      assert line[..n] == line[..n - 1] + [b];
      OnBytesAppend(q, line[..n - 1], b, classify);
      ByteCases(Parser(q.progress, line[..n - 1], q.taken + n - 1), b, classify);
      assert n > 1 ==> line[..n - 1][n - 2] == line[n - 2];
    }
  }

  /** Bytes without a line end are kept while the buffer holds them, and overflow it after 128. */
  lemma {:induction false} UnendedLine<Device>(bytes: seq<byte>, classify: Classifier<Device>)
    requires forall i | 0 < i < |bytes| :: !(bytes[i - 1] == 0x0d && bytes[i] == 0x0a)
    ensures var q := OnBytes(Start(), bytes, classify);
      if |bytes| <= 128 then q == Parser(Scanned(false, None), bytes, |bytes|)
      else q.progress == Broken(LineOverflow) && q.taken == 129
  {
    hide OnLine;
    if bytes != [] {
      var before, b := bytes[..|bytes| - 1], bytes[|bytes| - 1];
      UnendedLine(before, classify);
      assert before + [b] == bytes;
    }
  }

  lemma OneLine<Device>(q: Parser<Device>, line: seq<byte>, classify: Classifier<Device>)
    requires q.progress.Scanned? && q.line == [] && IsLine(line)
    ensures OnBytes(q, line + [CR, LF], classify)
      == Parser(OnLine(q.progress, line, classify), [], q.taken + |line| + 2)
  {
    hide OnLine, OnBytes, OnByte;
    LineAccumulates(q, line, |line|, classify);
    assert line[..|line|] == line;
    OnBytesAppend(q, line, CR, classify);
    OnBytesAppend(q, line + [CR], LF, classify);
    assert line + [CR, LF] == line + [CR] + [LF];
    LineEnds(Parser(q.progress, line, q.taken + |line|), classify);
  }

  lemma LineEnds<Device>(q: Parser<Device>, classify: Classifier<Device>)
    requires q.progress.Scanned? && |q.line| < LINE_CAPACITY
    ensures OnByte(OnByte(q, CR, classify), LF, classify)
      == Parser(OnLine(q.progress, q.line, classify), [], q.taken + 2)
  {
    hide OnLine;
    assert (q.line + [CR])[..|q.line|] == q.line;
  }

  predicate IsFound<Device>(r: Result<ScanLine<Device>, ScanError>) { r.Ok? && r.value.Found? }

  ghost predicate NoneFound<Device>(lines: seq<seq<byte>>, classify: Classifier<Device>) {
    forall line | line in lines :: !IsFound(classify(line))
  }

  /** The line names this device, and no line before it names one. */
  ghost predicate FirstFound<Device>(lines: seq<seq<byte>>, j: nat, device: Device, classify: Classifier<Device>) {
    j < |lines| && classify(lines[j]) == Ok(Found(device)) && NoneFound(lines[..j], classify)
  }

  ghost predicate Begun<Device>(lines: seq<seq<byte>>, classify: Classifier<Device>) {
    exists line | line in lines :: classify(line) == Ok(Scanning)
  }

  /** The line lets the scan go on: it can be read, ends nothing, and a device follows the start of the scan. */
  ghost predicate GoesOn<Device>(lines: seq<seq<byte>>, k: nat, classify: Classifier<Device>)
    requires k < |lines|
  {
    var r := classify(lines[k]);
    && r.Ok? && !r.value.EndOfScan? && !r.value.DeviceFailed?
    && (r.value.Found? ==> Begun(lines[..k], classify))
  }

  ghost predicate AllGoOn<Device>(lines: seq<seq<byte>>, classify: Classifier<Device>) {
    forall k | 0 <= k < |lines| :: GoesOn(lines, k, classify)
  }

  /** What the progress of a scan that has not ended says of its lines. */
  ghost predicate Tells<Device>(p: Progress<Device>, lines: seq<seq<byte>>, classify: Classifier<Device>) {
    && p.Scanned? && (p.sawScanning <==> Begun(lines, classify))
    && (p.first.None? <==> NoneFound(lines, classify))
    && (p.first.Some? ==> p.sawScanning && exists j :: FirstFound(lines, j, p.first.value, classify))
  }

  lemma {:induction false} ScanGoesOn<Device>(lines: seq<seq<byte>>, classify: Classifier<Device>)
    ensures var p := OnLines(Scanned(false, None), lines, classify);
      && (p.Scanned? <==> AllGoOn(lines, classify)) && (p.Scanned? ==> Tells(p, lines, classify))
  {
    if lines != [] {
      var n := |lines| - 1;
      ScanGoesOn(lines[..n], classify);
      assert lines == lines[..n] + [lines[n]];
      OneLineMore(lines[..n], lines[n], classify);
      hide Tells, AllGoOn, OnLine;
      var p := OnLines(Scanned(false, None), lines[..n], classify);
      if p.Scanned? {
        ToldMore(p, lines[..n], lines[n], classify);
      }
    }
  }

  lemma OneLineMore<Device>(before: seq<seq<byte>>, line: seq<byte>, classify: Classifier<Device>)
    ensures AllGoOn(before + [line], classify) <==>
      AllGoOn(before, classify) && GoesOn(before + [line], |before|, classify)
    ensures (before + [line])[..|before|] == before
  {
    var lines := before + [line];
    forall k | 0 <= k < |before| ensures GoesOn(lines, k, classify) <==> GoesOn(before, k, classify) {
      assert lines[..k] == before[..k];
    }
  }

  lemma ToldMore<Device>(p: Progress<Device>, before: seq<seq<byte>>, line: seq<byte>, classify: Classifier<Device>)
    requires Tells(p, before, classify)
    ensures var lines, q := before + [line], OnLine(p, line, classify);
      && (q.Scanned? <==> GoesOn(lines, |before|, classify)) && (q.Scanned? ==> Tells(q, lines, classify))
  {
    var lines := before + [line];
    assert lines[..|before|] == before;
    assert forall x :: x in lines <==> x in before || x == line;
    if j: nat :| p.first.Some? && FirstFound(before, j, p.first.value, classify) {
      assert lines[..j] == before[..j];
      assert FirstFound(lines, j, p.first.value, classify);
    }
    if p.first.None? && IsFound(classify(line)) {
      assert FirstFound(lines, |before|, classify(line).value.device, classify);
    }
  }

  /** Some line ends the scan, every line before it lets the scan go on, and among those the device is the first. */
  ghost predicate EndsWith<Device>(lines: seq<seq<byte>>, k: nat, device: Device, classify: Classifier<Device>) {
    && k < |lines| && classify(lines[k]) == Ok(EndOfScan) && AllGoOn(lines[..k], classify)
    && exists j :: FirstFound(lines[..k], j, device, classify)
  }

  /** A scan completes with a device exactly when its lines end with it. */
  lemma {:induction false} CompleteIff<Device>(lines: seq<seq<byte>>, device: Device, classify: Classifier<Device>)
    ensures OnLines(Scanned(false, None), lines, classify) == Complete(device) <==>
      exists k :: EndsWith(lines, k, device, classify)
  {
    if lines != [] {
      var n := |lines| - 1;
      var before := lines[..n];
      assert before + [lines[n]] == lines;
      CompleteIff(before, device, classify);
      ScanGoesOn(before, classify);
      hide AllGoOn, FirstFound, Tells;
      EndsNowOrBefore(lines, device, classify);
      if OnLines(Scanned(false, None), before, classify).Scanned? {
        EndsNow(OnLines(Scanned(false, None), before, classify), before, device, classify);
      }
    }
  }

  lemma EndsNowOrBefore<Device>(lines: seq<seq<byte>>, device: Device, classify: Classifier<Device>)
    requires lines != []
    ensures var before := lines[..|lines| - 1];
      (exists k :: EndsWith(lines, k, device, classify)) <==>
      (exists k :: EndsWith(before, k, device, classify)) || EndsWith(lines, |before|, device, classify)
  {
    hide AllGoOn, FirstFound;
    var n := |lines| - 1;
    forall k | 0 <= k < n ensures EndsWith(lines, k, device, classify) <==> EndsWith(lines[..n], k, device, classify) {
      assert lines[..n][..k] == lines[..k];
    }
  }

  /** The first device of a scan that has not ended is the one that it holds. */
  lemma EndsNow<Device>(p: Progress<Device>, before: seq<seq<byte>>, device: Device, classify: Classifier<Device>)
    requires Tells(p, before, classify)
    ensures p.first == Some(device) <==> exists j :: FirstFound(before, j, device, classify)
  {
    if i: nat :| FirstFound(before, i, device, classify) {
      assert before[i] in before;
      assert IsFound(classify(before[i]));
      var j: nat :| FirstFound(before, j, p.first.value, classify);
    }
  }

  /** Byte by byte or line by line: a transcript is judged by its lines, in order. */
  lemma {:induction false} LinesDecide<Device>(lines: seq<seq<byte>>, classify: Classifier<Device>)
    requires forall i | 0 <= i < |lines| :: IsLine(lines[i])
    ensures var q := OnBytes(Start(), Transcript(lines), classify);
      && q.progress == OnLines(Scanned(false, None), lines, classify)
      && (q.progress.Scanned? ==> q.line == [] && q.taken == |Transcript(lines)|)
  {
    if lines != [] {
      var n := |lines| - 1;
      LinesDecide(lines[..n], classify);
      var before := OnBytes(Start(), Transcript(lines[..n]), classify);
      var tail := lines[n] + [CR, LF];
      assert Transcript(lines) == Transcript(lines[..n]) + tail;
      OnBytesConcat(Start(), Transcript(lines[..n]), tail, classify);
      if before.progress.Scanned? {
        OneLine(before, lines[n], classify);
      } else {
        FinishedStays(before, tail, classify);
      }
    }
  }

  // ----- the accumulator ------------------------------------------------------------------------

  class ScanAccumulator<Device(0)> {
    const line: array<byte>
    var lineLen: nat
    var sawScanning: bool
    var firstResult: Option<Device>
    var complete: bool
    /** Everything consumed so far. */
    ghost var consumed: seq<byte>
    ghost const classify: Classifier<Device>

    ghost predicate Valid()
      reads this, line
    {
      && line.Length == LINE_CAPACITY && lineLen <= LINE_CAPACITY
      && (complete ==> firstResult.Some?)
      && OnBytes(Start(), consumed, classify) == State()
    }

    ghost function State(): Parser<Device>
      reads this, line
      requires lineLen <= line.Length && (complete ==> firstResult.Some?)
    {
      Parser(if complete then Complete(firstResult.value)
        else Scanned(sawScanning, firstResult), line[..lineLen], |consumed|)
    }

    constructor (ghost classify: Classifier<Device>)
      ensures Valid() && consumed == [] && !complete && this.classify == classify && fresh(line)
    {
      line := new byte[LINE_CAPACITY](_ => 0);
      lineLen, sawScanning, firstResult, complete := 0, false, None, false;
      consumed := [];
      this.classify := classify;
    }

    /** One complete line, the text of which is in the buffer before its carriage return. */
    method TakeLine(read: Classifier<Device>) returns (error: Option<ScanError>)
      requires Valid() && !complete && read == classify
      requires lineLen != 0 && line[lineLen - 1] == CR
      modifies this`lineLen, this`sawScanning, this`firstResult, this`complete
      ensures var p := OnLine(old(State()).progress, old(line[..lineLen - 1]), classify);
        if p.Broken? then
          && error == Some(p.error) && !complete && lineLen <= line.Length
          && State().progress == old(State()).progress
          && lineLen == if classify(old(line[..lineLen - 1])).Ok? then 0 else old(lineLen)
        else error.None? && lineLen == 0 && (complete ==> firstResult.Some?) && State().progress == p
    {
      var text := read(line[..lineLen - 1]);
      if text.Err? {
        return Some(text.error);
      }
      lineLen := 0;
      match text.value {
        case Ignore =>
        case Scanning => sawScanning := true;
        case Found(device) =>
          if !sawScanning {
            return Some(UnexpectedDevice);
          }
          if firstResult.None? {
            firstResult := Some(device);
          }
        case EndOfScan =>
          if !sawScanning {
            return Some(UnexpectedComplete);
          }
          if firstResult.None? {
            return Some(NoDevice);
          }
          complete := true;
        case DeviceFailed => return Some(DeviceError);
      }
      return None;
    }

    /** Add a byte to the unfinished line. */
    method StoreByte(b: byte)
      requires line.Length == LINE_CAPACITY && lineLen < LINE_CAPACITY
      modifies this`lineLen, line
      ensures lineLen == old(lineLen) + 1 <= LINE_CAPACITY
      ensures line[..lineLen] == old(line[..lineLen]) + [b]
    {
      line[lineLen] := b;
      lineLen := lineLen + 1;
    }

    /** One byte: the end of a line, or one more byte of it. */
    method TakeByte(b: byte, read: Classifier<Device>) returns (error: Option<ScanError>)
      requires Valid() && !complete && read == classify
      modifies this, line
      ensures var q := OnByte(old(State()), b, classify);
        if q.progress.Broken? then
          && error == Some(q.progress.error) && !complete && lineLen <= line.Length
          && State().progress == old(State()).progress && State().line == LineKept(old(State()), b, classify)
        else error.None? && Valid() && consumed == old(consumed) + [b] && State() == q
    {
      hide OnBytes, OnLine, OnByte;
      ghost var before := State();
      OnBytesAppend(Start(), consumed, b, classify);
      ByteCases(before, b, classify);
      if b == LF && lineLen != 0 && line[lineLen - 1] == CR {
        DropLast(line[..], lineLen);
        error := TakeLine(read);
        assert error.None? ==> line[..0] == [];
      } else if lineLen == LINE_CAPACITY {
        return Some(LineOverflow);
      } else {
        StoreByte(b);
        error := None;
      }
      consumed := consumed + [b];
    }

    /**
     * Take bytes up to the end of the scan. An error is the parser's error
     * on everything consumed and this piece; it leaves the progress as it was
     * before the failing byte, and of the line what was not read.
     */
    method PushWithConsumed(payload: seq<byte>, read: Classifier<Device>)
      returns (result: Result<(bool, nat), ScanError>)
      requires Valid() && read == classify
      modifies this, line
      ensures result.Err? ==>
        && !complete && lineLen <= line.Length
        && BreaksIn(old(consumed), payload, classify, result.error, State().progress, State().line)
      ensures var q := OnBytes(Start(), old(consumed) + payload, classify);
        if q.progress.Broken? then result == Err(q.progress.error)
        else
          && result.Ok? && Valid() && State() == q
          && result.value.0 == complete && result.value.1 <= |payload|
          && consumed == old(consumed) + payload[..result.value.1]
          && (!complete ==> result.value.1 == |payload|)
    {
      if complete {
        FinishedStays(State(), payload, classify);
        OnBytesConcat(Start(), consumed, payload, classify);
        assert consumed + payload[..0] == consumed;
        return Ok((true, 0));
      }
      ghost var start := consumed;
      assert start + payload[..0] == start;
      hide OnBytes, OnByte, LineKept, BreaksIn;
      for index := 0 to |payload|
        invariant Valid() && !complete && consumed == start + payload[..index]
      {
        ghost var before := State();
        OnBytesAppend(Start(), consumed, payload[index], classify);
        NextPiece(start, payload, index);
        FinishedPrefix(start, payload, index + 1, classify);
        var error := TakeByte(payload[index], read);
        if error.Some? {
          BreaksHere(start, payload, index, before, classify, error.value);
          return Err(error.value);
        }
        if complete {
          return Ok((true, index + 1));
        }
      }
      assert payload[..|payload|] == payload;
      return Ok((false, |payload|));
    }
  }

  lemma DropLast<T>(s: seq<T>, n: nat)
    requires 0 < n <= |s|
    ensures s[..n][..n - 1] == s[..n - 1]
  {}

  lemma ByteCases<Device>(q: Parser<Device>, b: byte, classify: Classifier<Device>)
    requires q.progress.Scanned?
    ensures OnByte(q, b, classify) ==
      if b == LF && q.line != [] && q.line[|q.line| - 1] == CR
      then Parser(OnLine(q.progress, q.line[..|q.line| - 1], classify), [], q.taken + 1)
      else Parser(if |q.line| == LINE_CAPACITY then Broken(LineOverflow) else q.progress,
                  if |q.line| == LINE_CAPACITY then q.line else q.line + [b], q.taken + 1)
  {}

  lemma NextPiece<T>(start: seq<T>, payload: seq<T>, index: nat)
    requires index < |payload|
    ensures start + payload[..index] + [payload[index]] == start + payload[..index + 1]
    ensures (start + payload)[..|start| + index] == start + payload[..index]
    ensures (start + payload)[|start| + index] == payload[index]
  {}

  lemma FinishedPrefix<Device>(start: seq<byte>, payload: seq<byte>, n: nat, classify: Classifier<Device>)
    requires n <= |payload|
    ensures var q := OnBytes(Start(), start + payload[..n], classify);
      !q.progress.Scanned? ==> OnBytes(Start(), start + payload, classify) == q
  {
    var q := OnBytes(Start(), start + payload[..n], classify);
    if !q.progress.Scanned? {
      assert start + payload == start + payload[..n] + payload[n..];
      OnBytesConcat(Start(), start + payload[..n], payload[n..], classify);
      FinishedStays(q, payload[n..], classify);
    }
  }

  /** However the stream is cut, the outcome and the number of bytes it took are the same. */
  lemma {:induction false} CutDoesNotMatter<Device>(q: Parser<Device>, pieces: seq<seq<byte>>,
                                                    classify: Classifier<Device>)
    ensures PieceByPiece(q, pieces, classify) == OnBytes(q, Packetise.Concat(pieces), classify)
    decreases |pieces|
  {
    if pieces != [] {
      OnBytesConcat(q, pieces[0], Packetise.Concat(pieces[1..]), classify);
      CutDoesNotMatter(OnBytes(q, pieces[0], classify), pieces[1..], classify);
    }
  }

  function PieceByPiece<Device>(q: Parser<Device>, pieces: seq<seq<byte>>, classify: Classifier<Device>): Parser<Device>
    decreases |pieces|
  {
    if pieces == [] then q else PieceByPiece(OnBytes(q, pieces[0], classify), pieces[1..], classify)
  }
}
