/**
 * The bounded accumulator for responses to basic AT commands, fed with
 * arbitrary pieces of a byte stream.
 */
module AtResponse {
  import opened UsbTypes
  import Packetise

  const CAPACITY: nat := 64
  const LF: byte := 0x0a
  const CR: byte := 0x0d
  const OK_CRLF: seq<byte> := [0x4f, 0x4b, 0x0d, 0x0a]
  const ERROR_CRLF: seq<byte> := [0x45, 0x52, 0x52, 0x4f, 0x52, 0x0d, 0x0a]

  datatype Status = Pending | Succeeded | Failed

  datatype AtError = Overflow

  // ----- the verdict on a byte string ---------------------------------------------------------

  predicate EndsIn(s: seq<byte>, tail: seq<byte>) {
    |s| >= |tail| && s[|s| - |tail|..] == tail
  }

  /** The string ends in this line: the line is all of it, or follows a line feed. */
  predicate EndsInLine(s: seq<byte>, line: seq<byte>) {
    EndsIn(s, line) && (|s| == |line| || s[|s| - |line| - 1] == LF)
  }

  /** What the last line of the string says. */
  function LastLine(s: seq<byte>): Status {
    if EndsInLine(s, OK_CRLF) then Succeeded else if EndsInLine(s, ERROR_CRLF) then Failed else Pending
  }

  /** What ends a response, in characters. */
  lemma TerminalLines(s: seq<byte>)
    ensures Spells(OK_CRLF, "OK\r\n") && Spells(ERROR_CRLF, "ERROR\r\n")
    ensures LastLine(s) == Succeeded <==> EndsInText(s, "OK\r\n")
    ensures LastLine(s) == Failed <==> EndsInText(s, "ERROR\r\n")
  {
    EndsInSpelled(s, OK_CRLF, "OK\r\n");
    EndsInSpelled(s, ERROR_CRLF, "ERROR\r\n");
    ThirdLast(s);
    hide EndsInLine, EndsInText;
  }

  /** The string ends in this text as a line: it is all of it, or follows a line feed. */
  predicate EndsInText(s: seq<byte>, text: string) {
    && |text| <= |s| && Spells(s[|s| - |text|..], text)
    && (|text| == |s| || s[|s| - |text| - 1] == 10)
  }

  lemma EndsInSpelled(s: seq<byte>, line: seq<byte>, text: string)
    requires Spells(line, text)
    ensures EndsInLine(s, line) <==> EndsInText(s, text)
  {
    if |line| <= |s| && Spells(s[|s| - |text|..], text) {
      assert s[|s| - |line|..] == line;
    }
  }

  lemma ThirdLast(s: seq<byte>)
    ensures EndsInLine(s, OK_CRLF) ==> |s| >= 3 && s[|s| - 3] == 0x4b
    ensures EndsInLine(s, ERROR_CRLF) ==> |s| >= 3 && s[|s| - 3] == 0x52
  {
    if EndsInLine(s, OK_CRLF) {
      assert s[|s| - 3] == s[|s| - 4..][1];
    }
    if EndsInLine(s, ERROR_CRLF) {
      assert s[|s| - 3] == s[|s| - 7..][4];
    }
  }

  datatype Verdict = More | Full | Terminal(status: Status, consumed: nat)

  /** The shortest prefix, of at least n bytes, that ends in a terminal line within the capacity. */
  function Scan(s: seq<byte>, n: nat): (k: Option<nat>)
    ensures k.Some? ==> n <= k.value <= |s|
    decreases |s| - n
  {
    if n > |s| || n > CAPACITY then None
    else if LastLine(s[..n]) != Pending then Some(n)
    else Scan(s, n + 1)
  }

  function Judge(s: seq<byte>): Verdict {
    match Scan(s, 0)
    case Some(n) => Terminal(LastLine(s[..n]), n)
    case None => if |s| > CAPACITY then Full else More
  }

  /** No prefix of up to n bytes ends in a terminal line. */
  ghost predicate Quiet(s: seq<byte>, n: nat)
    requires n <= |s|
  {
    forall j | 0 <= j <= n :: LastLine(s[..j]) == Pending
  }

  lemma {:induction false} ScanIsFirst(s: seq<byte>, n: nat)
    requires n <= |s| + 1 && n <= CAPACITY + 1 && (n > 0 ==> Quiet(s, n - 1))
    ensures Scan(s, n).Some? ==>
      var k := Scan(s, n).value;
      k <= |s| && k <= CAPACITY && LastLine(s[..k]) != Pending && (k > 0 ==> Quiet(s, k - 1))
    ensures Scan(s, n).None? ==> Quiet(s, if |s| < CAPACITY then |s| else CAPACITY)
    decreases |s| + 1 - n
  {
    hide LastLine;
    if n <= |s| && n <= CAPACITY && LastLine(s[..n]) == Pending {
      ScanIsFirst(s, n + 1);
    }
  }

  /** Three ways to judge: the verdict told without the scan. */
  lemma JudgeIff(s: seq<byte>, k: nat)
    ensures Judge(s) == More <==> |s| <= CAPACITY && Quiet(s, |s|)
    ensures Judge(s) == Full <==> |s| > CAPACITY && Quiet(s, CAPACITY)
    ensures Judge(s).Terminal? && Judge(s).consumed == k <==>
      k <= |s| && k <= CAPACITY && LastLine(s[..k]) != Pending && (k > 0 ==> Quiet(s, k - 1))
    ensures Judge(s).Terminal? && Judge(s).consumed == k ==> Judge(s).status == LastLine(s[..k])
  {
    ScanIsFirst(s, 0);
    hide LastLine, Scan;
  }

  lemma TakeTake<T>(s: seq<T>, n: nat, j: nat)
    requires j <= n <= |s|
    ensures s[..n][..j] == s[..j]
  {}

  lemma QuietTogether(s: seq<byte>, t: seq<byte>, n: nat)
    requires n <= |s| && n <= |t| && s[..n] == t[..n]
    ensures Quiet(s, n) <==> Quiet(t, n)
  {
    hide LastLine;
    forall j | 0 <= j <= n ensures s[..j] == t[..j] {
      TakeTake(s, n, j);
      TakeTake(t, n, j);
    }
  }

  lemma TakeOfSum<T>(s: seq<T>, more: seq<T>, n: nat)
    requires n <= |s|
    ensures (s + more)[..n] == s[..n]
  {}

  /** A verdict, once reached, does not change with what follows. */
  lemma VerdictIsStable(s: seq<byte>, more: seq<byte>)
    requires Judge(s) != More
    ensures Judge(s + more) == Judge(s)
  {
    var t := s + more;
    var k := if Judge(s).Terminal? then Judge(s).consumed else CAPACITY;
    JudgeIff(s, k);
    JudgeIff(t, k);
    hide LastLine, Judge, Quiet;
    TakeOfSum(s, more, k);
    if Judge(s) == Full {
      QuietTogether(s, t, CAPACITY);
    } else if k > 0 {
      TakeOfSum(s, more, k - 1);
      QuietTogether(s, t, k - 1);
    }
  }

  /** The verdict when pieces arrive one after the other, after `before`. */
  function Feed(before: seq<byte>, pieces: seq<seq<byte>>): Verdict
    decreases |pieces|
  {
    if Judge(before) != More || pieces == [] then Judge(before) else Feed(before + pieces[0], pieces[1..])
  }

  /** However the stream is cut, the verdict and the number of bytes it took are the same. */
  lemma {:induction false} CutDoesNotMatter(before: seq<byte>, pieces: seq<seq<byte>>)
    ensures Feed(before, pieces) == Judge(before + Packetise.Concat(pieces))
    decreases |pieces|
  {
    hide Judge;
    if Judge(before) != More {
      VerdictIsStable(before, Packetise.Concat(pieces));
    } else if pieces == [] {
      assert before + [] == before;
    } else {
      CutDoesNotMatter(before + pieces[0], pieces[1..]);
      assert before + pieces[0] + Packetise.Concat(pieces[1..]) == before + Packetise.Concat(pieces);
    }
  }

  // ----- the accumulator --------------------------------------------------------------------

  /** Where the current line starts. */
  function LineStart(s: seq<byte>): (n: nat)
    ensures n <= |s|
    ensures n == 0 || s[n - 1] == LF
    ensures forall i | n <= i < |s| :: s[i] != LF
  {
    if s == [] || s[|s| - 1] == LF then |s| else LineStart(s[..|s| - 1])
  }

  class AtResponseAccumulator {
    const bytes: array<byte>
    var len: nat
    var lineStart: nat
    var status: Status

    ghost predicate Valid()
      reads this, bytes
    {
      && bytes.Length == CAPACITY && len <= CAPACITY
      && if status == Pending
         then lineStart == LineStart(Contents()) && Judge(Contents()) == More
         else Judge(Contents()) == Terminal(status, len)
    }

    function Contents(): seq<byte>
      reads this, bytes
      requires len <= bytes.Length
    {
      bytes[..len]
    }

    constructor ()
      ensures Valid() && Contents() == [] && status == Pending && fresh(bytes)
    {
      bytes := new byte[CAPACITY](_ => 0);
      len, lineStart, status := 0, 0, Pending;
      new;
      NothingYet();
    }

    /** Store one byte and look at the line that it may complete. */
    method Append(byte_: byte)
      requires Valid() && status == Pending && len < CAPACITY
      modifies this, bytes
      ensures Valid() && Contents() == old(Contents()) + [byte_]
    {
      hide Judge, LineStart, LastLine;
      ghost var before := Contents();
      AppendByte(before, byte_);
      LineStartAppend(before, byte_);
      bytes[len] := byte_;
      len := len + 1;
      assert Contents() == before + [byte_];
      if byte_ == LF {
        var found := LineStatus(bytes, lineStart, len - 1);
        TakeTake(bytes[..], len, len - 1);
        TakeOfSum(before, [byte_], len - 1);
        WholeTake(before);
        lineStart := len;
        if found != Pending {
          status := found;
        }
      }
    }

    /**
     * Take bytes up to and including a terminal line. When the response does
     * not fit, everything taken from this piece is given back.
     */
    method PushWithConsumed(payload: seq<byte>) returns (result: Result<(Status, nat), AtError>)
      requires Valid()
      modifies this, bytes
      ensures Valid()
      ensures old(status) != Pending ==>
        result == Ok((old(status), 0)) && Contents() == old(Contents()) && status == old(status)
      ensures old(status) == Pending ==>
        match Judge(old(Contents()) + payload)
        case More => result == Ok((Pending, |payload|)) && Contents() == old(Contents()) + payload && status == Pending
        case Full => result == Err(Overflow) && Contents() == old(Contents()) && status == Pending
        case Terminal(found, n) =>
          && |old(Contents())| <= n <= |old(Contents())| + |payload|
          && result == Ok((found, n - |old(Contents())|)) && status == found
          && Contents() == (old(Contents()) + payload)[..n]
    {
      hide Judge, LineStart;
      if status != Pending {
        return Ok((status, 0));
      }
      ghost var original, whole := Contents(), Contents() + payload;
      var originalLen, originalLineStart := len, lineStart;
      TakeOfSum(original, payload, originalLen);
      WholeTake(original);
      for index := 0 to |payload|
        invariant Valid() && status == Pending && len == originalLen + index
        invariant Contents() == whole[..len]
      {
        if len == CAPACITY {
          Overflows(whole);
          SamePrefix(bytes[..], whole, len, originalLen);
          len, lineStart := originalLen, originalLineStart;
          return Err(Overflow);
        }
        Append(payload[index]);
        TakeNext(whole, len - 1);
        if status != Pending {
          VerdictIsStable(whole[..len], whole[len..]);
          CutAt(whole, len);
          return Ok((status, index + 1));
        }
      }
      WholeTake(whole);
      return Ok((Pending, |payload|));
    }
  }

  lemma SamePrefix<T>(s: seq<T>, t: seq<T>, n: nat, m: nat)
    requires m <= n <= |s| && n <= |t| && s[..n] == t[..n]
    ensures s[..m] == t[..m]
  {
    TakeTake(s, n, m);
    TakeTake(t, n, m);
  }

  lemma TakeNext<T>(s: seq<T>, n: nat)
    requires n < |s|
    ensures s[..n] + [s[n]] == s[..n + 1]
  {}

  lemma CutAt<T>(s: seq<T>, n: nat)
    requires n <= |s|
    ensures s[..n] + s[n..] == s
  {}

  /** Compare the line that the line feed at `at` ends with the terminal ones. */
  method LineStatus(bytes: array<byte>, lineStart: nat, at: nat) returns (found: Status)
    requires at < bytes.Length && lineStart == LineStart(bytes[..at])
    ensures found == LastLine(bytes[..at] + [LF])
  {
    ghost var text := bytes[..at];
    TerminalLine(text, lineStart);
    hide LineStart, LastLine;
    var hasCr := at > lineStart && bytes[at - 1] == CR;
    var lineEnd := if hasCr then at - 1 else at;
    var line := bytes[lineStart..lineEnd];
    assert line == text[lineStart..lineEnd];
    found := if hasCr && line == OK_CRLF[..2] then Succeeded else if hasCr && line == ERROR_CRLF[..5] then Failed
      else Pending;
  }

  lemma NothingYet()
    ensures Judge([]) == More && LineStart([]) == 0
  {}

  lemma Overflows(s: seq<byte>)
    requires |s| > CAPACITY && Judge(s[..CAPACITY]) == More
    ensures Judge(s) == Full
  {
    JudgeIff(s[..CAPACITY], 0);
    JudgeIff(s, 0);
    hide LastLine, Judge, Quiet;
    TakeTake(s, CAPACITY, CAPACITY);
    QuietTogether(s[..CAPACITY], s, CAPACITY);
  }

  lemma LineStartAppend(s: seq<byte>, b: byte)
    ensures LineStart(s + [b]) == if b == LF then |s| + 1 else LineStart(s)
  {
    assert (s + [b])[..|s|] == s;
  }

  /** One more byte: only the new prefix can end in a terminal line, and only at a line feed. */
  lemma AppendByte(s: seq<byte>, b: byte)
    requires |s| < CAPACITY && Judge(s) == More
    ensures Judge(s + [b]) == if LastLine(s + [b]) == Pending then More else Terminal(LastLine(s + [b]), |s| + 1)
    ensures b != LF ==> LastLine(s + [b]) == Pending
  {
    hide LastLine, Judge, Quiet;
    var t := s + [b];
    TakeOfSum(s, [b], |s|);
    WholeTake(s);
    WholeTake(t);
    JudgeIff(s, 0);
    JudgeIff(t, |t|);
    NotAtLineEnd(s, b);
    QuietTogether(s, t, |s|);
    QuietOneMore(t);
  }

  lemma WholeTake<T>(s: seq<T>)
    ensures s[..|s|] == s
  {}

  lemma QuietOneMore(t: seq<byte>)
    requires t != []
    ensures Quiet(t, |t|) <==> Quiet(t, |t| - 1) && LastLine(t) == Pending
  {
    hide LastLine;
    assert t[..|t|] == t;
  }

  lemma LastOfTail<T>(t: seq<T>, line: seq<T>)
    requires line != [] && |line| <= |t| && t[|t| - |line|..] == line
    ensures t[|t| - 1] == line[|line| - 1]
  {}

  lemma NotAtLineEnd(s: seq<byte>, b: byte)
    ensures LastLine(s + [b]) != Pending ==> b == LF
  {
    var t := s + [b];
    if LastLine(t) == Succeeded { LastOfTail(t, OK_CRLF); }
    if LastLine(t) == Failed { LastOfTail(t, ERROR_CRLF); }
  }

  /** Comparing the text of the current line is looking for the terminal line at the end. */
  lemma TerminalLine(s: seq<byte>, start: nat)
    requires start == LineStart(s)
    ensures var t := s + [LF];
      LastLine(t) ==
        if |s| > start && s[|s| - 1] == CR && s[start..|s| - 1] == OK_CRLF[..2] then Succeeded
        else if |s| > start && s[|s| - 1] == CR && s[start..|s| - 1] == ERROR_CRLF[..5] then Failed
        else Pending
  {
    var t := s + [LF];
    LineMatches(s, start, OK_CRLF);
    LineMatches(s, start, ERROR_CRLF);
  }

  /** What it means that the text, with a line feed after it, ends in the line. */
  lemma TailWithLast<T>(s: seq<T>, x: T, line: seq<T>)
    requires line != [] && |line| <= |s| + 1
    ensures (s + [x])[|s| + 1 - |line|..] == line
      <==> s[|s| + 1 - |line|..] == line[..|line| - 1] && x == line[|line| - 1]
  {
    var from := |s| + 1 - |line|;
    assert (s + [x])[from..] == s[from..] + [x];
    assert line == line[..|line| - 1] + [line[|line| - 1]];
  }

  lemma StartUnique<T>(s: seq<T>, lf: T, a: nat, b: nat)
    requires a <= |s| && b <= |s|
    requires (a == 0 || s[a - 1] == lf) && (b == 0 || s[b - 1] == lf)
    requires (forall i | a <= i < |s| :: s[i] != lf) && (forall i | b <= i < |s| :: s[i] != lf)
    ensures a == b
  {}

  lemma InTail<T>(s: seq<T>, from: nat, line: seq<T>)
    requires from <= |s| && s[from..] == line
    ensures |line| == |s| - from && forall i | from <= i < |s| :: s[i] == line[i - from]
  {}

  lemma CutLast<T>(s: seq<T>, from: nat, line: seq<T>)
    requires line != [] && |s| >= |line| == |s| - from
    ensures s[from..] == line <==> s[from..|s| - 1] == line[..|line| - 1] && s[|s| - 1] == line[|line| - 1]
  {
    assert s[from..] == s[from..|s| - 1] + [s[|s| - 1]];
    assert line == line[..|line| - 1] + [line[|line| - 1]];
  }

  /** A text with a line feed after it ends in a line exactly when its last line reads the same. */
  lemma LastLineReads<T>(s: seq<T>, start: nat, lf: T, cr: T, line: seq<T>)
    requires start <= |s| && (start == 0 || s[start - 1] == lf) && forall i | start <= i < |s| :: s[i] != lf
    requires |line| >= 2 && line[|line| - 1] == lf && line[|line| - 2] == cr
    requires forall i | 0 <= i < |line| - 1 :: line[i] != lf
    ensures (|line| <= |s| + 1 && (s + [lf])[|s| + 1 - |line|..] == line
             && (|s| + 1 == |line| || (s + [lf])[|s| - |line|] == lf))
      <==> (|s| > start && s[|s| - 1] == cr && s[start..|s| - 1] == line[..|line| - 2])
  {
    var text, from := line[..|line| - 1], |s| + 1 - |line|;
    if 0 <= from {
      TailWithLast(s, lf, line);
      CutLast(s, from, text);
      assert text[..|text| - 1] == line[..|line| - 2];
      if s[from..] == text && (from == 0 || s[from - 1] == lf) {
        InTail(s, from, text);
        StartUnique(s, lf, from, start);
      }
    }
  }

  lemma LineMatches(s: seq<byte>, start: nat, line: seq<byte>)
    requires start == LineStart(s)
    requires |line| >= 2 && line[|line| - 1] == LF && line[|line| - 2] == CR
    requires forall i | 0 <= i < |line| - 1 :: line[i] != LF
    ensures EndsInLine(s + [LF], line) <==>
      |s| > start && s[|s| - 1] == CR && s[start..|s| - 1] == line[..|line| - 2]
  {
    hide LineStart, EndsInLine;
    LastLineReads(s, start, LF, CR, line);
    EndsInLineMeans(s, line);
  }

  lemma EndsInLineMeans(s: seq<byte>, line: seq<byte>)
    requires line != []
    ensures EndsInLine(s + [LF], line) ==
      (|line| <= |s| + 1 && (s + [LF])[|s| + 1 - |line|..] == line
       && (|s| + 1 == |line| || (s + [LF])[|s| - |line|] == LF))
  {
    var t, n := s + [LF], |s| + 1;
    assert |t| == n;
  }
}
