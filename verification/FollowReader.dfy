/** The forward reader that a log viewer polls: bounded, line by line, resumable at the position it returns. */
module FollowReader {
  import opened Lines
  import opened Stretches

  const LOG_READ_BYTES: nat := 4 * 1024 * 1024
  const LOG_LINE_BYTES: nat := 64 * 1024
  const LOG_RESULT_BYTES: nat := 512 * 1024
  const LOG_BLOCK_BYTES: nat := 16 * 1024

  datatype FollowGap = FileTruncated | LineTooLong | ReadLimit

  datatype FollowResult =
    | InvalidText
    | UnexpectedEof
    | Follow(lines: seq<Bytes>, next: nat, reset: bool, truncated: bool, gaps: set<FollowGap>)

  /** A position at which a line ends, or the reader's own start. */
  ghost predicate Boundary(c: Bytes, start: nat, j: nat) {
    start <= j <= |c| && (j == start || j == |c| || c[j - 1] == NEWLINE)
  }

  /** The raw lines of c[i..j] that are not overlong, newline included in the count. */
  ghost function KeptLines(c: Bytes, i: nat, j: nat): seq<Bytes>
    requires j <= |c|
    decreases |c| - i
  {
    if i >= j || LineEnd(c, i) > j then []
    else
      var e := LineEnd(c, i);
      (if e - i <= LOG_LINE_BYTES then [c[i..e]] else []) + KeptLines(c, e, j)
  }

  ghost predicate HasOverlong(c: Bytes, i: nat, j: nat)
    requires j <= |c|
    decreases |c| - i
  {
    i < j && LineEnd(c, i) <= j && (LineEnd(c, i) - i > LOG_LINE_BYTES || HasOverlong(c, LineEnd(c, i), j))
  }

  function TrimAll(lines: seq<Bytes>): (texts: seq<Bytes>)
    ensures |texts| == |lines|
    ensures forall k | 0 <= k < |lines| :: texts[k] == TrimLineEnd(lines[k])
  {
    seq(|lines|, k requires 0 <= k < |lines| => TrimLineEnd(lines[k]))
  }

  /** Reading may be cut at any boundary. */
  lemma {:induction false} KeptLinesSplit(c: Bytes, i: nat, j: nat, k: nat)
    requires Boundary(c, i, j) && j <= k <= |c|
    ensures KeptLines(c, i, k) == KeptLines(c, i, j) + KeptLines(c, j, k)
    ensures HasOverlong(c, i, k) <==> HasOverlong(c, i, j) || HasOverlong(c, j, k)
    decreases j - i
  {
    if i < j {
      var e := LineEnd(c, i);
      LineEndLeast(c, i, j);
      LineEndMeaning(c, i);
      KeptLinesSplit(c, e, j, k);
      var first := if e - i <= LOG_LINE_BYTES then [c[i..e]] else [];
      assert KeptLines(c, i, j) == first + KeptLines(c, e, j) && KeptLines(c, i, k) == first + KeptLines(c, e, k);
      Regroup(first, KeptLines(c, e, j), KeptLines(c, j, k));
    } else {
      assert KeptLines(c, i, j) == [];
    }
  }

  /** The kept lines are those of an ordinary split of c[..j] from `i` on, overlong ones left out. */
  ghost function NotOverlong(lines: seq<Bytes>): seq<Bytes> {
    if lines == [] then []
    else (if |lines[0]| <= LOG_LINE_BYTES then [lines[0]] else []) + NotOverlong(lines[1..])
  }

  lemma {:induction false} KeptLinesAreSplitLines(c: Bytes, i: nat, j: nat)
    requires Boundary(c, i, j)
    ensures KeptLines(c, i, j) == NotOverlong(LinesFrom(c[..j], i))
    decreases j - i
  {
    if i < j {
      LineEndOfPrefix(c, i, j);
      LineEndLeast(c, i, j);
      LineEndMeaning(c, i);
      var e := LineEnd(c, i);
      KeptLinesAreSplitLines(c, e, j);
      assert c[..j][i..e] == c[i..e];
      assert LinesFrom(c[..j], i)[1..] == LinesFrom(c[..j], e);
    }
  }

  /** The line at `i` as the inner loop reads it, chunk by chunk. */
  datatype LineRead = WholeLine(line: Bytes, overlong: bool) | OverBudget | Eof

  /**
   * Reads the line at `from` in arbitrary chunks while fewer than `LOG_READ_BYTES` bytes have been read since
   * `start`. A chunk is empty only when an unsteady file was cut meanwhile.
   */
  method ReadOneLine(c: Bytes, steady: bool, start: nat, from: nat) returns (r: LineRead, next: nat)
    requires start <= from < |c| && from - start < LOG_READ_BYTES
    ensures match r
            case WholeLine(line, overlong) =>
              && next == LineEnd(c, from) && next - start <= LOG_READ_BYTES
              && overlong == (next - from > LOG_LINE_BYTES) && (!overlong ==> line == c[from..next])
            case OverBudget => LineEnd(c, from) - start > LOG_READ_BYTES
            case Eof => !steady
  {
    var line: Bytes, overlong := [], false;
    next := from;
    while next - start < LOG_READ_BYTES
      invariant from <= next < |c| && next - start <= LOG_READ_BYTES
      invariant NoNewline(c, from, next)
      invariant overlong == (next - from > LOG_LINE_BYTES)
      invariant line == if overlong then [] else c[from..next]
      decreases |c| - next
    {
      var length: nat := *;
      if length == 0 && !steady {
        return Eof, next;
      }
      length := Min(MaxOf(length, 1), Min(LOG_BLOCK_BYTES, Min(|c| - next, LOG_READ_BYTES - (next - start))));
      var count := 1;
      while count < length && c[next + count - 1] != NEWLINE
        invariant 1 <= count <= length && NoNewline(c, next, next + count - 1)
      {
        count := count + 1;
      }
      var finished := c[next + count - 1] == NEWLINE;
      if !overlong && |line| + count <= LOG_LINE_BYTES {
        line := line + c[next..next + count];
      } else {
        overlong := true;
        line := [];
      }
      next := next + count;
      if finished || next == |c| {
        LineEndIs(c, from, next);
        return WholeLine(line, overlong), next;
      }
    }
    r := OverBudget;
    LineEndWithin(c, from, next);
  }

  function MaxOf(a: nat, b: nat): nat {
    if a < b then b else a
  }

  /** Some line from `start` on is not valid UTF-8. */
  ghost predicate HasInvalidLine(c: Bytes, start: nat, valid: Bytes -> bool) {
    exists i: nat :: i < |c| && Boundary(c, start, i) && !valid(c[i..LineEnd(c, i)])
  }

  /** A poll so far: its lines, where it stands, the size of its lines, and whether it passed an overlong one. */
  datatype FollowState = FollowState(lines: seq<Bytes>, next: nat, resultBytes: nat, tooLong: bool)

  /** What a poll from `start` on has done when it stands at `next`. */
  ghost predicate Followed(c: Bytes, start: nat, next: nat, lines: seq<Bytes>, tooLong: bool, valid: Bytes -> bool) {
    && Boundary(c, start, next) && next - start <= LOG_READ_BYTES
    && lines == TrimAll(KeptLines(c, start, next))
    && (forall line | line in KeptLines(c, start, next) :: valid(line))
    && tooLong == HasOverlong(c, start, next)
  }

  /** The poll so far has these lines in it, and has passed an overlong one or not. */
  ghost predicate HoldsLines(s: FollowState, kept: seq<Bytes>, long: bool, valid: Bytes -> bool) {
    && s.lines == TrimAll(kept) && (forall line | line in kept :: valid(line))
    && s.resultBytes == TotalBytes(kept) <= LOG_RESULT_BYTES && s.tooLong == long
  }

  ghost predicate FollowedSo(c: Bytes, start: nat, s: FollowState, valid: Bytes -> bool) {
    && Boundary(c, start, s.next) && s.next - start <= LOG_READ_BYTES
    && HoldsLines(s, KeptLines(c, start, s.next), HasOverlong(c, start, s.next), valid)
  }

  /** The poll after a whole line that fits. */
  function FollowOn(s: FollowState, line: Bytes, overlong: bool, after: nat): FollowState {
    if overlong then s.(next := after, tooLong := true)
    else FollowState(s.lines + [TrimLineEnd(line)], after, s.resultBytes + |line|, s.tooLong)
  }

  /** The line at `next` is the one more line that is kept, or the overlong one that is not. */
  lemma KeptAfterLine(c: Bytes, start: nat, next: nat)
    requires Boundary(c, start, next) && next < |c|
    ensures var e := LineEnd(c, next);
            && Boundary(c, start, e)
            && KeptLines(c, start, e)
               == KeptLines(c, start, next) + (if e - next > LOG_LINE_BYTES then [] else [c[next..e]])
            && (HasOverlong(c, start, e) <==> HasOverlong(c, start, next) || e - next > LOG_LINE_BYTES)
  {
    var e := LineEnd(c, next);
    LineEndMeaning(c, next);
    KeptLinesSplit(c, start, next, e);
    assert KeptLines(c, e, e) == [];
    assert KeptLines(c, next, e) == if e - next > LOG_LINE_BYTES then [] else [c[next..e]];
  }

  lemma HoldsOneMore(s: FollowState, kept: seq<Bytes>, long: bool, valid: Bytes -> bool, line: Bytes, overlong: bool,
                     after: nat)
    requires HoldsLines(s, kept, long, valid)
    requires !overlong ==> valid(line) && s.resultBytes + |line| <= LOG_RESULT_BYTES
    ensures HoldsLines(FollowOn(s, line, overlong, after), kept + (if overlong then [] else [line]),
                       long || overlong, valid)
  {
    assert (kept + [line])[..|kept|] == kept;
    assert TrimAll(kept + [line]) == TrimAll(kept) + [TrimLineEnd(line)];
    assert kept + [] == kept;
  }

  /** Taking the whole line at `next` keeps that up. */
  lemma FollowedLine(c: Bytes, start: nat, s: FollowState, valid: Bytes -> bool, line: Bytes, overlong: bool)
    requires FollowedSo(c, start, s, valid) && s.next < |c|
    requires LineEnd(c, s.next) - start <= LOG_READ_BYTES && overlong == (LineEnd(c, s.next) - s.next > LOG_LINE_BYTES)
    requires !overlong ==>
               line == c[s.next..LineEnd(c, s.next)] && valid(line) && s.resultBytes + |line| <= LOG_RESULT_BYTES
    ensures FollowedSo(c, start, FollowOn(s, line, overlong, LineEnd(c, s.next)), valid)
  {
    KeptAfterLine(c, start, s.next);
    HoldsOneMore(s, KeptLines(c, start, s.next), HasOverlong(c, start, s.next), valid, line, overlong,
                 LineEnd(c, s.next));
  }

  /** The line at `next` is acceptable but no longer fits the result. */
  ghost predicate WouldOverflow(c: Bytes, next: nat, resultBytes: nat)
    requires next < |c|
  {
    LineEnd(c, next) - next <= LOG_LINE_BYTES && resultBytes + (LineEnd(c, next) - next) > LOG_RESULT_BYTES
  }

  /** What a turn of the outer loop leads to. */
  datatype FollowTurn = GoesOn | AtReadLimit | AtResultLimit | BadText | CutFile

  /** Reads the line at `s.next` and takes it, or says why not. */
  method TakeFollowTurn(c: Bytes, start: nat, s: FollowState, valid: Bytes -> bool, steady: bool)
    returns (s': FollowState, turn: FollowTurn)
    requires FollowedSo(c, start, s, valid) && s.next < |c| && s.next - start < LOG_READ_BYTES
    ensures match turn
            case GoesOn => FollowedSo(c, start, s', valid) && s.next < s'.next && |s'.lines| <= |s.lines| + 1
            case AtReadLimit => s' == s && LineEnd(c, s.next) - start > LOG_READ_BYTES
            case AtResultLimit => s' == s && WouldOverflow(c, s.next, s.resultBytes)
            case BadText => HasInvalidLine(c, start, valid)
            case CutFile => !steady
  {
    s' := s;
    var read, after := ReadOneLine(c, steady, start, s.next);
    match read
    case Eof => turn := CutFile;
    case OverBudget => turn := AtReadLimit;
    case WholeLine(line, overlong) =>
      if !overlong && s.resultBytes + |line| > LOG_RESULT_BYTES {
        turn := AtResultLimit;
      } else if !overlong && !valid(line) {
        turn := BadText;
      } else {
        FollowedLine(c, start, s, valid, line, overlong);
        s' := FollowOn(s, line, overlong, after);
        turn := GoesOn;
      }
  }

  /** What a finished poll answers for. */
  ghost predicate FollowMeets(c: Bytes, start: nat, limit: nat, valid: Bytes -> bool, r: FollowResult)
    requires r.Follow?
  {
    && Followed(c, start, r.next, r.lines, LineTooLong in r.gaps, valid)
    && (ReadLimit in r.gaps ==> r.next < |c| && LineEnd(c, r.next) - start > LOG_READ_BYTES)
    && r.truncated == (r.next < |c| || r.gaps != {})
    && |r.lines| <= limit && TotalBytes(KeptLines(c, start, r.next)) <= LOG_RESULT_BYTES
    && (r.next < |c| ==>
          || |r.lines| == limit
          || LineEnd(c, r.next) - start > LOG_READ_BYTES
          || WouldOverflow(c, r.next, TotalBytes(KeptLines(c, start, r.next))))
    && (limit >= 1 && r.next == start < |c| ==>
          ReadLimit in r.gaps && LineEnd(c, start) - start > LOG_READ_BYTES)
  }

  /** The reasons why a poll is not complete. */
  function FollowGaps(reset: bool, tooLong: bool, readLimit: bool): (gaps: set<FollowGap>)
    ensures (FileTruncated in gaps <==> reset) && (LineTooLong in gaps <==> tooLong)
    ensures ReadLimit in gaps <==> readLimit
  {
    (if reset then {FileTruncated} else {}) + (if tooLong then {LineTooLong} else {})
    + (if readLimit then {ReadLimit} else {})
  }

  lemma FollowEnds(c: Bytes, start: nat, limit: nat, valid: Bytes -> bool, s: FollowState, turn: FollowTurn,
                   reset: bool)
    requires FollowedSo(c, start, s, valid) && |s.lines| <= limit
    requires match turn
             case GoesOn => |s.lines| == limit || s.next == |c| || s.next - start == LOG_READ_BYTES
             case AtReadLimit => s.next < |c| && LineEnd(c, s.next) - start > LOG_READ_BYTES
             case AtResultLimit => s.next < |c| && WouldOverflow(c, s.next, s.resultBytes)
             case _ => false
    ensures var gaps := FollowGaps(reset, s.tooLong, turn == AtReadLimit);
            FollowMeets(c, start, limit, valid, Follow(s.lines, s.next, reset, s.next < |c| || gaps != {}, gaps))
  {
    if s.next == start {
      assert KeptLines(c, start, start) == [];
    }
  }

  /**
   * One poll of a file that holds `c`, from `position` on, for at most `limit` lines; `valid` says which raw lines
   * are UTF-8, `steady` that the file is not cut during the poll. A position behind the end means the file was
   * truncated: the poll starts over.
   */
  method ReadFollowFile(c: Bytes, position: nat, limit: nat, valid: Bytes -> bool, steady: bool)
    returns (r: FollowResult)
    ensures r.UnexpectedEof? ==> !steady
    ensures r.InvalidText? ==> HasInvalidLine(c, if position > |c| then 0 else position, valid)
    ensures r.Follow? ==>
              && r.reset == (position > |c|) && (FileTruncated in r.gaps <==> r.reset)
              && FollowMeets(c, if position > |c| then 0 else position, limit, valid, r)
  {
    var reset := position > |c|;
    var start := if reset then 0 else position;
    var s := FollowState([], start, 0, false);
    var turn := GoesOn;
    assert KeptLines(c, start, start) == [];
    while turn == GoesOn && |s.lines| < limit && s.next < |c| && s.next - start < LOG_READ_BYTES
      invariant FollowedSo(c, start, s, valid) && |s.lines| <= limit
      invariant match turn
                case GoesOn => true
                case AtReadLimit => s.next < |c| && LineEnd(c, s.next) - start > LOG_READ_BYTES
                case AtResultLimit => s.next < |c| && WouldOverflow(c, s.next, s.resultBytes)
                case _ => false
      decreases turn == GoesOn, |c| - s.next
    {
      var s';
      s', turn := TakeFollowTurn(c, start, s, valid, steady);
      if turn == CutFile {
        return UnexpectedEof;
      }
      if turn == BadText {
        return InvalidText;
      }
      s := s';
    }
    FollowEnds(c, start, limit, valid, s, turn, reset);
    var gaps := FollowGaps(reset, s.tooLong, turn == AtReadLimit);
    r := Follow(s.lines, s.next, reset, s.next < |c| || gaps != {}, gaps);
  }
}
