/** The backward reader behind "recent logs": blocks from the end of the file, then lines from the right. */
module TailReader {
  import opened Lines
  import opened FollowReader

  datatype TailGap = ReadLimitGap | LineTooLongGap | ResultLimitGap

  datatype TailResult = InvalidTail | Tail(lines: seq<Bytes>, next: nat, truncated: bool, gaps: set<TailGap>)

  function TrimReturns(s: Bytes): Bytes {
    if s != [] && s[|s| - 1] == CARRIAGE_RETURN then TrimReturns(s[..|s| - 1]) else s
  }

  /** The line c[i..e] without its newline. */
  function TextOf(c: Bytes, i: nat, e: nat): Bytes
    requires i < e <= |c|
  {
    if c[e - 1] == NEWLINE then c[i..e - 1] else c[i..e]
  }

  /** The texts of all lines from `i` on, in order. */
  ghost function Texts(c: Bytes, i: nat): seq<Bytes>
    requires i <= |c|
    decreases |c| - i
  {
    if i == |c| then [] else [TrimReturns(TextOf(c, i, LineEnd(c, i)))] + Texts(c, LineEnd(c, i))
  }

  /** The same without the lines whose text is overlong. */
  ghost function KeptTexts(c: Bytes, i: nat): seq<Bytes>
    requires i <= |c|
    decreases |c| - i
  {
    if i == |c| then []
    else
      var text := TextOf(c, i, LineEnd(c, i));
      (if |text| > LOG_LINE_BYTES then [] else [TrimReturns(text)]) + KeptTexts(c, LineEnd(c, i))
  }

  ghost predicate LineStart(c: Bytes, i: nat) {
    i <= |c| && (i == 0 || i == |c| || c[i - 1] == NEWLINE)
  }

  ghost function LastOf(texts: seq<Bytes>, limit: nat): seq<Bytes> {
    if |texts| <= limit then texts else texts[|texts| - limit..]
  }

  ghost function Newlines(c: Bytes, i: nat): nat
    requires i <= |c|
    decreases |c| - i
  {
    if i == |c| then 0 else (if c[i] == NEWLINE then 1 else 0) + Newlines(c, i + 1)
  }

  lemma {:induction false} NewlinesSkip(c: Bytes, i: nat, j: nat)
    requires i <= j <= |c| && NoNewline(c, i, j)
    ensures Newlines(c, i) == Newlines(c, j)
    decreases j - i
  {
    if i < j { NewlinesSkip(c, i + 1, j); }
  }

  /** Each line holds at most one newline. */
  lemma {:induction false} NewlinesAtMostLines(c: Bytes, i: nat)
    requires i <= |c|
    ensures Newlines(c, i) <= |Texts(c, i)|
    decreases |c| - i
  {
    if i < |c| {
      NewlinesInLine(c, i);
      NewlinesAtMostLines(c, LineEnd(c, i));
    }
  }

  lemma NewlinesInLine(c: Bytes, i: nat)
    requires i < |c|
    ensures Newlines(c, i) <= 1 + Newlines(c, LineEnd(c, i))
  {
    var e := LineEnd(c, i);
    LineEndMeaning(c, i);
    NewlinesSkip(c, i, e - 1);
  }

  ghost predicate EndsWith(texts: seq<Bytes>, tail: seq<Bytes>) {
    |tail| <= |texts| && texts[|texts| - |tail|..] == tail
  }

  lemma EndsWithLonger(text: Bytes, texts: seq<Bytes>, tail: seq<Bytes>)
    requires EndsWith(texts, tail)
    ensures EndsWith([text] + texts, tail)
  {
  }

  /** Texts from a line start on are a suffix of all texts. */
  lemma {:induction false} TextsSuffix(c: Bytes, i: nat, j: nat)
    requires i <= j && LineStart(c, j)
    ensures EndsWith(Texts(c, i), Texts(c, j))
    decreases j - i
  {
    if i < j {
      var e := LineEnd(c, i);
      LineEndLeast(c, i, j);
      TextsSuffix(c, e, j);
      EndsWithLonger(TrimReturns(TextOf(c, i, e)), Texts(c, e), Texts(c, j));
    }
  }

  lemma LastOfIs(texts: seq<Bytes>, tail: seq<Bytes>, limit: nat)
    requires EndsWith(texts, tail) && |tail| <= limit && (tail == texts || |tail| == limit)
    ensures tail == LastOf(texts, limit)
  {
  }

  // ---- the first loop: blocks from the end

  /** Reads whole blocks backward until `limit` newlines are exceeded or the read budget is spent. */
  method ReadBlocksBackward(c: Bytes, limit: nat) returns (position: nat, newlines: nat)
    ensures position <= |c| && newlines == Newlines(c, position)
    ensures position == 0 || newlines > limit || |c| - position >= LOG_READ_BYTES
    ensures position > 0 ==> |c| - position >= LOG_BLOCK_BYTES
  {
    position, newlines := |c|, 0;
    while position > 0 && |c| - position < LOG_READ_BYTES && newlines <= limit
      invariant position <= |c| && newlines == Newlines(c, position)
      invariant position == |c| || position == 0 || |c| - position >= LOG_BLOCK_BYTES
    {
      var count := Min(Min(LOG_BLOCK_BYTES, LOG_READ_BYTES - (|c| - position)), position);
      var start := position - count;
      while position > start
        invariant start <= position <= |c| && newlines == Newlines(c, position)
      {
        position := position - 1;
        if c[position] == NEWLINE {
          newlines := newlines + 1;
        }
      }
    }
  }

  // ---- the second loop: pieces from the right

  /** The start of the piece that ends at `hi`, not looking left of `position`. */
  method PieceStart(c: Bytes, position: nat, hi: nat) returns (lo: nat)
    requires position <= hi <= |c|
    ensures position <= lo <= hi && NoNewline(c, lo, hi)
    ensures lo == position || c[lo - 1] == NEWLINE
  {
    lo := hi;
    while lo > position && c[lo - 1] != NEWLINE
      invariant position <= lo <= hi && NoNewline(c, lo, hi)
    {
      lo := lo - 1;
    }
  }

  /** The piece c[lo..hi], with the newline behind it if there is one, is the line at `lo`. */
  ghost predicate NextPiece(c: Bytes, hi: nat, low: nat) {
    hi <= low <= |c| && (hi == low == |c| || (hi + 1 == low && c[hi] == NEWLINE))
  }

  lemma PieceIsLine(c: Bytes, lo: nat, hi: nat, low: nat)
    requires lo <= hi && NextPiece(c, hi, low) && NoNewline(c, lo, hi) && lo < low
    requires low == |c| && hi == low ==> c[hi - 1] != NEWLINE
    ensures LineEnd(c, lo) == low && TextOf(c, lo, low) == c[lo..hi]
    ensures Texts(c, lo) == [TrimReturns(c[lo..hi])] + Texts(c, low)
    ensures KeptTexts(c, lo) == (if hi - lo > LOG_LINE_BYTES then [] else [TrimReturns(c[lo..hi])]) + KeptTexts(c, low)
  {
    LineEndIs(c, lo, low);
  }

  /** The pieces from `low` on have been looked at. */
  ghost predicate Gathered(c: Bytes, low: nat, lines: seq<Bytes>, tooLong: bool) {
    LineStart(c, low) && lines == KeptTexts(c, low) && (!tooLong ==> lines == Texts(c, low))
  }

  /** A file that is a lone newline holds one empty line. */
  lemma LoneNewline(c: Bytes)
    requires c == [NEWLINE]
    ensures Texts(c, 0) == [[]]
  {
    assert LineEnd(c, 0) == 1 && c[0..0] == [];
  }

  lemma GatherPiece(c: Bytes, lo: nat, hi: nat, low: nat, lines: seq<Bytes>, tooLong: bool)
    requires Gathered(c, low, lines, tooLong)
    requires lo <= hi && NextPiece(c, hi, low) && NoNewline(c, lo, hi) && lo < low
    requires low == |c| && hi == low ==> c[hi - 1] != NEWLINE
    requires lo == 0 || c[lo - 1] == NEWLINE
    ensures if hi - lo > LOG_LINE_BYTES then Gathered(c, lo, lines, true)
            else Gathered(c, lo, [TrimReturns(c[lo..hi])] + lines, tooLong)
  {
    PieceIsLine(c, lo, hi, low);
  }

  /** More than `limit` newlines were read, so by the time only a fragment is left, `limit` lines are there. */
  lemma FragmentReached(c: Bytes, position: nat, hi: nat, low: nat, lines: seq<Bytes>, limit: nat)
    requires Gathered(c, low, lines, false) && position <= hi && NextPiece(c, hi, low)
    requires NoNewline(c, position, hi) && Newlines(c, position) > limit
    ensures |lines| >= limit
  {
    NewlinesSkip(c, position, hi);
    NewlinesAtMostLines(c, low);
  }

  lemma TailIsLast(c: Bytes, low: nat, lines: seq<Bytes>, limit: nat)
    requires Gathered(c, low, lines, false) && |lines| <= limit
    requires low == 0 || |lines| == limit
    ensures lines == LastOf(Texts(c, 0), limit)
  {
    TextsSuffix(c, 0, low);
    LastOfIs(Texts(c, 0), lines, limit);
  }

  /** The lines so far, the reasons for gaps, and the size of the lines. */
  datatype TailState = TailState(
    lines: seq<Bytes>, tooLong: bool, cutShort: bool, full: bool, truncated: bool, resultBytes: nat)
  {
    predicate Complete() {
      !tooLong && !cutShort && !full
    }

    function Gaps(): (gaps: set<TailGap>)
      ensures (LineTooLongGap in gaps <==> tooLong) && (ReadLimitGap in gaps <==> cutShort)
      ensures (ResultLimitGap in gaps <==> full) && (gaps == {} <==> Complete())
    {
      (if tooLong then {LineTooLongGap} else {}) + (if cutShort then {ReadLimitGap} else {})
      + (if full then {ResultLimitGap} else {})
    }
  }

  /** Some line's text is longer than the reader takes. */
  ghost predicate HasOverlongText(c: Bytes) {
    exists i: nat :: i < |c| && LineStart(c, i) && |TextOf(c, i, LineEnd(c, i))| > LOG_LINE_BYTES
  }

  /** Some line's text is not valid UTF-8. */
  ghost predicate HasInvalidText(c: Bytes, valid: Bytes -> bool) {
    exists i: nat :: i < |c| && LineStart(c, i) && !valid(TextOf(c, i, LineEnd(c, i)))
  }

  /** Before a turn: the piece that ends at `hi` is the next one to look at. */
  ghost predicate Ready(c: Bytes, position: nat, hi: nat, low: nat) {
    position <= hi && NextPiece(c, hi, low) && position < low && (hi == low == |c| ==> c[hi - 1] != NEWLINE)
  }

  /** One acceptable piece goes in front of the lines so far; an overlong one is noted. */
  method TakePiece(c: Bytes, lo: nat, hi: nat, ghost low: nat, s: TailState) returns (s': TailState)
    requires Gathered(c, low, s.lines, s.tooLong) && s.resultBytes <= |c| - low
    requires lo <= hi && Ready(c, 0, hi, low) && NoNewline(c, lo, hi) && lo < low
    requires lo == 0 || c[lo - 1] == NEWLINE
    ensures Gathered(c, lo, s'.lines, s'.tooLong) && |s'.lines| <= |s.lines| + 1 && s'.resultBytes <= |c| - lo
    ensures s'.cutShort == s.cutShort && s'.full == s.full && (s.truncated ==> s'.truncated)
    ensures s'.tooLong ==> s.tooLong || HasOverlongText(c)
  {
    GatherPiece(c, lo, hi, low, s.lines, s.tooLong);
    if hi - lo > LOG_LINE_BYTES {
      PieceIsLine(c, lo, hi, low);
      s' := s.(tooLong := true, truncated := true);
    } else {
      s' := s.(lines := [TrimReturns(c[lo..hi])] + s.lines, resultBytes := s.resultBytes + (hi - lo));
    }
  }

  datatype Turned = Taken | Stopped | Invalid

  /** What the loop knows of its lines, under a name of its own: `gathered` means Gathered in `c`. */
  ghost predicate Names(c: Bytes, gathered: (nat, seq<Bytes>, bool) -> bool) {
    forall low: nat, lines, tooLong {:trigger Gathered(c, low, lines, tooLong)} ::
      gathered(low, lines, tooLong) <==> Gathered(c, low, lines, tooLong)
  }

  /** What holds of the state before and after each turn. */
  ghost predicate Sound(c: Bytes, limit: nat, position: nat, low: nat, s: TailState) {
    && |s.lines| <= limit && low <= |c| && s.resultBytes <= |c| - low
    && (position > 0 ==> s.truncated) && (s.tooLong ==> HasOverlongText(c))
  }

  /** One turn of the second loop, over the piece that ends at `hi`. */
  method TakeTurn(c: Bytes, limit: nat, position: nat, newlines: nat, hi: nat, ghost low: nat, s: TailState,
                  valid: Bytes -> bool, ghost gathered: (nat, seq<Bytes>, bool) -> bool)
    returns (s': TailState, lo: nat, turned: Turned)
    requires Ready(c, position, hi, low) && newlines == Newlines(c, position)
    requires Names(c, gathered) && gathered(low, s.lines, s.tooLong)
    requires Sound(c, limit, position, low, s) && !s.cutShort && !s.full
    ensures turned.Taken? ==>
              && position <= lo < low && lo <= hi && (lo == 0 || c[lo - 1] == NEWLINE) && (lo == position ==> lo == 0)
              && gathered(lo, s'.lines, s'.tooLong) && Sound(c, limit, position, lo, s') && !s'.cutShort && !s'.full
    ensures turned.Stopped? ==>
              && s'.lines == s.lines && s'.tooLong == s.tooLong && Sound(c, limit, position, low, s')
              && (s'.Complete() ==> |s.lines| == limit && s'.truncated)
              && (s'.cutShort ==> position > 0 && newlines <= limit) && (s'.full ==> |c| > LOG_RESULT_BYTES)
    ensures turned.Invalid? ==> HasInvalidText(c, valid)
  {
    assert Gathered(c, low, s.lines, s.tooLong);
    lo := PieceStart(c, position, hi);
    s' := s;
    if position > 0 && lo == position {
      if newlines <= limit {
        s' := s.(cutShort := true);
      } else if !s.tooLong {
        FragmentReached(c, position, hi, low, s.lines, limit);
      }
      turned := Stopped;
    } else if |s.lines| == limit {
      s', turned := s.(truncated := true), Stopped;
    } else if hi - lo <= LOG_LINE_BYTES && s.resultBytes + (hi - lo) > LOG_RESULT_BYTES {
      s', turned := s.(full := true, truncated := true), Stopped;
    } else if hi - lo <= LOG_LINE_BYTES && !valid(c[lo..hi]) {
      PieceIsLine(c, lo, hi, low);
      turned := Invalid;
    } else {
      s' := TakePiece(c, lo, hi, low, s);
      turned := Taken;
    }
  }

  /** The second loop: pieces of c[position..end] from the right. */
  method GatherPieces(c: Bytes, limit: nat, position: nat, newlines: nat, end: nat, valid: Bytes -> bool,
                      ghost gathered: (nat, seq<Bytes>, bool) -> bool)
    returns (r: TailResult, ghost low: nat)
    requires NextPiece(c, end, |c|) && position < end && newlines == Newlines(c, position)
    requires end == |c| ==> c[end - 1] != NEWLINE
    requires Names(c, gathered) && gathered(|c|, [], false)
    ensures r.Tail? ==>
              && r.next == |c| && |r.lines| <= limit
              && low <= |c| && gathered(low, r.lines, LineTooLongGap in r.gaps)
              && (r.gaps == {} ==> low == 0 || (|r.lines| == limit && r.truncated))
              && (ReadLimitGap in r.gaps ==> position > 0 && newlines <= limit)
              && (ResultLimitGap in r.gaps ==> |c| > LOG_RESULT_BYTES)
              && (LineTooLongGap in r.gaps ==> HasOverlongText(c))
    ensures r.InvalidTail? ==> HasInvalidText(c, valid)
  {
    var s := TailState([], false, false, false, position > 0, 0);
    var hi := end;
    low := |c|;
    while true
      invariant Ready(c, position, hi, low) && gathered(low, s.lines, s.tooLong)
      invariant Sound(c, limit, position, low, s) && !s.cutShort && !s.full
      decreases hi
    {
      var s', lo, turned := TakeTurn(c, limit, position, newlines, hi, low, s, valid, gathered);
      if turned.Invalid? {
        return InvalidTail, low;
      }
      s := s';
      if turned.Stopped? {
        break;
      }
      low := lo;
      if lo == position {
        break;
      }
      hi := lo - 1;
    }
    r := Tail(s.lines, |c|, s.truncated, s.Gaps());
  }

  /** What a gap or a failure of the tail reader is about. */
  ghost predicate GapsExplained(c: Bytes, valid: Bytes -> bool, r: TailResult) {
    match r
    case InvalidTail => HasInvalidText(c, valid)
    case Tail(_, _, _, gaps) =>
      && (ReadLimitGap in gaps ==> |c| > LOG_READ_BYTES)
      && (ResultLimitGap in gaps ==> |c| > LOG_RESULT_BYTES)
      && (LineTooLongGap in gaps ==> HasOverlongText(c))
  }

  /**
   * The last `limit` lines of a file. Whatever the gaps, the lines are a suffix of the acceptable ones; without
   * gaps they are exactly the last lines, except for a file that is a lone newline.
   */
  method ReadLogTail(c: Bytes, limit: nat, valid: Bytes -> bool) returns (r: TailResult, ghost low: nat)
    ensures r.Tail? ==>
              && r.next == |c| && |r.lines| <= limit
              && low <= |c| && Gathered(c, low, r.lines, LineTooLongGap in r.gaps)
              && (r.gaps == {} ==> (r.lines == LastOf(Texts(c, 0), limit) <==> c != [NEWLINE] || limit == 0))
              && (c != [NEWLINE] && !r.truncated && r.gaps == {} ==> low == 0)
    ensures GapsExplained(c, valid, r)
  {
    var position, newlines := ReadBlocksBackward(c, limit);
    var end: nat := if c != [] && c[|c| - 1] == NEWLINE then |c| - 1 else |c|;
    if end <= position {
      if c != [] { LoneNewline(c); }
      low := |c|;
      return Tail([], |c|, position > 0, {}), low;
    }
    ghost var gathered := (low: nat, lines: seq<Bytes>, tooLong: bool) => Gathered(c, low, lines, tooLong);
    assert Gathered(c, |c|, [], false);
    r, low := GatherPieces(c, limit, position, newlines, end, valid, gathered);
    if r.Tail? && r.gaps == {} {
      TailIsLast(c, low, r.lines, limit);
    }
  }

  // ---- agreement with the forward reader

  lemma {:induction false} TrimAgrees(s: Bytes)
    requires NoNewline(s, 0, |s|)
    ensures TrimLineEnd(s) == TrimReturns(s)
    decreases |s|
  {
    if s != [] && s[|s| - 1] == CARRIAGE_RETURN {
      assert forall k | 0 <= k < |s| - 1 :: s[..|s| - 1][k] == s[k];
      TrimAgrees(s[..|s| - 1]);
    }
  }

  lemma LineTextAgrees(c: Bytes, i: nat)
    requires i < |c|
    ensures TrimLineEnd(c[i..LineEnd(c, i)]) == TrimReturns(TextOf(c, i, LineEnd(c, i)))
  {
    var e := LineEnd(c, i);
    LineEndMeaning(c, i);
    var line, text := c[i..e], TextOf(c, i, e);
    assert forall k | 0 <= k < |text| :: text[k] == c[i + k];
    TrimAgrees(text);
    if c[e - 1] == NEWLINE {
      assert line[..|line| - 1] == text;
    }
  }

  /** Where no line exceeds the limits, a follow from offset 0 and the tail see the same lines. */
  lemma {:induction false} TailAgreesWithFollow(c: Bytes, i: nat)
    requires i <= |c| && !HasOverlong(c, i, |c|)
    ensures TrimAll(KeptLines(c, i, |c|)) == Texts(c, i) == KeptTexts(c, i)
    decreases |c| - i
  {
    if i < |c| {
      var e := LineEnd(c, i);
      LineTextAgrees(c, i);
      TailAgreesWithFollow(c, e);
      assert KeptLines(c, i, |c|) == [c[i..e]] + KeptLines(c, e, |c|);
      assert TrimAll(KeptLines(c, i, |c|)) == [TrimLineEnd(c[i..e])] + TrimAll(KeptLines(c, e, |c|));
    }
  }
}
