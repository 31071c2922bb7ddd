/** Which log lines mention one of the searched Call-IDs. */
module IdMatch {
  import opened Lines
  import opened SpanSuffix

  const SPACE: Byte := 32
  const EQUALS: Byte := 61

  /** "session " */
  const SESSION: Bytes := [115, 101, 115, 115, 105, 111, 110, 32]

  /** The punctuation that a SIP Call-ID may contain. */
  const ID_PUNCTUATION: Bytes :=
    [45, 95, 46, 64, 43, 37, 33, 42, 96, 39, 126, 40, 41, 60, 62, 58, 47, 91, 93, 63, 123, 125]

  predicate IsIdByte(b: Byte) {
    IsAlphanumeric(b) || b in ID_PUNCTUATION
  }

  /** `before` ends inside an open brace: its last brace is an opening one. */
  ghost predicate InsideBraces(before: Bytes) {
    exists open | 0 <= open < |before| :: before[open] == OPEN && CLOSE !in before[open + 1..]
  }

  ghost predicate EndsSpan(before: Bytes, after: Bytes) {
    && before != [] && before[|before| - 1] == EQUALS
    && InsideBraces(before)
    && IsSpanSuffix(after)
  }

  ghost predicate EndsSession(before: Bytes, after: Bytes) {
    && |after| >= 2 && after[0] == COLON && after[1] == SPACE
    && |before| >= |SESSION| && before[|before| - |SESSION|..] == SESSION
  }

  /** An occurrence line[start..end] that is a whole Call-ID rather than part of a longer one. */
  ghost predicate WholeId(line: Bytes, start: nat, end: nat)
    requires start <= end <= |line|
  {
    && (start == 0 || !IsIdByte(line[start - 1]))
    && (end == |line| || !IsIdByte(line[end])
        || EndsSpan(line[..start], line[end..]) || EndsSession(line[..start], line[end..]))
  }

  predicate OccursAt(line: Bytes, id: Bytes, start: nat) {
    start + |id| <= |line| && line[start..start + |id|] == id
  }

  ghost predicate MentionedAt(line: Bytes, id: Bytes, start: nat) {
    OccursAt(line, id, start) && WholeId(line, start, start + |id|)
  }

  /** Some occurrence, overlapping ones included, of some searched ID is a whole Call-ID. */
  ghost predicate MatchesId(line: Bytes, ids: seq<Bytes>) {
    exists k, start | 0 <= k < |ids| && 0 <= start <= |line| :: MentionedAt(line, ids[k], start)
  }

  /** Searches for the last opening brace, then for a closing one behind it. */
  method IsInsideBraces(before: Bytes) returns (inside: bool)
    ensures inside <==> InsideBraces(before)
  {
    var open: nat := |before|;
    while open > 0 && before[open - 1] != OPEN
      invariant open <= |before|
      invariant forall k | open <= k < |before| :: before[k] != OPEN
    {
      open := open - 1;
    }
    inside := open > 0 && CLOSE !in before[open..];
    if open > 0 && !inside {
      forall k | 0 <= k < |before| && before[k] == OPEN ensures CLOSE in before[k + 1..] {
        assert before[k + 1..] == before[k + 1..open] + before[open..];
      }
    } else if open > 0 {
      assert before[open - 1] == OPEN && CLOSE !in before[open - 1 + 1..];
    }
  }

  method IsWholeId(line: Bytes, start: nat, end: nat) returns (whole: bool)
    requires start <= end <= |line|
    ensures whole <==> WholeId(line, start, end)
  {
    var before, after := line[..start], line[end..];
    var spanEnd := |after| >= 2 && after[0] == CLOSE && after[1] == COLON
                   && before != [] && before[|before| - 1] == EQUALS;
    if spanEnd {
      spanEnd := IsInsideBraces(before);
      if spanEnd {
        spanEnd := Recognise(after);
      }
    }
    var sessionEnd := |after| >= 2 && after[0] == COLON && after[1] == SPACE
                      && |before| >= |SESSION| && before[|before| - |SESSION|..] == SESSION;
    whole := (start == 0 || !IsIdByte(line[start - 1]))
             && (end == |line| || !IsIdByte(line[end]) || spanEnd || sessionEnd);
  }

  method LineMatches(line: Bytes, ids: seq<Bytes>) returns (found: bool)
    ensures found <==> MatchesId(line, ids)
  {
    for k := 0 to |ids|
      invariant forall j, start | 0 <= j < k && 0 <= start <= |line| :: !MentionedAt(line, ids[j], start)
    {
      for start := 0 to |line| + 1
        invariant forall j, i | 0 <= j < k && 0 <= i <= |line| :: !MentionedAt(line, ids[j], i)
        invariant forall i | 0 <= i < start :: !MentionedAt(line, ids[k], i)
      {
        if OccursAt(line, ids[k], start) {
          var whole := IsWholeId(line, start, start + |ids[k]|);
          if whole {
            assert MentionedAt(line, ids[k], start);
            return true;
          }
        }
      }
    }
    found := false;
  }
}
