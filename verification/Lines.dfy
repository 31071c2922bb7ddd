/** Byte strings and their division into newline-terminated lines. */
module Lines {

  type Byte = x: int | 0 <= x < 256

  type Bytes = seq<Byte>

  const NEWLINE: Byte := 10
  const CARRIAGE_RETURN: Byte := 13

  /** The end of the line that starts at `i`: just behind its newline, or the end of `c`. */
  function LineEnd(c: Bytes, i: nat): (e: nat)
    requires i < |c|
    ensures i < e <= |c|
    decreases |c| - i
  {
    if c[i] == NEWLINE || i + 1 == |c| then i + 1 else LineEnd(c, i + 1)
  }

  /** The lines of `c` from position `i` on, each with its newline. */
  function LinesFrom(c: Bytes, i: nat): seq<Bytes>
    requires i <= |c|
    decreases |c| - i
  {
    if i == |c| then [] else [c[i..LineEnd(c, i)]] + LinesFrom(c, LineEnd(c, i))
  }

  ghost predicate NoNewline(c: Bytes, i: nat, j: nat) {
    forall k | i <= k < j && k < |c| :: c[k] != NEWLINE
  }

  lemma {:induction false} LineEndMeaning(c: Bytes, i: nat)
    requires i < |c|
    ensures NoNewline(c, i, LineEnd(c, i) - 1)
    ensures c[LineEnd(c, i) - 1] == NEWLINE || LineEnd(c, i) == |c|
    decreases |c| - i
  {
    if c[i] != NEWLINE && i + 1 < |c| {
      LineEndMeaning(c, i + 1);
    }
  }

  /** The end of a line is pinned down by the first newline. */
  lemma {:induction false} LineEndIs(c: Bytes, i: nat, e: nat)
    requires i < e <= |c| && NoNewline(c, i, e - 1)
    requires c[e - 1] == NEWLINE || e == |c|
    ensures LineEnd(c, i) == e
    decreases e - i
  {
    if i + 1 < e {
      LineEndIs(c, i + 1, e);
    }
  }

  /** Inside a line, the line still ends where it did. */
  lemma {:induction false} LineEndWithin(c: Bytes, i: nat, k: nat)
    requires i <= k < |c| && NoNewline(c, i, k)
    ensures LineEnd(c, i) == LineEnd(c, k)
    decreases k - i
  {
    if i < k {
      LineEndWithin(c, i + 1, k);
    }
  }

  /** No newline is passed on the way to the end of a line. */
  lemma {:induction false} LineEndLeast(c: Bytes, i: nat, j: nat)
    requires i < j <= |c| && (c[j - 1] == NEWLINE || j == |c|)
    ensures LineEnd(c, i) <= j
    decreases j - i
  {
    if c[i] != NEWLINE && i + 1 < j {
      LineEndLeast(c, i + 1, j);
    }
  }

  /** Bytes behind the end of a line do not matter to it. */
  lemma {:induction false} LineEndOfPrefix(c: Bytes, i: nat, j: nat)
    requires i < j <= |c| && (c[j - 1] == NEWLINE || j == |c|)
    ensures LineEnd(c[..j], i) == LineEnd(c, i)
    decreases j - i
  {
    if c[i] != NEWLINE && i + 1 < j {
      LineEndOfPrefix(c, i + 1, j);
    }
  }

  /** The text without its trailing carriage returns and newlines. */
  function TrimLineEnd(s: Bytes): (t: Bytes)
    ensures t <= s
    ensures t == s || s[|t|] == NEWLINE || s[|t|] == CARRIAGE_RETURN
    ensures t == [] || (t[|t| - 1] != NEWLINE && t[|t| - 1] != CARRIAGE_RETURN)
  {
    if s != [] && (s[|s| - 1] == NEWLINE || s[|s| - 1] == CARRIAGE_RETURN) then TrimLineEnd(s[..|s| - 1]) else s
  }

  function Min(a: nat, b: nat): nat {
    if a < b then a else b
  }

  function TotalBytes(lines: seq<Bytes>): nat {
    if lines == [] then 0 else TotalBytes(lines[..|lines| - 1]) + |lines[|lines| - 1]|
  }

  function Flatten(lines: seq<Bytes>): Bytes {
    if lines == [] then [] else lines[0] + Flatten(lines[1..])
  }

  /** A nonempty stretch of bytes whose only newline, if any, is its last byte. */
  ghost predicate IsLine(line: Bytes) {
    line != [] && NoNewline(line, 0, |line| - 1)
  }

  predicate Terminated(line: Bytes) {
    line != [] && line[|line| - 1] == NEWLINE
  }

  /** A division into lines: only the last may lack its newline. */
  ghost predicate AreLines(lines: seq<Bytes>) {
    && (forall i | 0 <= i < |lines| :: IsLine(lines[i]))
    && (forall i | 0 <= i < |lines| - 1 :: Terminated(lines[i]))
  }

  lemma FirstLine(c: Bytes, i: nat)
    requires i < |c|
    ensures IsLine(c[i..LineEnd(c, i)]) && (LineEnd(c, i) < |c| ==> Terminated(c[i..LineEnd(c, i)]))
  {
    var e := LineEnd(c, i);
    LineEndMeaning(c, i);
    assert forall k | 0 <= k < e - i :: c[i..e][k] == c[i + k];
  }

  lemma OneMoreLine(first: Bytes, later: seq<Bytes>)
    requires IsLine(first) && AreLines(later) && (later != [] ==> Terminated(first))
    ensures AreLines([first] + later) && Flatten([first] + later) == first + Flatten(later)
  {
    var lines := [first] + later;
    assert lines[1..] == later;
    assert forall k | 0 < k < |lines| :: lines[k] == later[k - 1];
  }

  /** The division is one and loses nothing. */
  lemma {:induction false} LinesFromSound(c: Bytes, i: nat)
    requires i <= |c|
    ensures AreLines(LinesFrom(c, i)) && Flatten(LinesFrom(c, i)) == c[i..]
    decreases |c| - i
  {
    if i < |c| {
      var e := LineEnd(c, i);
      LineEndMeaning(c, i);
      LinesFromSound(c, e);
      FirstLine(c, i);
      OneMoreLine(c[i..e], LinesFrom(c, e));
      assert c[i..] == c[i..e] + c[e..];
    }
  }

  /** No other division of the same bytes exists. */
  lemma {:induction false} LinesFromUnique(c: Bytes, i: nat, lines: seq<Bytes>)
    requires i <= |c| && AreLines(lines) && Flatten(lines) == c[i..]
    ensures lines == LinesFrom(c, i)
    decreases |lines|
  {
    if lines != [] {
      var first, later := lines[0], lines[1..];
      var e := i + |first|;
      assert IsLine(first);
      assert e <= |c| && c[i..e] == first && c[e..] == Flatten(later) by {
        assert c[i..] == first + Flatten(later);
        assert c[i..][..|first|] == first && c[i..][|first|..] == Flatten(later);
      }
      assert forall k | 0 <= k < |first| :: first[k] == c[i + k];
      if later == [] {
        assert e == |c|;
      } else {
        assert Terminated(first);
      }
      LineEndIs(c, i, e);
      assert AreLines(later) by {
        assert forall k | 0 <= k < |later| :: later[k] == lines[k + 1];
      }
      LinesFromUnique(c, e, later);
    }
  }
}
