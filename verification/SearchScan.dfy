/** What an unbroken search of the pinned log files returns, and what is left of it from a cursor on. */
module SearchScan {
  import opened Options
  import opened Lines
  import opened IdMatch

  const MAX_LINE_BYTES: nat := 65536

  /**
   * What a search asks for. `lossy` is the lossy UTF-8 decoding of a line, given back as bytes, and
   * `stamp` the RFC 3339 timestamp of a decoded line's first word, in microseconds.
   */
  datatype Query = Query(
    start: int,
    end: int,
    ids: seq<Bytes>,
    lossy: Bytes -> Bytes,
    stamp: Bytes -> Option<int>)

  /** The time in force after a line: its own, or the one carried over from earlier lines. */
  function StampAfter(q: Query, line: Bytes, time: Option<int>): Option<int> {
    var own := q.stamp(q.lossy(line));
    if own.Some? then own else time
  }

  predicate InWindow(q: Query, time: Option<int>) {
    time.Some? && q.start <= time.value <= q.end
  }

  ghost predicate Hit(q: Query, line: Bytes, time: Option<int>) {
    InWindow(q, time) && MatchesId(line, q.ids)
  }

  /** What a reader of the result is told was left out or is doubtful. */
  datatype Gap = LineTooLong | IncompleteLine | NoTimestamp | DirectoryIncomplete | TooManyFiles

  /** Returned texts, in order, and the gaps reported beside them. */
  datatype Found = Found(texts: seq<Bytes>, gaps: set<Gap>)

  const NOTHING := Found([], {})

  function Join(a: Found, b: Found): Found {
    Found(a.texts + b.texts, a.gaps + b.gaps)
  }

  /** What one line of acceptable length contributes, given the time in force after it. */
  ghost function FromLine(q: Query, line: Bytes, time: Option<int>): Found {
    Found(if Hit(q, line, time) then [TrimLineEnd(q.lossy(line))] else [],
          (if Terminated(line) then {} else {IncompleteLine}) + (if time.None? then {NoTimestamp} else {}))
  }

  const OMITTED := Found([], {LineTooLong})

  /** A scan from a line start on: an overlong line leaves nothing but a gap, its own time included. */
  ghost function Scan(q: Query, c: Bytes, i: nat, time: Option<int>): Found
    requires i <= |c|
    decreases |c| - i
  {
    if i == |c| then NOTHING
    else
      var e := LineEnd(c, i);
      if e - i > MAX_LINE_BYTES then Join(OMITTED, Scan(q, c, e, time))
      else
        var time' := StampAfter(q, c[i..e], time);
        Join(FromLine(q, c[i..e], time'), Scan(q, c, e, time'))
  }

  /** One unbroken scan: file after file, each starting without a carried-over time. */
  ghost function FullScan(q: Query, files: seq<Bytes>): Found {
    if files == [] then NOTHING else Join(Scan(q, files[0], 0, None), FullScan(q, files[1..]))
  }

  /** The same scan over lines already split. */
  ghost function ScanLines(q: Query, lines: seq<Bytes>, time: Option<int>): Found {
    if lines == [] then NOTHING
    else if |lines[0]| > MAX_LINE_BYTES then Join(OMITTED, ScanLines(q, lines[1..], time))
    else
      var time' := StampAfter(q, lines[0], time);
      Join(FromLine(q, lines[0], time'), ScanLines(q, lines[1..], time'))
  }

  lemma {:induction false} ScanIsScanOfLines(q: Query, c: Bytes, i: nat, time: Option<int>)
    requires i <= |c|
    ensures Scan(q, c, i, time) == ScanLines(q, LinesFrom(c, i), time)
    decreases |c| - i
  {
    if i < |c| {
      var e := LineEnd(c, i);
      assert LinesFrom(c, i)[1..] == LinesFrom(c, e);
      ScanIsScanOfLines(q, c, e, time);
      ScanIsScanOfLines(q, c, e, StampAfter(q, c[i..e], time));
    }
  }

  /** A place in one file: how far it is read, the carried-over time, and whether a line is being skipped. */
  datatype Place = Place(offset: nat, time: Option<int>, skipping: bool)

  const FILE_START := Place(0, None, false)

  /** Where the next line that may be returned begins. */
  function NextLineStart(c: Bytes, p: Place): (i: nat)
    requires p.offset <= |c|
    ensures p.offset <= i <= |c|
  {
    if p.skipping && p.offset < |c| then LineEnd(c, p.offset) else p.offset
  }

  /** What a scan of the rest of the file finds; a line being skipped is a gap still to report. */
  ghost function Rest(q: Query, c: Bytes, p: Place): Found
    requires p.offset <= |c|
  {
    Join(if p.skipping then OMITTED else NOTHING, Scan(q, c, NextLineStart(c, p), p.time))
  }

  /** Position `i` lies more than the line limit behind the start of its line. */
  ghost predicate InsideOverlongLine(c: Bytes, i: nat) {
    exists s: nat | s < i <= |c| ::
      (s == 0 || c[s - 1] == NEWLINE) && NoNewline(c, s, i) && i - s > MAX_LINE_BYTES
  }

  /** A place the search may stop at: mid-line only while skipping a line known to be overlong. */
  ghost predicate Resumable(c: Bytes, p: Place) {
    && p.offset <= |c|
    && (p.skipping ==> InsideOverlongLine(c, p.offset))
    && (!p.skipping && 0 < p.offset < |c| ==> c[p.offset - 1] == NEWLINE)
  }

  // ---- how each step of the search moves the place

  lemma JoinNothing(f: Found)
    ensures Join(NOTHING, f) == f == Join(f, NOTHING)
  {
  }

  lemma JoinAssociates(a: Found, b: Found, c: Found)
    ensures Join(Join(a, b), c) == Join(a, Join(b, c))
  {
  }

  lemma RestAfterLine(q: Query, c: Bytes, p: Place)
    requires p.offset < |c| && !p.skipping
    ensures var e := LineEnd(c, p.offset);
            var time' := StampAfter(q, c[p.offset..e], p.time);
            Rest(q, c, p) ==
              if e - p.offset > MAX_LINE_BYTES then Join(OMITTED, Rest(q, c, Place(e, p.time, false)))
              else Join(FromLine(q, c[p.offset..e], time'), Rest(q, c, Place(e, time', false)))
  {
    var e := LineEnd(c, p.offset);
    JoinNothing(Scan(q, c, p.offset, p.time));
    JoinNothing(Scan(q, c, e, p.time));
    JoinNothing(Scan(q, c, e, StampAfter(q, c[p.offset..e], p.time)));
  }

  lemma RestAfterSkippedLine(q: Query, c: Bytes, p: Place)
    requires p.offset <= |c| && p.skipping
    ensures Rest(q, c, p) == Join(OMITTED, Rest(q, c, Place(NextLineStart(c, p), p.time, false)))
  {
    JoinNothing(Scan(q, c, NextLineStart(c, p), p.time));
  }

  /** Stopping inside a line already known to be overlong loses nothing but that line. */
  lemma RestInsideSkippedLine(q: Query, c: Bytes, p: Place, stop: nat)
    requires p.offset < |c| && p.offset <= stop <= |c| && NoNewline(c, p.offset, stop)
    requires p.skipping || stop - p.offset > MAX_LINE_BYTES
    ensures Rest(q, c, p) == Rest(q, c, Place(stop, p.time, true))
  {
    var e := LineEnd(c, p.offset);
    var p' := Place(stop, p.time, true);
    if stop < |c| {
      LineEndWithin(c, p.offset, stop);
    } else {
      LineEndIs(c, p.offset, |c|);
    }
    assert NextLineStart(c, p') == e;
    RestAfterSkippedLine(q, c, p');
    if p.skipping {
      RestAfterSkippedLine(q, c, p);
    } else {
      RestAfterLine(q, c, p);
    }
  }

  lemma ResumableInsideSkippedLine(c: Bytes, p: Place, stop: nat)
    requires p.offset < |c| && p.offset <= stop <= |c| && NoNewline(c, p.offset, stop)
    requires p.skipping || stop - p.offset > MAX_LINE_BYTES
    requires Resumable(c, p)
    ensures Resumable(c, Place(stop, p.time, true))
  {
    if p.skipping {
      var s: nat :| s < p.offset <= |c| && (s == 0 || c[s - 1] == NEWLINE)
                    && NoNewline(c, s, p.offset) && p.offset - s > MAX_LINE_BYTES;
      assert NoNewline(c, s, stop);
    }
  }

  /** Reading a line again after its time was stored and its gaps reported changes nothing. */
  lemma RestAfterRewind(q: Query, c: Bytes, p: Place)
    requires p.offset < |c| && !p.skipping && LineEnd(c, p.offset) - p.offset <= MAX_LINE_BYTES
    ensures var line := c[p.offset..LineEnd(c, p.offset)];
            var time' := StampAfter(q, line, p.time);
            Rest(q, c, p) == Join(Found([], FromLine(q, line, time').gaps), Rest(q, c, p.(time := time')))
  {
    var line := c[p.offset..LineEnd(c, p.offset)];
    RestAfterLine(q, c, p);
    RestAfterLine(q, c, p.(time := StampAfter(q, line, p.time)));
  }
}
