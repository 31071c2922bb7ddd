/** The loop that fills a page from one file. */
module SearchPage {
  import opened Options
  import opened Lines
  import opened IdMatch
  import opened SearchScan
  import opened SearchReading

  const MAX_RESULT_BYTES: nat := 512 * 1024
  const MAX_LINES: nat := 200

  function LimitOf(limit: Option<nat>): nat {
    if limit.Some? then limit.value else MAX_LINES
  }

  /** What a page has gathered so far. */
  datatype Progress = Progress(place: Place, found: Found, returnedBytes: nat, full: bool)

  // ---- one line

  /** The page after a whole line: returned, passed over, or put back because the page is full. */
  ghost function LineTaken(q: Query, st: Progress, bytes: Bytes, end: nat): Progress {
    var time := StampAfter(q, bytes, st.place.time);
    var from := FromLine(q, bytes, time);
    if Hit(q, bytes, time) && st.returnedBytes + |q.lossy(bytes)| > MAX_RESULT_BYTES then
      st.(place := st.place.(time := time), found := Join(st.found, Found([], from.gaps)), full := true)
    else
      st.(place := Place(end, time, false), found := Join(st.found, from),
          returnedBytes := if Hit(q, bytes, time) then st.returnedBytes + |q.lossy(bytes)| else st.returnedBytes)
  }

  /** One turn of the inner loop: it goes on, or the file is done with for this page. */
  datatype FileTurn = On(st: Progress, head: Head) | Over(st: Progress, head: Head, shortened: bool)

  /** What the outcome of a read does to the page. */
  ghost function AfterRead(q: Query, limit: Option<nat>, st: Progress, r: Read): FileTurn {
    match r.outcome
    case Shortened => Over(st, r.head, true)
    case Stopped =>
      var offset := if r.skipping then r.head.position else st.place.offset;
      Over(st.(place := Place(offset, st.place.time, r.skipping)), r.head, false)
    case Line(bytes, omitted) =>
      if omitted then
        On(st.(place := Place(r.head.position, st.place.time, false), found := Join(st.found, OMITTED)), r.head)
      else
        var st' := LineTaken(q, st, bytes, r.head.position);
        if st'.full || |st'.found.texts| >= LimitOf(limit) then Over(st', r.head, false) else On(st', r.head)
  }

  ghost function LineTurn(w: Schedule, file: nat, q: Query, limit: Option<nat>, c: Bytes, size: nat,
                          h: Head, st: Progress): (t: FileTurn)
    requires h.position == st.place.offset < |c| <= size
    ensures t.On? ==> st.place.offset < t.st.place.offset == t.head.position <= |c|
  {
    var h0 := h.(meter := Asked(w, h.meter, file, h.position));
    if h0.meter.Halted() then Over(st, h0, false)
    else AfterRead(q, limit, st, ReadFrom(w, file, c, size, h.position, h0, st.place.skipping))
  }

  // ---- one file

  datatype FileRead = FileRead(st: Progress, head: Head, shortened: bool)

  /** A turn of the inner loop on some file, as a function of where the reader and the page stand. */
  type Turner = (Head, Progress) -> FileTurn

  ghost function TurnerOf(w: Schedule, file: nat, q: Query, limit: Option<nat>, c: Bytes, size: nat): Turner {
    (h: Head, st: Progress) =>
      if h.position == st.place.offset < |c| <= size then LineTurn(w, file, q, limit, c, size, h, st)
      else Over(st, h, false)
  }

  /** The inner loop: lines of a file of `end` bytes until the page or the file is exhausted. */
  ghost function ScanWith(turn: Turner, end: nat, h: Head, st: Progress): FileRead
    decreases if h.position < end then end - h.position else 0
  {
    if h.position >= end then FileRead(st, h, false)
    else
      match turn(h, st)
      case Over(st', h', shortened) => FileRead(st', h', shortened)
      case On(st', h') => if h.position < h'.position then ScanWith(turn, end, h', st') else FileRead(st', h', true)
  }

  ghost function ScanFrom(w: Schedule, file: nat, q: Query, limit: Option<nat>, c: Bytes, size: nat,
                          h: Head, st: Progress): FileRead
  {
    ScanWith(TurnerOf(w, file, q, limit, c, size), |c|, h, st)
  }

  // ---- what they keep

  /** The page keeps within its byte limit. */
  ghost predicate Sized(st: Progress) {
    TotalBytes(st.found.texts) <= st.returnedBytes <= MAX_RESULT_BYTES
  }

  /** Nothing was lost or repeated between two moments of reading the file `c`. */
  ghost predicate Conserves(q: Query, c: Bytes, st: Progress, st': Progress) {
    && st.place.offset <= st'.place.offset <= |c|
    && Join(st'.found, Rest(q, c, st'.place)) == Join(st.found, Rest(q, c, st.place))
    && (Resumable(c, st.place) ==> Resumable(c, st'.place))
    && st.found.texts <= st'.found.texts
  }

  lemma ConservesTransitive(q: Query, c: Bytes, a: Progress, b: Progress, d: Progress)
    requires Conserves(q, c, a, b) && Conserves(q, c, b, d)
    ensures Conserves(q, c, a, d)
  {
  }

  lemma ConservesLine(q: Query, c: Bytes, st: Progress, st': Progress)
    requires st.place.offset < |c| && !st.place.skipping
    requires var e := LineEnd(c, st.place.offset);
             var line := c[st.place.offset..e];
             var time' := StampAfter(q, line, st.place.time);
             && |line| <= MAX_LINE_BYTES
             && st'.place == Place(e, time', false)
             && st'.found == Join(st.found, FromLine(q, line, time'))
    ensures Conserves(q, c, st, st')
  {
    var line := c[st.place.offset..LineEnd(c, st.place.offset)];
    RestAfterLine(q, c, st.place);
    LineEndMeaning(c, st.place.offset);
    JoinAssociates(st.found, FromLine(q, line, st'.place.time), Rest(q, c, st'.place));
  }

  lemma ConservesRewind(q: Query, c: Bytes, st: Progress, st': Progress)
    requires st.place.offset < |c| && !st.place.skipping
    requires var line := c[st.place.offset..LineEnd(c, st.place.offset)];
             var time' := StampAfter(q, line, st.place.time);
             && |line| <= MAX_LINE_BYTES
             && st'.place == st.place.(time := time')
             && st'.found == Join(st.found, Found([], FromLine(q, line, time').gaps))
    ensures Conserves(q, c, st, st')
  {
    var line := c[st.place.offset..LineEnd(c, st.place.offset)];
    RestAfterRewind(q, c, st.place);
    JoinAssociates(st.found, Found([], FromLine(q, line, st'.place.time).gaps), Rest(q, c, st'.place));
  }

  lemma OmittedRest(q: Query, c: Bytes, p: Place)
    requires p.offset < |c| && (p.skipping || LineEnd(c, p.offset) - p.offset > MAX_LINE_BYTES)
    ensures Rest(q, c, p) == Join(OMITTED, Rest(q, c, Place(LineEnd(c, p.offset), p.time, false)))
  {
    if p.skipping {
      RestAfterSkippedLine(q, c, p);
    } else {
      RestAfterLine(q, c, p);
    }
  }

  lemma ConservesOmitted(q: Query, c: Bytes, st: Progress, st': Progress)
    requires st.place.offset < |c|
    requires st.place.skipping || LineEnd(c, st.place.offset) - st.place.offset > MAX_LINE_BYTES
    requires st'.place == Place(LineEnd(c, st.place.offset), st.place.time, false)
    requires st'.found == Join(st.found, OMITTED)
    ensures Conserves(q, c, st, st')
  {
    LineEndMeaning(c, st.place.offset);
    OmittedRest(q, c, st.place);
    JoinAssociates(st.found, OMITTED, Rest(q, c, st'.place));
    assert st'.found.texts == st.found.texts;
  }

  /** The line at `place` is a hit that no longer fits the page. */
  ghost predicate NoRoom(q: Query, c: Bytes, place: Place, returned: nat) {
    place.offset < |c| &&
    var line := c[place.offset..LineEnd(c, place.offset)];
    Hit(q, line, StampAfter(q, line, place.time)) && returned + |q.lossy(line)| > MAX_RESULT_BYTES
  }

  /** A whole line moves the page on; the page is full only before a hit that does not fit. */
  lemma LineTakenSound(q: Query, c: Bytes, st: Progress)
    requires st.place.offset < |c| && !st.place.skipping && !st.full && Sized(st)
    requires LineEnd(c, st.place.offset) - st.place.offset <= MAX_LINE_BYTES
    ensures var e := LineEnd(c, st.place.offset);
            var st' := LineTaken(q, st, c[st.place.offset..e], e);
            && Conserves(q, c, st, st') && Sized(st') && !st'.place.skipping
            && |st'.found.texts| <= |st.found.texts| + 1
            && if st'.full then NoRoom(q, c, st'.place, st'.returnedBytes) else st'.place.offset == e
  {
    var e := LineEnd(c, st.place.offset);
    var line := c[st.place.offset..e];
    var st' := LineTaken(q, st, line, e);
    if st'.full {
      ConservesRewind(q, c, st, st');
      assert st'.found.texts == st.found.texts;
    } else {
      ConservesLine(q, c, st, st');
      if Hit(q, line, st'.place.time) {
        assert st'.found.texts[..|st'.found.texts| - 1] == st.found.texts;
      } else {
        assert st'.found.texts == st.found.texts;
      }
    }
  }

  /** Why a page is done with a file, and what it leaves behind. */
  ghost predicate EndsWell(w: Schedule, q: Query, limit: Option<nat>, c: Bytes, st: Progress, m: Meter,
                           shortened: bool) {
    && (st.full ==> NoRoom(q, c, st.place, st.returnedBytes))
    && (shortened ==> !Steady(w))
    && (st.place.skipping && !shortened ==> m.Halted())
    && (st.full || shortened || |st.found.texts| >= LimitOf(limit) || m.Halted())
  }

  ghost predicate TurnOk(w: Schedule, q: Query, limit: Option<nat>, c: Bytes, size: nat, m: Meter, st: Progress,
                         t: FileTurn)
  {
    && Conserves(q, c, st, t.st) && Sized(t.st) && Fits(t.head, size) && Later(w, m, t.head.meter)
    && |t.st.found.texts| <= |st.found.texts| + 1
    && match t
       case On(st', h') =>
         && st.place.offset < st'.place.offset == h'.position && !st'.full && !st'.place.skipping
         && (|st'.found.texts| < LimitOf(limit) || st'.found.texts == st.found.texts)
       case Over(st', h', shortened) => EndsWell(w, q, limit, c, st', h'.meter, shortened)
  }

  lemma AfterReadSound(w: Schedule, q: Query, limit: Option<nat>, c: Bytes, size: nat, m: Meter, st: Progress, r: Read)
    requires st.place.offset < |c| && !st.full && Sized(st)
    requires Sound(w, c, size, st.place.offset, st.place.skipping, m, r)
    requires r.outcome.Line? ==> st.place.offset < r.head.position
    ensures TurnOk(w, q, limit, c, size, m, st, AfterRead(q, limit, st, r))
  {
    match r.outcome
    case Shortened =>
    case Stopped =>
      if r.skipping {
        RestInsideSkippedLine(q, c, st.place, r.head.position);
        if Resumable(c, st.place) { ResumableInsideSkippedLine(c, st.place, r.head.position); }
      }
    case Line(bytes, omitted) =>
      if omitted {
        var st' := AfterRead(q, limit, st, r).st;
        ConservesOmitted(q, c, st, st');
        assert st'.found.texts == st.found.texts;
      } else {
        LineTakenSound(q, c, st);
      }
  }

  lemma LineTurnSound(w: Schedule, file: nat, q: Query, limit: Option<nat>, c: Bytes, size: nat, h: Head, st: Progress)
    requires h.position == st.place.offset < |c| <= size && Fits(h, size) && !st.full && Sized(st)
    ensures TurnOk(w, q, limit, c, size, h.meter, st, LineTurn(w, file, q, limit, c, size, h, st))
  {
    var h0 := h.(meter := Asked(w, h.meter, file, h.position));
    if !h0.meter.Halted() {
      ReadMeans(w, file, c, size, h.position, h0, st.place.skipping, st.place.skipping);
      AfterReadSound(w, q, limit, c, size, h.meter, st, ReadFrom(w, file, c, size, h.position, h0, st.place.skipping));
    }
  }

  /** What reading on in a file, from `st` to `st'`, has to answer for. */
  ghost predicate FileKept(w: Schedule, q: Query, limit: Option<nat>, c: Bytes, m: Meter, st: Progress,
                           m': Meter, st': Progress, shortened: bool)
  {
    && Conserves(q, c, st, st') && Sized(st') && Later(w, m, m')
    && (|st.found.texts| < LimitOf(limit) ==> |st'.found.texts| <= LimitOf(limit))
    && (EndsWell(w, q, limit, c, st', m', shortened)
        || (st'.place.offset == |c| && !st'.full && !shortened && (st'.place.skipping ==> st'.place == st.place)))
  }

  ghost predicate Ready(c: Bytes, size: nat, h: Head, st: Progress) {
    h.position == st.place.offset <= |c| <= size && Fits(h, size) && !st.full && Sized(st)
  }

  ghost predicate TurnsOk(w: Schedule, q: Query, limit: Option<nat>, c: Bytes, size: nat, turn: Turner) {
    forall h, st | Ready(c, size, h, st) && h.position < |c| :: TurnOk(w, q, limit, c, size, h.meter, st, turn(h, st))
  }

  lemma KeptLater(w: Schedule, q: Query, limit: Option<nat>, c: Bytes, size: nat, m: Meter, st: Progress, t: FileTurn,
                  m': Meter, st': Progress, shortened: bool)
    requires TurnOk(w, q, limit, c, size, m, st, t) && t.On?
    requires FileKept(w, q, limit, c, t.head.meter, t.st, m', st', shortened)
    ensures FileKept(w, q, limit, c, m, st, m', st', shortened)
  {
    ConservesTransitive(q, c, st, t.st, st');
  }

  lemma KeptOver(w: Schedule, q: Query, limit: Option<nat>, c: Bytes, size: nat, m: Meter, st: Progress, t: FileTurn)
    requires TurnOk(w, q, limit, c, size, m, st, t) && t.Over?
    ensures FileKept(w, q, limit, c, m, st, t.head.meter, t.st, t.shortened)
  {
  }

  lemma KeptEnd(w: Schedule, q: Query, limit: Option<nat>, c: Bytes, size: nat, h: Head, st: Progress)
    requires Ready(c, size, h, st) && h.position == |c|
    ensures FileKept(w, q, limit, c, h.meter, st, h.meter, st, false)
  {
  }

  lemma {:induction false} LoopMeans(w: Schedule, q: Query, limit: Option<nat>, c: Bytes, size: nat, turn: Turner,
                                     h: Head, st: Progress)
    requires TurnsOk(w, q, limit, c, size, turn) && Ready(c, size, h, st)
    ensures var r := ScanWith(turn, |c|, h, st);
            FileKept(w, q, limit, c, h.meter, st, r.head.meter, r.st, r.shortened)
    decreases |c| - h.position
  {
    if h.position == |c| {
      KeptEnd(w, q, limit, c, size, h, st);
    } else {
      var t := turn(h, st);
      assert TurnOk(w, q, limit, c, size, h.meter, st, t);
      if t.On? {
        assert Ready(c, size, t.head, t.st);
        LoopMeans(w, q, limit, c, size, turn, t.head, t.st);
        var r := ScanWith(turn, |c|, t.head, t.st);
        KeptLater(w, q, limit, c, size, h.meter, st, t, r.head.meter, r.st, r.shortened);
      } else {
        KeptOver(w, q, limit, c, size, h.meter, st, t);
      }
    }
  }

  /** Whatever the schedule, reading a file loses and repeats nothing, and ends early only for a reason. */
  lemma ScanMeans(w: Schedule, file: nat, q: Query, limit: Option<nat>, c: Bytes, size: nat, h: Head, st: Progress)
    requires Ready(c, size, h, st)
    ensures var r := ScanFrom(w, file, q, limit, c, size, h, st);
            FileKept(w, q, limit, c, h.meter, st, r.head.meter, r.st, r.shortened)
  {
    var turn := TurnerOf(w, file, q, limit, c, size);
    forall h, st | Ready(c, size, h, st) && h.position < |c|
      ensures TurnOk(w, q, limit, c, size, h.meter, st, turn(h, st))
    {
      LineTurnSound(w, file, q, limit, c, size, h, st);
    }
    LoopMeans(w, q, limit, c, size, turn, h, st);
  }

  // ---- the loops

  /** The time in force after a line, its gaps, and whether it is a hit. */
  method JudgeLine(q: Query, bytes: Bytes, before: Option<int>) returns (time: Option<int>, gaps: set<Gap>, hit: bool)
    ensures time == StampAfter(q, bytes, before)
    ensures gaps == FromLine(q, bytes, time).gaps && (hit <==> Hit(q, bytes, time))
  {
    var line := q.lossy(bytes);
    time := before;
    if q.stamp(line).Some? {
      time := q.stamp(line);
    }
    gaps, hit := {}, false;
    if !Terminated(bytes) {
      gaps := gaps + {IncompleteLine};
    }
    if time.Some? {
      var matches := LineMatches(bytes, q.ids);
      hit := q.start <= time.value <= q.end && matches;
    } else {
      gaps := gaps + {NoTimestamp};
    }
  }

  method TakeLine(q: Query, st: Progress, bytes: Bytes, end: nat) returns (st': Progress)
    ensures st' == LineTaken(q, st, bytes, end)
  {
    var line := q.lossy(bytes);
    var time, gaps, hit := JudgeLine(q, bytes, st.place.time);
    if hit && st.returnedBytes + |line| > MAX_RESULT_BYTES {
      return st.(place := st.place.(time := time), found := Join(st.found, Found([], gaps)), full := true);
    }
    var texts := if hit then [TrimLineEnd(line)] else [];
    assert Found(texts, gaps) == FromLine(q, bytes, time);
    st' := st.(place := Place(end, time, false), found := Join(st.found, Found(texts, gaps)),
               returnedBytes := if hit then st.returnedBytes + |line| else st.returnedBytes);
  }

  /** One turn of the inner loop; `go` says whether the loop may run on. */
  method ScanOneLine(q: Query, limit: Option<nat>, reader: LogReader, end: nat, st: Progress)
    returns (st': Progress, go: bool, shortened: bool)
    requires reader.Valid() && reader.position == st.place.offset < end <= |reader.content|
    modifies reader, reader.budget
    ensures reader.Valid() && (go ==> !shortened && st.place.offset < st'.place.offset == reader.position <= end)
    ensures (if go then On(st', reader.Value()) else Over(st', reader.Value(), shortened))
            == LineTurn(reader.budget.world, reader.file, q, limit, reader.content[..end], |reader.content|,
                        old(reader.Value()), st)
  {
    st', go, shortened := st, false, false;
    var stopped := reader.budget.Stopped(reader.file, reader.position);
    if stopped {
      return;
    }
    var outcome, skipping := ReadLine(reader, end, st.place.skipping);
    match outcome
    case Shortened =>
      shortened := true;
    case Stopped =>
      st' := st.(place := Place(if skipping then reader.position else st.place.offset, st.place.time, skipping));
    case Line(bytes, omitted) =>
      if omitted {
        st' := st.(place := Place(reader.position, st.place.time, false), found := Join(st.found, OMITTED));
        go := true;
      } else {
        st' := TakeLine(q, st, bytes, reader.position);
        go := !st'.full && |st'.found.texts| < LimitOf(limit);
      }
  }

  /** `turn` names the turns that a reader takes on the first `end` bytes of its file. */
  ghost predicate Names(turn: Turner, w: Schedule, file: nat, q: Query, limit: Option<nat>, c: Bytes, size: nat) {
    forall h: Head, st: Progress {:trigger LineTurn(w, file, q, limit, c, size, h, st)}
      | h.position == st.place.offset < |c| <= size :: turn(h, st) == LineTurn(w, file, q, limit, c, size, h, st)
  }

  /** The inner loop: reads lines of one file until the page or the file is exhausted. */
  method ScanFile(q: Query, limit: Option<nat>, reader: LogReader, end: nat, before: Progress, ghost turn: Turner)
    returns (st: Progress, shortened: bool)
    requires reader.Valid() && reader.position == before.place.offset <= end <= |reader.content|
    requires Names(turn, reader.budget.world, reader.file, q, limit, reader.content[..end], |reader.content|)
    modifies reader, reader.budget
    ensures reader.Valid()
    ensures FileRead(st, reader.Value(), shortened) == ScanWith(turn, end, old(reader.Value()), before)
  {
    st, shortened := before, false;
    while st.place.offset < end
      invariant reader.Valid() && reader.position == st.place.offset <= end && !shortened
      invariant ScanWith(turn, end, reader.Value(), st) == ScanWith(turn, end, old(reader.Value()), before)
      decreases end - st.place.offset
    {
      var go;
      st, go, shortened := ScanOneLine(q, limit, reader, end, st);
      if !go {
        return;
      }
    }
  }
}
