/**
 * Exactly when the pages of a search report every gap: unless every overlong line of the pinned files is a last line
 * without newline, whatever happens; and if so, a schedule exists under which the search finishes without the gap.
 */
module SearchExact {
  import opened Options
  import opened Lines
  import opened SearchScan
  import opened SearchReading
  import opened SearchPage
  import opened LogSearch
  import opened SearchRun
  import opened SearchProgress

  /** c[s..e] is an overlong line with its newline. */
  ghost predicate ClosedOverlong(c: Bytes, s: nat, e: nat) {
    && s < e <= |c| && (s == 0 || c[s - 1] == NEWLINE)
    && NoNewline(c, s, e - 1) && c[e - 1] == NEWLINE && e - s > MAX_LINE_BYTES
  }

  ghost predicate HasClosedOverlong(c: Bytes) {
    exists s: nat, e: nat :: ClosedOverlong(c, s, e)
  }

  // ---- loops of one file, for any property that the turns keep

  ghost predicate ScanTurnsKeep(turn: Turner, end: nat, keeps: (Head, Progress) -> bool, ends: Progress -> bool) {
    forall h: Head, st: Progress | keeps(h, st) && h.position < end ::
      match turn(h, st)
      case On(st', h') => keeps(h', st') && h.position < h'.position
      case Over(st', _, shortened) => shortened || ends(st')
  }

  lemma {:induction false} ScanKeeps(turn: Turner, end: nat, keeps: (Head, Progress) -> bool, ends: Progress -> bool,
                                     h: Head, st: Progress)
    requires ScanTurnsKeep(turn, end, keeps, ends) && keeps(h, st)
    requires forall h': Head, st' | keeps(h', st') :: ends(st')
    ensures var r := ScanWith(turn, end, h, st);
            r.shortened || ends(r.st)
    decreases if h.position < end then end - h.position else 0
  {
    if h.position < end {
      var t := turn(h, st);
      if t.On? {
        ScanKeeps(turn, end, keeps, ends, t.head, t.st);
      }
    }
  }

  // ---- a closed overlong line is reported

  /** Such a line has not been passed yet. */
  ghost predicate DueIn(c: Bytes, offset: nat) {
    exists s: nat, e: nat :: ClosedOverlong(c, s, e) && offset < e
  }

  /** Reported already, or still to come. */
  ghost predicate DueOrTold(c: Bytes, st: Progress) {
    LineTooLong in st.found.gaps || DueIn(c, st.place.offset)
  }

  /** From a line start, the line that ends at `e` starts there. */
  lemma StartsHere(c: Bytes, s: nat, e: nat, offset: nat)
    requires ClosedOverlong(c, s, e) && offset < e && LineEnd(c, offset) == e
    requires 0 < offset ==> c[offset - 1] == NEWLINE
    ensures offset == s
  {
    LineEndMeaning(c, offset);
    assert offset <= s;
    assert s <= offset;
  }

  lemma ReadTells(w: Schedule, q: Query, limit: Option<nat>, c: Bytes, size: nat, m: Meter, st: Progress, r: Read)
    requires st.place.offset < |c| && Resumable(c, st.place) && DueOrTold(c, st)
    requires Sound(w, c, size, st.place.offset, st.place.skipping, m, r)
    ensures DueOrTold(c, AfterRead(q, limit, st, r).st)
  {
    var st' := AfterRead(q, limit, st, r).st;
    if LineTooLong !in st.found.gaps {
      var s: nat, e: nat :| ClosedOverlong(c, s, e) && st.place.offset < e;
      if e <= st'.place.offset {
        LineEndLeast(c, st.place.offset, e);
        if r.outcome.Line? && !st.place.skipping {
          StartsHere(c, s, e, st.place.offset);
        }
      }
    }
  }

  ghost predicate DueState(c: Bytes, size: nat, h: Head, st: Progress) {
    Ready(c, size, h, st) && Resumable(c, st.place) && DueOrTold(c, st)
  }

  lemma LineTurnTells(w: Schedule, file: nat, q: Query, limit: Option<nat>, c: Bytes, size: nat, h: Head, st: Progress)
    requires DueState(c, size, h, st) && h.position < |c|
    ensures match LineTurn(w, file, q, limit, c, size, h, st)
            case On(st', h') => DueState(c, size, h', st')
            case Over(st', _, _) => DueOrTold(c, st')
  {
    LineTurnSound(w, file, q, limit, c, size, h, st);
    var h0 := h.(meter := Asked(w, h.meter, file, h.position));
    if !h0.meter.Halted() {
      ReadMeans(w, file, c, size, h.position, h0, st.place.skipping, st.place.skipping);
      ReadTells(w, q, limit, c, size, h0.meter, st, ReadFrom(w, file, c, size, h.position, h0, st.place.skipping));
    }
  }

  lemma ScanTells(w: Schedule, file: nat, q: Query, limit: Option<nat>, c: Bytes, size: nat, h: Head, st: Progress)
    requires DueState(c, size, h, st)
    ensures var r := ScanFrom(w, file, q, limit, c, size, h, st);
            r.shortened || DueOrTold(c, r.st)
  {
    var keeps := (h: Head, st: Progress) => DueState(c, size, h, st);
    var ends := (st: Progress) => DueOrTold(c, st);
    var turn := TurnerOf(w, file, q, limit, c, size);
    forall h: Head, st: Progress | keeps(h, st) && h.position < |c|
      ensures match turn(h, st)
              case On(st', h') => keeps(h', st') && h.position < h'.position
              case Over(st', _, shortened) => ends(st')
    {
      LineTurnTells(w, file, q, limit, c, size, h, st);
    }
    ScanKeeps(turn, |c|, keeps, ends, h, st);
  }

  // ---- a schedule that stops at the ends of files

  /** Late exactly behind the last byte of a file that ends in an overlong line. */
  ghost function Ambush(pinned: seq<Bytes>): Schedule {
    Schedule((s: Spot) => s.file < |pinned| && s.position >= |pinned[s.file]| && EndsInOverlongLine(pinned[s.file]),
             (s: Spot) => READ_BYTES,
             (s: Spot) => false)
  }

  lemma AmbushIsPatient(pinned: seq<Bytes>)
    ensures Steady(Ambush(pinned)) && Patient(Ambush(pinned), pinned)
  {
  }

  /** At the end of such a file, it is late. */
  ghost predicate LateAtEnd(w: Schedule, file: nat, c: Bytes) {
    EndsInOverlongLine(c) ==> forall tick: nat :: w.late(Spot(tick, file, |c|))
  }

  /** An overlong line that gets its newline is a closed one. */
  lemma ClosesOverlong(c: Bytes, from: nat, before: bool, next: nat)
    requires from < next <= |c| && Resumable(c, Place(from, None, before))
    requires NoNewline(c, from, next - 1) && c[next - 1] == NEWLINE && (before || next - from > MAX_LINE_BYTES)
    ensures HasClosedOverlong(c)
  {
    if before {
      var s: nat :| s < from <= |c| && (s == 0 || c[s - 1] == NEWLINE)
                    && NoNewline(c, s, from) && from - s > MAX_LINE_BYTES;
      assert ClosedOverlong(c, s, next);
    } else {
      assert ClosedOverlong(c, from, next);
    }
  }

  predicate NotOmitted(r: Read) {
    r.outcome.Line? ==> !r.outcome.omitted
  }

  lemma TurnQuiet(w: Schedule, file: nat, c: Bytes, size: nat, from: nat, h: Head, before: bool, skipping: bool)
    requires MidLine(c, size, from, h, before, skipping) && Resumable(c, Place(from, None, before))
    requires LateAtEnd(w, file, c) && !HasClosedOverlong(c)
    ensures var t := ReadTurn(w, file, c, size, from, h, skipping);
            t.Done? ==> NotOmitted(t.read)
  {
    var h0 := h.(meter := Asked(w, h.meter, file, h.position));
    if h.position == |c| {
      if skipping {
        ResumableInsideSkippedLine(c, Place(from, None, before), |c|);
        assert w.late(Spot(h.meter.tick, file, |c|));
      }
    } else if !h0.meter.Halted() {
      var h1 := Filled(w, file, size, h0);
      if h1.buffered > 0 {
        TurnMeans(c, from, h1);
        var next := TurnEnd(c, h1);
        if c[next - 1] == NEWLINE && (before || next - from > MAX_LINE_BYTES) {
          ClosesOverlong(c, from, before, next);
        }
      }
    }
  }

  /** Without closed overlong lines, and stopped at the end of the others, no line is ever omitted. */
  lemma {:induction false} ReadQuiet(w: Schedule, file: nat, c: Bytes, size: nat, from: nat, h: Head,
                                     before: bool, skipping: bool)
    requires MidLine(c, size, from, h, before, skipping) && Resumable(c, Place(from, None, before))
    requires LateAtEnd(w, file, c) && !HasClosedOverlong(c)
    ensures NotOmitted(ReadFrom(w, file, c, size, from, h, skipping))
    decreases |c| - h.position
  {
    TurnQuiet(w, file, c, size, from, h, before, skipping);
    TurnSound(w, file, c, size, from, h, before, skipping);
    var t := ReadTurn(w, file, c, size, from, h, skipping);
    if t.More? {
      ReadQuiet(w, file, c, size, from, t.head, before, t.skipping);
    }
  }

  ghost predicate QuietState(c: Bytes, size: nat, h: Head, st: Progress) {
    Ready(c, size, h, st) && Resumable(c, st.place) && LineTooLong !in st.found.gaps
  }

  lemma LineTurnQuiet(w: Schedule, file: nat, q: Query, limit: Option<nat>, c: Bytes, size: nat, h: Head, st: Progress)
    requires QuietState(c, size, h, st) && h.position < |c|
    requires LateAtEnd(w, file, c) && !HasClosedOverlong(c)
    ensures match LineTurn(w, file, q, limit, c, size, h, st)
            case On(st', h') => QuietState(c, size, h', st')
            case Over(st', _, _) => LineTooLong !in st'.found.gaps
  {
    LineTurnSound(w, file, q, limit, c, size, h, st);
    var h0 := h.(meter := Asked(w, h.meter, file, h.position));
    if !h0.meter.Halted() {
      ReadQuiet(w, file, c, size, h.position, h0, st.place.skipping, st.place.skipping);
    }
  }

  lemma ScanQuiet(w: Schedule, file: nat, q: Query, limit: Option<nat>, c: Bytes, size: nat, h: Head, st: Progress)
    requires QuietState(c, size, h, st) && LateAtEnd(w, file, c) && !HasClosedOverlong(c)
    ensures var r := ScanFrom(w, file, q, limit, c, size, h, st);
            r.shortened || LineTooLong !in r.st.found.gaps
  {
    var keeps := (h: Head, st: Progress) => QuietState(c, size, h, st);
    var ends := (st: Progress) => LineTooLong !in st.found.gaps;
    var turn := TurnerOf(w, file, q, limit, c, size);
    forall h: Head, st: Progress | keeps(h, st) && h.position < |c|
      ensures match turn(h, st)
              case On(st', h') => keeps(h', st') && h.position < h'.position
              case Over(st', _, shortened) => ends(st')
    {
      LineTurnQuiet(w, file, q, limit, c, size, h, st);
    }
    ScanKeeps(turn, |c|, keeps, ends, h, st);
  }

  // ---- the same for a page

  lemma VisitTells(w: Schedule, q: Query, limit: Option<nat>, file: nat, content: Bytes, len: nat, st: Progress,
                   m: Meter)
    requires st.place.offset <= len <= |content| && !st.full && Sized(st) && m.io <= MAX_SCAN_BYTES && !m.Halted()
    requires Resumable(content[..len], st.place) && DueOrTold(content[..len], st)
    ensures var v := VisitOf(w, q, limit, file, content, len, st, m);
            v.Visited? ==> DueOrTold(content[..len], v.st)
  {
    var m' := VisitScans(ScannerOf(w, q, limit, file, content, len, st), w, file, content, len, st.place, m);
    ScanTells(w, file, q, limit, content[..len], |content|, Head(st.place.offset, 0, m'), st);
  }

  lemma VisitQuiet(w: Schedule, q: Query, limit: Option<nat>, file: nat, content: Bytes, len: nat, st: Progress,
                   m: Meter)
    requires st.place.offset <= len <= |content| && !st.full && Sized(st) && m.io <= MAX_SCAN_BYTES && !m.Halted()
    requires Resumable(content[..len], st.place) && LineTooLong !in st.found.gaps
    requires LateAtEnd(w, file, content[..len]) && !HasClosedOverlong(content[..len])
    ensures var v := VisitOf(w, q, limit, file, content, len, st, m);
            v.Visited? ==> LineTooLong !in v.st.found.gaps
  {
    var m' := VisitScans(ScannerOf(w, q, limit, file, content, len, st), w, file, content, len, st.place, m);
    ScanQuiet(w, file, q, limit, content[..len], |content|, Head(st.place.offset, 0, m'), st);
  }

  /** Some closed overlong line lies at or behind the cursor. */
  ghost predicate DueFrom(pinned: seq<Bytes>, cursor: Cursor) {
    exists j | cursor.file <= j < |pinned| :: DueIn(pinned[j], if j == cursor.file then cursor.place.offset else 0)
  }

  ghost predicate Told(pinned: seq<Bytes>, ps: PageState) {
    LineTooLong in ps.st.found.gaps || DueFrom(pinned, ps.cursor)
  }

  lemma FileTells(pinned: seq<Bytes>, ps: PageState, st: Progress)
    requires ps.cursor.file < |ps.cursor.files| == |pinned| && ps.st.place == ps.cursor.place
    requires |pinned[ps.cursor.file]| == ps.cursor.files[ps.cursor.file].len
    requires st.place.offset <= |pinned[ps.cursor.file]|
    requires Told(pinned, ps)
    requires DueOrTold(pinned[ps.cursor.file], ps.st) ==> DueOrTold(pinned[ps.cursor.file], st)
    ensures Told(pinned, AfterFile(ps, st))
  {
    var i, cursor := ps.cursor.file, AfterFile(ps, st).cursor;
    if LineTooLong !in st.found.gaps {
      if DueOrTold(pinned[i], st) {
        assert cursor.file == i;
        assert DueIn(pinned[i], cursor.place.offset);
      } else {
        var j :| i <= j < |pinned| && DueIn(pinned[j], if j == i then ps.cursor.place.offset else 0);
        assert DueIn(pinned[j], if j == cursor.file then cursor.place.offset else 0);
      }
    }
  }

  lemma VisitedTells(w: Schedule, q: Query, limit: Option<nat>, disk: Disk, files: seq<FileSnapshot>, ps: PageState,
                     m: Meter)
    requires StillThere(files, disk) && ps.cursor.files == files && ps.cursor.file < |files|
    requires ps.st.place == ps.cursor.place && !ps.st.full && Sized(ps.st) && m.io <= MAX_SCAN_BYTES && !m.Halted()
    requires Resumable(Pinned(files, disk)[ps.cursor.file], ps.st.place) && Told(Pinned(files, disk), ps)
    ensures var snapshot := files[ps.cursor.file];
            var v := VisitOf(w, q, limit, ps.cursor.file, disk.bytes[snapshot.identity], snapshot.len, ps.st, m);
            v.Visited? ==> Told(Pinned(files, disk), AfterFile(ps, v.st))
  {
    var pinned, i, snapshot := Pinned(files, disk), ps.cursor.file, files[ps.cursor.file];
    var content := disk.bytes[snapshot.identity];
    var v := VisitOf(w, q, limit, i, content, snapshot.len, ps.st, m);
    VisitMeans(w, q, limit, i, content, snapshot.len, ps.st, m);
    if v.Visited? {
      if DueOrTold(pinned[i], ps.st) {
        VisitTells(w, q, limit, i, content, snapshot.len, ps.st, m);
      }
      FileTells(pinned, ps, v.st);
    }
  }

  ghost function ToldIn(pinned: seq<Bytes>): Also {
    (ps: PageState) => Told(pinned, ps)
  }

  lemma PageTurnTells(w: Schedule, q: Query, limit: Option<nat>, disk: Disk, files: seq<FileSnapshot>, ps: PageState,
                      m: Meter)
    requires StillThere(files, disk) && ps.cursor.files == files && ps.cursor.file < |files|
    requires ps.st.place == ps.cursor.place && !ps.st.full && Sized(ps.st) && m.io <= MAX_SCAN_BYTES
    requires Resumable(Pinned(files, disk)[ps.cursor.file], ps.st.place) && Told(Pinned(files, disk), ps)
    ensures AlsoKept(ToldIn(Pinned(files, disk)), true, TurnOfPage(w, q, limit, disk, ps, m))
  {
    var m0 := Asked(w, m, ps.cursor.file, ps.cursor.place.offset);
    if !m0.Halted() {
      VisitedTells(w, q, limit, disk, files, ps, m0);
    }
  }

  lemma TurnsTell(w: Schedule, q: Query, limit: Option<nat>, disk: Disk, first: Cursor)
    requires StillThere(first.files, disk) && WellPlaced(Pinned(first.files, disk), first)
    ensures TurnsAlsoKeep(w, q, limit, disk, first, ToldIn(Pinned(first.files, disk)), true)
  {
    var also := ToldIn(Pinned(first.files, disk));
    forall ps: PageState, m: Meter | TurnDue(w, q, limit, disk, first, ps, m) && also(ps)
      ensures AlsoKept(also, true, TurnOfPage(w, q, limit, disk, ps, m))
    {
      StandsWell(w, q, limit, Pinned(first.files, disk), first, ps, m);
      PageTurnTells(w, q, limit, disk, first.files, ps, m);
    }
  }

  lemma PageTells(node: string, q: Query, limit: Option<nat>, w: Schedule, first: Cursor, disk: Disk)
    requires PassesChecks(node, q, first, disk) && DueFrom(Pinned(first.files, disk), first)
    ensures var end := PageRun(node, q, limit, w, first, disk);
            end.PageEnded? ==> Told(Pinned(first.files, disk), end.ps)
  {
    TurnsTell(w, q, limit, disk, first);
    PageAlso(node, q, limit, w, first, disk, ToldIn(Pinned(first.files, disk)));
  }

  // ---- quiet pages

  ghost predicate Quiet(ps: PageState) {
    LineTooLong !in ps.st.found.gaps
  }

  /** No overlong line gets its newline, and it is late at the end of every other. */
  ghost predicate Ambushed(w: Schedule, pinned: seq<Bytes>) {
    forall i | 0 <= i < |pinned| :: LateAtEnd(w, i, pinned[i]) && !HasClosedOverlong(pinned[i])
  }

  ghost function IsQuiet(): Also {
    (ps: PageState) => Quiet(ps)
  }

  lemma PageTurnQuiet(w: Schedule, q: Query, limit: Option<nat>, disk: Disk, files: seq<FileSnapshot>, ps: PageState,
                      m: Meter)
    requires StillThere(files, disk) && ps.cursor.files == files && ps.cursor.file < |files|
    requires ps.st.place == ps.cursor.place && !ps.st.full && Sized(ps.st) && m.io <= MAX_SCAN_BYTES
    requires Resumable(Pinned(files, disk)[ps.cursor.file], ps.st.place)
    requires Ambushed(w, Pinned(files, disk)) && Quiet(ps)
    ensures AlsoKept(IsQuiet(), true, TurnOfPage(w, q, limit, disk, ps, m))
  {
    var pinned, i, snapshot := Pinned(files, disk), ps.cursor.file, files[ps.cursor.file];
    var m0 := Asked(w, m, i, ps.cursor.place.offset);
    if !m0.Halted() {
      assert LateAtEnd(w, i, pinned[i]);
      VisitQuiet(w, q, limit, i, disk.bytes[snapshot.identity], snapshot.len, ps.st, m0);
    }
  }

  lemma TurnsQuiet(w: Schedule, q: Query, limit: Option<nat>, disk: Disk, first: Cursor)
    requires StillThere(first.files, disk) && WellPlaced(Pinned(first.files, disk), first)
    requires Ambushed(w, Pinned(first.files, disk))
    ensures TurnsAlsoKeep(w, q, limit, disk, first, IsQuiet(), true)
  {
    forall ps: PageState, m: Meter | TurnDue(w, q, limit, disk, first, ps, m) && IsQuiet()(ps)
      ensures AlsoKept(IsQuiet(), true, TurnOfPage(w, q, limit, disk, ps, m))
    {
      StandsWell(w, q, limit, Pinned(first.files, disk), first, ps, m);
      PageTurnQuiet(w, q, limit, disk, first.files, ps, m);
    }
  }

  lemma PageQuiet(node: string, q: Query, limit: Option<nat>, w: Schedule, first: Cursor, disk: Disk)
    requires PassesChecks(node, q, first, disk) && Ambushed(w, Pinned(first.files, disk))
    ensures var end := PageRun(node, q, limit, w, first, disk);
            end.PageEnded? ==> Quiet(end.ps)
  {
    TurnsQuiet(w, q, limit, disk, first);
    PageAlso(node, q, limit, w, first, disk, IsQuiet());
  }

  // ---- whole searches

  /** Once due, always due or told. */
  lemma {:induction false} RunTells(node: string, q: Query, pinned: seq<Bytes>, pages: seq<PageRecord>,
                                    cursor: Cursor, last: Cursor)
    requires Run(node, q, pinned, pages, cursor, last)
    requires SameRequest(node, q, cursor) && WellPlaced(pinned, cursor) && DueFrom(pinned, cursor)
    ensures LineTooLong in Gaps(pages) || DueFrom(pinned, last)
    decreases |pages|
  {
    if pages != [] {
      var page := pages[0];
      if page.end.PageEnded? {
        OnePage(node, q, pinned, page);
        PageMet(node, q, page.limit, page.world, page.first, page.disk);
        PageTells(node, q, page.limit, page.world, page.first, page.disk);
        if LineTooLong !in page.end.ps.st.found.gaps {
          RunTells(node, q, pinned, pages[1..], page.Next(), last);
        }
      } else {
        RunTells(node, q, pinned, pages[1..], page.Next(), last);
      }
    }
  }

  /** Whatever happens, a finished search reports a closed overlong line. */
  lemma {:induction false} ClosedOverlongTold(node: string, q: Query, disk: Disk, pages: seq<PageRecord>, last: Cursor,
                                              i: nat)
    requires Finished(node, q, disk, pages, last) && i < |disk.candidates| && HasClosedOverlong(PinnedNow(disk)[i])
    ensures LineTooLong in Gaps(pages)
  {
    var pinned, start := PinnedNow(disk), FreshCursor(node, q, disk);
    PinnedIsNow(node, q, disk);
    var s: nat, e: nat :| ClosedOverlong(pinned[i], s, e);
    assert DueIn(pinned[i], if i == start.file then start.place.offset else 0);
    RunTells(node, q, pinned, pages, start, last);
  }

  /** A search under the ambush: it finishes, and never reports an overlong line. */
  lemma {:induction false} AmbushedSearch(node: string, q: Query, disk: Disk, cursor: Cursor)
    returns (pages: seq<PageRecord>, last: Cursor)
    requires LossyBounded(q) && SameRequest(node, q, cursor) && Proper(cursor)
    requires cursor.files == Pin(disk) && WellPlaced(PinnedNow(disk), cursor)
    requires StillThere(Pin(disk), disk) && Pinned(Pin(disk), disk) == PinnedNow(disk)
    requires forall i | 0 <= i < |disk.candidates| :: !HasClosedOverlong(PinnedNow(disk)[i])
    ensures Run(node, q, PinnedNow(disk), pages, cursor, last) && last.file == |disk.candidates|
    ensures LineTooLong !in Gaps(pages)
    decreases Distance(cursor)
  {
    pages, last := [], cursor;
    if cursor.file < |disk.candidates| {
      var page := AmbushedPage(node, q, disk, cursor);
      var later;
      later, last := AmbushedSearch(node, q, disk, page.Next());
      pages := [page] + later;
      assert pages[1..] == later;
    }
  }

  lemma AmbushedPage(node: string, q: Query, disk: Disk, cursor: Cursor) returns (page: PageRecord)
    requires LossyBounded(q) && SameRequest(node, q, cursor) && Proper(cursor) && cursor.file < |disk.candidates|
    requires cursor.files == Pin(disk) && WellPlaced(PinnedNow(disk), cursor)
    requires StillThere(Pin(disk), disk) && Pinned(Pin(disk), disk) == PinnedNow(disk)
    requires forall i | 0 <= i < |disk.candidates| :: !HasClosedOverlong(PinnedNow(disk)[i])
    ensures page.first == cursor && IsPage(node, q, page) && page.disk == disk && page.end.PageEnded?
    ensures SameRequest(node, q, page.Next()) && Proper(page.Next()) && page.Next().files == Pin(disk)
    ensures WellPlaced(PinnedNow(disk), page.Next()) && Distance(page.Next()) < Distance(cursor)
    ensures LineTooLong !in page.end.ps.st.found.gaps
  {
    var w := Ambush(PinnedNow(disk));
    AmbushIsPatient(PinnedNow(disk));
    page := PageRecord(cursor, None, w, disk, {}, PageRun(node, q, None, w, cursor, disk));
    PageGetsOn(node, q, None, w, cursor, disk);
    OnePage(node, q, PinnedNow(disk), page);
    PageMet(node, q, None, w, cursor, disk);
    FurtherIsNearer(cursor, page.Next());
    PageQuiet(node, q, None, w, cursor, disk);
  }

  // ---- the exact condition

  /** An unbroken scan sees the overlong last line. */
  lemma {:induction false} ScanSeesTail(q: Query, c: Bytes, i: nat, time: Option<int>, s: nat)
    requires i <= s < |c| && (s == 0 || c[s - 1] == NEWLINE) && NoNewline(c, s, |c|) && |c| - s > MAX_LINE_BYTES
    ensures LineTooLong in Scan(q, c, i, time).gaps
    decreases |c| - i
  {
    if i == s {
      LineEndIs(c, s, |c|);
    } else {
      LineEndLeast(c, i, s);
      ScanSeesTail(q, c, LineEnd(c, i), time, s);
      ScanSeesTail(q, c, LineEnd(c, i), StampAfter(q, c[i..LineEnd(c, i)], time), s);
    }
  }

  lemma {:induction false} FullScanSeesTail(q: Query, files: seq<Bytes>, i: nat)
    requires i < |files| && EndsInOverlongLine(files[i])
    ensures LineTooLong in FullScan(q, files).gaps
    decreases |files|
  {
    if i == 0 {
      var c := files[0];
      var s: nat :| s < |c| && (s == 0 || c[s - 1] == NEWLINE) && NoNewline(c, s, |c|) && |c| - s > MAX_LINE_BYTES;
      ScanSeesTail(q, c, 0, None, s);
    } else {
      FullScanSeesTail(q, files[1..], i - 1);
    }
  }

  /** Every finished search on this disk reports exactly the gaps of the unbroken scan. */
  ghost predicate AllGapsTold(node: string, q: Query, disk: Disk) {
    forall pages, last | Finished(node, q, disk, pages, last) :: Gaps(pages) == FullScan(q, PinnedNow(disk)).gaps
  }

  /** No file ends in an overlong line without newline, or some overlong line has one. */
  ghost predicate TailsHarmless(disk: Disk) {
    || (forall i | 0 <= i < |disk.candidates| :: !EndsInOverlongLine(PinnedNow(disk)[i]))
    || (exists i | 0 <= i < |disk.candidates| :: HasClosedOverlong(PinnedNow(disk)[i]))
  }

  lemma {:induction false} HarmlessGapsTold(node: string, q: Query, disk: Disk, pages: seq<PageRecord>, last: Cursor)
    requires TailsHarmless(disk) && Finished(node, q, disk, pages, last)
    ensures Gaps(pages) == FullScan(q, PinnedNow(disk)).gaps
  {
    PagedGaps(node, q, disk, pages, last);
    if i :| 0 <= i < |disk.candidates| && HasClosedOverlong(PinnedNow(disk)[i]) {
      ClosedOverlongTold(node, q, disk, pages, last, i);
    }
  }

  /** Where every overlong line is a last line without newline, a finished search can miss the gap. */
  lemma {:induction false} GapCanBeLost(node: string, q: Query, disk: Disk) returns (pages: seq<PageRecord>,
                                        last: Cursor)
    requires LossyBounded(q) && !TailsHarmless(disk)
    ensures Finished(node, q, disk, pages, last)
    ensures LineTooLong !in Gaps(pages) && LineTooLong in FullScan(q, PinnedNow(disk)).gaps
  {
    PinnedIsNow(node, q, disk);
    pages, last := AmbushedSearch(node, q, disk, FreshCursor(node, q, disk));
    var i :| 0 <= i < |disk.candidates| && EndsInOverlongLine(PinnedNow(disk)[i]);
    FullScanSeesTail(q, PinnedNow(disk), i);
  }

  /** The exact condition. */
  lemma {:induction false} GapsExactIff(node: string, q: Query, disk: Disk)
    requires LossyBounded(q)
    ensures AllGapsTold(node, q, disk) <==> TailsHarmless(disk)
  {
    if TailsHarmless(disk) {
      forall pages, last | Finished(node, q, disk, pages, last)
        ensures Gaps(pages) == FullScan(q, PinnedNow(disk)).gaps
      {
        HarmlessGapsTold(node, q, disk, pages, last);
      }
    } else {
      var pages, last := GapCanBeLost(node, q, disk);
      assert Gaps(pages) != FullScan(q, PinnedNow(disk)).gaps;
    }
  }
}
