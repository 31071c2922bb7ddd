/** That a search comes to an end: an undisturbed page always moves on. */
module SearchProgress {
  import opened Options
  import opened Lines
  import opened SearchScan
  import opened SearchReading
  import opened SearchPage
  import opened LogSearch
  import opened SearchRun

  /** Lossy decoding replaces each bad byte by at most three. */
  ghost predicate LossyBounded(q: Query) {
    forall b: Bytes :: |q.lossy(b)| <= 3 * |b|
  }

  /** Time runs out, if at all, only behind the last byte of a file that ends in an overlong line. */
  ghost predicate PatientIn(w: Schedule, file: nat, c: Bytes) {
    forall s: Spot | w.late(s) && s.file == file :: s.position >= |c| && EndsInOverlongLine(c)
  }

  ghost predicate Patient(w: Schedule, pinned: seq<Bytes>) {
    forall i | 0 <= i < |pinned| :: PatientIn(w, i, pinned[i])
  }

  // ---- one line

  /** In a file that ends in an overlong line, a line without end from a line start on is that line. */
  lemma LastLineOverlong(c: Bytes, from: nat)
    requires EndsInOverlongLine(c) && from < |c| && NoNewline(c, from, |c|)
    requires 0 < from ==> c[from - 1] == NEWLINE
    ensures |c| - from > MAX_LINE_BYTES
  {
    var s: nat :| s < |c| && (s == 0 || c[s - 1] == NEWLINE) && NoNewline(c, s, |c|) && |c| - s > MAX_LINE_BYTES;
    assert from <= s;
  }

  /** Little has been read besides the line itself. */
  predicate Cheap(from: nat, h: Head) {
    && !h.meter.expired && h.buffered <= READ_BYTES && from <= h.position
    && h.meter.io <= READ_BYTES + (h.position - from) + h.buffered
  }

  predicate GotOn(from: nat, r: Read) {
    r.outcome.Line? || (r.outcome.Stopped? && r.skipping && from < r.head.position)
  }

  lemma FilledGetsOn(w: Schedule, file: nat, c: Bytes, size: nat, h: Head)
    requires Steady(w) && PatientIn(w, file, c) && h.position < |c| <= size && Fits(h, size) && !h.meter.Halted()
    ensures var h' := Filled(w, file, size, h);
            h'.buffered > 0 && h'.position == h.position && !h'.meter.expired
            && h'.meter.io - h'.buffered == h.meter.io - h.buffered
            && (h.buffered <= READ_BYTES ==> h'.buffered <= READ_BYTES)
  {
    if h.buffered == 0 {
      var s := Spot(h.meter.tick, file, h.position);
      assert !w.late(s);
      assert w.refill(s) > 0;
    }
  }

  lemma TurnGetsOn(w: Schedule, file: nat, c: Bytes, size: nat, from: nat, h: Head, before: bool, skipping: bool)
    requires MidLine(c, size, from, h, before, skipping) && Steady(w) && PatientIn(w, file, c)
    requires Resumable(c, Place(from, None, before)) && Cheap(from, h)
    ensures match ReadTurn(w, file, c, size, from, h, skipping)
            case Done(r) => GotOn(from, r)
            case More(h', skipping') => Cheap(from, h')
  {
    var h0 := h.(meter := Asked(w, h.meter, file, h.position));
    if h0.meter.expired {
      assert w.late(Spot(h.meter.tick, file, h.position));
      if !before {
        LastLineOverlong(c, from);
      }
    } else if !h0.meter.Halted() && h.position < |c| {
      FilledGetsOn(w, file, c, size, h0);
    }
  }

  /** With time left at the line's start, the line is read, or found overlong and read into. */
  lemma {:induction false} ReadGetsOn(w: Schedule, file: nat, c: Bytes, size: nat, from: nat, h: Head,
                                      before: bool, skipping: bool)
    requires MidLine(c, size, from, h, before, skipping) && Steady(w) && PatientIn(w, file, c)
    requires Resumable(c, Place(from, None, before)) && Cheap(from, h)
    ensures GotOn(from, ReadFrom(w, file, c, size, from, h, skipping))
    decreases |c| - h.position
  {
    TurnGetsOn(w, file, c, size, from, h, before, skipping);
    TurnSound(w, file, c, size, from, h, before, skipping);
    var t := ReadTurn(w, file, c, size, from, h, skipping);
    if t.More? {
      ReadGetsOn(w, file, c, size, from, t.head, before, t.skipping);
    }
  }

  /** A page that has returned nothing yet has room for any one line. */
  lemma FirstLineFits(q: Query, st: Progress, bytes: Bytes, end: nat)
    requires LossyBounded(q) && st.returnedBytes == 0 && |bytes| <= MAX_LINE_BYTES && !st.full
    ensures !LineTaken(q, st, bytes, end).full && LineTaken(q, st, bytes, end).place.offset == end
  {
    assert |q.lossy(bytes)| <= 3 * |bytes|;
  }

  lemma LineTurnGetsOn(w: Schedule, file: nat, q: Query, limit: Option<nat>, c: Bytes, size: nat, h: Head, st: Progress)
    requires Ready(c, size, h, st) && h.position < |c| && Resumable(c, st.place)
    requires Steady(w) && PatientIn(w, file, c) && LossyBounded(q)
    requires h.buffered == 0 && !h.meter.expired && h.meter.io <= READ_BYTES && st.returnedBytes == 0
    ensures var t := LineTurn(w, file, q, limit, c, size, h, st);
            st.place.offset < t.st.place.offset && (t.Over? ==> !t.shortened)
  {
    var h0 := h.(meter := Asked(w, h.meter, file, h.position));
    assert !w.late(Spot(h.meter.tick, file, h.position));
    ReadGetsOn(w, file, c, size, h.position, h0, st.place.skipping, st.place.skipping);
    ReadMeans(w, file, c, size, h.position, h0, st.place.skipping, st.place.skipping);
    var r := ReadFrom(w, file, c, size, h.position, h0, st.place.skipping);
    if r.outcome.Line? && !r.outcome.omitted {
      FirstLineFits(q, st, r.outcome.bytes, r.head.position);
    }
  }

  // ---- one file

  lemma ScanGetsOn(w: Schedule, file: nat, q: Query, limit: Option<nat>, c: Bytes, size: nat, h: Head, st: Progress)
    requires Ready(c, size, h, st) && h.position < |c| && Resumable(c, st.place)
    requires Steady(w) && PatientIn(w, file, c) && LossyBounded(q)
    requires h.buffered == 0 && !h.meter.expired && h.meter.io <= READ_BYTES && st.returnedBytes == 0
    ensures st.place.offset < ScanFrom(w, file, q, limit, c, size, h, st).st.place.offset
  {
    LineTurnGetsOn(w, file, q, limit, c, size, h, st);
    LineTurnSound(w, file, q, limit, c, size, h, st);
    var t := LineTurn(w, file, q, limit, c, size, h, st);
    if t.On? {
      ScanMeans(w, file, q, limit, c, size, t.head, t.st);
      assert ScanFrom(w, file, q, limit, c, size, h, st) == ScanFrom(w, file, q, limit, c, size, t.head, t.st);
    }
  }

  /** A patient visit is not refused, and reads on at a moment when little has been read. */
  lemma VisitGoesOn(scan: Scanner, w: Schedule, file: nat, content: Bytes, len: nat, place: Place, m: Meter)
    returns (m': Meter)
    requires place.offset <= len <= |content| && m.io <= MAX_SCAN_BYTES && !m.Halted()
    requires Steady(w) && PatientIn(w, file, content[..len]) && Resumable(content[..len], place)
    ensures VisitWith(scan, w, file, content, len, place, m) == scan(m')
    ensures Later(w, m, m') && !m'.expired && m'.io <= m.io + READ_BYTES
  {
    m' := m.(tick := m.tick + 1);
    assert !w.replaced(Spot(m.tick, file, place.offset));
    if ChecksByte(place, len) {
      assert content[..len][place.offset - 1] == content[place.offset - 1];
      FilledGetsOn(w, file, content[..len], |content|, Head(place.offset - 1, 0, m'));
      m' := Filled(w, file, |content|, Head(place.offset - 1, 0, m')).meter;
    }
  }

  lemma VisitGetsOn(w: Schedule, q: Query, limit: Option<nat>, file: nat, content: Bytes, len: nat, st: Progress,
                    m: Meter)
    requires st.place.offset <= len <= |content| && !st.full && Sized(st) && m.io <= MAX_SCAN_BYTES && !m.Halted()
    requires Steady(w) && PatientIn(w, file, content[..len]) && Resumable(content[..len], st.place) && LossyBounded(q)
    ensures var v := VisitOf(w, q, limit, file, content, len, st, m);
            && v.Visited? && st.place.offset <= v.st.place.offset <= len
            && (m.io == 0 && st.returnedBytes == 0 && st.place.offset < len ==> st.place.offset < v.st.place.offset)
  {
    var scan := ScannerOf(w, q, limit, file, content, len, st);
    var m' := VisitGoesOn(scan, w, file, content, len, st.place, m);
    ScanMeans(w, file, q, limit, content[..len], |content|, Head(st.place.offset, 0, m'), st);
    if m.io == 0 && st.returnedBytes == 0 && st.place.offset < len {
      ScanGetsOn(w, file, q, limit, content[..len], |content|, Head(st.place.offset, 0, m'), st);
    }
  }

  // ---- one page

  predicate NotBefore(a: Cursor, b: Cursor) {
    a.file < b.file || (a.file == b.file && a.place.offset <= b.place.offset)
  }

  predicate Further(a: Cursor, b: Cursor) {
    a.file < b.file || (a.file == b.file && a.place.offset < b.place.offset)
  }

  /** Nothing has been read or returned yet, and there is time. */
  predicate FirstTurn(w: Schedule, ps: PageState, m: Meter) {
    m.io == 0 && ps.st.returnedBytes == 0 && !Asked(w, m, ps.cursor.file, ps.cursor.place.offset).Halted()
  }

  lemma VisitedGetsOn(w: Schedule, q: Query, limit: Option<nat>, disk: Disk, files: seq<FileSnapshot>, ps: PageState,
                      m: Meter)
    requires StillThere(files, disk) && ps.cursor.files == files && ps.cursor.file < |files|
    requires ps.st.place == ps.cursor.place && !ps.st.full && Sized(ps.st) && m.io <= MAX_SCAN_BYTES && !m.Halted()
    requires Resumable(Pinned(files, disk)[ps.cursor.file], ps.st.place)
    requires Steady(w) && Patient(w, Pinned(files, disk)) && LossyBounded(q)
    ensures var snapshot := files[ps.cursor.file];
            var v := VisitOf(w, q, limit, ps.cursor.file, disk.bytes[snapshot.identity], snapshot.len, ps.st, m);
            && v.Visited? && NotBefore(ps.cursor, AfterFile(ps, v.st).cursor)
            && (m.io == 0 && ps.st.returnedBytes == 0 ==> Further(ps.cursor, AfterFile(ps, v.st).cursor))
  {
    var pinned, snapshot := Pinned(files, disk), files[ps.cursor.file];
    assert PatientIn(w, ps.cursor.file, pinned[ps.cursor.file]);
    VisitGetsOn(w, q, limit, ps.cursor.file, disk.bytes[snapshot.identity], snapshot.len, ps.st, m);
  }

  lemma TurnGetsOnInPage(w: Schedule, q: Query, limit: Option<nat>, disk: Disk, files: seq<FileSnapshot>, ps: PageState,
                         m: Meter)
    requires StillThere(files, disk) && ps.cursor.files == files && ps.cursor.file < |files|
    requires ps.st.place == ps.cursor.place && !ps.st.full && Sized(ps.st) && m.io <= MAX_SCAN_BYTES
    requires Resumable(Pinned(files, disk)[ps.cursor.file], ps.st.place)
    requires Steady(w) && Patient(w, Pinned(files, disk)) && LossyBounded(q)
    ensures var t := TurnOfPage(w, q, limit, disk, ps, m);
            && !t.FailsPage? && NotBefore(ps.cursor, t.ps.cursor)
            && (FirstTurn(w, ps, m) ==> Further(ps.cursor, t.ps.cursor))
  {
    var m0 := Asked(w, m, ps.cursor.file, ps.cursor.place.offset);
    if !m0.Halted() {
      VisitedGetsOn(w, q, limit, disk, files, ps, m0);
    }
  }

  /** No longer before a given cursor. */
  ghost function From(base: Cursor): Also {
    (ps: PageState) => NotBefore(base, ps.cursor)
  }

  lemma TurnStaysFrom(w: Schedule, q: Query, limit: Option<nat>, disk: Disk, files: seq<FileSnapshot>, base: Cursor,
                      ps: PageState, m: Meter)
    requires StillThere(files, disk) && ps.cursor.files == files && ps.cursor.file < |files|
    requires ps.st.place == ps.cursor.place && !ps.st.full && Sized(ps.st) && m.io <= MAX_SCAN_BYTES
    requires Resumable(Pinned(files, disk)[ps.cursor.file], ps.st.place)
    requires Steady(w) && Patient(w, Pinned(files, disk)) && LossyBounded(q)
    requires From(base)(ps)
    ensures AlsoKept(From(base), false, TurnOfPage(w, q, limit, disk, ps, m))
  {
    TurnGetsOnInPage(w, q, limit, disk, files, ps, m);
  }

  lemma TurnsGetOn(w: Schedule, q: Query, limit: Option<nat>, disk: Disk, first: Cursor, base: Cursor)
    requires StillThere(first.files, disk) && WellPlaced(Pinned(first.files, disk), first)
    requires Steady(w) && Patient(w, Pinned(first.files, disk)) && LossyBounded(q)
    ensures TurnsAlsoKeep(w, q, limit, disk, first, From(base), false)
  {
    forall ps: PageState, m: Meter | TurnDue(w, q, limit, disk, first, ps, m) && From(base)(ps)
      ensures AlsoKept(From(base), false, TurnOfPage(w, q, limit, disk, ps, m))
    {
      StandsWell(w, q, limit, Pinned(first.files, disk), first, ps, m);
      TurnStaysFrom(w, q, limit, disk, first.files, base, ps, m);
    }
  }

  /** After a first turn that got on, the page stays beyond its first cursor. */
  lemma RestGetsOn(w: Schedule, q: Query, limit: Option<nat>, disk: Disk, first: Cursor, ps: PageState, m: Meter)
    requires StillThere(first.files, disk) && WellPlaced(Pinned(first.files, disk), first)
    requires Steady(w) && Patient(w, Pinned(first.files, disk)) && LossyBounded(q)
    requires PageSound(w, q, limit, Pinned(first.files, disk), first, ps, m, true)
    requires PageSound(w, q, limit, Pinned(first.files, disk), first, ps, m, false)
    ensures var end := FillWith(PageTurnerOf(w, q, limit, disk), ps, m);
            end.PageEnded? && NotBefore(ps.cursor, end.ps.cursor)
  {
    TurnsGetOn(w, q, limit, disk, first, ps.cursor);
    var pinned, also := Pinned(first.files, disk), From(ps.cursor);
    var keeps: PageProperty := (ps, m, go) => SoundAlso(w, q, limit, pinned, first, also, ps, m, go);
    FilledAlso(w, q, limit, disk, first, also, false, keeps, ps, m);
  }

  lemma FirstTurnGetsOn(w: Schedule, q: Query, limit: Option<nat>, disk: Disk, first: Cursor) returns (t: PageTurn)
    requires StillThere(first.files, disk) && WellPlaced(Pinned(first.files, disk), first) && first.file < |first.files|
    requires Steady(w) && Patient(w, Pinned(first.files, disk)) && LossyBounded(q)
    requires !w.late(Spot(0, first.file, first.place.offset))
    requires PageSound(w, q, limit, Pinned(first.files, disk), first, StartOfPage(first), NEW_METER, true)
    ensures t == PageTurnerOf(w, q, limit, disk)(StartOfPage(first), NEW_METER)
    ensures !t.FailsPage? && Further(first, t.ps.cursor)
    ensures PageTurnOk(w, q, limit, Pinned(first.files, disk), first, StartOfPage(first), t)
  {
    var ps := StartOfPage(first);
    PageTurnSound(w, q, limit, disk, first, ps, NEW_METER);
    StandsWell(w, q, limit, Pinned(first.files, disk), first, ps, NEW_METER);
    TurnGetsOnInPage(w, q, limit, disk, first.files, ps, NEW_METER);
    t := TurnOfPage(w, q, limit, disk, ps, NEW_METER);
  }

  /** A page on steady files that is not late from the start moves on, whatever its limit. */
  lemma PageGetsOn(node: string, q: Query, limit: Option<nat>, w: Schedule, first: Cursor, disk: Disk)
    requires PassesChecks(node, q, first, disk) && first.file < |first.files|
    requires Steady(w) && Patient(w, Pinned(first.files, disk)) && LossyBounded(q)
    requires !w.late(Spot(0, first.file, first.place.offset))
    ensures var end := PageRun(node, q, limit, w, first, disk);
            end.PageEnded? && Further(first, end.ps.cursor)
  {
    StartSound(w, q, limit, Pinned(first.files, disk), first);
    var t := FirstTurnGetsOn(w, q, limit, disk, first);
    if t.NextFile? {
      RestGetsOn(w, q, limit, disk, first, t.ps, t.meter);
    }
  }

  // ---- whole searches

  /** One more than the bytes of each file from `i` on. */
  function TotalFrom(files: seq<FileSnapshot>, i: nat): nat
    decreases |files| - i
  {
    if i >= |files| then 0 else files[i].len + 1 + TotalFrom(files, i + 1)
  }

  /** How far a cursor is from the end of the search. */
  function Distance(cursor: Cursor): nat
    requires cursor.file < |cursor.files| ==> cursor.place.offset <= cursor.files[cursor.file].len
  {
    if cursor.file >= |cursor.files| then 0 else TotalFrom(cursor.files, cursor.file) - cursor.place.offset
  }

  lemma {:induction false} TotalShrinks(files: seq<FileSnapshot>, i: nat, j: nat)
    requires i <= j <= |files|
    ensures TotalFrom(files, j) + (if i < j then files[i].len + 1 else 0) <= TotalFrom(files, i)
    decreases j - i
  {
    if i < j {
      TotalShrinks(files, i + 1, j);
    }
  }

  lemma FurtherIsNearer(a: Cursor, b: Cursor)
    requires a.files == b.files && a.file < |a.files| && b.file <= |b.files| && Further(a, b)
    requires a.place.offset <= a.files[a.file].len
    requires b.file < |b.files| ==> b.place.offset <= b.files[b.file].len
    ensures Distance(b) < Distance(a)
  {
    TotalShrinks(a.files, a.file, b.file);
  }

  /** A page nobody disturbs: no deadline strikes, no file is gone, replaced or cut. */
  ghost predicate Undisturbed(page: PageRecord) {
    Untimed(page.world) && Steady(page.world) && StillThere(page.first.files, page.disk)
  }

  lemma UndisturbedPage(node: string, q: Query, pinned: seq<Bytes>, page: PageRecord)
    requires IsPage(node, q, page) && Undisturbed(page) && LossyBounded(q)
    requires SameRequest(node, q, page.first) && WellPlaced(pinned, page.first)
    requires Pinned(page.first.files, page.disk) == pinned
    ensures page.end.PageEnded? && SameRequest(node, q, page.Next()) && WellPlaced(pinned, page.Next())
    ensures page.Next().files == page.first.files
    ensures if page.first.file < |pinned| then Distance(page.Next()) < Distance(page.first)
            else page.Next().file == page.first.file
  {
    if page.first.file < |pinned| {
      PageGetsOn(node, q, page.limit, page.world, page.first, page.disk);
      OnePage(node, q, pinned, page);
      FurtherIsNearer(page.first, page.Next());
    }
  }

  /** A search whose pages are not disturbed finishes within a number of pages given by the pinned lengths. */
  lemma {:induction false} SearchFinishes(node: string, q: Query, pinned: seq<Bytes>, pages: seq<PageRecord>,
                                          cursor: Cursor, last: Cursor)
    requires Run(node, q, pinned, pages, cursor, last) && LossyBounded(q)
    requires SameRequest(node, q, cursor) && WellPlaced(pinned, cursor)
    requires forall k | 0 <= k < |pages| :: Undisturbed(pages[k])
    requires |pages| >= Distance(cursor)
    ensures last.file == |pinned|
    decreases |pages|
  {
    if pages != [] {
      var page := pages[0];
      assert Undisturbed(page);
      UndisturbedPage(node, q, pinned, page);
      SearchFinishes(node, q, pinned, pages[1..], page.Next(), last);
    }
  }
}
