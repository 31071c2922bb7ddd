/** Whole searches: any chain of cursor-linked pages amounts to one unbroken scan. */
module SearchRun {
  import opened Options
  import opened Lines
  import opened SearchScan
  import opened SearchReading
  import opened SearchPage
  import opened LogSearch

  /** One request of a chain: where it starts, its own limit, what happens meanwhile, and how its page ends. */
  datatype PageRecord = PageRecord(
    first: Cursor, limit: Option<nat>, world: Schedule, disk: Disk, directoryGaps: set<Gap>, end: PageEnd)
  {
    /** What the client gets. */
    function Reply(): Outcome {
      Answer(directoryGaps, end)
    }

    /** The cursor of the next request: a failed page is asked for again. */
    function Next(): Cursor {
      if end.PageFailed? then first else end.ps.cursor
    }
  }

  ghost predicate IsPage(node: string, q: Query, page: PageRecord) {
    page.end == PageRun(node, q, page.limit, page.world, page.first, page.disk)
  }

  /**
   * The pages lead from `cursor` to `last`: each is what the search does under its own limit and schedule, and starts
   * where its predecessor ended. The files may have grown between pages, but their pinned bytes are the same.
   */
  ghost predicate Run(node: string, q: Query, pinned: seq<Bytes>, pages: seq<PageRecord>, cursor: Cursor, last: Cursor)
  {
    if pages == [] then cursor == last
    else
      var page := pages[0];
      && page.first == cursor && IsPage(node, q, page)
      && (StillThere(cursor.files, page.disk) ==> Pinned(cursor.files, page.disk) == pinned)
      && Run(node, q, pinned, pages[1..], page.Next(), last)
  }

  /** The lines of all pages, one page after the other. */
  ghost function Texts(pages: seq<PageRecord>): seq<Bytes> {
    if pages == [] then []
    else (if pages[0].Reply().Page? then pages[0].Reply().found.texts else []) + Texts(pages[1..])
  }

  /** The gaps that the pages found in the files themselves. */
  ghost function Gaps(pages: seq<PageRecord>): set<Gap> {
    if pages == [] then {}
    else (if pages[0].end.PageEnded? then pages[0].end.ps.st.found.gaps else {}) + Gaps(pages[1..])
  }

  ghost function Covered(pages: seq<PageRecord>): seq<Coverage> {
    if pages == [] then []
    else (if pages[0].Reply().Page? then pages[0].Reply().files else []) + Covered(pages[1..])
  }

  ghost predicate Lost(pages: seq<PageRecord>) {
    pages != [] && ((pages[0].end.PageEnded? && pages[0].end.ps.lost) || Lost(pages[1..]))
  }

  // ---- pages compose

  lemma OnePage(node: string, q: Query, pinned: seq<Bytes>, page: PageRecord)
    requires IsPage(node, q, page) && page.end.PageEnded?
    requires SameRequest(node, q, page.first) && WellPlaced(pinned, page.first)
    requires StillThere(page.first.files, page.disk) ==> Pinned(page.first.files, page.disk) == pinned
    ensures var ps := page.end.ps;
            Advances(q, pinned, page.first, ps.st.found, ps.lost, ps.files, ps.cursor)
    ensures SameRequest(node, q, page.end.ps.cursor)
  {
    PageMet(node, q, page.limit, page.world, page.first, page.disk);
  }

  lemma JoinPages(a: Found, lostA: bool, b: Found, lostB: bool, left: Found)
    ensures Join(LostGap(lostA), Join(a, Join(LostGap(lostB), Join(b, left))))
            == Join(LostGap(lostA || lostB), Join(Join(a, b), left))
  {
    LostGapAside(lostB, a, Join(b, left));
    LostGapOnce(lostA, lostB, Join(a, Join(b, left)));
    JoinAssociates(a, b, left);
  }

  /** Advances compose. */
  lemma AdvancesTransitive(q: Query, pinned: seq<Bytes>, a: Cursor, b: Cursor, c: Cursor,
                           found: Found, lost: bool, cov: seq<Coverage>,
                           found': Found, lost': bool, cov': seq<Coverage>)
    requires Advances(q, pinned, a, found, lost, cov, b)
    requires Advances(q, pinned, b, found', lost', cov', c)
    ensures Advances(q, pinned, a, Join(found, found'), lost || lost', cov + cov', c)
  {
    TilesAppend(cov, cov', a.files, a.file, a.place.offset, b.file, b.place.offset, c.file, c.place.offset);
    JoinPages(found, lost, found', lost', Left(q, pinned, c));
  }

  /** What the first page adds to the later ones. */
  lemma PagesBegin(pages: seq<PageRecord>)
    requires pages != []
    ensures var end, later := pages[0].end, pages[1..];
            var all, rest := Found(Texts(pages), Gaps(pages)), Found(Texts(later), Gaps(later));
            if end.PageEnded?
            then && all == Join(end.ps.st.found, rest) && Lost(pages) == (end.ps.lost || Lost(later))
                 && Covered(pages) == end.ps.files + Covered(later)
            else all == rest && Lost(pages) == Lost(later) && Covered(pages) == Covered(later)
  {
    var page := pages[0];
    if page.end.PageEnded? {
      assert page.Reply().found.texts == page.end.ps.st.found.texts;
    }
  }

  /** Any chain of pages, failed and repeated ones included, moves the search on exactly. */
  lemma {:induction false} RunAdvances(node: string, q: Query, pinned: seq<Bytes>, pages: seq<PageRecord>,
                                       cursor: Cursor, last: Cursor)
    requires Run(node, q, pinned, pages, cursor, last)
    requires SameRequest(node, q, cursor) && WellPlaced(pinned, cursor)
    ensures Advances(q, pinned, cursor, Found(Texts(pages), Gaps(pages)), Lost(pages), Covered(pages), last)
    decreases |pages|
  {
    if pages == [] {
      StandsStill(q, pinned, cursor);
    } else {
      var page, later := pages[0], pages[1..];
      PagesBegin(pages);
      if page.end.PageEnded? {
        OnePage(node, q, pinned, page);
        var ps := page.end.ps;
        RunAdvances(node, q, pinned, later, ps.cursor, last);
        AdvancesTransitive(q, pinned, cursor, ps.cursor, last, ps.st.found, ps.lost, ps.files,
                           Found(Texts(later), Gaps(later)), Lost(later), Covered(later));
      } else {
        RunAdvances(node, q, pinned, later, cursor, last);
      }
    }
  }

  lemma FreshCursorSound(node: string, q: Query, disk: Disk)
    ensures var cursor := FreshCursor(node, q, disk);
            && StillThere(cursor.files, disk) && SameRequest(node, q, cursor) && Proper(cursor)
            && WellPlaced(Pinned(cursor.files, disk), cursor)
            && Left(q, Pinned(cursor.files, disk), cursor) == FullScan(q, Pinned(cursor.files, disk))
            && forall i | 0 <= i < |disk.candidates| ::
                 Pinned(cursor.files, disk)[i] == disk.bytes[disk.candidates[i]]
  {
    var cursor := FreshCursor(node, q, disk);
    var files := cursor.files;
    forall i | 0 <= i < |files|
      ensures files[i].identity in disk.candidates && |disk.bytes[files[i].identity]| == files[i].len
    {
      assert files[i] == FileSnapshot(disk.candidates[i], |disk.bytes[disk.candidates[i]]|);
    }
    var pinned := Pinned(files, disk);
    LeftAtFileStart(q, pinned, cursor);
    assert pinned[0..] == pinned;
  }

  // ---- searches

  /** The bytes that a search starting now pins. */
  ghost function PinnedNow(disk: Disk): (pinned: seq<Bytes>)
    ensures |pinned| == |disk.candidates|
    ensures forall i | 0 <= i < |pinned| :: pinned[i] == disk.bytes[disk.candidates[i]]
  {
    seq(|disk.candidates|, i requires 0 <= i < |disk.candidates| => disk.bytes[disk.candidates[i]])
  }

  lemma PinnedIsNow(node: string, q: Query, disk: Disk)
    ensures var start := FreshCursor(node, q, disk);
            && WellPlaced(PinnedNow(disk), start) && Left(q, PinnedNow(disk), start) == FullScan(q, PinnedNow(disk))
            && StillThere(start.files, disk) && Pinned(start.files, disk) == PinnedNow(disk)
            && SameRequest(node, q, start) && Proper(start)
  {
    FreshCursorSound(node, q, disk);
    assert Pinned(Pin(disk), disk) == PinnedNow(disk);
  }

  /** A chain of pages that starts a search on the disk as it is, up to `last`. */
  ghost predicate Chain(node: string, q: Query, disk: Disk, pages: seq<PageRecord>, last: Cursor) {
    Run(node, q, PinnedNow(disk), pages, FreshCursor(node, q, disk), last)
  }

  /** A finished search: the last page handed out no cursor. */
  ghost predicate Finished(node: string, q: Query, disk: Disk, pages: seq<PageRecord>, last: Cursor) {
    Chain(node, q, disk, pages, last) && last.file == |disk.candidates|
  }

  lemma {:induction false} ChainAdvances(node: string, q: Query, disk: Disk, pages: seq<PageRecord>, last: Cursor)
    requires Chain(node, q, disk, pages, last)
    ensures Advances(q, PinnedNow(disk), FreshCursor(node, q, disk),
                     Found(Texts(pages), Gaps(pages)), Lost(pages), Covered(pages), last)
  {
    PinnedIsNow(node, q, disk);
    RunAdvances(node, q, PinnedNow(disk), pages, FreshCursor(node, q, disk), last);
  }

  /**
   * Every cursor that a chain of pages reaches passes the checks of a resumed search, wherever the pinned bytes are
   * still the same, whatever else has been appended.
   */
  lemma {:induction false} EveryCursorResumes(node: string, q: Query, disk: Disk, pages: seq<PageRecord>, last: Cursor,
                                              disk': Disk)
    requires Chain(node, q, disk, pages, last)
    requires StillThere(Pin(disk), disk') && Pinned(Pin(disk), disk') == PinnedNow(disk)
    ensures PassesChecks(node, q, last, disk')
  {
    ChainAdvances(node, q, disk, pages, last);
    PinnedIsNow(node, q, disk);
  }

  /** With nothing left, everything has been found. */
  lemma NothingLeft(q: Query, pinned: seq<Bytes>, first: Cursor, found: Found, lost: bool, cov: seq<Coverage>,
                    last: Cursor)
    requires Advances(q, pinned, first, found, lost, cov, last) && last.file == |pinned|
    ensures Left(q, pinned, first).texts == found.texts
    ensures Left(q, pinned, first).gaps == found.gaps + (if lost then {LineTooLong} else {})
    ensures lost ==> exists i | 0 <= i < |pinned| :: EndsInOverlongLine(pinned[i])
  {
    JoinNothing(found);
    assert LostGap(lost).texts + found.texts == found.texts;
  }

  lemma {:induction false} FinishedFound(node: string, q: Query, disk: Disk, pages: seq<PageRecord>, last: Cursor)
    requires Finished(node, q, disk, pages, last)
    ensures var all := FullScan(q, PinnedNow(disk));
            && all.texts == Texts(pages) && all.gaps == Gaps(pages) + (if Lost(pages) then {LineTooLong} else {})
            && (Lost(pages) ==> exists i | 0 <= i < |disk.candidates| :: EndsInOverlongLine(PinnedNow(disk)[i]))
  {
    ChainAdvances(node, q, disk, pages, last);
    PinnedIsNow(node, q, disk);
    NothingLeft(q, PinnedNow(disk), FreshCursor(node, q, disk), Found(Texts(pages), Gaps(pages)), Lost(pages),
                Covered(pages), last);
  }

  /**
   * Whatever the limits, the chunk sizes and the stopping points of the pages: together they return exactly the
   * lines of one unbroken scan of the files as they were pinned.
   */
  lemma {:induction false} PagedEqualsUnpaged(node: string, q: Query, disk: Disk, pages: seq<PageRecord>, last: Cursor)
    requires Finished(node, q, disk, pages, last)
    ensures Texts(pages) == FullScan(q, PinnedNow(disk)).texts
  {
    FinishedFound(node, q, disk, pages, last);
  }

  /** The gaps are those of the unbroken scan but for the one that a page may pass by. */
  lemma {:induction false} PagedGaps(node: string, q: Query, disk: Disk, pages: seq<PageRecord>, last: Cursor)
    requires Finished(node, q, disk, pages, last)
    ensures FullScan(q, PinnedNow(disk)).gaps == Gaps(pages) + (if Lost(pages) then {LineTooLong} else {})
    ensures Lost(pages) ==> exists i | 0 <= i < |disk.candidates| :: EndsInOverlongLine(PinnedNow(disk)[i])
  {
    FinishedFound(node, q, disk, pages, last);
  }

  /** The coverage reported over a finished search contains every byte of every pinned file exactly once. */
  lemma {:induction false} CoverageTiles(node: string, q: Query, disk: Disk, pages: seq<PageRecord>, last: Cursor,
                                         i: nat, b: nat)
    requires Finished(node, q, disk, pages, last)
    requires i < |disk.candidates| && b < |disk.bytes[disk.candidates[i]]|
    ensures TimesCovered(Covered(pages), Pin(disk), 0, i, b) == 1
  {
    ChainAdvances(node, q, disk, pages, last);
    TilesCoverOnce(Covered(pages), Pin(disk), 0, 0, last.file, last.place.offset, i, b);
  }

  // ---- a gap is lost only by a stop

  /** A page that neither ran out of time nor of its byte budget. */
  ghost predicate Unhalted(page: PageRecord) {
    Untimed(page.world) && (page.end.PageEnded? ==> page.end.meter.io < MAX_SCAN_BYTES)
  }

  lemma {:induction false} UnhaltedLosesNothing(node: string, q: Query, pinned: seq<Bytes>, pages: seq<PageRecord>,
                                                cursor: Cursor, last: Cursor)
    requires Run(node, q, pinned, pages, cursor, last) && Proper(cursor)
    requires forall k | 0 <= k < |pages| :: Unhalted(pages[k])
    ensures !Lost(pages) && Proper(last)
    decreases |pages|
  {
    if pages != [] {
      var page := pages[0];
      PageMet(node, q, page.limit, page.world, page.first, page.disk);
      assert Unhalted(page) && Proper(page.Next());
      UnhaltedLosesNothing(node, q, pinned, pages[1..], page.Next(), last);
    }
  }

  /** Pages that are never halted report exactly the gaps of the unbroken scan. */
  lemma {:induction false} UnhaltedGaps(node: string, q: Query, disk: Disk, pages: seq<PageRecord>, last: Cursor)
    requires Finished(node, q, disk, pages, last)
    requires forall k | 0 <= k < |pages| :: Unhalted(pages[k])
    ensures Gaps(pages) == FullScan(q, PinnedNow(disk)).gaps
  {
    PagedGaps(node, q, disk, pages, last);
    PinnedIsNow(node, q, disk);
    UnhaltedLosesNothing(node, q, PinnedNow(disk), pages, FreshCursor(node, q, disk), last);
  }
}
