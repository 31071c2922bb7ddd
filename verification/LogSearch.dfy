/** Cursors and pages: one request of a search. */
module LogSearch {
  import opened Options
  import opened Lines
  import opened SearchScan
  import opened SearchReading
  import opened SearchPage

  const MAX_FILES_PER_PAGE: nat := 3

  datatype FileSnapshot = FileSnapshot(identity: string, len: nat)

  /** The cursor handed to the client: the request it belongs to, the pinned files, and the place reached. */
  datatype Cursor = Cursor(
    node: string, start: int, end: int, ids: seq<Bytes>,
    files: seq<FileSnapshot>, file: nat, place: Place)

  /** The candidate files as one page finds them: their identities in order, and the bytes behind each. */
  datatype DiskView = DiskView(candidates: seq<string>, bytes: map<string, Bytes>)

  type Disk = d: DiskView | forall id | id in d.candidates :: id in d.bytes witness DiskView([], map[])

  datatype Coverage = Coverage(identity: string, capturedLength: nat, from: nat, next: nat)

  datatype SearchError = Changed | IoFailed

  datatype Outcome =
    | Failed(error: SearchError)
    | Page(found: Found, next: Option<Cursor>, complete: bool, scannedBytes: nat, files: seq<Coverage>)

  function Pin(disk: Disk): seq<FileSnapshot> {
    seq(|disk.candidates|, i requires 0 <= i < |disk.candidates| =>
      FileSnapshot(disk.candidates[i], |disk.bytes[disk.candidates[i]]|))
  }

  function FreshCursor(node: string, q: Query, disk: Disk): Cursor {
    Cursor(node, q.start, q.end, q.ids, Pin(disk), 0, FILE_START)
  }

  /** The client's cursor, or a new one. */
  function FirstCursor(node: string, q: Query, given: Option<Cursor>, disk: Disk): Cursor {
    if given.Some? then given.value else FreshCursor(node, q, disk)
  }

  predicate SameRequest(node: string, q: Query, cursor: Cursor) {
    cursor.node == node && cursor.start == q.start && cursor.end == q.end && cursor.ids == q.ids
  }

  /** The pinned files are the ones still there, none shorter than when it was pinned. */
  predicate StillThere(files: seq<FileSnapshot>, disk: Disk) {
    && |files| == |disk.candidates|
    && forall i | 0 <= i < |files| ::
         files[i].identity in disk.candidates && |disk.bytes[files[i].identity]| >= files[i].len
  }

  /** The pinned bytes: what each file held, up to its pinned length. */
  ghost function Pinned(files: seq<FileSnapshot>, disk: Disk): (pinned: seq<Bytes>)
    requires StillThere(files, disk)
    ensures |pinned| == |files|
    ensures forall i | 0 <= i < |files| :: pinned[i] == disk.bytes[files[i].identity][..files[i].len]
  {
    seq(|files|, i requires 0 <= i < |files| => disk.bytes[files[i].identity][..files[i].len])
  }

  /** What the checks on resumption demand of a cursor, and no forged skipping. */
  ghost predicate WellPlaced(pinned: seq<Bytes>, cursor: Cursor) {
    && |cursor.files| == |pinned|
    && (forall i | 0 <= i < |pinned| :: |pinned[i]| == cursor.files[i].len)
    && cursor.file <= |pinned|
    && (cursor.file < |pinned| ==> Resumable(pinned[cursor.file], cursor.place))
  }

  /** What a single unbroken scan would still find from the cursor on. */
  ghost function Left(q: Query, pinned: seq<Bytes>, cursor: Cursor): Found
    requires WellPlaced(pinned, cursor)
  {
    if cursor.file == |pinned| then NOTHING
    else Join(Rest(q, pinned[cursor.file], cursor.place), FullScan(q, pinned[cursor.file + 1..]))
  }

  // ---- coverage

  /** The intervals, in order, lead from byte `o` of file `f` to byte `o'` of file `f'` without hole or overlap. */
  ghost predicate Tiles(cov: seq<Coverage>, files: seq<FileSnapshot>, f: nat, o: nat, f': nat, o': nat) {
    if cov == [] then f == f' && o == o'
    else
      && f < |files|
      && cov[0].identity == files[f].identity && cov[0].capturedLength == files[f].len
      && o == cov[0].from <= cov[0].next <= files[f].len
      && if cov[0].next == files[f].len then Tiles(cov[1..], files, f + 1, 0, f', o')
         else Tiles(cov[1..], files, f, cov[0].next, f', o')
  }

  lemma {:induction false} TilesAppend(a: seq<Coverage>, b: seq<Coverage>, files: seq<FileSnapshot>,
                                       f: nat, o: nat, f': nat, o': nat, f'': nat, o'': nat)
    requires Tiles(a, files, f, o, f', o') && Tiles(b, files, f', o', f'', o'')
    ensures Tiles(a + b, files, f, o, f'', o'')
    decreases |a|
  {
    if a == [] {
      assert a + b == b;
    } else {
      assert (a + b)[1..] == a[1..] + b;
      if a[0].next == files[f].len {
        TilesAppend(a[1..], b, files, f + 1, 0, f', o', f'', o'');
      } else {
        TilesAppend(a[1..], b, files, f, a[0].next, f', o', f'', o'');
      }
    }
  }

  /** How many of the intervals contain byte `b` of file `i`, when the first one belongs to file `f`. */
  ghost function TimesCovered(cov: seq<Coverage>, files: seq<FileSnapshot>, f: nat, i: nat, b: nat): nat {
    if cov == [] || f >= |files| then 0
    else (if f == i && cov[0].from <= b < cov[0].next then 1 else 0)
         + TimesCovered(cov[1..], files, if cov[0].next == files[f].len then f + 1 else f, i, b)
  }

  /** Tiling means what it should: every byte between the two cursors is covered once, no other byte at all. */
  lemma {:induction false} TilesCoverOnce(cov: seq<Coverage>, files: seq<FileSnapshot>,
                                          f: nat, o: nat, f': nat, o': nat, i: nat, b: nat)
    requires Tiles(cov, files, f, o, f', o') && i < |files| && b < files[i].len
    ensures TimesCovered(cov, files, f, i, b)
            == if (f < i || (f == i && o <= b)) && (i < f' || (i == f' && b < o')) then 1 else 0
    ensures f <= f' && (f == f' ==> o <= o')
    decreases |cov|
  {
    if cov != [] {
      if cov[0].next == files[f].len {
        TilesCoverOnce(cov[1..], files, f + 1, 0, f', o', i, b);
      } else {
        TilesCoverOnce(cov[1..], files, f, cov[0].next, f', o', i, b);
      }
    }
  }

  // ---- one page

  /** The one gap that can go unreported: a stop exactly at the end of an overlong last line without newline. */
  function LostGap(lost: bool): Found {
    if lost then OMITTED else NOTHING
  }

  ghost predicate EndsInOverlongLine(c: Bytes) {
    InsideOverlongLine(c, |c|)
  }

  /** Two cursors of one search, apart from their place. */
  predicate SameSearch(a: Cursor, b: Cursor) {
    a.node == b.node && a.start == b.start && a.end == b.end && a.ids == b.ids && a.files == b.files
  }

  /** What a page, or part of one, does to the search it belongs to. */
  ghost predicate Advances(q: Query, pinned: seq<Bytes>, before: Cursor, gathered: Found, lost: bool,
                           cov: seq<Coverage>, after: Cursor)
  {
    && WellPlaced(pinned, before) && WellPlaced(pinned, after) && SameSearch(before, after)
    && Join(LostGap(lost), Join(gathered, Left(q, pinned, after))) == Left(q, pinned, before)
    && Tiles(cov, before.files, before.file, before.place.offset, after.file, after.place.offset)
    && (lost ==> exists i | 0 <= i < |pinned| :: EndsInOverlongLine(pinned[i]))
  }

  /** The cursor after a file was read up to `place`: at the end of the file, on to the next one. */
  function NextCursor(cursor: Cursor, place: Place, len: nat): Cursor {
    if place.offset >= len then cursor.(file := cursor.file + 1, place := FILE_START) else cursor.(place := place)
  }

  lemma LeftAtFileStart(q: Query, pinned: seq<Bytes>, cursor: Cursor)
    requires WellPlaced(pinned, cursor) && cursor.place == FILE_START
    ensures Left(q, pinned, cursor) == FullScan(q, pinned[cursor.file..])
  {
    if cursor.file < |pinned| {
      assert pinned[cursor.file..][1..] == pinned[cursor.file + 1..];
      JoinNothing(Scan(q, pinned[cursor.file], 0, None));
    }
  }

  /** A gap noted earlier or later is the same gap. */
  lemma LostGapAside(lost: bool, a: Found, b: Found)
    ensures Join(a, Join(LostGap(lost), b)) == Join(LostGap(lost), Join(a, b))
  {
  }

  lemma LostGapOnce(lost: bool, again: bool, f: Found)
    ensures Join(LostGap(lost), Join(LostGap(again), f)) == Join(LostGap(lost || again), f)
  {
  }

  /** Within a file: what was gathered before, and is left from here on, stays what it was. */
  lemma FileConserves(q: Query, pinned: seq<Bytes>, cursor: Cursor, before: Progress, st: Progress)
    requires WellPlaced(pinned, cursor) && cursor.file < |pinned| && before.place == cursor.place
    requires Conserves(q, pinned[cursor.file], before, st)
    ensures var len := cursor.files[cursor.file].len;
            var after := NextCursor(cursor, st.place, len);
            && WellPlaced(pinned, after)
            && Join(before.found, Left(q, pinned, cursor))
               == Join(LostGap(st.place.offset == len && st.place.skipping), Join(st.found, Left(q, pinned, after)))
  {
    var c := pinned[cursor.file];
    LeftAfterFile(q, pinned, cursor, st.place);
    JoinPassing(before.found, Rest(q, c, cursor.place), st.found, Rest(q, c, st.place),
                FullScan(q, pinned[cursor.file + 1..]), st.place.offset == |c| && st.place.skipping,
                Left(q, pinned, NextCursor(cursor, st.place, |c|)));
  }

  lemma JoinPassing(a: Found, b: Found, a': Found, b': Found, tail: Found, lost: bool, left: Found)
    requires Join(a', b') == Join(a, b) && Join(b', tail) == Join(LostGap(lost), left)
    ensures Join(a, Join(b, tail)) == Join(LostGap(lost), Join(a', left))
  {
    JoinAssociates(a, b, tail);
    JoinAssociates(a', b', tail);
    LostGapAside(lost, a', left);
  }

  /** What is left of this file and the later ones is left from the next cursor, but for the gap that is passed by. */
  lemma LeftAfterFile(q: Query, pinned: seq<Bytes>, cursor: Cursor, place: Place)
    requires WellPlaced(pinned, cursor) && cursor.file < |pinned| && Resumable(pinned[cursor.file], place)
    ensures var c := pinned[cursor.file];
            var after := NextCursor(cursor, place, |c|);
            && WellPlaced(pinned, after)
            && Join(Rest(q, c, place), FullScan(q, pinned[cursor.file + 1..]))
               == Join(LostGap(place.offset == |c| && place.skipping), Left(q, pinned, after))
  {
    var c := pinned[cursor.file];
    var after := NextCursor(cursor, place, |c|);
    if place.offset == |c| {
      LeftAtFileStart(q, pinned, after);
      JoinNothing(LostGap(place.skipping));
      assert Rest(q, c, place) == LostGap(place.skipping);
    } else {
      JoinNothing(Left(q, pinned, after));
    }
  }

  lemma FileAdvances(q: Query, pinned: seq<Bytes>, first: Cursor, lost: bool, cov: seq<Coverage>,
                     cursor: Cursor, before: Progress, st: Progress)
    requires Advances(q, pinned, first, before.found, lost, cov, cursor)
    requires cursor.file < |pinned| && before.place == cursor.place
    requires Conserves(q, pinned[cursor.file], before, st)
    ensures var snapshot := cursor.files[cursor.file];
            Advances(q, pinned, first, st.found, lost || (st.place.offset == snapshot.len && st.place.skipping),
                     cov + [Coverage(snapshot.identity, snapshot.len, cursor.place.offset, st.place.offset)],
                     NextCursor(cursor, st.place, snapshot.len))
  {
    var snapshot := cursor.files[cursor.file];
    var after := NextCursor(cursor, st.place, snapshot.len);
    var again := st.place.offset == snapshot.len && st.place.skipping;
    FileConserves(q, pinned, cursor, before, st);
    LostGapOnce(lost, again, Join(st.found, Left(q, pinned, after)));
    var item := Coverage(snapshot.identity, snapshot.len, cursor.place.offset, st.place.offset);
    assert Tiles([item], first.files, cursor.file, cursor.place.offset, after.file, after.place.offset) by {
      assert [item][1..] == [];
    }
    TilesAppend(cov, [item], first.files, first.file, first.place.offset, cursor.file, cursor.place.offset,
                after.file, after.place.offset);
    if again {
      assert EndsInOverlongLine(pinned[cursor.file]);
    }
  }

  // ---- one file of a page

  /** A file refused, or read on from where the cursor stood. */
  datatype Visit = Refused(error: SearchError, meter: Meter) | Visited(st: Progress, meter: Meter)

  function AfterScan(r: FileRead): Visit {
    if r.shortened then Refused(Changed, r.head.meter) else Visited(r.st, r.head.meter)
  }

  /** Reading on from where the page stands. */
  ghost function ScannedOn(w: Schedule, q: Query, limit: Option<nat>, file: nat, content: Bytes, len: nat,
                           st: Progress, m: Meter): Visit
    requires len <= |content|
  {
    AfterScan(ScanFrom(w, file, q, limit, content[..len], |content|, Head(st.place.offset, 0, m), st))
  }

  /** The same at any moment of the page. */
  type Scanner = Meter -> Visit

  ghost function ScannerOf(w: Schedule, q: Query, limit: Option<nat>, file: nat, content: Bytes, len: nat,
                           st: Progress): Scanner
    requires len <= |content|
  {
    (m: Meter) => ScannedOn(w, q, limit, file, content, len, st, m)
  }

  /** The byte before the cursor is read, and must be a newline, when the cursor stands inside the file. */
  predicate ChecksByte(place: Place, len: nat) {
    0 < place.offset < len && !place.skipping
  }

  function VisitWith(scan: Scanner, w: Schedule, file: nat, content: Bytes, len: nat, place: Place, m: Meter): Visit
    requires place.offset <= len <= |content|
  {
    var m0 := m.(tick := m.tick + 1);
    if w.replaced(Spot(m.tick, file, place.offset)) then Refused(Changed, m0)
    else if ChecksByte(place, len) then
      var h := Filled(w, file, |content|, Head(place.offset - 1, 0, m0));
      if h.buffered == 0 then Refused(IoFailed, h.meter)
      else if content[place.offset - 1] != NEWLINE then Refused(Changed, h.meter)
      else scan(h.meter)
    else scan(m0)
  }

  /** Opening the file behind the cursor, checking the byte before it, and reading on from there. */
  ghost function VisitOf(w: Schedule, q: Query, limit: Option<nat>, file: nat, content: Bytes, len: nat,
                         st: Progress, m: Meter): Visit
    requires st.place.offset <= len <= |content|
  {
    VisitWith(ScannerOf(w, q, limit, file, content, len, st), w, file, content, len, st.place, m)
  }

  /** What a visit has to answer for. */
  ghost predicate VisitOk(w: Schedule, q: Query, limit: Option<nat>, c: Bytes, m: Meter, st: Progress, v: Visit) {
    match v
    case Refused(_, _) => Steady(w) && Untimed(w) ==> !Resumable(c, st.place)
    case Visited(st', m') => FileKept(w, q, limit, c, m, st, m', st', false)
  }

  lemma ScannerOk(w: Schedule, q: Query, limit: Option<nat>, file: nat, content: Bytes, len: nat, st: Progress,
                  m: Meter)
    requires st.place.offset <= len <= |content| && !st.full && Sized(st) && m.io <= MAX_SCAN_BYTES
    ensures VisitOk(w, q, limit, content[..len], m, st, ScannerOf(w, q, limit, file, content, len, st)(m))
  {
    ScanMeans(w, file, q, limit, content[..len], |content|, Head(st.place.offset, 0, m), st);
  }

  lemma VisitLater(w: Schedule, q: Query, limit: Option<nat>, c: Bytes, m: Meter, m': Meter, st: Progress, v: Visit)
    requires Later(w, m, m') && VisitOk(w, q, limit, c, m', st, v)
    ensures VisitOk(w, q, limit, c, m, st, v)
  {
  }

  /** A visit reads on at some later moment, or is refused for a reason. */
  lemma VisitScans(scan: Scanner, w: Schedule, file: nat, content: Bytes, len: nat, place: Place, m: Meter)
    returns (m': Meter)
    requires place.offset <= len <= |content| && m.io <= MAX_SCAN_BYTES && !m.Halted()
    ensures Later(w, m, m')
    ensures var v := VisitWith(scan, w, file, content, len, place, m);
            v == scan(m') || (v.Refused? && (Steady(w) && Untimed(w) ==> !Resumable(content[..len], place)))
  {
    m' := m.(tick := m.tick + 1);
    if ChecksByte(place, len) {
      assert content[..len][place.offset - 1] == content[place.offset - 1];
      m' := Filled(w, file, |content|, Head(place.offset - 1, 0, m')).meter;
    }
  }

  /** Without disturbance a file is refused only to a cursor that cannot be resumed there. */
  lemma VisitMeans(w: Schedule, q: Query, limit: Option<nat>, file: nat, content: Bytes, len: nat, st: Progress,
                   m: Meter)
    requires st.place.offset <= len <= |content| && !st.full && Sized(st)
    requires m.io <= MAX_SCAN_BYTES && !m.Halted()
    ensures VisitOk(w, q, limit, content[..len], m, st, VisitOf(w, q, limit, file, content, len, st, m))
  {
    var scan := ScannerOf(w, q, limit, file, content, len, st);
    var m' := VisitScans(scan, w, file, content, len, st.place, m);
    ScannerOk(w, q, limit, file, content, len, st, m');
    VisitLater(w, q, limit, content[..len], m, m', st, scan(m'));
  }

  // ---- one page

  /** Whether the cursor passes every check that a resumed search makes on it before reading. */
  ghost predicate PassesChecks(node: string, q: Query, cursor: Cursor, disk: Disk) {
    && SameRequest(node, q, cursor)
    && StillThere(cursor.files, disk)
    && WellPlaced(Pinned(cursor.files, disk), cursor)
  }

  /** Everything one page carries from file to file; `lost` says whether it passed a gap by. */
  datatype PageState = PageState(cursor: Cursor, st: Progress, files: seq<Coverage>, lost: bool)

  function StartOfPage(first: Cursor): PageState {
    PageState(first, Progress(first.place, NOTHING, 0, false), [], false)
  }

  predicate LosesGap(ps: PageState, st: Progress)
    requires ps.cursor.file < |ps.cursor.files|
  {
    st.place.offset == ps.cursor.files[ps.cursor.file].len && st.place.skipping
  }

  /** The page after the file under its cursor was read. */
  function AfterFile(ps: PageState, st: Progress): PageState
    requires ps.cursor.file < |ps.cursor.files|
  {
    var snapshot := ps.cursor.files[ps.cursor.file];
    var cursor := NextCursor(ps.cursor, st.place, snapshot.len);
    var item := Coverage(snapshot.identity, snapshot.len, ps.cursor.place.offset, st.place.offset);
    PageState(cursor, st.(place := cursor.place), ps.files + [item], ps.lost || LosesGap(ps, st))
  }

  /** One turn of the outer loop: the page failed, is over, or goes on to the next file. */
  datatype PageTurn =
    | FailsPage(error: SearchError)
    | EndsPage(ps: PageState, meter: Meter)
    | NextFile(ps: PageState, meter: Meter)

  /** The page goes on unless it is full or has its lines. */
  ghost function AfterVisit(limit: Option<nat>, ps: PageState, v: Visit): PageTurn
    requires ps.cursor.file < |ps.cursor.files|
  {
    match v
    case Refused(error, _) => FailsPage(error)
    case Visited(st, m) =>
      if st.full || |st.found.texts| >= LimitOf(limit) then EndsPage(AfterFile(ps, st), m)
      else NextFile(AfterFile(ps, st), m)
  }

  ghost function TurnOfPage(w: Schedule, q: Query, limit: Option<nat>, disk: Disk, ps: PageState, m: Meter): PageTurn
    requires StillThere(ps.cursor.files, disk) && ps.cursor.file < |ps.cursor.files|
  {
    var m0 := Asked(w, m, ps.cursor.file, ps.cursor.place.offset);
    var snapshot := ps.cursor.files[ps.cursor.file];
    if m0.Halted() then EndsPage(ps, m0)
    else if ps.st.place.offset > snapshot.len then FailsPage(Changed)
    else
      var content := disk.bytes[snapshot.identity];
      AfterVisit(limit, ps, VisitOf(w, q, limit, ps.cursor.file, content, snapshot.len, ps.st, m0))
  }

  type PageTurner = (PageState, Meter) -> PageTurn

  ghost function PageTurnerOf(w: Schedule, q: Query, limit: Option<nat>, disk: Disk): PageTurner {
    (ps: PageState, m: Meter) =>
      if StillThere(ps.cursor.files, disk) && ps.cursor.file < |ps.cursor.files|
      then TurnOfPage(w, q, limit, disk, ps, m) else EndsPage(ps, m)
  }

  datatype PageEnd = PageFailed(error: SearchError) | PageEnded(ps: PageState, meter: Meter)

  /** The outer loop: file after file until the page is full, stopped, or the search is finished. */
  ghost function FillWith(turn: PageTurner, ps: PageState, m: Meter): PageEnd
    decreases if |ps.files| < MAX_FILES_PER_PAGE then MAX_FILES_PER_PAGE - |ps.files| else 0
  {
    if ps.cursor.file >= |ps.cursor.files| || |ps.files| >= MAX_FILES_PER_PAGE then PageEnded(ps, m)
    else
      match turn(ps, m)
      case FailsPage(error) => PageFailed(error)
      case EndsPage(ps', m') => PageEnded(ps', m')
      case NextFile(ps', m') => if |ps.files| < |ps'.files| then FillWith(turn, ps', m') else PageEnded(ps', m')
  }

  const NEW_METER := Meter(0, false, 0)

  /** One page of a search, from the cursor it starts at. */
  ghost function PageRun(node: string, q: Query, limit: Option<nat>, w: Schedule, first: Cursor, disk: Disk): PageEnd {
    if SameRequest(node, q, first) && StillThere(first.files, disk) && first.file <= |first.files|
    then FillWith(PageTurnerOf(w, q, limit, disk), StartOfPage(first), NEW_METER)
    else PageFailed(Changed)
  }

  /** The answer: what the page found, the cursor to go on from, and whether the search is complete. */
  function Answer(directoryGaps: set<Gap>, end: PageEnd): Outcome {
    match end
    case PageFailed(error) => Failed(error)
    case PageEnded(ps, m) =>
      var found := Join(Found([], directoryGaps), ps.st.found);
      var finished := ps.cursor.file == |ps.cursor.files|;
      Page(found, if finished then None else Some(ps.cursor), finished && found.gaps == {}, m.io, ps.files)
  }

  // ---- what a page keeps

  /** Bounds that hold whatever cursor the client sent. */
  ghost predicate Bounded(limit: Option<nat>, first: Cursor, ps: PageState, go: bool) {
    && SameSearch(first, ps.cursor) && ps.cursor.file <= |ps.cursor.files|
    && Sized(ps.st) && |ps.files| <= MAX_FILES_PER_PAGE
    && (LimitOf(limit) > 0 ==>
          |ps.st.found.texts| <= LimitOf(limit) && (go ==> |ps.st.found.texts| < LimitOf(limit)))
    && (go ==> !ps.st.full) && ps.st.place == ps.cursor.place
    && (if ps.files == [] then ps == StartOfPage(first)
        else first.file < |first.files| && first.place.offset <= first.files[first.file].len && Proper(ps.cursor))
  }

  /** A cursor that stands before some byte of its file, or at the start of a file. */
  predicate Proper(cursor: Cursor) {
    cursor.file < |cursor.files| ==>
      cursor.place == FILE_START || cursor.place.offset < cursor.files[cursor.file].len
  }

  /** A full page stands before a hit that does not fit. */
  ghost predicate FullMeans(q: Query, pinned: seq<Bytes>, ps: PageState) {
    ps.st.full ==>
      ps.cursor.file < |pinned| && NoRoom(q, pinned[ps.cursor.file], ps.cursor.place, ps.st.returnedBytes)
  }

  /** The budget is kept, its time is over only if the world is timed, and a gap is lost only by a stop. */
  ghost predicate MeterOk(w: Schedule, first: Cursor, ps: PageState, m: Meter) {
    && m.io <= MAX_SCAN_BYTES && (m.expired ==> !Untimed(w))
    && (ps.lost ==> m.Halted() || !Proper(first))
  }

  /** What the page has done so far moves the search on. */
  ghost predicate PageSound(w: Schedule, q: Query, limit: Option<nat>, pinned: seq<Bytes>, first: Cursor,
                            ps: PageState, m: Meter, go: bool)
  {
    && Bounded(limit, first, ps, go) && MeterOk(w, first, ps, m) && FullMeans(q, pinned, ps)
    && (WellPlaced(pinned, first) ==> Advances(q, pinned, first, ps.st.found, ps.lost, ps.files, ps.cursor))
  }

  lemma FileSound(w: Schedule, q: Query, limit: Option<nat>, pinned: seq<Bytes>, first: Cursor,
                  ps: PageState, m: Meter, st: Progress, m': Meter)
    requires PageSound(w, q, limit, pinned, first, ps, m, true) && |ps.files| < MAX_FILES_PER_PAGE
    requires ps.cursor.file < |ps.cursor.files| == |pinned|
    requires |pinned[ps.cursor.file]| == ps.cursor.files[ps.cursor.file].len
    requires FileKept(w, q, limit, pinned[ps.cursor.file], m, ps.st, m', st, false)
    ensures var go := !st.full && |st.found.texts| < LimitOf(limit);
            PageSound(w, q, limit, pinned, first, AfterFile(ps, st), m', go)
  {
    if WellPlaced(pinned, first) {
      FileAdvances(q, pinned, first, ps.lost, ps.files, ps.cursor, ps.st, st);
    }
  }

  /** What a turn of the outer loop has to answer for. */
  ghost predicate PageTurnOk(w: Schedule, q: Query, limit: Option<nat>, pinned: seq<Bytes>, first: Cursor,
                             ps: PageState, t: PageTurn)
  {
    match t
    case FailsPage(_) => Steady(w) && Untimed(w) ==> !WellPlaced(pinned, first)
    case EndsPage(ps', m') =>
      && PageSound(w, q, limit, pinned, first, ps', m', false)
      && (m'.Halted() || ps'.st.full || |ps'.st.found.texts| >= LimitOf(limit))
    case NextFile(ps', m') =>
      && PageSound(w, q, limit, pinned, first, ps', m', true) && PageSound(w, q, limit, pinned, first, ps', m', false)
      && |ps'.files| == |ps.files| + 1
  }

  lemma AskedSound(w: Schedule, q: Query, limit: Option<nat>, pinned: seq<Bytes>, first: Cursor, ps: PageState,
                   m: Meter,
                   position: nat)
    requires PageSound(w, q, limit, pinned, first, ps, m, true)
    ensures PageSound(w, q, limit, pinned, first, ps, Asked(w, m, ps.cursor.file, position), true)
    ensures PageSound(w, q, limit, pinned, first, ps, Asked(w, m, ps.cursor.file, position), false)
  {
  }

  lemma VisitSound(w: Schedule, q: Query, limit: Option<nat>, pinned: seq<Bytes>, first: Cursor, ps: PageState,
                   m: Meter,
                   v: Visit)
    requires PageSound(w, q, limit, pinned, first, ps, m, true) && |ps.files| < MAX_FILES_PER_PAGE
    requires ps.cursor.file < |ps.cursor.files| == |pinned|
    requires |pinned[ps.cursor.file]| == ps.cursor.files[ps.cursor.file].len
    requires VisitOk(w, q, limit, pinned[ps.cursor.file], m, ps.st, v)
    ensures PageTurnOk(w, q, limit, pinned, first, ps, AfterVisit(limit, ps, v))
  {
    if v.Visited? {
      FileSound(w, q, limit, pinned, first, ps, m, v.st, v.meter);
    }
  }

  lemma PageTurnSound(w: Schedule, q: Query, limit: Option<nat>, disk: Disk, first: Cursor, ps: PageState, m: Meter)
    requires StillThere(first.files, disk) && ps.cursor.file < |ps.cursor.files| && |ps.files| < MAX_FILES_PER_PAGE
    requires PageSound(w, q, limit, Pinned(first.files, disk), first, ps, m, true)
    ensures ps.cursor.files == first.files
    ensures PageTurnOk(w, q, limit, Pinned(first.files, disk), first, ps, TurnOfPage(w, q, limit, disk, ps, m))
  {
    var pinned := Pinned(first.files, disk);
    var snapshot := ps.cursor.files[ps.cursor.file];
    var m0 := Asked(w, m, ps.cursor.file, ps.cursor.place.offset);
    AskedSound(w, q, limit, pinned, first, ps, m, ps.cursor.place.offset);
    if !m0.Halted() && ps.st.place.offset <= snapshot.len {
      var content := disk.bytes[snapshot.identity];
      VisitMeans(w, q, limit, ps.cursor.file, content, snapshot.len, ps.st, m0);
      VisitSound(w, q, limit, pinned, first, ps, m0,
                 VisitOf(w, q, limit, ps.cursor.file, content, snapshot.len, ps.st, m0));
    }
  }

  /** The place of the page's cursor in its file, as the page's properties give it. */
  lemma StandsWell(w: Schedule, q: Query, limit: Option<nat>, pinned: seq<Bytes>, first: Cursor, ps: PageState,
                   m: Meter)
    requires PageSound(w, q, limit, pinned, first, ps, m, true) && WellPlaced(pinned, first)
    requires ps.cursor.file < |ps.cursor.files|
    ensures |ps.cursor.files| == |pinned| && ps.st.place == ps.cursor.place && !ps.st.full && Sized(ps.st)
    ensures |pinned[ps.cursor.file]| == ps.cursor.files[ps.cursor.file].len
    ensures Resumable(pinned[ps.cursor.file], ps.st.place) && m.io <= MAX_SCAN_BYTES
  {
  }

  // ---- the outer loop, for any turn and any property that the turns keep

  /** A property of a page between turns; the flag says whether the page goes on. */
  type PageProperty = (PageState, Meter, bool) -> bool

  /** A turn keeps it, or fails where it may, and ends the page only for a reason. */
  ghost predicate TurnKeeps(keeps: PageProperty, mayFail: bool, limit: Option<nat>, ps: PageState, t: PageTurn) {
    match t
    case FailsPage(_) => mayFail
    case EndsPage(ps', m') =>
      keeps(ps', m', false) && (m'.Halted() || ps'.st.full || |ps'.st.found.texts| >= LimitOf(limit))
    case NextFile(ps', m') => keeps(ps', m', true) && keeps(ps', m', false) && |ps'.files| == |ps.files| + 1
  }

  ghost predicate Keeps(turn: PageTurner, keeps: PageProperty, mayFail: bool, limit: Option<nat>) {
    forall ps: PageState, m: Meter
      | keeps(ps, m, true) && ps.cursor.file < |ps.cursor.files| && |ps.files| < MAX_FILES_PER_PAGE ::
      TurnKeeps(keeps, mayFail, limit, ps, turn(ps, m))
  }

  ghost predicate EndKept(keeps: PageProperty, mayFail: bool, limit: Option<nat>, end: PageEnd) {
    match end
    case PageFailed(_) => mayFail
    case PageEnded(ps, m) =>
      && keeps(ps, m, false)
      && (ps.cursor.file < |ps.cursor.files| ==>
            m.Halted() || ps.st.full || |ps.st.found.texts| >= LimitOf(limit) || |ps.files| >= MAX_FILES_PER_PAGE)
  }

  lemma {:induction false} FillKeeps(turn: PageTurner, keeps: PageProperty, mayFail: bool, limit: Option<nat>,
                                     ps: PageState, m: Meter)
    requires Keeps(turn, keeps, mayFail, limit) && keeps(ps, m, true) && keeps(ps, m, false)
    ensures EndKept(keeps, mayFail, limit, FillWith(turn, ps, m))
    decreases if |ps.files| < MAX_FILES_PER_PAGE then MAX_FILES_PER_PAGE - |ps.files| else 0
  {
    if ps.cursor.file < |ps.cursor.files| && |ps.files| < MAX_FILES_PER_PAGE {
      var t := turn(ps, m);
      assert TurnKeeps(keeps, mayFail, limit, ps, t);
      if t.NextFile? {
        FillKeeps(turn, keeps, mayFail, limit, t.ps, t.meter);
      }
    }
  }

  // ---- the contract of a page

  lemma StandsStill(q: Query, pinned: seq<Bytes>, cursor: Cursor)
    requires WellPlaced(pinned, cursor)
    ensures Advances(q, pinned, cursor, NOTHING, false, [], cursor)
  {
    JoinNothing(Left(q, pinned, cursor));
  }

  lemma StartSound(w: Schedule, q: Query, limit: Option<nat>, pinned: seq<Bytes>, first: Cursor)
    requires first.file <= |first.files|
    ensures PageSound(w, q, limit, pinned, first, StartOfPage(first), NEW_METER, true)
    ensures PageSound(w, q, limit, pinned, first, StartOfPage(first), NEW_METER, false)
  {
    if WellPlaced(pinned, first) {
      StandsStill(q, pinned, first);
    }
  }

  /** Why a page ends before the search does: its budget, its limits on files and lines, or a hit that does not fit. */
  ghost predicate EndsForAReason(w: Schedule, q: Query, limit: Option<nat>, pinned: seq<Bytes>, ps: PageState,
                                 m: Meter) {
    || !Untimed(w) || m.io == MAX_SCAN_BYTES || |ps.files| == MAX_FILES_PER_PAGE
    || |ps.st.found.texts| >= LimitOf(limit)
    || (ps.cursor.file < |pinned| && NoRoom(q, pinned[ps.cursor.file], ps.cursor.place, ps.st.returnedBytes))
  }

  /** The contract of a page: why it may fail, and how it moves the search on when it does not. */
  ghost predicate PageMeets(node: string, q: Query, limit: Option<nat>, w: Schedule, first: Cursor, disk: Disk,
                            end: PageEnd)
  {
    match end
    case PageFailed(_) =>
      Steady(w) && Untimed(w) ==> !PassesChecks(node, q, first, disk)
    case PageEnded(ps, m) =>
      && SameRequest(node, q, first) && StillThere(first.files, disk)
      && Bounded(limit, first, ps, false) && m.io <= MAX_SCAN_BYTES
      && (PassesChecks(node, q, first, disk) ==>
            Advances(q, Pinned(first.files, disk), first, ps.st.found, ps.lost, ps.files, ps.cursor))
      && (ps.cursor.file < |ps.cursor.files| ==> EndsForAReason(w, q, limit, Pinned(first.files, disk), ps, m))
      && (ps.lost ==> !Proper(first) || !Untimed(w) || m.io == MAX_SCAN_BYTES)
  }

  // ---- further properties of a page

  /** Something else that holds of a page between turns. */
  type Also = PageState -> bool

  ghost predicate AlsoKept(also: Also, mayFail: bool, t: PageTurn) {
    match t
    case FailsPage(_) => mayFail
    case EndsPage(ps, _) => also(ps)
    case NextFile(ps, _) => also(ps)
  }

  /** The page is sound and has another file to read. */
  ghost predicate TurnDue(w: Schedule, q: Query, limit: Option<nat>, disk: Disk, first: Cursor, ps: PageState, m: Meter)
    requires StillThere(first.files, disk)
  {
    && ps.cursor.files == first.files && ps.cursor.file < |ps.cursor.files| && |ps.files| < MAX_FILES_PER_PAGE
    && PageSound(w, q, limit, Pinned(first.files, disk), first, ps, m, true)
  }

  ghost predicate TurnsAlsoKeep(w: Schedule, q: Query, limit: Option<nat>, disk: Disk, first: Cursor, also: Also,
                                mayFail: bool)
    requires StillThere(first.files, disk)
  {
    forall ps: PageState, m: Meter {:trigger TurnOfPage(w, q, limit, disk, ps, m)}
      | TurnDue(w, q, limit, disk, first, ps, m) && also(ps) ::
      AlsoKept(also, mayFail, TurnOfPage(w, q, limit, disk, ps, m))
  }

  ghost predicate MayFail(w: Schedule, pinned: seq<Bytes>, first: Cursor) {
    !(Steady(w) && Untimed(w) && WellPlaced(pinned, first))
  }

  ghost predicate SoundAlso(w: Schedule, q: Query, limit: Option<nat>, pinned: seq<Bytes>, first: Cursor, also: Also,
                            ps: PageState, m: Meter, go: bool)
  {
    PageSound(w, q, limit, pinned, first, ps, m, go) && also(ps)
  }

  ghost predicate NamesAlso(keeps: PageProperty, w: Schedule, q: Query, limit: Option<nat>, pinned: seq<Bytes>,
                            first: Cursor, also: Also)
  {
    forall ps, m, go :: keeps(ps, m, go) <==> SoundAlso(w, q, limit, pinned, first, also, ps, m, go)
  }

  lemma AlsoTurnKeeps(w: Schedule, q: Query, limit: Option<nat>, pinned: seq<Bytes>, first: Cursor, also: Also,
                      mayFail: bool, keeps: PageProperty, ps: PageState, t: PageTurn)
    requires NamesAlso(keeps, w, q, limit, pinned, first, also) && PageTurnOk(w, q, limit, pinned, first, ps, t)
    requires AlsoKept(also, mayFail, t)
    ensures TurnKeeps(keeps, mayFail && MayFail(w, pinned, first), limit, ps, t)
  {
  }

  lemma PageAlsoKeeps(w: Schedule, q: Query, limit: Option<nat>, disk: Disk, first: Cursor, also: Also, mayFail: bool,
                      keeps: PageProperty)
    requires StillThere(first.files, disk) && TurnsAlsoKeep(w, q, limit, disk, first, also, mayFail)
    requires NamesAlso(keeps, w, q, limit, Pinned(first.files, disk), first, also)
    ensures Keeps(PageTurnerOf(w, q, limit, disk), keeps,
                  mayFail && MayFail(w, Pinned(first.files, disk), first), limit)
  {
    var pinned := Pinned(first.files, disk);
    var turn := PageTurnerOf(w, q, limit, disk);
    forall ps: PageState, m: Meter
      | keeps(ps, m, true) && ps.cursor.file < |ps.cursor.files| && |ps.files| < MAX_FILES_PER_PAGE
      ensures TurnKeeps(keeps, mayFail && MayFail(w, pinned, first), limit, ps, turn(ps, m))
    {
      assert TurnDue(w, q, limit, disk, first, ps, m);
      PageTurnSound(w, q, limit, disk, first, ps, m);
      AlsoTurnKeeps(w, q, limit, pinned, first, also, mayFail, keeps, ps, turn(ps, m));
    }
  }

  /** What every turn keeps, the rest of the page keeps. */
  lemma FilledAlso(w: Schedule, q: Query, limit: Option<nat>, disk: Disk, first: Cursor, also: Also, mayFail: bool,
                   keeps: PageProperty, ps: PageState, m: Meter)
    requires StillThere(first.files, disk) && TurnsAlsoKeep(w, q, limit, disk, first, also, mayFail)
    requires NamesAlso(keeps, w, q, limit, Pinned(first.files, disk), first, also)
    requires keeps(ps, m, true) && keeps(ps, m, false)
    ensures EndKept(keeps, mayFail && MayFail(w, Pinned(first.files, disk), first), limit,
                    FillWith(PageTurnerOf(w, q, limit, disk), ps, m))
  {
    var fails := mayFail && MayFail(w, Pinned(first.files, disk), first);
    PageAlsoKeeps(w, q, limit, disk, first, also, mayFail, keeps);
    FillKeeps(PageTurnerOf(w, q, limit, disk), keeps, fails, limit, ps, m);
  }

  /** What every turn keeps, the whole page keeps. */
  lemma PageKept(w: Schedule, q: Query, limit: Option<nat>, disk: Disk, first: Cursor, also: Also, mayFail: bool,
                 keeps: PageProperty)
    requires StillThere(first.files, disk) && TurnsAlsoKeep(w, q, limit, disk, first, also, mayFail)
    requires NamesAlso(keeps, w, q, limit, Pinned(first.files, disk), first, also)
    requires first.file <= |first.files| && also(StartOfPage(first))
    ensures EndKept(keeps, mayFail && MayFail(w, Pinned(first.files, disk), first), limit,
                    FillWith(PageTurnerOf(w, q, limit, disk), StartOfPage(first), NEW_METER))
  {
    StartSound(w, q, limit, Pinned(first.files, disk), first);
    FilledAlso(w, q, limit, disk, first, also, mayFail, keeps, StartOfPage(first), NEW_METER);
  }

  lemma PageAlso(node: string, q: Query, limit: Option<nat>, w: Schedule, first: Cursor, disk: Disk, also: Also)
    requires StillThere(first.files, disk) && TurnsAlsoKeep(w, q, limit, disk, first, also, true)
    requires SameRequest(node, q, first) && first.file <= |first.files| && also(StartOfPage(first))
    ensures var end := PageRun(node, q, limit, w, first, disk);
            end.PageEnded? ==> also(end.ps)
  {
    var pinned := Pinned(first.files, disk);
    var keeps: PageProperty := (ps, m, go) => SoundAlso(w, q, limit, pinned, first, also, ps, m, go);
    PageKept(w, q, limit, disk, first, also, true, keeps);
  }

  lemma EndMeets(node: string, q: Query, limit: Option<nat>, w: Schedule, first: Cursor, disk: Disk,
                 keeps: PageProperty, end: PageEnd)
    requires SameRequest(node, q, first) && StillThere(first.files, disk) && first.file <= |first.files|
    requires end.PageEnded? && keeps(end.ps, end.meter, false) ==>
               PageSound(w, q, limit, Pinned(first.files, disk), first, end.ps, end.meter, false)
    requires EndKept(keeps, MayFail(w, Pinned(first.files, disk), first), limit, end)
    ensures PageMeets(node, q, limit, w, first, disk, end)
  {
  }

  /** Every page, whatever its schedule, its limit and the cursor it was given, meets the contract. */
  lemma PageMet(node: string, q: Query, limit: Option<nat>, w: Schedule, first: Cursor, disk: Disk)
    ensures PageMeets(node, q, limit, w, first, disk, PageRun(node, q, limit, w, first, disk))
  {
    if SameRequest(node, q, first) && StillThere(first.files, disk) && first.file <= |first.files| {
      var pinned := Pinned(first.files, disk);
      var also: Also := ps => true;
      var keeps: PageProperty := (ps, m, go) => SoundAlso(w, q, limit, pinned, first, also, ps, m, go);
      PageKept(w, q, limit, disk, first, also, true, keeps);
      EndMeets(node, q, limit, w, first, disk, keeps, PageRun(node, q, limit, w, first, disk));
    }
  }

  // ---- the loops

  method ReadOn(q: Query, limit: Option<nat>, reader: LogReader, len: nat, before: Progress)
    returns (error: Option<SearchError>, st: Progress)
    requires reader.Valid() && before.place.offset <= len <= |reader.content|
    modifies reader, reader.budget
    ensures reader.Valid()
    ensures (if error.Some? then Refused(error.value, reader.budget.Value()) else Visited(st, reader.budget.Value()))
            == ScannedOn(reader.budget.world, q, limit, reader.file, reader.content, len, before,
                         old(reader.budget.Value()))
  {
    ghost var turn := TurnerOf(reader.budget.world, reader.file, q, limit, reader.content[..len], |reader.content|);
    reader.Seek(before.place.offset);
    var shortened;
    st, shortened := ScanFile(q, limit, reader, len, before, turn);
    error := if shortened then Some(Changed) else None;
  }

  /** The byte before `offset`, if it can be read. */
  method ReadBack(reader: LogReader, offset: nat) returns (previous: Option<Byte>)
    requires reader.Valid() && 0 < offset <= |reader.content|
    modifies reader, reader.budget
    ensures reader.Valid()
    ensures var h := Filled(reader.budget.world, reader.file, |reader.content|,
                            Head(offset - 1, 0, old(reader.budget.Value())));
            && reader.budget.Value() == h.meter
            && previous == if h.buffered == 0 then None else Some(reader.content[offset - 1])
  {
    reader.Seek(offset - 1);
    var data := reader.FillBuf();
    previous := if data == [] then None else Some(data[0]);
  }

  /** Opens the file behind the cursor, checks the byte before it, and reads on from there. */
  method VisitFile(q: Query, limit: Option<nat>, budget: Budget, file: nat, content: Bytes, len: nat, before: Progress,
                   ghost scan: Scanner)
    returns (error: Option<SearchError>, st: Progress)
    requires before.place.offset <= len <= |content| && budget.io <= MAX_SCAN_BYTES
    requires forall m {:trigger ScannedOn(budget.world, q, limit, file, content, len, before, m)} ::
               scan(m) == ScannedOn(budget.world, q, limit, file, content, len, before, m)
    modifies budget
    ensures budget.io <= MAX_SCAN_BYTES
    ensures (if error.Some? then Refused(error.value, budget.Value()) else Visited(st, budget.Value()))
            == VisitWith(scan, budget.world, file, content, len, before.place, old(budget.Value()))
  {
    st := before;
    var replaced := budget.world.replaced(Spot(budget.tick, file, before.place.offset));
    budget.tick := budget.tick + 1;
    if replaced {
      return Some(Changed), st;
    }
    var reader := new LogReader(file, content, budget);
    if ChecksByte(before.place, len) {
      var previous := ReadBack(reader, before.place.offset);
      if previous.None? {
        return Some(IoFailed), st;
      }
      if previous.value != NEWLINE {
        return Some(Changed), st;
      }
    }
    error, st := ReadOn(q, limit, reader, len, before);
  }

  /** One turn of the outer loop; `go` says whether the loop may run on. */
  method TakePageTurn(q: Query, limit: Option<nat>, budget: Budget, disk: Disk, ps: PageState)
    returns (error: Option<SearchError>, ps': PageState, go: bool)
    requires StillThere(ps.cursor.files, disk) && ps.cursor.file < |ps.cursor.files| && ps.st.place == ps.cursor.place
    requires budget.io <= MAX_SCAN_BYTES
    modifies budget
    ensures budget.io <= MAX_SCAN_BYTES
    ensures (if error.Some? then FailsPage(error.value)
             else if go then NextFile(ps', budget.Value()) else EndsPage(ps', budget.Value()))
            == TurnOfPage(budget.world, q, limit, disk, ps, old(budget.Value()))
  {
    error, ps', go := None, ps, false;
    var stopped := budget.Stopped(ps.cursor.file, ps.cursor.place.offset);
    if stopped {
      return;
    }
    var snapshot := ps.cursor.files[ps.cursor.file];
    if ps.cursor.place.offset > snapshot.len {
      error := Some(Changed);
      return;
    }
    var content := disk.bytes[snapshot.identity];
    var st;
    error, st := VisitFile(q, limit, budget, ps.cursor.file, content, snapshot.len, ps.st,
                           ScannerOf(budget.world, q, limit, ps.cursor.file, content, snapshot.len, ps.st));
    if error.None? {
      ps' := AfterFile(ps, st);
      go := !st.full && |st.found.texts| < LimitOf(limit);
    }
  }

  ghost predicate NamesTurns(turn: PageTurner, w: Schedule, q: Query, limit: Option<nat>, disk: Disk) {
    forall ps: PageState, m: Meter {:trigger TurnOfPage(w, q, limit, disk, ps, m)}
      | StillThere(ps.cursor.files, disk) && ps.cursor.file < |ps.cursor.files| ::
      turn(ps, m) == TurnOfPage(w, q, limit, disk, ps, m)
  }

  /** The outer loop: file after file until the page is full, stopped, or the search is finished. */
  method FillPage(q: Query, limit: Option<nat>, budget: Budget, disk: Disk, first: Cursor, ghost turn: PageTurner)
    returns (error: Option<SearchError>, ps: PageState)
    requires StillThere(first.files, disk) && budget.io <= MAX_SCAN_BYTES
    requires NamesTurns(turn, budget.world, q, limit, disk)
    modifies budget
    ensures (if error.Some? then PageFailed(error.value) else PageEnded(ps, budget.Value()))
            == FillWith(turn, StartOfPage(first), old(budget.Value()))
  {
    error, ps := None, StartOfPage(first);
    while ps.cursor.file < |ps.cursor.files| && |ps.files| < MAX_FILES_PER_PAGE
      invariant budget.io <= MAX_SCAN_BYTES && error.None?
      invariant ps.cursor.files == first.files && ps.st.place == ps.cursor.place
      invariant FillWith(turn, ps, budget.Value()) == FillWith(turn, StartOfPage(first), old(budget.Value()))
      decreases MAX_FILES_PER_PAGE - |ps.files|
    {
      var go;
      error, ps, go := TakePageTurn(q, limit, budget, disk, ps);
      if error.Some? || !go {
        return;
      }
    }
  }

  /**
   * One page of a search. `given` is the client's cursor, `directoryGaps` what listing the candidates reported, and
   * `world` what happens meanwhile.
   */
  method Search(node: string, q: Query, limit: Option<nat>, given: Option<Cursor>, disk: Disk, directoryGaps: set<Gap>,
                world: Schedule)
    returns (r: Outcome)
    ensures r == Answer(directoryGaps, PageRun(node, q, limit, world, FirstCursor(node, q, given, disk), disk))
    ensures PageMeets(node, q, limit, world, FirstCursor(node, q, given, disk), disk,
                      PageRun(node, q, limit, world, FirstCursor(node, q, given, disk), disk))
  {
    var first := FirstCursor(node, q, given, disk);
    PageMet(node, q, limit, world, first, disk);
    if !SameRequest(node, q, first) || !StillThere(first.files, disk) || first.file > |first.files| {
      return Failed(Changed);
    }
    var budget := new Budget(world);
    var error, ps := FillPage(q, limit, budget, disk, first, PageTurnerOf(world, q, limit, disk));
    if error.Some? {
      return Failed(error.value);
    }
    r := Answer(directoryGaps, PageEnded(ps, budget.Value()));
  }
}
