/**
 * Following a log across rotation. A writer appends to the active file, renames it to an archive name and creates
 * a new one; a reader follows with a cursor (file identity, offset), and its calls open, list and read in separate
 * steps between which the writer may do anything it likes.
 */
module Rotation {
  import opened Options
  import opened Lines
  import opened FollowReader

  const LOG_PENDING_FILES: nat := 1024
  const LAST_COLLISION: nat := 4097

  /** An archive name: its period, and the number that tells archives of one period apart. */
  datatype Order = Order(period: int, collision: nat)

  predicate Before(a: Order, b: Order) {
    a.period < b.period || (a.period == b.period && a.collision < b.collision)
  }

  /** A file of the log, in order of creation; `order` is its archive name once it has one. */
  datatype LogFile = LogFile(id: nat, order: Order, bytes: Bytes)

  /** All files ever created; when `active`, the last one still has the configured name. */
  datatype World = World(files: seq<LogFile>, active: bool, period: int) {
    function Archived(): nat {
      if active && files != [] then |files| - 1 else |files|
    }
  }

  /** The whole log: what has been written, in order, whatever files it went to. */
  function Stream(files: seq<LogFile>): Bytes {
    if files == [] then [] else Stream(files[..|files| - 1]) + files[|files| - 1].bytes
  }

  datatype Entry = Entry(order: Order, id: nat)

  function Entries(files: seq<LogFile>): (entries: seq<Entry>)
    ensures |entries| == |files|
    ensures forall k | 0 <= k < |files| :: entries[k] == Entry(files[k].order, files[k].id)
  {
    seq(|files|, k requires 0 <= k < |files| => Entry(files[k].order, files[k].id))
  }

  datatype FileCursor = FileCursor(id: nat, offset: nat)

  /** Where the reader's current call stands. */
  datatype Call =
    | Idle
    | Opened(base: Option<nat>)
    | Located(base: Option<nat>, current: Order)
    | Listed(base: Option<nat>, listing: seq<Entry>)
    | AtEnd(base: Option<nat>, listing: seq<Entry>, index: nat, data: Bytes)

  /**
   * The reader: its cursor once it has one, its call, the bytes of the log that precede the point it started from,
   * and the bytes it has consumed since.
   */
  datatype Reader = Reader(cursor: Option<FileCursor>, call: Call, skipped: Bytes, consumed: Bytes)

  datatype State = State(w: World, r: Reader)

  // ---- the writer

  function Append(w: World, data: Bytes): World
    requires w.files != []
  {
    var n := |w.files| - 1;
    w.(files := w.files[..n] + [w.files[n].(bytes := w.files[n].bytes + data)])
  }

  predicate NameTaken(w: World, order: Order) {
    exists k | 0 <= k < w.Archived() :: w.files[k].order == order
  }

  /** The first free collision number of the period; the writer gives up looking at the last one. */
  ghost predicate FirstFree(w: World, period: int, k: nat) {
    k <= LAST_COLLISION && !NameTaken(w, Order(period, k)) && forall j: nat | j < k :: NameTaken(w, Order(period, j))
  }

  function Rename(w: World, k: nat): World
    requires w.files != []
  {
    var n := |w.files| - 1;
    w.(files := w.files[..n] + [w.files[n].(order := Order(w.period, k))], active := false)
  }

  function Create(w: World, id: nat, period: int): World {
    World(w.files + [LogFile(id, Order(period, 0), [])], true, period)
  }

  // ---- the reader

  function ActiveId(w: World): Option<nat> {
    if w.active && w.files != [] then Some(w.files[|w.files| - 1].id) else None
  }

  ghost predicate Holds(w: World, i: nat, id: nat) {
    i < |w.files| && w.files[i].id == id
  }

  /** A read of file `i` from the cursor on: the reader's own bounds decide how far it gets. */
  ghost predicate Reads(w: World, i: nat, cursor: FileCursor, next: nat) {
    Holds(w, i, cursor.id) && Boundary(w.files[i].bytes, cursor.offset, next)
  }

  /** The call returns: its bytes are the client's, and so is the new cursor. */
  function Return(r: Reader, data: Bytes, cursor: FileCursor): Reader {
    r.(cursor := Some(cursor), call := Idle, consumed := r.consumed + data)
  }

  ghost predicate SortedEntries(entries: seq<Entry>) {
    forall j, k | 0 <= j < k < |entries| :: Before(entries[j].order, entries[k].order)
  }

  /** The archives not older than `current`, in order of their names. */
  ghost predicate IsListing(w: World, current: Order, listing: seq<Entry>) {
    && SortedEntries(listing)
    && forall e :: e in listing <==> e in Entries(w.files[..w.Archived()]) && !Before(e.order, current)
  }

  ghost predicate FirstWithId(listing: seq<Entry>, id: nat, index: nat) {
    index < |listing| && listing[index].id == id && forall j | 0 <= j < index :: listing[j].id != id
  }

  // ---- steps

  /** Why a call starts over: the directory search hit a limit, or no archive has the cursor's identity. */
  datatype Reason = DirectoryLimit | FileUnavailable

  datatype Action =
    | Appends(data: Bytes)                                 // the writer appends to the active file
    | Renames(collision: nat)                              // the writer renames it to the first free archive name
    | Creates(id: nat, period: int)                        // the writer creates a new active file
    | Starts(position: nat, next: nat)                     // a first call, naming no file, reads the active one
    | OpensBase                                            // a call opens the active file, if there is one
    | ReadsBase(i: nat, next: nat)                         // ... and reads it, for it is the cursor's
    | Locates(i: nat)                                      // ... or finds the cursor's archive in the directory
    | Lists(listing: seq<Entry>)                           // ... lists the archives from there on
    | ReadsArchive(i: nat, next: nat, index: nat)          // ... reads the cursor's
    | MovesOn(i: nat)                                      // ... and, at its end, moves the cursor on
    | Fails                                                // a call fails: it changes nothing
    | StartsOver(reason: Reason, b: nat, next: nat)        // a call gives up on the cursor: reset to the active file

  ghost predicate WriterStep(w: World, a: Action, w': World) {
    match a
    case Appends(data) =>
      w.active && w.files != [] && w' == Append(w, data)
    case Renames(k) =>
      w.active && w.files != [] && FirstFree(w, w.period, k) && w' == Rename(w, k)
    case Creates(id, period) =>
      && !w.active && period >= w.period && (forall k | 0 <= k < |w.files| :: w.files[k].id != id)
      && w' == Create(w, id, period)
    case _ => false
  }

  ghost predicate NoArchiveHas(w: World, id: nat) {
    forall k | 0 <= k < w.Archived() :: w.files[k].id != id
  }

  ghost predicate NoneListed(listing: seq<Entry>, id: nat) {
    forall j | 0 <= j < |listing| :: listing[j].id != id
  }

  /**
   * A limit strikes while the cursor's archive is searched for or the archives are listed; an archive counts as missing
   * when none has the cursor's identity, or none of the listed ones does.
   */
  ghost predicate MayStartOver(w: World, id: nat, call: Call, reason: Reason) {
    match call
    case Opened(base) => base != Some(id) && (reason == FileUnavailable ==> NoArchiveHas(w, id))
    case Located(_, _) => reason == DirectoryLimit
    case Listed(_, listing) => reason == FileUnavailable && NoneListed(listing, id)
    case _ => false
  }

  ghost predicate ReaderStep(w: World, r: Reader, a: Action, r': Reader) {
    match a
    case Starts(position, next) =>
      && r.call == Idle && r.cursor.None? && ActiveId(w).Some?
      && var last := |w.files| - 1;
         var bytes := w.files[last].bytes;
         && position <= |bytes| && Boundary(bytes, position, next)
         && r' == Reader(Some(FileCursor(w.files[last].id, next)), Idle,
                         Stream(w.files[..last]) + bytes[..position], bytes[position..next])
    case OpensBase =>
      r.call == Idle && r.cursor.Some? && r' == r.(call := Opened(ActiveId(w)))
    case ReadsBase(i, next) =>
      && r.call.Opened? && r.cursor.Some? && r.call.base == Some(r.cursor.value.id)
      && Reads(w, i, r.cursor.value, next)
      && r' == Return(r, w.files[i].bytes[r.cursor.value.offset..next], r.cursor.value.(offset := next))
    case Locates(i) =>
      && r.call.Opened? && r.cursor.Some? && r.call.base != Some(r.cursor.value.id)
      && i < w.Archived() && Holds(w, i, r.cursor.value.id)
      && r' == r.(call := Located(r.call.base, w.files[i].order))
    case Lists(listing) =>
      && r.call.Located? && IsListing(w, r.call.current, listing) && |listing| <= LOG_PENDING_FILES
      && r' == r.(call := Listed(r.call.base, listing))
    case ReadsArchive(i, next, index) =>
      && r.call.Listed? && r.cursor.Some? && FirstWithId(r.call.listing, r.cursor.value.id, index)
      && i < w.Archived() && w.files[i].order == r.call.listing[index].order
      && Reads(w, i, r.cursor.value, next)
      && var data := w.files[i].bytes[r.cursor.value.offset..next];
         r' == if next == |w.files[i].bytes| then r.(call := AtEnd(r.call.base, r.call.listing, index, data))
               else Return(r, data, r.cursor.value.(offset := next))
    case MovesOn(i) =>
      && r.call.AtEnd? && r.cursor.Some?
      && var stay := r.cursor.value.(offset := r.cursor.value.offset + |r.call.data|);
         if r.call.index + 1 < |r.call.listing| then
           && i < w.Archived() && w.files[i].order == r.call.listing[r.call.index + 1].order
           && r' == Return(r, r.call.data, FileCursor(w.files[i].id, 0))
         else
           r' == Return(r, r.call.data, if r.call.base.Some? then FileCursor(r.call.base.value, 0) else stay)
    case Fails =>
      r.call != Idle && r' == r.(call := Idle)
    case StartsOver(reason, b, next) =>
      && r.cursor.Some? && MayStartOver(w, r.cursor.value.id, r.call, reason)
      && r.call.base.Some? && Holds(w, b, r.call.base.value) && Boundary(w.files[b].bytes, 0, next)
      && r' == Reader(Some(FileCursor(r.call.base.value, next)), Idle, Stream(w.files[..b]), w.files[b].bytes[..next])
    case _ => false
  }

  ghost predicate Step(s: State, a: Action, s': State) {
    || (s'.r == s.r && WriterStep(s.w, a, s'.w))
    || (s'.w == s.w && ReaderStep(s.w, s.r, a, s'.r))
  }

  ghost predicate Init(s: State) {
    s.w.files == [] && !s.w.active && s.r == Reader(None, Idle, [], [])
  }

  /** Every interleaving: states, and the actions between them. */
  ghost predicate Run(run: seq<State>, actions: seq<Action>) {
    && |run| == |actions| + 1 && Init(run[0])
    && forall k {:trigger actions[k]} | 0 <= k < |actions| :: Step(run[k], actions[k], run[k + 1])
  }

  // ---- invariants

  ghost predicate DistinctIds(w: World) {
    forall j, k | 0 <= j < k < |w.files| :: w.files[j].id != w.files[k].id
  }

  /** Archive names grow with time, and the collision numbers of a period are used without gaps. */
  ghost predicate GrowingNames(w: World) {
    && (forall j, k | 0 <= j < k < w.Archived() :: Before(w.files[j].order, w.files[k].order))
    && (forall k | 0 <= k < w.Archived() :: w.files[k].order.period <= w.period)
    && (forall k, c: nat | 0 <= k < w.Archived() && c < w.files[k].order.collision ::
          NameTaken(w, Order(w.files[k].order.period, c)))
  }

  ghost predicate WorldOk(w: World) {
    DistinctIds(w) && GrowingNames(w)
  }

  /** The cursor stands in file `i`, and everything before it has been consumed, in order, once. */
  ghost predicate CursorAt(w: World, r: Reader, i: nat) {
    && r.cursor.Some? && Holds(w, i, r.cursor.value.id)
    && r.cursor.value.offset <= |w.files[i].bytes|
    && r.skipped + r.consumed == Stream(w.files[..i]) + w.files[i].bytes[..r.cursor.value.offset]
  }

  /** The base file opened for this call, if any, is file `b`. */
  ghost predicate BaseIs(w: World, base: Option<nat>, b: nat) {
    base.Some? ==> Holds(w, b, base.value)
  }

  /** The listing is the stretch of archives that starts with the cursor's and reaches up to the base file. */
  ghost predicate ListingOk(w: World, base: Option<nat>, listing: seq<Entry>, i: nat, b: nat) {
    && 0 < |listing| && i + |listing| <= w.Archived()
    && listing == Entries(w.files[i..i + |listing|])
    && (base.Some? ==> i < b <= i + |listing|)
  }

  /** What the current call knows is still true: the cursor stands in file `i`, and file `b` was opened first. */
  ghost predicate CallOk(w: World, r: Reader, i: nat, b: nat) {
    match r.call
    case Idle => true
    case Opened(base) => BaseIs(w, base, b) && if base.Some? then i <= b else i < w.Archived()
    case Located(base, current) =>
      BaseIs(w, base, b) && i < w.Archived() && w.files[i].order == current && (base.Some? ==> i < b)
    case Listed(base, listing) => BaseIs(w, base, b) && ListingOk(w, base, listing, i, b)
    case AtEnd(base, listing, index, data) =>
      && BaseIs(w, base, b) && ListingOk(w, base, listing, i, b) && index == 0
      && r.cursor.Some? && r.cursor.value.offset <= |w.files[i].bytes|
      && data == w.files[i].bytes[r.cursor.value.offset..]
  }

  ghost predicate ReaderOk(w: World, r: Reader, i: nat, b: nat) {
    CursorAt(w, r, i) && CallOk(w, r, i, b)
  }

  ghost predicate Inv(s: State) {
    && WorldOk(s.w)
    && if s.r.cursor.None? then s.r.call == Idle && s.r.skipped == s.r.consumed == []
       else exists i, b :: ReaderOk(s.w, s.r, i, b)
  }

  // ---- the writer keeps them

  /** What a writer step does to the files: it grows or names the last one, or adds a new one behind it. */
  ghost predicate Extends(w: World, w': World) {
    && |w.files| <= |w'.files| && w.Archived() <= w'.Archived()
    && (forall k | 0 <= k < w.Archived() :: w'.files[k] == w.files[k])
    && (forall k | 0 <= k < |w.files| :: w'.files[k].id == w.files[k].id && w.files[k].bytes <= w'.files[k].bytes)
  }

  lemma WriterExtends(w: World, a: Action, w': World)
    requires WriterStep(w, a, w')
    ensures Extends(w, w')
  {
  }

  lemma RenameKeepsWorld(w: World, k: nat)
    requires WorldOk(w) && w.active && w.files != [] && FirstFree(w, w.period, k)
    ensures WorldOk(Rename(w, k))
  {
    var w' := Rename(w, k);
    var n := |w.files| - 1;
    assert forall j | 0 <= j < n :: NameTaken(w, w.files[j].order);
    forall j, c: nat | 0 <= j <= n && c < w'.files[j].order.collision
      ensures NameTaken(w', Order(w'.files[j].order.period, c))
    {
      var order := Order(w'.files[j].order.period, c);
      assert NameTaken(w, order);
      var m :| 0 <= m < w.Archived() && w.files[m].order == order;
      assert w'.files[m].order == order;
    }
  }

  lemma SameNamesKeepWorld(w: World, w': World)
    requires WorldOk(w) && Extends(w, w') && DistinctIds(w') && w'.Archived() == w.Archived() && w.period <= w'.period
    ensures WorldOk(w')
  {
    forall k, c: nat | 0 <= k < w'.Archived() && c < w'.files[k].order.collision
      ensures NameTaken(w', Order(w'.files[k].order.period, c))
    {
      var order := Order(w.files[k].order.period, c);
      assert NameTaken(w, order);
      var m :| 0 <= m < w.Archived() && w.files[m].order == order;
      assert w'.files[m].order == order;
    }
  }

  lemma WriterKeepsWorld(w: World, a: Action, w': World)
    requires WorldOk(w) && WriterStep(w, a, w')
    ensures WorldOk(w')
  {
    WriterExtends(w, a, w');
    match a
    case Appends(data) => SameNamesKeepWorld(w, w');
    case Renames(k) => RenameKeepsWorld(w, k);
    case Creates(id, period) => SameNamesKeepWorld(w, w');
  }

  /** What was written stays where it was: the log only grows at its end. */
  lemma {:induction false} StreamPrefix(files: seq<LogFile>, files': seq<LogFile>, i: nat)
    requires i <= |files| <= |files'|
    requires forall k | 0 <= k < i :: files'[k].bytes == files[k].bytes
    ensures Stream(files'[..i]) == Stream(files[..i])
    decreases i
  {
    if i > 0 {
      assert files[..i][..i - 1] == files[..i - 1] && files'[..i][..i - 1] == files'[..i - 1];
      StreamPrefix(files, files', i - 1);
    }
  }

  lemma WriterKeepsCursor(w: World, w': World, r: Reader, i: nat)
    requires Extends(w, w') && CursorAt(w, r, i) && i <= w.Archived()
    ensures CursorAt(w', r, i)
  {
    StreamPrefix(w.files, w'.files, i);
    assert w'.files[i].bytes[..r.cursor.value.offset] == w.files[i].bytes[..r.cursor.value.offset];
  }

  lemma WriterKeepsCall(w: World, w': World, r: Reader, i: nat, b: nat)
    requires Extends(w, w') && CallOk(w, r, i, b)
    ensures CallOk(w', r, i, b)
  {
    if r.call.Listed? || r.call.AtEnd? {
      var m := i + |r.call.listing|;
      assert w'.files[i..m] == w.files[i..m];
      assert w'.files[i] == w.files[i];
    }
  }

  lemma WriterKeepsReader(w: World, a: Action, w': World, r: Reader, i: nat, b: nat)
    requires WriterStep(w, a, w') && ReaderOk(w, r, i, b)
    ensures ReaderOk(w', r, i, b)
  {
    WriterExtends(w, a, w');
    WriterKeepsCursor(w, w', r, i);
    WriterKeepsCall(w, w', r, i, b);
  }

  // ---- the reader keeps them

  lemma StreamNext(files: seq<LogFile>, i: nat)
    requires i < |files|
    ensures Stream(files[..i + 1]) == Stream(files[..i]) + files[i].bytes
  {
    assert files[..i + 1][..i] == files[..i];
  }

  /** Bytes read from the cursor on continue what was consumed. */
  lemma ReadContinues(w: World, r: Reader, i: nat, next: nat)
    requires CursorAt(w, r, i) && r.cursor.value.offset <= next <= |w.files[i].bytes|
    ensures var bytes := w.files[i].bytes;
            CursorAt(w, Return(r, bytes[r.cursor.value.offset..next], r.cursor.value.(offset := next)), i)
  {
    var bytes := w.files[i].bytes;
    var offset := r.cursor.value.offset;
    assert bytes[..next] == bytes[..offset] + bytes[offset..next];
    assert r.skipped + (r.consumed + bytes[offset..next]) == (r.skipped + r.consumed) + bytes[offset..next];
  }

  /** At the end of file `i`, the start of file `i + 1` is the same point of the log. */
  lemma EndIsNextStart(w: World, r: Reader, i: nat)
    requires CursorAt(w, r, i) && r.cursor.value.offset == |w.files[i].bytes| && i + 1 < |w.files|
    ensures CursorAt(w, r.(cursor := Some(FileCursor(w.files[i + 1].id, 0))), i + 1)
  {
    StreamNext(w.files, i);
    assert w.files[i].bytes[..|w.files[i].bytes|] == w.files[i].bytes;
    assert w.files[i + 1].bytes[..0] == [];
  }

  lemma SortedTail(a: seq<Entry>, e: Entry)
    requires a != [] && SortedEntries(a)
    ensures e in a[1..] <==> e in a && e != a[0]
    ensures e in a ==> e == a[0] || Before(a[0].order, e.order)
  {
    assert a == [a[0]] + a[1..];
    assert forall j | 0 <= j < |a[1..]| :: a[1..][j] == a[j + 1];
  }

  /** Two sorted lists of the same entries are the same list. */
  lemma {:induction false} SortedUnique(a: seq<Entry>, b: seq<Entry>)
    requires SortedEntries(a) && SortedEntries(b)
    requires forall e :: e in a <==> e in b
    ensures a == b
    decreases |a|
  {
    if a == [] {
      assert forall j | 0 <= j < |b| :: b[j] in b;
    } else {
      assert a[0] in b && b[0] in a;
      SortedTail(a, b[0]);
      SortedTail(b, a[0]);
      forall e ensures e in a[1..] <==> e in b[1..] {
        SortedTail(a, e);
        SortedTail(b, e);
      }
      SortedUnique(a[1..], b[1..]);
    }
  }

  lemma EntriesHave(files: seq<LogFile>, e: Entry)
    ensures e in Entries(files) <==> exists k | 0 <= k < |files| :: Entry(files[k].order, files[k].id) == e
  {
    var entries := Entries(files);
    if e in entries {
      var k :| 0 <= k < |entries| && entries[k] == e;
    }
    if k :| 0 <= k < |files| && Entry(files[k].order, files[k].id) == e {
      assert entries[k] == e;
    }
  }

  /** The archives from the cursor's on are those whose name is not older. */
  lemma StretchHas(w: World, i: nat, e: Entry)
    requires WorldOk(w) && i < w.Archived()
    ensures e in Entries(w.files[i..w.Archived()])
            <==> e in Entries(w.files[..w.Archived()]) && !Before(e.order, w.files[i].order)
  {
    var all, stretch := w.files[..w.Archived()], w.files[i..w.Archived()];
    assert all[i..] == stretch;
    EntriesHave(all, e);
    EntriesHave(stretch, e);
    if k :| 0 <= k < |stretch| && Entry(stretch[k].order, stretch[k].id) == e {
      assert all[i + k] == stretch[k];
    }
    if e in Entries(all) && !Before(e.order, w.files[i].order) {
      var k :| 0 <= k < |all| && Entry(all[k].order, all[k].id) == e;
      assert w.files[k] == all[k] && k >= i;
      assert stretch[k - i] == all[k];
    }
  }

  /** A listing from the cursor's archive on is the stretch of archives from there to the end. */
  lemma ListingIsStretch(w: World, i: nat, listing: seq<Entry>)
    requires WorldOk(w) && i < w.Archived() && IsListing(w, w.files[i].order, listing)
    ensures listing == Entries(w.files[i..w.Archived()])
  {
    forall e ensures e in listing <==> e in Entries(w.files[i..w.Archived()]) {
      StretchHas(w, i, e);
    }
    SortedUnique(listing, Entries(w.files[i..w.Archived()]));
  }

  lemma StartsOk(w: World, r: Reader, position: nat, next: nat, r': Reader)
    requires WorldOk(w) && ReaderStep(w, r, Starts(position, next), r')
    ensures ReaderOk(w, r', |w.files| - 1, 0)
  {
    var bytes := w.files[|w.files| - 1].bytes;
    assert bytes[..next] == bytes[..position] + bytes[position..next];
  }

  lemma ReadsArchiveOk(w: World, r: Reader, k: nat, next: nat, index: nat, r': Reader, i: nat, b: nat)
    requires WorldOk(w) && ReaderOk(w, r, i, b) && ReaderStep(w, r, ReadsArchive(k, next, index), r')
    ensures ReaderOk(w, r', i, b)
  {
    assert k == i;
    assert r.call.listing[0] == Entry(w.files[i..i + |r.call.listing|][0].order, w.files[i].id);
    ReadContinues(w, r, i, next);
  }

  lemma MovesOnOk(w: World, r: Reader, k: nat, r': Reader, i: nat, b: nat)
    requires WorldOk(w) && ReaderOk(w, r, i, b) && ReaderStep(w, r, MovesOn(k), r')
    ensures exists i' :: ReaderOk(w, r', i', b)
  {
    var bytes := w.files[i].bytes;
    ReadContinues(w, r, i, |bytes|);
    var stay := Return(r, r.call.data, r.cursor.value.(offset := |bytes|));
    if 1 < |r.call.listing| {
      assert r.call.listing[1] == Entry(w.files[i..i + |r.call.listing|][1].order, w.files[i + 1].id);
      assert k == i + 1;
      EndIsNextStart(w, stay, i);
      assert ReaderOk(w, r', i + 1, b);
    } else if r.call.base.Some? {
      assert b == i + 1;
      EndIsNextStart(w, stay, i);
      assert ReaderOk(w, r', i + 1, b);
    } else {
      assert ReaderOk(w, r', i, b);
    }
  }

  lemma OpensBaseOk(w: World, r: Reader, r': Reader, i: nat, b: nat)
    requires WorldOk(w) && ReaderOk(w, r, i, b) && ReaderStep(w, r, OpensBase, r')
    ensures ReaderOk(w, r', i, if ActiveId(w).Some? then |w.files| - 1 else b)
  {
  }

  lemma ReadsBaseOk(w: World, r: Reader, k: nat, next: nat, r': Reader, i: nat, b: nat)
    requires WorldOk(w) && ReaderOk(w, r, i, b) && ReaderStep(w, r, ReadsBase(k, next), r')
    ensures ReaderOk(w, r', i, b)
  {
    assert k == i;
    ReadContinues(w, r, i, next);
  }

  lemma LocatesOk(w: World, r: Reader, k: nat, r': Reader, i: nat, b: nat)
    requires WorldOk(w) && ReaderOk(w, r, i, b) && ReaderStep(w, r, Locates(k), r')
    ensures ReaderOk(w, r', i, b)
  {
    assert k == i;
  }

  lemma ListsOk(w: World, r: Reader, listing: seq<Entry>, r': Reader, i: nat, b: nat)
    requires WorldOk(w) && ReaderOk(w, r, i, b) && ReaderStep(w, r, Lists(listing), r')
    ensures ReaderOk(w, r', i, b)
  {
    ListingIsStretch(w, i, listing);
  }

  lemma ReaderKeepsReader(w: World, r: Reader, a: Action, r': Reader, i: nat, b: nat)
    requires WorldOk(w) && ReaderOk(w, r, i, b) && ReaderStep(w, r, a, r')
    ensures exists i', b' :: ReaderOk(w, r', i', b')
  {
    match a
    case OpensBase =>
      OpensBaseOk(w, r, r', i, b);
    case ReadsBase(k, next) =>
      ReadsBaseOk(w, r, k, next, r', i, b);
    case Locates(k) =>
      LocatesOk(w, r, k, r', i, b);
    case Lists(listing) =>
      ListsOk(w, r, listing, r', i, b);
    case ReadsArchive(k, next, index) =>
      ReadsArchiveOk(w, r, k, next, index, r', i, b);
    case MovesOn(k) =>
      MovesOnOk(w, r, k, r', i, b);
    case Fails => assert ReaderOk(w, r', i, b);
    case StartsOver(reason, k, next) => assert ReaderOk(w, r', k, b);
  }

  lemma StepKeepsInv(s: State, a: Action, s': State)
    requires Inv(s) && Step(s, a, s')
    ensures Inv(s')
  {
    if s'.r == s.r && WriterStep(s.w, a, s'.w) {
      WriterKeepsWorld(s.w, a, s'.w);
      if s.r.cursor.Some? {
        var i, b :| ReaderOk(s.w, s.r, i, b);
        WriterKeepsReader(s.w, a, s'.w, s.r, i, b);
      }
    } else if s.r.cursor.None? {
      StartsOk(s.w, s.r, a.position, a.next, s'.r);
    } else {
      var i, b :| ReaderOk(s.w, s.r, i, b);
      ReaderKeepsReader(s.w, s.r, a, s'.r, i, b);
    }
  }

  lemma {:induction false} RunKeepsInv(run: seq<State>, actions: seq<Action>, n: nat)
    requires Run(run, actions) && n < |run|
    ensures Inv(run[n])
    decreases n
  {
    if n > 0 {
      RunKeepsInv(run, actions, n - 1);
      StepKeepsInv(run[n - 1], actions[n - 1], run[n]);
    }
  }

  lemma {:induction false} StreamHas(files: seq<LogFile>, i: nat, offset: nat)
    requires i < |files| && offset <= |files[i].bytes|
    ensures Stream(files[..i]) + files[i].bytes[..offset] <= Stream(files)
    decreases |files|
  {
    var n := |files| - 1;
    if i < n {
      StreamHas(files[..n], i, offset);
      assert files[..n][..i] == files[..i];
    }
  }

  /**
   * Exactly once: in every state of every run, what was skipped at the start followed by what was consumed since is
   * a prefix of the whole log, and ends exactly at the cursor.
   */
  lemma FollowsExactlyOnce(run: seq<State>, actions: seq<Action>, n: nat)
    requires Run(run, actions) && n < |run|
    ensures var s := run[n];
            && s.r.skipped + s.r.consumed <= Stream(s.w.files)
            && (s.r.cursor.Some? ==> exists i :: CursorAt(s.w, s.r, i))
  {
    RunKeepsInv(run, actions, n);
    var s := run[n];
    if s.r.cursor.Some? {
      var i, b :| ReaderOk(s.w, s.r, i, b);
      StreamHas(s.w.files, i, s.r.cursor.value.offset);
    }
  }

  /** Until a call starts over, nothing consumed is ever taken back: the consumed bytes only grow. */
  lemma {:induction false} ConsumedOnlyGrows(run: seq<State>, actions: seq<Action>, m: nat, n: nat)
    requires Run(run, actions) && m <= n < |run| && run[m].r.cursor.Some?
    requires forall k | m <= k < n :: !actions[k].StartsOver?
    ensures run[n].r.cursor.Some? && run[n].r.skipped == run[m].r.skipped && run[m].r.consumed <= run[n].r.consumed
    decreases n - m
  {
    if m < n {
      ConsumedOnlyGrows(run, actions, m, n - 1);
      assert Step(run[n - 1], actions[n - 1], run[n]);
    }
  }

  /** A call whose cursor is not the active file always finds its archive. */
  lemma ArchiveIsFound(run: seq<State>, actions: seq<Action>, n: nat)
    requires Run(run, actions) && n < |run|
    requires run[n].r.call.Opened? && run[n].r.cursor.Some? && run[n].r.call.base != Some(run[n].r.cursor.value.id)
    ensures exists i: nat :: i < run[n].w.Archived() && Holds(run[n].w, i, run[n].r.cursor.value.id)
  {
    RunKeepsInv(run, actions, n);
    var i, b :| ReaderOk(run[n].w, run[n].r, i, b);
    assert Holds(run[n].w, i, run[n].r.cursor.value.id);
  }

  /** A listing always leads back to the cursor's archive, by its first name. */
  lemma ListedIsFound(run: seq<State>, actions: seq<Action>, n: nat)
    requires Run(run, actions) && n < |run| && run[n].r.call.Listed? && run[n].r.cursor.Some?
    ensures var w, listing := run[n].w, run[n].r.call.listing;
            && listing != [] && listing[0].id == run[n].r.cursor.value.id
            && exists i: nat :: i < w.Archived() && Holds(w, i, run[n].r.cursor.value.id)
                                && w.files[i].order == listing[0].order
  {
    RunKeepsInv(run, actions, n);
    var w, listing := run[n].w, run[n].r.call.listing;
    var i: nat, b: nat :| ReaderOk(w, run[n].r, i, b);
    assert listing[0] == Entry(w.files[i..i + |listing|][0].order, w.files[i..i + |listing|][0].id);
    assert Holds(w, i, run[n].r.cursor.value.id) && w.files[i].order == listing[0].order;
  }

  /** So only a limit of the directory search ever makes a call start over. */
  lemma OnlyLimitsStartOver(run: seq<State>, actions: seq<Action>, n: nat)
    requires Run(run, actions) && n < |actions| && actions[n].StartsOver?
    ensures actions[n].reason == DirectoryLimit && !run[n].r.call.Listed?
  {
    assert Step(run[n], actions[n], run[n + 1]);
    var r := run[n].r;
    if r.call.Opened? {
      ArchiveIsFound(run, actions, n);
    } else if r.call.Listed? {
      ListedIsFound(run, actions, n);
    }
  }
}
