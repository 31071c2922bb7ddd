/**
 * The bounded reader under a search. What the world decides (when the deadline or a cancellation strikes, how much a
 * read of the file returns, whether a file was replaced) is an explicit schedule, so that every read is a function of
 * its schedule and every schedule is covered.
 */
module SearchReading {
  import opened Options
  import opened Lines
  import opened SearchScan

  const MAX_SCAN_BYTES: nat := 4 * 1024 * 1024
  const READ_BYTES: nat := 16 * 1024

  /** A moment of a page: how often the world was asked before, and where in which file the reader stands. */
  datatype Spot = Spot(tick: nat, file: nat, position: nat)

  /** The world's answers: whether it is late, how many bytes a read returns at most, whether a file was replaced. */
  datatype Schedule = Schedule(late: Spot -> bool, refill: Spot -> nat, replaced: Spot -> bool)

  /** Neither deadline nor cancellation strikes. */
  ghost predicate Untimed(w: Schedule) {
    forall s: Spot :: !w.late(s)
  }

  /** No file is replaced or cut while it is read. */
  ghost predicate Steady(w: Schedule) {
    forall s: Spot :: w.refill(s) > 0 && !w.replaced(s)
  }

  /** The budget of a page: bytes read, whether its time is over, and how often it asked. */
  datatype Meter = Meter(io: nat, expired: bool, tick: nat) {
    predicate Halted() {
      io >= MAX_SCAN_BYTES || expired
    }
  }

  function Asked(w: Schedule, m: Meter, file: nat, position: nat): Meter {
    Meter(m.io, m.expired || w.late(Spot(m.tick, file, position)), m.tick + 1)
  }

  /** A later moment of the same page: bytes and time only run out, time only if the world is timed. */
  ghost predicate Later(w: Schedule, m: Meter, m': Meter) {
    && m.io <= m'.io <= MAX_SCAN_BYTES && (m.expired ==> m'.expired)
    && (m'.expired && !m.expired ==> !Untimed(w))
  }

  /** A buffered reader: its position, the bytes buffered from there on, and the budget. */
  datatype Head = Head(position: nat, buffered: nat, meter: Meter)

  /** What one read of the file returns at most. */
  function Most(io: nat, left: nat): nat {
    if io < MAX_SCAN_BYTES then Min(Min(READ_BYTES, MAX_SCAN_BYTES - io), left) else 0
  }

  /** The buffer refilled when it is empty, from a file of `size` bytes. */
  function Filled(w: Schedule, file: nat, size: nat, h: Head): Head
    requires h.position <= size
  {
    if h.buffered > 0 then h
    else
      var m := Asked(w, h.meter, file, h.position);
      if m.expired then h.(meter := m)
      else
        var n := Min(w.refill(Spot(h.meter.tick, file, h.position)), Most(m.io, size - h.position));
        Head(h.position, n, m.(io := m.io + n))
  }

  /** The reader stays within the file and the budget. */
  predicate Fits(h: Head, size: nat) {
    h.position + h.buffered <= size && h.meter.io <= MAX_SCAN_BYTES
  }

  /** A line with its omission flag, a stop before the line was complete, or a file found shortened. */
  datatype ReadOutcome = Line(bytes: Bytes, omitted: bool) | Stopped | Shortened

  datatype Read = Read(outcome: ReadOutcome, head: Head, skipping: bool)

  function TextRead(c: Bytes, from: nat, to: nat, skipping: bool): Bytes
    requires from <= to <= |c|
  {
    if skipping then [] else c[from..to]
  }

  /** Where a turn of the loop stops: behind the newline, or at the end of the buffer or of the pinned bytes. */
  function TurnEnd(c: Bytes, h: Head): (next: nat)
    requires h.position < |c| && h.buffered > 0
    ensures h.position < next <= |c| && next <= h.position + h.buffered
  {
    Min(LineEnd(c, h.position), h.position + h.buffered)
  }

  /** One turn of the loop ends the read or takes it further into the line. */
  datatype Turn = Done(read: Read) | More(head: Head, skipping: bool)

  function Advanced(c: Bytes, h: Head): Head
    requires h.position < |c| && h.buffered > 0
  {
    Head(TurnEnd(c, h), h.buffered - (TurnEnd(c, h) - h.position), h.meter)
  }

  /** A turn that found bytes in the buffer. */
  function TurnOver(c: Bytes, from: nat, h: Head, skipping: bool): Turn
    requires from <= h.position < |c| && h.buffered > 0
  {
    var next := TurnEnd(c, h);
    var skipping' := skipping || next - from > MAX_LINE_BYTES;
    if c[next - 1] == NEWLINE then
      Done(Read(Line(TextRead(c, from, next, skipping'), skipping'), Advanced(c, h), false))
    else More(Advanced(c, h), skipping')
  }

  /** A turn on the line that began at `from`, in a file of `size` bytes of which `c` are pinned. */
  function ReadTurn(w: Schedule, file: nat, c: Bytes, size: nat, from: nat, h: Head, skipping: bool): (t: Turn)
    requires from <= h.position <= |c| <= size
    ensures if t.More? then h.position < t.head.position <= |c|
            else
              && h.position <= t.read.head.position <= |c|
              && (from < |c| && t.read.outcome.Line? ==> from < t.read.head.position)
  {
    var h0 := h.(meter := Asked(w, h.meter, file, h.position));
    if h0.meter.Halted() then Done(Read(Stopped, h0, skipping))
    else if h.position == |c| then
      if h.position == from && !skipping then Done(Read(Stopped, h0, false))
      else Done(Read(Line(TextRead(c, from, h.position, skipping), skipping), h0, false))
    else
      var h1 := Filled(w, file, size, h0);
      if h1.buffered > 0 then TurnOver(c, from, h1, skipping)
      else
        var h2 := h1.(meter := Asked(w, h1.meter, file, h1.position));
        Done(Read(if h2.meter.Halted() then Stopped else Shortened, h2, skipping))
  }

  /** The read of a line, turn by turn. */
  function ReadFrom(w: Schedule, file: nat, c: Bytes, size: nat, from: nat, h: Head, skipping: bool): (r: Read)
    requires from <= h.position <= |c| <= size
    ensures h.position <= r.head.position <= |c| && (from < |c| && r.outcome.Line? ==> from < r.head.position)
    decreases |c| - h.position
  {
    match ReadTurn(w, file, c, size, from, h, skipping)
    case Done(r) => r
    case More(h', skipping') => ReadFrom(w, file, c, size, from, h', skipping')
  }

  /** What a read of one line from `from` on may have done, whatever the schedule. */
  ghost predicate ReadsLine(c: Bytes, from: nat, skipping: bool, outcome: ReadOutcome, to: nat, skipping': bool)
    requires from < |c|
  {
    match outcome
    case Line(bytes, omitted) =>
      && to == LineEnd(c, from) && !skipping'
      && omitted == (skipping || to - from > MAX_LINE_BYTES)
      && (!omitted ==> bytes == c[from..to])
    case Stopped =>
      if skipping' then
        from <= to <= |c| && NoNewline(c, from, to) && (skipping || to - from > MAX_LINE_BYTES)
      else !skipping
    case Shortened => true
  }

  /** In the middle of a line that began at `from`, with `before` the skipping flag it began with. */
  ghost predicate MidLine(c: Bytes, size: nat, from: nat, h: Head, before: bool, skipping: bool) {
    && from <= h.position <= |c| <= size && from < |c| && Fits(h, size)
    && NoNewline(c, from, h.position)
    && skipping == (before || h.position - from > MAX_LINE_BYTES)
  }

  /** One turn takes the reader to the end of the line or further into it. */
  lemma TurnMeans(c: Bytes, from: nat, h: Head)
    requires from <= h.position < |c| && h.buffered > 0 && NoNewline(c, from, h.position)
    ensures var next := TurnEnd(c, h);
            if c[next - 1] == NEWLINE || next == |c| then LineEnd(c, from) == next && NoNewline(c, from, next - 1)
            else NoNewline(c, from, next)
  {
    LineEndMeaning(c, h.position);
    var next := TurnEnd(c, h);
    assert NoNewline(c, h.position, next - 1);
    assert NoNewline(c, from, next - 1);
    if c[next - 1] == NEWLINE || next == |c| {
      LineEndIs(c, from, next);
    }
  }

  /** What a finished read has to answer for. */
  ghost predicate Sound(w: Schedule, c: Bytes, size: nat, from: nat, before: bool, m: Meter, r: Read)
    requires from < |c|
  {
    && from <= r.head.position <= |c| && Fits(r.head, size) && Later(w, m, r.head.meter)
    && ReadsLine(c, from, before, r.outcome, r.head.position, r.skipping)
    && (r.outcome == Stopped ==> r.head.meter.Halted())
    && (r.outcome == Shortened ==> !Steady(w))
  }

  lemma TurnOverMeans(w: Schedule, c: Bytes, size: nat, from: nat, h: Head, before: bool, skipping: bool)
    requires MidLine(c, size, from, h, before, skipping) && h.position < |c| && h.buffered > 0
    ensures match TurnOver(c, from, h, skipping)
            case Done(r) => Sound(w, c, size, from, before, h.meter, r)
            case More(h', skipping') => MidLine(c, size, from, h', before, skipping') && h'.meter == h.meter
  {
    TurnMeans(c, from, h);
    assert NoNewline(c, from, TurnEnd(c, h) - 1);
  }

  lemma TurnSound(w: Schedule, file: nat, c: Bytes, size: nat, from: nat, h: Head, before: bool, skipping: bool)
    requires MidLine(c, size, from, h, before, skipping)
    ensures match ReadTurn(w, file, c, size, from, h, skipping)
            case Done(r) => Sound(w, c, size, from, before, h.meter, r)
            case More(h', skipping') => MidLine(c, size, from, h', before, skipping') && Later(w, h.meter, h'.meter)
  {
    var h0 := h.(meter := Asked(w, h.meter, file, h.position));
    if h.position == |c| {
      LineEndIs(c, from, |c|);
    } else if !h0.meter.Halted() {
      var h1 := Filled(w, file, size, h0);
      if h1.buffered > 0 {
        TurnOverMeans(w, c, size, from, h1, before, skipping);
      }
    }
  }

  /** Whatever the schedule: the line, whole or omitted, or a stop that is accounted for. */
  lemma {:induction false} ReadMeans(w: Schedule, file: nat, c: Bytes, size: nat, from: nat, h: Head,
                                     before: bool, skipping: bool)
    requires MidLine(c, size, from, h, before, skipping)
    ensures Sound(w, c, size, from, before, h.meter, ReadFrom(w, file, c, size, from, h, skipping))
    decreases |c| - h.position
  {
    TurnSound(w, file, c, size, from, h, before, skipping);
    var t := ReadTurn(w, file, c, size, from, h, skipping);
    if t.More? {
      ReadMeans(w, file, c, size, from, t.head, before, t.skipping);
    }
  }

  // ---- the objects

  /** The budget of one page. */
  class Budget {
    const world: Schedule
    var io: nat
    var expired: bool
    var tick: nat

    function Value(): Meter
      reads this
    {
      Meter(io, expired, tick)
    }

    constructor (world: Schedule)
      ensures this.world == world && Value() == Meter(0, false, 0)
    {
      this.world := world;
      io, expired, tick := 0, false, 0;
    }

    /** Whether the page has to stop, asked at a position of a file. */
    method Stopped(file: nat, position: nat) returns (stopped: bool)
      modifies this
      ensures Value() == Asked(world, old(Value()), file, position)
      ensures stopped <==> io >= MAX_SCAN_BYTES || expired
    {
      expired := expired || world.late(Spot(tick, file, position));
      tick := tick + 1;
      stopped := io >= MAX_SCAN_BYTES || expired;
    }
  }

  /** A buffered reader over a file whose reads are charged to the budget. */
  class LogReader {
    const file: nat
    const content: Bytes
    const budget: Budget
    var position: nat
    var buffered: nat

    ghost predicate Valid()
      reads this, budget
    {
      Fits(Value(), |content|)
    }

    function Value(): Head
      reads this, budget
    {
      Head(position, buffered, budget.Value())
    }

    constructor (file: nat, content: Bytes, budget: Budget)
      requires budget.io <= MAX_SCAN_BYTES
      ensures Valid() && this.file == file && this.content == content && this.budget == budget
    {
      this.file := file;
      this.content := content;
      this.budget := budget;
      position, buffered := 0, 0;
    }

    method Seek(target: nat)
      requires Valid() && target <= |content|
      modifies this
      ensures Valid() && position == target && buffered == 0
    {
      position, buffered := target, 0;
    }

    /** The buffered bytes, refilled when there are none; still none when late, out of budget, or the file was cut. */
    method FillBuf() returns (data: Bytes)
      requires Valid()
      modifies this`buffered, budget
      ensures Valid() && Value() == Filled(budget.world, file, |content|, old(Value()))
      ensures data == content[position..position + buffered]
    {
      if buffered == 0 {
        var asked := Spot(budget.tick, file, position);
        budget.expired := budget.expired || budget.world.late(asked);
        budget.tick := budget.tick + 1;
        if !budget.expired {
          buffered := Min(budget.world.refill(asked), Most(budget.io, |content| - position));
          budget.io := budget.io + buffered;
        }
      }
      data := content[position..position + buffered];
    }

    method Consume(count: nat)
      requires Valid() && count <= buffered
      modifies this
      ensures Valid() && position == old(position) + count && buffered == old(buffered) - count
    {
      position := position + count;
      buffered := buffered - count;
    }
  }

  /** The length of the first `length` bytes up to and including their first newline. */
  method CountToNewline(data: Bytes, length: nat) returns (count: nat)
    requires 0 < length <= |data|
    ensures 0 < count <= length
    ensures NoNewline(data, 0, count - 1)
    ensures data[count - 1] == NEWLINE || count == length
  {
    count := 1;
    while count < length && data[count - 1] != NEWLINE
      invariant 0 < count <= length && NoNewline(data, 0, count - 1)
    {
      count := count + 1;
    }
  }

  lemma CountIsTurn(content: Bytes, end: nat, h: Head, count: nat)
    requires h.position < end <= |content| && h.buffered > 0 && h.position + h.buffered <= |content|
    requires var data := content[h.position..h.position + h.buffered];
             && 0 < count <= Min(h.buffered, end - h.position) && NoNewline(data, 0, count - 1)
             && (data[count - 1] == NEWLINE || count == Min(h.buffered, end - h.position))
    ensures h.position + count == TurnEnd(content[..end], h)
  {
    var c, data := content[..end], content[h.position..h.position + h.buffered];
    assert forall k | 0 <= k < count :: data[k] == c[h.position + k];
    forall k | h.position <= k < h.position + count - 1 ensures c[k] != NEWLINE {
      assert data[k - h.position] != NEWLINE;
    }
    if c[h.position + count - 1] == NEWLINE || h.position + count == end {
      LineEndIs(c, h.position, h.position + count);
    } else {
      LineEndMeaning(c, h.position);
      LineEndBeyond(c, h.position, h.position + count);
    }
  }

  lemma {:induction false} LineEndBeyond(c: Bytes, i: nat, j: nat)
    requires i <= j < |c| && NoNewline(c, i, j)
    ensures LineEnd(c, i) > j
  {
    LineEndWithin(c, i, j);
  }

  /** Fills the buffer and takes from it up to the first newline; nothing when the refill came back empty. */
  method ReadChunk(reader: LogReader, end: nat) returns (chunk: Bytes)
    requires reader.Valid() && reader.position < end <= |reader.content|
    modifies reader, reader.budget
    ensures reader.Valid()
    ensures var h := Filled(reader.budget.world, reader.file, |reader.content|, old(reader.Value()));
            && h.position == old(reader.position)
            && if h.buffered == 0 then chunk == [] && reader.Value() == h
               else
                 var c := reader.content[..end];
                 chunk == c[h.position..TurnEnd(c, h)] && reader.Value() == Advanced(c, h)
  {
    var data := reader.FillBuf();
    if data == [] {
      return [];
    }
    var position := reader.position;
    ghost var h := reader.Value();
    var count := CountToNewline(data, Min(|data|, end - position));
    CountIsTurn(reader.content, end, h, count);
    chunk := data[..count];
    ChunkIs(reader.content, end, position, |data|, count);
    reader.Consume(count);
  }

  lemma ChunkIs(content: Bytes, end: nat, position: nat, length: nat, count: nat)
    requires position + length <= |content| && count <= length && position + count <= end <= |content|
    ensures content[position..position + length][..count] == content[..end][position..position + count]
  {
  }

  lemma Concatenates(c: Bytes, from: nat, middle: nat, to: nat)
    requires from <= middle <= to <= |c|
    ensures c[from..middle] + c[middle..to] == c[from..to]
  {
  }

  /** One turn of the loop; `line` is the text so far. */
  method ReadOneTurn(reader: LogReader, end: nat, ghost from: nat, line: Bytes, skipping: bool)
    returns (done: Option<ReadOutcome>, line': Bytes, skipping': bool)
    requires reader.Valid() && from <= reader.position <= end <= |reader.content|
    requires line == TextRead(reader.content[..end], from, reader.position, skipping)
    modifies reader, reader.budget
    ensures reader.Valid() && from <= reader.position <= end
    ensures var c := reader.content[..end];
            var t := ReadTurn(reader.budget.world, reader.file, c, |reader.content|, from, old(reader.Value()),
                              skipping);
            if done.Some? then t == Done(Read(done.value, reader.Value(), skipping'))
            else t == More(reader.Value(), skipping') && line' == TextRead(c, from, reader.position, skipping')
  {
    line', skipping' := line, skipping;
    var stopped := reader.budget.Stopped(reader.file, reader.position);
    if stopped {
      return Some(Stopped), line', skipping';
    }
    if reader.position >= end {
      if line == [] && !skipping {
        return Some(Stopped), line', false;
      }
      return Some(Line(line, skipping)), line', false;
    }
    ghost var position := reader.position;
    var chunk := ReadChunk(reader, end);
    if chunk == [] {
      stopped := reader.budget.Stopped(reader.file, reader.position);
      return Some(if stopped then Stopped else Shortened), line', skipping';
    }
    if !skipping && |line| + |chunk| <= MAX_LINE_BYTES {
      line' := line + chunk;
      Concatenates(reader.content[..end], from, position, reader.position);
    } else {
      skipping' := true;
      line' := [];
    }
    if chunk[|chunk| - 1] == NEWLINE {
      return Some(Line(line', skipping')), line', false;
    }
    done := None;
  }

  method ReadLine(reader: LogReader, end: nat, skippingBefore: bool) returns (outcome: ReadOutcome, skipping: bool)
    requires reader.Valid() && reader.position <= end <= |reader.content|
    modifies reader, reader.budget
    ensures reader.Valid() && reader.position <= end
    ensures Read(outcome, reader.Value(), skipping)
            == ReadFrom(reader.budget.world, reader.file, reader.content[..end], |reader.content|,
                        old(reader.position), old(reader.Value()), skippingBefore)
  {
    ghost var c, from := reader.content[..end], reader.position;
    var line: Bytes := [];
    skipping := skippingBefore;
    while true
      invariant reader.Valid() && from <= reader.position <= end
      invariant line == TextRead(c, from, reader.position, skipping)
      invariant ReadFrom(reader.budget.world, reader.file, c, |reader.content|, from, reader.Value(), skipping)
             == ReadFrom(reader.budget.world, reader.file, c, |reader.content|, from, old(reader.Value()),
                         skippingBefore)
      decreases end - reader.position
    {
      var done;
      done, line, skipping := ReadOneTurn(reader, end, from, line, skipping);
      if done.Some? {
        return done.value, skipping;
      }
    }
  }
}
