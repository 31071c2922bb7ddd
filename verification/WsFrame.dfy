/** The WebSocket frame codec: base framing and client masking as in sections 5.2 and 5.3 of RFC 6455. */
module WsFrame {
  import opened Options
  import opened Stretches
  import opened Lines

  /** An opcode of any value may be asked for; only its low four bits travel. */
  datatype Frame = Frame(opcode: nat, payload: Bytes)

  // ---- bits of octets

  /** Exclusive or of the low `bits` bits. */
  function XorBits(a: nat, b: nat, bits: nat): (x: nat)
    ensures x < Pow2(bits)
  {
    if bits == 0 then 0 else (if a % 2 == b % 2 then 0 else 1) + 2 * XorBits(a / 2, b / 2, bits - 1)
  }

  function Pow2(k: nat): nat {
    if k == 0 then 1 else 2 * Pow2(k - 1)
  }

  const OCTET_BITS: nat := 8

  function Xor(a: Byte, b: Byte): Byte {
    assert Pow2(8) == 256;
    XorBits(a, b, OCTET_BITS)
  }

  lemma {:induction false} XorBitsTwice(a: nat, b: nat, bits: nat)
    requires a < Pow2(bits)
    ensures XorBits(XorBits(a, b, bits), b, bits) == a
    decreases bits
  {
    if bits > 0 {
      var low, high := if a % 2 == b % 2 then 0 else 1, XorBits(a / 2, b / 2, bits - 1);
      var x := XorBits(a, b, bits);
      assert x == low + 2 * high && x % 2 == low && x / 2 == high;
      XorBitsTwice(a / 2, b / 2, bits - 1);
    }
  }

  lemma XorTwice(b: Byte, k: Byte)
    ensures Xor(Xor(b, k), k) == b
  {
    assert Pow2(8) == 256 && OCTET_BITS == 8;
    XorBitsTwice(b, k, OCTET_BITS);
  }

  // ---- big-endian lengths

  /** The widths of the two extended lengths. */
  const SHORT_WIDTH: nat := 2
  const LONG_WIDTH: nat := 8

  function Pow256(k: nat): nat {
    if k == 0 then 1 else 256 * Pow256(k - 1)
  }

  lemma Widths()
    ensures Pow256(SHORT_WIDTH) == 65536 && Pow256(LONG_WIDTH) == 0x1_0000_0000_0000_0000
  {
    assert Pow256(2) == 65536 && Pow256(8) == 0x1_0000_0000_0000_0000;
  }

  function BigEndian(n: nat, width: nat): (b: Bytes)
    ensures |b| == width
  {
    if width == 0 then [] else BigEndian(n / 256, width - 1) + [n % 256]
  }

  /** The number in the `width` octets at `i`. */
  function NumberAt(s: Bytes, i: nat, width: nat): nat
    requires i + width <= |s|
  {
    if width == 0 then 0 else NumberAt(s, i, width - 1) * 256 + s[i + width - 1]
  }

  lemma {:induction false} BigEndianRoundTrip(s: Bytes, i: nat, n: nat, width: nat)
    requires n < Pow256(width) && At(s, i, BigEndian(n, width))
    ensures NumberAt(s, i, width) == n
    decreases width
  {
    if width > 0 {
      AtSplit(s, i, BigEndian(n / 256, width - 1), [n % 256]);
      assert s[i + width - 1] == s[i + width - 1..i + width][0];
      BigEndianRoundTrip(s, i, n / 256, width - 1);
    }
  }

  // ---- writing

  function Masked(payload: Bytes, key: Bytes): (masked: Bytes)
    requires |key| == 4
    ensures |masked| == |payload|
    ensures forall i | 0 <= i < |payload| :: masked[i] == Xor(payload[i], key[i % 4])
  {
    seq(|payload|, i requires 0 <= i < |payload| => Xor(payload[i], key[i % 4]))
  }

  /** Masking twice with the same key is the identity. */
  lemma MaskedTwice(payload: Bytes, key: Bytes)
    requires |key| == 4
    ensures Masked(Masked(payload, key), key) == payload
  {
    forall i | 0 <= i < |payload| ensures Masked(Masked(payload, key), key)[i] == payload[i] {
      XorTwice(payload[i], key[i % 4]);
    }
  }

  /** The second octet and the extended length: the mask bit is the high bit of the former. */
  function LengthField(n: nat, masked: bool): Bytes {
    var maskBit := if masked then 128 else 0;
    if n < 126 then [maskBit + n]
    else if n < 65536 then [maskBit + 126] + BigEndian(n, SHORT_WIDTH)
    else [maskBit + 127] + BigEndian(n, LONG_WIDTH)
  }

  /** FIN set, and the low four bits of the opcode. */
  function FirstOctet(opcode: nat): Byte {
    128 + opcode % 16
  }

  type Key = key: Bytes | |key| == 4 witness [0, 0, 0, 0]

  function Encode(f: Frame, mask: Option<Key>): Bytes {
    [FirstOctet(f.opcode)] + LengthField(|f.payload|, mask.Some?) + Body(f.payload, mask)
  }

  function Body(payload: Bytes, mask: Option<Key>): Bytes {
    if mask.Some? then mask.value + Masked(payload, mask.value) else payload
  }

  method MaskPayload(payload: Bytes, key: Key) returns (body: Bytes)
    ensures body == Masked(payload, key)
  {
    body := [];
    for i := 0 to |payload|
      invariant |body| == i && forall k | 0 <= k < i :: body[k] == Xor(payload[k], key[k % 4])
    {
      body := body + [Xor(payload[i], key[i % 4])];
    }
  }

  /** A length of 2^64 or more does not fit the 64-bit field: packing it fails and nothing is sent. */
  method WriteFrame(f: Frame, mask: Option<Key>) returns (sent: Option<Bytes>)
    ensures sent == if |f.payload| < Pow256(LONG_WIDTH) then Some(Encode(f, mask)) else None
  {
    var out: Bytes := [FirstOctet(f.opcode)];
    var n := |f.payload|;
    var maskBit := if mask.Some? then 128 else 0;
    Widths();
    if n < 126 {
      out := out + [maskBit + n];
    } else if n < 65536 {
      out := out + [maskBit + 126];
      out := out + BigEndian(n, SHORT_WIDTH);
    } else {
      if n >= 0x1_0000_0000_0000_0000 {
        return None;
      }
      out := out + [maskBit + 127];
      out := out + BigEndian(n, LONG_WIDTH);
    }
    assert out == [FirstOctet(f.opcode)] + LengthField(n, mask.Some?);
    if mask.Some? {
      ghost var head := out;
      out := out + mask.value;
      var body := MaskPayload(f.payload, mask.value);
      out := out + body;
      assert out == head + (mask.value + body);
    } else {
      out := out + f.payload;
    }
    sent := Some(out);
  }

  // ---- reading

  datatype Header = Header(opcode: nat, masked: bool, length: nat, next: nat)

  function HeaderAt(s: Bytes, i: nat): (h: Option<Header>)
    ensures h.Some? ==> i + 2 <= h.value.next <= |s|
  {
    if i + 2 > |s| then None
    else
      var opcode := s[i] % 16;
      var masked := s[i + 1] >= 128;
      var short := s[i + 1] % 128;
      if short == 126 then
        if i + 4 > |s| then None else Some(Header(opcode, masked, NumberAt(s, i + 2, SHORT_WIDTH), i + 4))
      else if short == 127 then
        if i + 10 > |s| then None else Some(Header(opcode, masked, NumberAt(s, i + 2, LONG_WIDTH), i + 10))
      else Some(Header(opcode, masked, short, i + 2))
  }

  /** The payload behind a header, unmasked if need be. */
  function PayloadAt(s: Bytes, i: nat, n: nat, masked: bool): Option<Bytes> {
    var start := if masked then i + 4 else i;
    if start + n > |s| then None
    else if masked then Some(Masked(s[start..start + n], s[i..start]))
    else Some(s[start..start + n])
  }

  /** A frame read, and where the next one starts. */
  datatype Parsed = Parsed(frame: Frame, next: nat)

  function FrameAt(s: Bytes, i: nat): (p: Option<Parsed>)
    ensures p.Some? ==> i < p.value.next <= |s|
  {
    var h := HeaderAt(s, i);
    if h.None? then None
    else
      var payload := PayloadAt(s, h.value.next, h.value.length, h.value.masked);
      if payload.None? then None
      else
        var next := h.value.next + (if h.value.masked then 4 else 0) + h.value.length;
        Some(Parsed(Frame(h.value.opcode, payload.value), next))
  }

  /** The frames a reader gets out of a stream of length `end`, from `i` on, until one attempt fails. */
  function ReadAll(read: nat -> Option<Parsed>, end: nat, i: nat): seq<Frame>
    decreases if i < end then end - i else 0
  {
    if i >= end || read(i).None? || !(i < read(i).value.next <= end) then []
    else [read(i).value.frame] + ReadAll(read, end, read(i).value.next)
  }

  function Reader(s: Bytes): nat -> Option<Parsed> {
    (j: nat) => FrameAt(s, j)
  }

  function FramesFrom(s: Bytes, i: nat): seq<Frame> {
    ReadAll(Reader(s), |s|, i)
  }

  // ---- the socket

  /** A stream socket: `stream` is all that the peer will ever send, `position` how much of it has been received. */
  class Socket {
    const stream: Bytes
    var position: nat

    ghost predicate Valid()
      reads this
    {
      position <= |stream|
    }

    constructor (stream: Bytes)
      ensures Valid() && this.stream == stream && position == 0
    {
      this.stream := stream;
      position := 0;
    }

    /** At most `n` octets, as many as happen to be there; none only at the end of the stream. */
    method Recv(n: nat) returns (chunk: Bytes)
      requires Valid() && n > 0
      modifies this
      ensures Valid() && position == old(position) + |chunk| && |chunk| <= n
      ensures chunk == stream[old(position)..position]
      ensures chunk == [] ==> position == |stream|
    {
      var some: nat := *;
      var most: nat := if n < |stream| - position then n else |stream| - position;
      var count: nat := if most == 0 then 0 else if 0 < some < most then some else most;
      chunk := stream[position..position + count];
      position := position + count;
    }

    method RecvExactly(n: nat) returns (buf: Option<Bytes>)
      requires Valid()
      modifies this
      ensures Valid()
      ensures if old(position) + n <= |stream|
              then buf == Some(stream[old(position)..old(position) + n]) && position == old(position) + n
              else buf == None
    {
      var got: Bytes := [];
      while |got| < n
        invariant Valid() && |got| <= n && position == old(position) + |got|
        invariant got == stream[old(position)..position]
      {
        var chunk := Recv(n - |got|);
        if chunk == [] {
          return None;
        }
        got := got + chunk;
      }
      buf := Some(got);
    }

    method ReadFrame() returns (r: Option<Frame>)
      requires Valid()
      modifies this
      ensures Valid()
      ensures var p := FrameAt(stream, old(position));
              if p.Some? then r == Some(p.value.frame) && position == p.value.next else r == None
    {
      var h := ReadHeader();
      if h.None? {
        return None;
      }
      var header := h.value;
      var key: Bytes := [];
      if header.masked {
        var k := RecvExactly(4);
        if k.None? {
          return None;
        }
        key := k.value;
      }
      var payload: Bytes := [];
      if header.length != 0 {
        var body := RecvExactly(header.length);
        if body.None? {
          return None;
        }
        payload := body.value;
      }
      assert payload == stream[position - header.length..position];
      if header.masked {
        payload := Masked(payload, key);
      }
      r := Some(Frame(header.opcode, payload));
    }

    method ReadHeader() returns (h: Option<Header>)
      requires Valid()
      modifies this
      ensures Valid() && h == HeaderAt(stream, old(position))
      ensures h.Some? ==> position == h.value.next
    {
      var start := position;
      var hdr := RecvExactly(2);
      if hdr.None? {
        return None;
      }
      assert hdr.value[0] == stream[start] && hdr.value[1] == stream[start + 1];
      var opcode := hdr.value[0] % 16;
      var masked := hdr.value[1] >= 128;
      var short := hdr.value[1] % 128;
      var length: nat := short;
      if short == 126 {
        var ext := RecvExactly(2);
        if ext.None? {
          return None;
        }
        length := NumberAt(ext.value, 0, |ext.value|);
        NumberAtSlice(stream, start + 2, |ext.value|);
      } else if short == 127 {
        var ext := RecvExactly(8);
        if ext.None? {
          return None;
        }
        length := NumberAt(ext.value, 0, |ext.value|);
        NumberAtSlice(stream, start + 2, |ext.value|);
      }
      h := Some(Header(opcode, masked, length, position));
    }
  }

  // ---- round trips

  lemma HeaderRoundTrip(s: Bytes, i: nat, opcode: nat, n: nat, masked: bool)
    requires n < Pow256(LONG_WIDTH) && i < |s| && s[i] == FirstOctet(opcode) && At(s, i + 1, LengthField(n, masked))
    ensures HeaderAt(s, i) == Some(Header(opcode % 16, masked, n, i + 1 + |LengthField(n, masked)|))
  {
    Widths();
    if n < 126 {
      assert s[i + 1] == s[i + 1..i + 2][0];
    } else if n < 65536 {
      ExtendedLength(s, i + 1, (if masked then 128 else 0) + 126, n, SHORT_WIDTH);
    } else {
      ExtendedLength(s, i + 1, (if masked then 128 else 0) + 127, n, LONG_WIDTH);
    }
  }

  lemma ExtendedLength(s: Bytes, i: nat, octet: Byte, n: nat, width: nat)
    requires n < Pow256(width) && At(s, i, [octet] + BigEndian(n, width))
    ensures i + 1 + width <= |s| && s[i] == octet && NumberAt(s, i + 1, width) == n
  {
    AtSplit(s, i, [octet], BigEndian(n, width));
    assert s[i] == s[i..i + 1][0];
    BigEndianRoundTrip(s, i + 1, n, width);
  }

  /** The frame as it comes back: only the low four bits of the opcode travel. */
  function Trimmed(f: Frame): Frame {
    f.(opcode := f.opcode % 16)
  }

  lemma BodyRoundTrip(s: Bytes, i: nat, payload: Bytes, mask: Option<Key>)
    requires At(s, i, Body(payload, mask))
    ensures PayloadAt(s, i, |payload|, mask.Some?) == Some(payload)
  {
    if mask.Some? {
      AtSplit(s, i, mask.value, Masked(payload, mask.value));
      MaskedTwice(payload, mask.value);
    }
  }

  lemma EncodedParts(s: Bytes, i: nat, f: Frame, mask: Option<Key>)
    requires At(s, i, Encode(f, mask))
    ensures var field := LengthField(|f.payload|, mask.Some?);
            && i < |s| && s[i] == FirstOctet(f.opcode) && At(s, i + 1, field)
            && At(s, i + 1 + |field|, Body(f.payload, mask))
            && |Encode(f, mask)| == 1 + |field| + |Body(f.payload, mask)|
  {
    var first, field, body := [FirstOctet(f.opcode)], LengthField(|f.payload|, mask.Some?), Body(f.payload, mask);
    AtSplit(s, i, first + field, body);
    AtSplit(s, i, first, field);
    assert s[i] == s[i..i + 1][0];
  }

  /** A written frame, wherever it stands in the stream and whatever its mask, is read back. */
  lemma FrameRoundTrip(s: Bytes, i: nat, f: Frame, mask: Option<Key>)
    requires |f.payload| < Pow256(LONG_WIDTH) && At(s, i, Encode(f, mask))
    ensures FrameAt(s, i) == Some(Parsed(Trimmed(f), i + |Encode(f, mask)|))
  {
    EncodedParts(s, i, f, mask);
    PartsRoundTrip(s, i, f, mask, LengthField(|f.payload|, mask.Some?), Body(f.payload, mask));
  }

  lemma PartsRoundTrip(s: Bytes, i: nat, f: Frame, mask: Option<Key>, field: Bytes, body: Bytes)
    requires |f.payload| < Pow256(LONG_WIDTH) && i < |s| && s[i] == FirstOctet(f.opcode)
    requires field == LengthField(|f.payload|, mask.Some?) && At(s, i + 1, field)
    requires body == Body(f.payload, mask) && At(s, i + 1 + |field|, body)
    ensures FrameAt(s, i) == Some(Parsed(Trimmed(f), i + 1 + |field| + |body|))
  {
    HeaderRoundTrip(s, i, f.opcode, |f.payload|, mask.Some?);
    BodyRoundTrip(s, i + 1 + |field|, f.payload, mask);
    FrameIs(s, i, Header(f.opcode % 16, mask.Some?, |f.payload|, i + 1 + |field|), f.payload);
  }

  lemma FrameIs(s: Bytes, i: nat, h: Header, payload: Bytes)
    requires HeaderAt(s, i) == Some(h) && PayloadAt(s, h.next, h.length, h.masked) == Some(payload)
    ensures FrameAt(s, i) == Some(Parsed(Frame(h.opcode, payload), h.next + (if h.masked then 4 else 0) + h.length))
  {
  }

  // ---- broken-off frames

  lemma NumberAtPrefix(s: Bytes, k: nat, i: nat, width: nat)
    requires k <= |s| && i + width <= k
    ensures NumberAt(s[..k], i, width) == NumberAt(s, i, width)
  {
  }

  lemma NumberAtSlice(s: Bytes, i: nat, width: nat)
    requires i + width <= |s|
    ensures NumberAt(s[i..i + width], 0, width) == NumberAt(s, i, width)
  {
    NumberShifted(s, i, s[i..i + width], width);
  }

  lemma NumberShifted(s: Bytes, i: nat, t: Bytes, width: nat)
    requires i + width <= |s| && width <= |t| && forall k | 0 <= k < width :: t[k] == s[i + k]
    ensures NumberAt(t, 0, width) == NumberAt(s, i, width)
  {
  }

  /** What is missing at the end of the stream never makes a different header. */
  lemma HeaderOfPrefix(s: Bytes, k: nat, i: nat)
    requires k <= |s|
    ensures HeaderAt(s[..k], i).Some? ==> HeaderAt(s, i) == HeaderAt(s[..k], i)
  {
    if i + 4 <= k { NumberAtPrefix(s, k, i + 2, SHORT_WIDTH); }
    if i + 10 <= k { NumberAtPrefix(s, k, i + 2, LONG_WIDTH); }
  }

  /** A stream that breaks off inside a frame yields nothing for it. */
  lemma BrokenFrameUnread(s: Bytes, k: nat, i: nat)
    requires k <= |s| && FrameAt(s, i).Some? && k < FrameAt(s, i).value.next
    ensures FrameAt(s[..k], i) == None
  {
    HeaderOfPrefix(s, k, i);
  }

  lemma StrictPrefixUnread(f: Frame, mask: Option<Key>, k: nat)
    requires |f.payload| < Pow256(LONG_WIDTH) && k < |Encode(f, mask)|
    ensures FrameAt(Encode(f, mask)[..k], 0) == None
  {
    var s := Encode(f, mask);
    assert s[0..|s|] == s;
    FrameRoundTrip(s, 0, f, mask);
    BrokenFrameUnread(s, k, 0);
  }

  // ---- sequences of frames

  datatype Sent = Sent(frame: Frame, mask: Option<Key>)

  function Join(codes: seq<Bytes>): Bytes {
    if codes == [] then [] else codes[0] + Join(codes[1..])
  }

  function Codes(sent: seq<Sent>): (codes: seq<Bytes>)
    ensures |codes| == |sent|
    ensures forall k | 0 <= k < |sent| :: codes[k] == Encode(sent[k].frame, sent[k].mask)
  {
    seq(|sent|, k requires 0 <= k < |sent| => Encode(sent[k].frame, sent[k].mask))
  }

  function Frames(sent: seq<Sent>): (frames: seq<Frame>)
    ensures |frames| == |sent|
    ensures forall k | 0 <= k < |sent| :: frames[k] == sent[k].frame
  {
    seq(|sent|, k requires 0 <= k < |sent| => sent[k].frame)
  }

  ghost predicate Sendable(sent: seq<Sent>) {
    forall k | 0 <= k < |sent| :: sent[k].frame.opcode < 16 && |sent[k].frame.payload| < Pow256(LONG_WIDTH)
  }

  /** The reader finds the frames one behind the other, from `i` to `e`. */
  ghost predicate Chain(read: nat -> Option<Parsed>, i: nat, frames: seq<Frame>, e: nat)
    decreases |frames|
  {
    if frames == [] then i == e
    else
      && read(i).Some? && i < read(i).value.next <= e && read(i).value.frame == frames[0]
      && Chain(read, read(i).value.next, frames[1..], e)
  }

  lemma {:induction false} ReadAllChain(read: nat -> Option<Parsed>, end: nat, i: nat, frames: seq<Frame>, e: nat)
    requires Chain(read, i, frames, e) && e <= end
    ensures ReadAll(read, end, i) == frames + ReadAll(read, end, e)
    decreases |frames|
  {
    if frames == [] {
      assert frames + ReadAll(read, end, e) == ReadAll(read, end, e);
    } else {
      ReadAllChain(read, end, read(i).value.next, frames[1..], e);
      assert frames == [frames[0]] + frames[1..];
    }
  }

  /** Wherever the code stands in the stream, the reader finds the frame there. */
  ghost predicate FoundAt(read: nat -> Option<Parsed>, s: Bytes, code: Bytes, f: Frame) {
    code != [] && forall j: nat {:trigger At(s, j, code)} | At(s, j, code) :: read(j) == Some(Parsed(f, j + |code|))
  }

  ghost predicate AllFound(read: nat -> Option<Parsed>, s: Bytes, codes: seq<Bytes>, frames: seq<Frame>) {
    |codes| == |frames|
    && (codes == [] || (FoundAt(read, s, codes[0], frames[0]) && AllFound(read, s, codes[1..], frames[1..])))
  }

  lemma {:induction false} CodesChain(read: nat -> Option<Parsed>, s: Bytes, i: nat, codes: seq<Bytes>,
                                      frames: seq<Frame>)
    requires AllFound(read, s, codes, frames)
    requires At(s, i, Join(codes))
    ensures Chain(read, i, frames, i + |Join(codes)|)
    decreases |codes|
  {
    if codes != [] {
      AtSplit(s, i, codes[0], Join(codes[1..]));
      assert FoundAt(read, s, codes[0], frames[0]);
      CodesChain(read, s, i + |codes[0]|, codes[1..], frames[1..]);
    }
  }

  lemma SentFound(s: Bytes, f: Frame, mask: Option<Key>)
    requires f.opcode < 16 && |f.payload| < Pow256(LONG_WIDTH)
    ensures FoundAt(Reader(s), s, Encode(f, mask), f)
  {
    forall j: nat | At(s, j, Encode(f, mask)) ensures Reader(s)(j) == Some(Parsed(f, j + |Encode(f, mask)|)) {
      FrameRoundTrip(s, j, f, mask);
    }
  }

  lemma {:induction false} AllSentFound(s: Bytes, sent: seq<Sent>)
    requires Sendable(sent)
    ensures AllFound(Reader(s), s, Codes(sent), Frames(sent))
    decreases |sent|
  {
    if sent != [] {
      SentFound(s, sent[0].frame, sent[0].mask);
      AllSentFound(s, sent[1..]);
      assert Codes(sent)[1..] == Codes(sent[1..]) && Frames(sent)[1..] == Frames(sent[1..]);
    }
  }

  lemma CodesRoundTrip(read: nat -> Option<Parsed>, s: Bytes, i: nat, codes: seq<Bytes>, frames: seq<Frame>)
    requires AllFound(read, s, codes, frames)
    requires At(s, i, Join(codes))
    ensures ReadAll(read, |s|, i) == frames + ReadAll(read, |s|, i + |Join(codes)|)
  {
    CodesChain(read, s, i, codes, frames);
    ReadAllChain(read, |s|, i, frames, i + |Join(codes)|);
  }

  lemma FoundFramesRead(s: Bytes, i: nat, codes: seq<Bytes>, frames: seq<Frame>)
    requires AllFound(Reader(s), s, codes, frames) && At(s, i, Join(codes))
    ensures FramesFrom(s, i) == frames + FramesFrom(s, i + |Join(codes)|)
  {
    CodesRoundTrip(Reader(s), s, i, codes, frames);
  }

  /** From where written frames stand in a stream, the reader gives them back, and then what follows. */
  lemma FramesRoundTrip(s: Bytes, i: nat, sent: seq<Sent>)
    requires Sendable(sent) && At(s, i, Join(Codes(sent)))
    ensures FramesFrom(s, i) == Frames(sent) + FramesFrom(s, i + |Join(Codes(sent))|)
  {
    AllSentFound(s, sent);
    FoundFramesRead(s, i, Codes(sent), Frames(sent));
  }

  /**
   * A stream of written frames that breaks off inside one more, or exactly before it, is read back as exactly those
   * frames: all of them, in order, and nothing else.
   */
  lemma StreamRoundTrip(sent: seq<Sent>, f: Frame, mask: Option<Key>, k: nat)
    requires Sendable(sent) && |f.payload| < Pow256(LONG_WIDTH) && k < |Encode(f, mask)|
    ensures FramesFrom(Join(Codes(sent)) + Encode(f, mask)[..k], 0) == Frames(sent)
  {
    var head := Join(Codes(sent));
    var s := head + Encode(f, mask)[..k];
    assert At(s, 0, head) by { assert s[0..|head|] == head; }
    FramesRoundTrip(s, 0, sent);
    TailUnread(head, f, mask, k);
    NoMoreFrames(s, |head|);
    assert Frames(sent) + [] == Frames(sent);
  }

  lemma NoMoreFrames(s: Bytes, i: nat)
    requires FrameAt(s, i) == None
    ensures FramesFrom(s, i) == []
  {
    assert Reader(s)(i) == None;
  }

  lemma AtEnd(head: Bytes, code: Bytes, k: nat)
    requires k <= |code|
    ensures At(head + code, |head|, code) && head + code[..k] == (head + code)[..|head| + k]
  {
    assert (head + code)[|head|..] == code;
  }

  lemma BrokenTail(head: Bytes, code: Bytes, k: nat)
    requires FrameAt(head + code, |head|).Some? && FrameAt(head + code, |head|).value.next == |head| + |code|
    requires k < |code|
    ensures FrameAt(head + code[..k], |head|) == None
  {
    AtEnd(head, code, k);
    BrokenFrameUnread(head + code, |head| + k, |head|);
  }

  lemma TailUnread(head: Bytes, f: Frame, mask: Option<Key>, k: nat)
    requires |f.payload| < Pow256(LONG_WIDTH) && k < |Encode(f, mask)|
    ensures FrameAt(head + Encode(f, mask)[..k], |head|) == None
  {
    var code := Encode(f, mask);
    AtEnd(head, code, k);
    FrameRoundTrip(head + code, |head|, f, mask);
    BrokenTail(head, code, k);
  }
}
