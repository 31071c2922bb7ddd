/** The call-id manifest that the draining process pushes to its successor, and what membership in it means. */
module CallIds {
  import opened Options

  /** Position of the first '-', or the length when there is none. */
  function FirstDash(s: string): (n: nat)
    ensures n <= |s| && '-' !in s[..n] && (n < |s| ==> s[n] == '-')
  {
    if s == "" || s[0] == '-' then 0
    else
      assert s[..1 + FirstDash(s[1..])] == [s[0]] + s[1..][..FirstDash(s[1..])];
      1 + FirstDash(s[1..])
  }

  /** Everything before the first '-' of a dialog id, if it has one. */
  function WireCallId(id: string): Option<string> {
    if FirstDash(id) < |id| then Some(id[..FirstDash(id)]) else None
  }

  /** The first '-'-separated segment, of any string. */
  function Segment(s: string): string {
    s[..FirstDash(s)]
  }

  /** A dialog of the SIP stack; its id is the Call-ID and both tags, joined by '-'. */
  datatype Dialog = Dialog(callId: string, local: string, remote: string) {
    function Id(): string {
      callId + "-" + local + "-" + remote
    }
  }

  /** The manifest of a list of dialog ids: each id, and its bare Call-ID behind it. */
  function LiveCallIds(ids: seq<string>): seq<string> {
    if ids == [] then []
    else LiveCallIds(ids[..|ids| - 1]) + ManifestOf(ids[|ids| - 1])
  }

  function ManifestOf(id: string): seq<string> {
    if WireCallId(id).Some? then [id, WireCallId(id).value] else [id]
  }

  method CollectLiveCallIds(ids: seq<string>) returns (out: seq<string>)
    ensures out == LiveCallIds(ids)
  {
    out := [];
    for i := 0 to |ids|
      invariant out == LiveCallIds(ids[..i])
    {
      assert ids[..i + 1][..i] == ids[..i];
      out := out + [ids[i]];
      var wire := WireCallId(ids[i]);
      if wire.Some? {
        out := out + [wire.value];
      }
    }
    assert ids[..|ids|] == ids;
  }

  function ToSet(ids: seq<string>): set<string> {
    set id | id in ids
  }

  /** Whether a Call-ID from the wire is one the manifest knows, directly or through its own first segment. */
  predicate OldCallKnown(known: set<string>, callId: string) {
    callId in known || (WireCallId(callId).Some? && WireCallId(callId).value in known)
  }

  lemma {:induction false} ManifestHas(ids: seq<string>, x: string)
    ensures x in LiveCallIds(ids) <==> exists id | id in ids :: x in ManifestOf(id)
    decreases |ids|
  {
    if ids != [] {
      var front, last := ids[..|ids| - 1], ids[|ids| - 1];
      ManifestHas(front, x);
      assert ids == front + [last];
    }
  }

  lemma SegmentOfSegment(s: string)
    ensures Segment(Segment(s)) == Segment(s)
  {
    var t := Segment(s);
    if FirstDash(t) < |t| {
      assert t[FirstDash(t)] in t;
    }
  }

  /** A known Call-ID shares its segment with whatever it is known by. */
  lemma KnownBySegment(id: string, callId: string)
    ensures callId in ManifestOf(id) ==> Segment(callId) == Segment(id)
    ensures WireCallId(callId).Some? && Segment(callId) in ManifestOf(id) ==> Segment(callId) == Segment(id)
    ensures Segment(callId) == Segment(id) ==>
              callId in ManifestOf(id) || (WireCallId(callId).Some? && Segment(callId) in ManifestOf(id))
  {
    SegmentOfSegment(id);
    SegmentOfSegment(callId);
    if FirstDash(callId) == |callId| { assert Segment(callId) == callId; }
    if FirstDash(id) == |id| { assert Segment(id) == id; }
  }

  /**
   * The exact meaning of the two keys: a Call-ID, with or without '-', is known after a push exactly when its first
   * segment is that of some live dialog id.
   */
  lemma KnownIff(ids: seq<string>, callId: string)
    ensures OldCallKnown(ToSet(LiveCallIds(ids)), callId) <==> exists id | id in ids :: Segment(id) == Segment(callId)
  {
    ManifestHas(ids, callId);
    ManifestHas(ids, Segment(callId));
    if id :| id in ids && Segment(id) == Segment(callId) {
      KnownBySegment(id, callId);
    }
    if id :| id in ids && callId in ManifestOf(id) {
      KnownBySegment(id, callId);
    }
    if WireCallId(callId).Some? {
      if id :| id in ids && Segment(callId) in ManifestOf(id) {
        KnownBySegment(id, callId);
      }
    }
  }

  lemma {:induction false} SegmentOfPrefix(s: string, t: string)
    ensures Segment(s + "-" + t) == Segment(s)
    decreases |s|
  {
    var u := s + "-" + t;
    if s == "" || s[0] == '-' {
      assert u[0] == '-';
    } else {
      assert u[1..] == s[1..] + "-" + t;
      SegmentOfPrefix(s[1..], t);
      assert Segment(u) == [s[0]] + Segment(u[1..]);
      assert Segment(s) == [s[0]] + Segment(s[1..]);
    }
  }

  /** Hence every live dialog's own Call-ID is recognised. */
  lemma LiveCallKnown(ids: seq<string>, d: Dialog)
    requires d.Id() in ids
    ensures OldCallKnown(ToSet(LiveCallIds(ids)), d.callId)
  {
    KnownIff(ids, d.callId);
    assert d.Id() == d.callId + "-" + (d.local + "-" + d.remote);
    SegmentOfPrefix(d.callId, d.local + "-" + d.remote);
  }

  /** And membership is not strict: another call with the same first segment is recognised as well. */
  lemma SharedSegmentKnown(d: Dialog, other: string)
    ensures OldCallKnown(ToSet(LiveCallIds([d.Id()])), other) <==> Segment(other) == Segment(d.callId)
  {
    KnownIff([d.Id()], other);
    assert d.Id() == d.callId + "-" + (d.local + "-" + d.remote);
    SegmentOfPrefix(d.callId, d.local + "-" + d.remote);
  }

  // ---- the manifest as a message

  const MAX_BODY_BYTES: nat := 1024 * 1024

  /** The bytes of a character inside a JSON string. */
  function JsonCharBytes(c: char): nat {
    var n := c as int;
    if c == '"' || c == '\\' || n == 8 || n == 9 || n == 10 || n == 12 || n == 13 then 2
    else if n < 0x20 then 6
    else if n < 0x80 then 1
    else if n < 0x800 then 2
    else if n < 0x10000 then 3
    else 4
  }

  function JsonStringBytes(s: string): nat {
    if s == "" then 2 else JsonCharBytes(s[0]) + JsonStringBytes(s[1..])
  }

  function JsonItemsBytes(items: seq<string>): nat {
    if items == [] then 0
    else JsonStringBytes(items[0]) + (if |items| > 1 then 1 else 0) + JsonItemsBytes(items[1..])
  }

  /** The length of the body {"call_ids":[...]}. */
  function BodyBytes(callIds: seq<string>): nat {
    13 + JsonItemsBytes(callIds) + 2
  }

  /** The receiving side reads at most one mebibyte; a longer body counts as an empty manifest. */
  function ReadManifest(callIds: seq<string>): seq<string> {
    if BodyBytes(callIds) <= MAX_BODY_BYTES then callIds else []
  }
}
