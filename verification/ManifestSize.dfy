/** How many ordinary calls make a manifest longer than the successor reads. */
module ManifestSize {
  import opened Options
  import opened CallIds
  import opened SuccessorPump
  import opened Ownership

  lemma {:induction false} JsonAtLeast(s: string)
    ensures JsonStringBytes(s) >= |s| + 2
    decreases |s|
  {
    if s != "" {
      JsonAtLeast(s[1..]);
    }
  }

  lemma {:induction false} JsonItemsAppend(items: seq<string>, more: seq<string>)
    ensures JsonItemsBytes(items + more) >= JsonItemsBytes(items) + JsonItemsBytes(more)
    decreases |items|
  {
    if items == [] {
      assert items + more == more;
    } else {
      assert (items + more)[1..] == items[1..] + more;
      JsonItemsAppend(items[1..], more);
    }
  }

  lemma ManifestOfAtLeast(id: string)
    ensures JsonItemsBytes(ManifestOf(id)) >= |id| + 2
  {
    JsonAtLeast(id);
  }

  /** Every listed id of 24 characters or more takes at least these and two quotes. */
  lemma {:induction false} ManyIdsAreLong(ids: seq<string>)
    requires forall id | id in ids :: |id| >= 24
    ensures JsonItemsBytes(LiveCallIds(ids)) >= 26 * |ids|
    decreases |ids|
  {
    if ids != [] {
      var n := |ids| - 1;
      ManyIdsAreLong(ids[..n]);
      JsonItemsAppend(LiveCallIds(ids[..n]), ManifestOf(ids[n]));
      ManifestOfAtLeast(ids[n]);
    }
  }

  /** From 40,330 such ids on, the manifest is longer than a mebibyte. */
  lemma ManyIdsOverflow(ids: seq<string>)
    requires |ids| >= 40330 && forall id | id in ids :: |id| >= 24
    ensures BodyBytes(LiveCallIds(ids)) > MAX_BODY_BYTES
  {
    ManyIdsAreLong(ids);
  }

  // ---- such dialogs exist

  function Pow10(n: nat): nat {
    if n == 0 then 1 else 10 * Pow10(n - 1)
  }

  /** A number in decimal, with leading zeros. */
  function Digits(k: nat, width: nat): (s: string)
    ensures |s| == width
  {
    if width == 0 then "" else Digits(k / 10, width - 1) + [('0' as int + k % 10) as char]
  }

  lemma {:induction false} DigitsDiffer(j: nat, k: nat, width: nat)
    requires j < Pow10(width) && k < Pow10(width) && Digits(j, width) == Digits(k, width)
    ensures j == k
    decreases width
  {
    if width > 0 {
      assert Digits(j, width)[..width - 1] == Digits(j / 10, width - 1);
      assert Digits(k, width)[..width - 1] == Digits(k / 10, width - 1);
      assert Digits(j, width)[width - 1] == Digits(k, width)[width - 1];
      DigitsDiffer(j / 10, k / 10, width - 1);
    }
  }

  /** The k-th of a number of dialogs whose Call-IDs are `width` digits and whose tags are one letter each. */
  function OrdinaryDialog(k: nat, width: nat): Dialog {
    Dialog(Digits(k, width), "x", "y")
  }

  ghost function OrdinaryDialogs(n: nat, width: nat): set<Dialog> {
    set k | 0 <= k < n :: OrdinaryDialog(k, width)
  }

  function OrdinaryIds(n: nat, width: nat): (ids: seq<string>)
    ensures |ids| == n && forall k | 0 <= k < n :: ids[k] == OrdinaryDialog(k, width).Id()
  {
    seq(n, k requires 0 <= k < n => OrdinaryDialog(k, width).Id())
  }

  lemma IdsDiffer(j: nat, k: nat, width: nat)
    requires j < Pow10(width) && k < Pow10(width) && OrdinaryDialog(j, width).Id() == OrdinaryDialog(k, width).Id()
    ensures j == k
  {
    var a, b := OrdinaryDialog(j, width), OrdinaryDialog(k, width);
    assert a.callId == a.Id()[..width] == b.Id()[..width] == b.callId;
    DigitsDiffer(j, k, width);
  }

  lemma OrdinaryIdsListed(n: nat, width: nat)
    ensures ListsIds(OrdinaryDialogs(n, width), OrdinaryIds(n, width))
  {
    forall id ensures id in OrdinaryIds(n, width) <==> exists d | d in OrdinaryDialogs(n, width) :: d.Id() == id {
      if id in OrdinaryIds(n, width) {
        var k :| 0 <= k < n && OrdinaryIds(n, width)[k] == id;
        assert OrdinaryDialog(k, width) in OrdinaryDialogs(n, width);
      }
      if d :| d in OrdinaryDialogs(n, width) && d.Id() == id {
        var k :| 0 <= k < n && d == OrdinaryDialog(k, width);
        assert OrdinaryIds(n, width)[k] == id;
      }
    }
  }

  lemma OrdinaryIdsOverflow(n: nat, width: nat)
    requires n >= 40330 && width >= 20
    ensures BodyBytes(LiveCallIds(OrdinaryIds(n, width))) > MAX_BODY_BYTES
  {
    forall id | id in OrdinaryIds(n, width) ensures |id| >= 24 {
      var k :| 0 <= k < n && OrdinaryIds(n, width)[k] == id;
    }
    ManyIdsOverflow(OrdinaryIds(n, width));
  }

  /**
   * Enough ordinary calls overflow the manifest: from 40,330 dialogs on, with distinct Call-IDs of twenty digits, there
   * is a run in which the successor takes the response of any of them for its own.
   */
  lemma ManyCallsLost(n: nat, width: nat, k: nat)
    requires 40330 <= n <= Pow10(width) && width >= 20 && k < n
    ensures forall i, j | 0 <= i < j < n :: OrdinaryIds(n, width)[i] != OrdinaryIds(n, width)[j]
    ensures exists run: seq<Pair>, moves: seq<Move> ::
              InjectsLiveResponse(run, moves, OrdinaryDialogs(n, width), OrdinaryDialog(k, width))
  {
    forall i, j | 0 <= i < j < n ensures OrdinaryIds(n, width)[i] != OrdinaryIds(n, width)[j] {
      if OrdinaryIds(n, width)[i] == OrdinaryIds(n, width)[j] {
        IdsDiffer(i, j, width);
      }
    }
    OrdinaryIdsListed(n, width);
    OrdinaryIdsOverflow(n, width);
    assert OrdinaryDialog(k, width) in OrdinaryDialogs(n, width);
    OversizedManifestLosesCalls(OrdinaryDialogs(n, width), OrdinaryIds(n, width), OrdinaryDialog(k, width));
  }
}
