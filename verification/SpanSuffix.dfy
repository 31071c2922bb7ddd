/** The recogniser for the tracing-span context that may follow a Call-ID in a log line. */
module SpanSuffix {
  import opened Options
  import opened Lines

  const QUOTE: Byte := 34
  const BACKSLASH: Byte := 92
  const OPEN: Byte := 123
  const CLOSE: Byte := 125
  const COLON: Byte := 58

  predicate IsAlphanumeric(b: Byte) {
    48 <= b <= 57 || 65 <= b <= 90 || 97 <= b <= 122
  }

  /** ASCII whitespace: tab, newline, form feed, carriage return, space. */
  predicate IsSpace(b: Byte) {
    b == 9 || b == 10 || b == 12 || b == 13 || b == 32
  }

  /** A byte of a span name: alphanumeric, '_', '-' or '.'. */
  predicate IsNameByte(b: Byte) {
    IsAlphanumeric(b) || b == 95 || b == 45 || b == 46
  }

  // ---- the grammar, as stretches s[i..j] of one byte string

  /** The inside of a quoted value and its closing quote; a backslash escapes any byte. */
  ghost predicate QuotedAt(s: Bytes, i: nat, j: nat)
    requires i <= |s|
    decreases |s| - i
  {
    i < |s| &&
    if s[i] == QUOTE then j == i + 1
    else if s[i] == BACKSLASH then i + 1 < |s| && QuotedAt(s, i + 2, j)
    else QuotedAt(s, i + 1, j)
  }

  /** The inside of a brace block: plain bytes, quoted values and nested blocks. */
  ghost predicate FieldsAt(s: Bytes, i: nat, j: nat)
    requires i <= |s|
    decreases |s| - i
  {
    i == j ||
    (i < |s| &&
     if s[i] == QUOTE then exists k | i + 1 < k <= |s| :: QuotedAt(s, i + 1, k) && FieldsAt(s, k, j)
     else if s[i] == OPEN then exists k | i < k < |s| :: FieldsAt(s, i + 1, k) && s[k] == CLOSE && FieldsAt(s, k + 1, j)
     else s[i] != CLOSE && FieldsAt(s, i + 1, j))
  }

  ghost predicate BlockAt(s: Bytes, i: nat, j: nat) {
    i + 1 < j <= |s| && s[i] == OPEN && FieldsAt(s, i + 1, j - 1) && s[j - 1] == CLOSE
  }

  ghost predicate NameAt(s: Bytes, i: nat, j: nat) {
    i < j <= |s| && forall k | i <= k < j :: IsNameByte(s[k])
  }

  /** A nested span: a name, perhaps a brace block, and a colon. */
  ghost predicate SpanAt(s: Bytes, i: nat, j: nat) {
    i < j <= |s| && s[j - 1] == COLON
    && (NameAt(s, i, j - 1) || exists k :: NameAt(s, i, k) && BlockAt(s, k, j - 1))
  }

  /** Zero or more nested spans, then whitespace. */
  ghost predicate SpansThenSpace(s: Bytes, i: nat)
    requires i <= |s|
    decreases |s| - i
  {
    || (i < |s| && IsSpace(s[i]))
    || exists j | i < j <= |s| :: SpanAt(s, i, j) && SpansThenSpace(s, j)
  }

  ghost predicate IsSpanSuffix(after: Bytes) {
    |after| >= 2 && after[0] == CLOSE && after[1] == COLON && SpansThenSpace(after, 2)
  }

  // ---- the scanner

  /** The state of a brace scan; it starts with `Scan(0, false, false)` on an open brace. */
  datatype Scan = Scan(depth: nat, quoted: bool, escaped: bool)

  const START := Scan(0, false, false)

  function ScanByte(st: Scan, b: Byte): (st': Scan)
    requires b == CLOSE ==> st.depth > 0
  {
    if st.escaped then st.(escaped := false)
    else if st.quoted && b == BACKSLASH then st.(escaped := true)
    else if b == QUOTE then st.(quoted := !st.quoted)
    else if st.quoted then st
    else if b == OPEN then st.(depth := st.depth + 1)
    else if b == CLOSE then st.(depth := st.depth - 1)
    else st
  }

  /** Where the scan stands when its depth has returned to zero. */
  function CloseIndex(s: Bytes, i: nat, st: Scan): (end: Option<nat>)
    requires i <= |s|
    requires st.depth > 0 || i == |s| || s[i] == OPEN
    ensures end.Some? ==> i < end.value <= |s|
    decreases |s| - i
  {
    if i == |s| then None
    else
      var st' := ScanByte(st, s[i]);
      if st'.depth == 0 then Some(i + 1) else CloseIndex(s, i + 1, st')
  }

  /** The end of the run of name bytes that starts at `i`. */
  function NameEnd(s: Bytes, i: nat): (end: nat)
    requires i <= |s|
    ensures i <= end <= |s|
    ensures forall k | i <= k < end :: IsNameByte(s[k])
    ensures end < |s| ==> !IsNameByte(s[end])
    decreases |s| - i
  {
    if i == |s| || !IsNameByte(s[i]) then i else NameEnd(s, i + 1)
  }

  /** What one turn of the recogniser does: accept, reject, or go on further right. */
  datatype Turn = Accept | Reject | Continue(next: nat)

  function AfterFields(s: Bytes, i: nat): (t: Turn)
    requires i <= |s|
    ensures t.Continue? ==> i < t.next <= |s|
  {
    if i < |s| && s[i] == COLON then Continue(i + 1) else Reject
  }

  function NextTurn(s: Bytes, i: nat): (t: Turn)
    requires i <= |s|
    ensures t.Continue? ==> i < t.next <= |s|
  {
    if i < |s| && IsSpace(s[i]) then Accept
    else
      var k := NameEnd(s, i);
      if k == i then Reject
      else if k < |s| && s[k] == OPEN then
        var end := CloseIndex(s, k, START);
        if end.None? then Reject else AfterFields(s, end.value)
      else AfterFields(s, k)
  }

  predicate Accepts(s: Bytes, i: nat)
    requires i <= |s|
    decreases |s| - i
  {
    var t := NextTurn(s, i);
    t.Accept? || (t.Continue? && Accepts(s, t.next))
  }

  // ---- everything in the grammar is accepted

  lemma {:induction false} ScanQuoted(s: Bytes, i: nat, j: nat, depth: nat)
    requires i <= |s| && depth > 0 && QuotedAt(s, i, j)
    ensures i < j <= |s|
    ensures CloseIndex(s, i, Scan(depth, true, false)) == CloseIndex(s, j, Scan(depth, false, false))
    decreases |s| - i
  {
    if s[i] == BACKSLASH {
      assert CloseIndex(s, i + 1, Scan(depth, true, true)) == CloseIndex(s, i + 2, Scan(depth, true, false));
      ScanQuoted(s, i + 2, j, depth);
    } else if s[i] != QUOTE {
      ScanQuoted(s, i + 1, j, depth);
    }
  }

  lemma {:induction false} ScanFields(s: Bytes, i: nat, j: nat, depth: nat)
    requires i <= |s| && depth > 0 && FieldsAt(s, i, j)
    ensures i <= j <= |s|
    ensures CloseIndex(s, i, Scan(depth, false, false)) == CloseIndex(s, j, Scan(depth, false, false))
    decreases |s| - i
  {
    if i == j {
    } else if s[i] == QUOTE {
      var k :| i + 1 < k <= |s| && QuotedAt(s, i + 1, k) && FieldsAt(s, k, j);
      ScanQuoted(s, i + 1, k, depth);
      ScanFields(s, k, j, depth);
    } else if s[i] == OPEN {
      var k :| i < k < |s| && FieldsAt(s, i + 1, k) && s[k] == CLOSE && FieldsAt(s, k + 1, j);
      ScanFields(s, i + 1, k, depth + 1);
      ScanFields(s, k + 1, j, depth);
    } else {
      ScanFields(s, i + 1, j, depth);
    }
  }

  lemma ScanBlock(s: Bytes, i: nat, j: nat)
    requires BlockAt(s, i, j)
    ensures CloseIndex(s, i, START) == Some(j)
  {
    ScanFields(s, i + 1, j - 1, 1);
  }

  lemma NameEndIs(s: Bytes, i: nat, end: nat)
    requires i <= end <= |s| && (forall k | i <= k < end :: IsNameByte(s[k])) && (end < |s| ==> !IsNameByte(s[end]))
    ensures NameEnd(s, i) == end
    decreases end - i
  {
  }

  lemma {:induction false} SpanTurn(s: Bytes, i: nat, j: nat)
    requires SpanAt(s, i, j)
    ensures NextTurn(s, i) == Continue(j)
  {
    if k :| NameAt(s, i, k) && BlockAt(s, k, j - 1) {
      NameEndIs(s, i, k);
      ScanBlock(s, k, j - 1);
      assert IsNameByte(s[i]);
    } else {
      NameEndIs(s, i, j - 1);
      assert IsNameByte(s[i]);
    }
  }

  lemma {:induction false} GrammarAccepted(s: Bytes, i: nat)
    requires i <= |s| && SpansThenSpace(s, i)
    ensures Accepts(s, i)
    decreases |s| - i
  {
    if !(i < |s| && IsSpace(s[i])) {
      var j :| i < j <= |s| && SpanAt(s, i, j) && SpansThenSpace(s, j);
      SpanTurn(s, i, j);
      GrammarAccepted(s, j);
    }
  }

  // ---- everything accepted is in the grammar

  /** s[i..j] closes `depth` levels of braces, innermost first. */
  ghost predicate LayersAt(s: Bytes, i: nat, j: nat, depth: nat)
    decreases depth
  {
    if depth == 0 then i == j
    else exists k | i <= k < |s| :: FieldsAt(s, i, k) && s[k] == CLOSE && LayersAt(s, k + 1, j, depth - 1)
  }

  lemma {:induction false} ParseQuoted(s: Bytes, i: nat, depth: nat) returns (j: nat)
    requires i <= |s| && depth > 0 && CloseIndex(s, i, Scan(depth, true, false)).Some?
    ensures i < j <= |s| && QuotedAt(s, i, j)
    ensures CloseIndex(s, i, Scan(depth, true, false)) == CloseIndex(s, j, Scan(depth, false, false))
    decreases |s| - i
  {
    if s[i] == QUOTE {
      j := i + 1;
    } else if s[i] == BACKSLASH {
      assert CloseIndex(s, i + 1, Scan(depth, true, true)).Some?;
      j := ParseQuoted(s, i + 2, depth);
    } else {
      j := ParseQuoted(s, i + 1, depth);
    }
  }

  lemma {:induction false} ParseLayers(s: Bytes, i: nat, depth: nat)
    requires i <= |s| && depth > 0 && CloseIndex(s, i, Scan(depth, false, false)).Some?
    ensures LayersAt(s, i, CloseIndex(s, i, Scan(depth, false, false)).value, depth)
    decreases |s| - i
  {
    var end := CloseIndex(s, i, Scan(depth, false, false)).value;
    if s[i] == CLOSE {
      if depth > 1 {
        ParseLayers(s, i + 1, depth - 1);
      }
      assert FieldsAt(s, i, i);
    } else if s[i] == QUOTE {
      var q := ParseQuoted(s, i + 1, depth);
      ParseLayers(s, q, depth);
      var k :| q <= k < |s| && FieldsAt(s, q, k) && s[k] == CLOSE && LayersAt(s, k + 1, end, depth - 1);
      assert FieldsAt(s, i, k);
    } else if s[i] == OPEN {
      ParseLayers(s, i + 1, depth + 1);
      var c :| i < c < |s| && FieldsAt(s, i + 1, c) && s[c] == CLOSE && LayersAt(s, c + 1, end, depth);
      assert LayersAt(s, c + 1, end, depth);
      var k :| c < k < |s| && FieldsAt(s, c + 1, k) && s[k] == CLOSE && LayersAt(s, k + 1, end, depth - 1);
      assert FieldsAt(s, i, k);
    } else {
      ParseLayers(s, i + 1, depth);
      var k :| i < k < |s| && FieldsAt(s, i + 1, k) && s[k] == CLOSE && LayersAt(s, k + 1, end, depth - 1);
      assert FieldsAt(s, i, k);
    }
  }

  lemma {:induction false} ParseBlock(s: Bytes, i: nat)
    requires i < |s| && s[i] == OPEN && CloseIndex(s, i, START).Some?
    ensures BlockAt(s, i, CloseIndex(s, i, START).value)
  {
    ParseLayers(s, i + 1, 1);
  }

  lemma {:induction false} AcceptedInGrammar(s: Bytes, i: nat)
    requires i <= |s| && Accepts(s, i)
    ensures SpansThenSpace(s, i)
    decreases |s| - i
  {
    var t := NextTurn(s, i);
    if t.Continue? {
      var k := NameEnd(s, i);
      assert NameAt(s, i, k);
      if k < |s| && s[k] == OPEN {
        ParseBlock(s, k);
        assert BlockAt(s, k, t.next - 1);
      }
      assert SpanAt(s, i, t.next);
      AcceptedInGrammar(s, t.next);
    }
  }

  /** The recogniser accepts exactly the grammar. */
  lemma AcceptsIff(s: Bytes, i: nat)
    requires i <= |s|
    ensures Accepts(s, i) <==> SpansThenSpace(s, i)
  {
    if Accepts(s, i) {
      AcceptedInGrammar(s, i);
    }
    if SpansThenSpace(s, i) {
      GrammarAccepted(s, i);
    }
  }

  // ---- the loops

  /** The position scan over one brace block: its depth counter never goes below zero. */
  method FindBlockEnd(s: Bytes, start: nat) returns (end: Option<nat>)
    requires start < |s| && s[start] == OPEN
    ensures end == CloseIndex(s, start, START)
  {
    var depth: nat, quoted, escaped := 0, false, false;
    for i := start to |s|
      invariant if i == start then depth == 0 && !quoted && !escaped else depth > 0
      invariant CloseIndex(s, start, START) == CloseIndex(s, i, Scan(depth, quoted, escaped))
    {
      var byte := s[i];
      if escaped {
        escaped := false;
      } else if quoted && byte == BACKSLASH {
        escaped := true;
      } else if byte == QUOTE {
        quoted := !quoted;
      } else if !quoted {
        if byte == OPEN {
          depth := depth + 1;
        } else if byte == CLOSE {
          depth := depth - 1;
        }
        if depth == 0 {
          return Some(i + 1);
        }
      }
    }
    end := None;
  }

  method FindNameEnd(s: Bytes, i: nat) returns (end: nat)
    requires i <= |s|
    ensures i <= end <= |s| && end == NameEnd(s, i)
  {
    end := i;
    while end < |s| && IsNameByte(s[end])
      invariant i <= end <= |s| && forall k | i <= k < end :: IsNameByte(s[k])
    {
      end := end + 1;
    }
    NameEndIs(s, i, end);
  }

  method Recognise(after: Bytes) returns (ok: bool)
    ensures ok <==> IsSpanSuffix(after)
  {
    if |after| < 2 || after[0] != CLOSE || after[1] != COLON {
      return false;
    }
    AcceptsIff(after, 2);
    var rest := 2;
    while true
      invariant 2 <= rest <= |after|
      invariant Accepts(after, rest) == Accepts(after, 2)
      decreases |after| - rest
    {
      if rest < |after| && IsSpace(after[rest]) {
        return true;
      }
      var nameEnd := FindNameEnd(after, rest);
      if nameEnd == rest {
        return false;
      }
      var fieldsEnd := nameEnd;
      if nameEnd < |after| && after[nameEnd] == OPEN {
        var end := FindBlockEnd(after, nameEnd);
        if end.None? {
          return false;
        }
        fieldsEnd := end.value;
      }
      if fieldsEnd == |after| || after[fieldsEnd] != COLON {
        return false;
      }
      rest := fieldsEnd + 1;
    }
  }
}
