/** The text mail payload: header lines, dot-stuffing and the terminating line of section 4.5.2 of RFC 5321. */
module SmtpPayload {
  import opened Options
  import opened Stretches

  // ---- lines

  predicate NoLineFeed(s: string) {
    '\n' !in s
  }

  /** Position of the first line feed, or the length when there is none. */
  function FirstLineFeed(s: string): (n: nat)
    ensures n <= |s| && NoLineFeed(s[..n]) && (n < |s| ==> s[n] == '\n')
  {
    if s == "" || s[0] == '\n' then 0
    else
      var n := FirstLineFeed(s[1..]);
      assert s[..1 + n] == [s[0]] + s[1..][..n];
      1 + n
  }

  /** The pieces between line feeds; one more than there are line feeds. */
  function Split(s: string): (pieces: seq<string>)
    ensures pieces != []
    decreases |s|
  {
    var n := FirstLineFeed(s);
    if n == |s| then [s] else [s[..n]] + Split(s[n + 1..])
  }

  lemma {:induction false} SplitPiecesPlain(s: string)
    ensures forall p | p in Split(s) :: NoLineFeed(p)
    decreases |s|
  {
    var n := FirstLineFeed(s);
    if n < |s| {
      SplitPiecesPlain(s[n + 1..]);
    } else {
      assert s[..n] == s;
    }
  }

  lemma FirstLineFeedIs(a: string, b: string)
    requires NoLineFeed(a)
    ensures FirstLineFeed(a + "\n" + b) == |a|
    decreases |a|
  {
    if a != "" {
      assert (a + "\n" + b)[1..] == a[1..] + "\n" + b;
      FirstLineFeedIs(a[1..], b);
    }
  }

  lemma SplitCons(a: string, b: string)
    requires NoLineFeed(a)
    ensures Split(a + "\n" + b) == [a] + Split(b)
  {
    FirstLineFeedIs(a, b);
    var s := a + "\n" + b;
    assert s[..|a|] == a && s[|a| + 1..] == b;
  }

  function TrimReturns(s: string): (t: string)
    ensures t <= s && (t == "" || t[|t| - 1] != '\r')
  {
    if s != "" && s[|s| - 1] == '\r' then TrimReturns(s[..|s| - 1]) else s
  }

  function TrimEach(lines: seq<string>): seq<string> {
    if lines == [] then [] else [TrimReturns(lines[0])] + TrimEach(lines[1..])
  }

  // ---- dot-stuffing

  /** A line as it goes over the wire. */
  function Stuffed(line: string): string {
    (if line != "" && line[0] == '.' then "." else "") + TrimReturns(line)
  }

  function StuffAll(lines: seq<string>): string {
    if lines == [] then "" else Stuffed(lines[0]) + "\r\n" + StuffAll(lines[1..])
  }

  lemma {:induction false} StuffAllAppend(lines: seq<string>, line: string)
    ensures StuffAll(lines + [line]) == StuffAll(lines) + (Stuffed(line) + "\r\n")
    decreases |lines|
  {
    if lines == [] {
      assert (lines + [line])[1..] == [];
    } else {
      assert (lines + [line])[1..] == lines[1..] + [line];
      StuffAllAppend(lines[1..], line);
      Regroup(Stuffed(lines[0]) + "\r\n", StuffAll(lines[1..]), Stuffed(line) + "\r\n");
    }
  }

  const TERMINATOR := ".\r\n"

  method PushStuffed(out: string, line: string) returns (out': string)
    ensures out' == out + (Stuffed(line) + "\r\n")
  {
    out' := out;
    if line != "" && line[0] == '.' {
      out' := out' + ".";
    }
    out' := out' + TrimReturns(line);
    out' := out' + "\r\n";
  }

  method DotStuffAndTerminate(payload: string) returns (out: string)
    ensures out == StuffAll(Split(payload)) + TERMINATOR
  {
    out := "";
    var lines := Split(payload);
    for i := 0 to |lines|
      invariant out == StuffAll(lines[..i])
    {
      var line := lines[i];
      out := PushStuffed(out, line);
      StuffAllAppend(lines[..i], line);
      assert lines[..i + 1] == lines[..i] + [line];
    }
    assert lines[..|lines|] == lines;
    out := out + ".\r\n";
  }

  // ---- the receiver

  /** Position of the first CRLF at or behind `i`. */
  function NextCrlf(s: string, i: nat): (e: Option<nat>)
    ensures e.Some? ==> i <= e.value && e.value + 2 <= |s|
    decreases if i < |s| then |s| - i else 0
  {
    if i + 2 > |s| then None
    else if s[i] == '\r' && s[i + 1] == '\n' then Some(i)
    else NextCrlf(s, i + 1)
  }

  /** The mail text received, line by line, and where the command channel goes on. */
  datatype Received = Received(lines: seq<string>, next: nat)

  /** The inverse of stuffing: one leading dot is removed. */
  function Unstuffed(line: string): string {
    if line != "" && line[0] == '.' then line[1..] else line
  }

  /**
   * Reading mail data: a line that is a single dot ends it; of any other line that begins with a dot, that dot is
   * removed. Without a terminating line nothing is received.
   */
  function Receive(s: string, i: nat): Option<Received>
    decreases if i < |s| then |s| - i else 0
  {
    var e := NextCrlf(s, i);
    if e.None? then None
    else
      var line := s[i..e.value];
      if line == "." then Some(Received([], e.value + 2))
      else
        var rest := Receive(s, e.value + 2);
        if rest.None? then None
        else Some(Received([Unstuffed(line)] + rest.value.lines, rest.value.next))
  }

  lemma {:induction false} NextCrlfIs(s: string, i: nat, t: string)
    requires NoLineFeed(t) && At(s, i, t + "\r\n")
    ensures NextCrlf(s, i) == Some(i + |t|)
    decreases |t|
  {
    AtSplit(s, i, t, "\r\n");
    assert s[i + |t|..i + |t| + 2] == "\r\n";
    assert s[i + |t|] == '\r' && s[i + |t| + 1] == '\n';
    if t != "" {
      assert s[i + 1] != '\n' by {
        if |t| > 1 { assert s[i + 1] == s[i..i + |t|][1] == t[1]; }
      }
      assert s[i + 1..i + 1 + |t[1..]|] == t[1..];
      assert s[i + 1..i + 1 + |t[1..] + "\r\n"|] == t[1..] + "\r\n";
      NextCrlfIs(s, i + 1, t[1..]);
    }
  }

  lemma StuffedPlain(line: string)
    requires NoLineFeed(line)
    ensures NoLineFeed(Stuffed(line)) && Stuffed(line) != "."
    ensures Unstuffed(Stuffed(line)) == TrimReturns(line)
  {
    var t := TrimReturns(line);
    assert t <= line;
    if line != "" && line[0] == '.' {
      TrimKeepsDot(line);
      assert Stuffed(line)[1..] == t;
    } else {
      assert Stuffed(line) == t;
      assert t != "" ==> t[0] == line[0];
    }
  }

  lemma {:induction false} TrimKeepsDot(line: string)
    requires line != "" && line[0] == '.'
    ensures TrimReturns(line) != "" && TrimReturns(line)[0] == '.'
    decreases |line|
  {
    if line[|line| - 1] == '\r' {
      TrimKeepsDot(line[..|line| - 1]);
    }
  }

  /** One line that is not the terminator. */
  lemma ReceiveLine(s: string, i: nat, line: string)
    requires NoLineFeed(line) && At(s, i, Stuffed(line) + "\r\n")
    ensures Receive(s, i) == Before([TrimReturns(line)], Receive(s, i + |Stuffed(line)| + 2))
  {
    StuffedPlain(line);
    ReceiveText(s, i, Stuffed(line));
  }

  lemma ReceiveText(s: string, i: nat, t: string)
    requires NoLineFeed(t) && t != "." && At(s, i, t + "\r\n")
    ensures Receive(s, i) == Before([Unstuffed(t)], Receive(s, i + |t| + 2))
  {
    NextCrlfIs(s, i, t);
    AtSplit(s, i, t, "\r\n");
  }

  lemma ReceiveEnd(s: string, i: nat)
    requires At(s, i, TERMINATOR)
    ensures Receive(s, i) == Some(Received([], i + |TERMINATOR|))
  {
    assert TERMINATOR == "." + "\r\n";
    NextCrlfIs(s, i, ".");
    AtSplit(s, i, ".", "\r\n");
  }

  /** Put in front of what else is received. */
  function Before(lines: seq<string>, rest: Option<Received>): Option<Received> {
    if rest.None? then None else Some(Received(lines + rest.value.lines, rest.value.next))
  }

  lemma BeforeBoth(line: string, lines: seq<string>, rest: Option<Received>)
    ensures Before([line], Before(lines, rest)) == Before([line] + lines, rest)
  {
    if rest.Some? { assert [line] + (lines + rest.value.lines) == [line] + lines + rest.value.lines; }
  }

  lemma StuffAllStands(s: string, i: nat, lines: seq<string>)
    requires lines != [] && At(s, i, StuffAll(lines))
    ensures At(s, i, Stuffed(lines[0]) + "\r\n") && At(s, i + |Stuffed(lines[0])| + 2, StuffAll(lines[1..]))
    ensures |StuffAll(lines)| == |Stuffed(lines[0])| + 2 + |StuffAll(lines[1..])|
  {
    AtSplit(s, i, Stuffed(lines[0]) + "\r\n", StuffAll(lines[1..]));
  }

  function Receiver(s: string): nat -> Option<Received> {
    (i: nat) => Receive(s, i)
  }

  /** The receiver takes the lines one by one, starting at `i`. */
  ghost predicate Takes(receive: nat -> Option<Received>, i: nat, lines: seq<string>)
    decreases |lines|
  {
    lines == [] ||
    (var next := i + |Stuffed(lines[0])| + 2;
     receive(i) == Before([TrimReturns(lines[0])], receive(next)) && Takes(receive, next, lines[1..]))
  }

  lemma {:induction false} TakesAll(receive: nat -> Option<Received>, i: nat, lines: seq<string>)
    requires Takes(receive, i, lines)
    ensures receive(i) == Before(TrimEach(lines), receive(i + |StuffAll(lines)|))
    decreases |lines|
  {
    if lines == [] {
      BeforeNone(receive(i));
    } else {
      var next := i + |Stuffed(lines[0])| + 2;
      TakesAll(receive, next, lines[1..]);
      assert |StuffAll(lines)| == |Stuffed(lines[0])| + 2 + |StuffAll(lines[1..])|;
      BeforeBoth(TrimReturns(lines[0]), TrimEach(lines[1..]), receive(i + |StuffAll(lines)|));
    }
  }

  lemma ReceiverLine(s: string, i: nat, line: string)
    requires NoLineFeed(line) && At(s, i, Stuffed(line) + "\r\n")
    ensures Receiver(s)(i) == Before([TrimReturns(line)], Receiver(s)(i + |Stuffed(line)| + 2))
  {
    ReceiveLine(s, i, line);
  }

  /** Wherever a stuffed line stands, the receiver takes it and goes on behind it. */
  ghost predicate TakesAnywhere(receive: nat -> Option<Received>, s: string) {
    forall i: nat, line {:trigger At(s, i, Stuffed(line) + "\r\n")}
      | NoLineFeed(line) && At(s, i, Stuffed(line) + "\r\n") ::
      receive(i) == Before([TrimReturns(line)], receive(i + |Stuffed(line)| + 2))
  }

  lemma ReceiverTakes(s: string)
    ensures TakesAnywhere(Receiver(s), s)
  {
    forall i: nat, line | NoLineFeed(line) && At(s, i, Stuffed(line) + "\r\n")
      ensures Receiver(s)(i) == Before([TrimReturns(line)], Receiver(s)(i + |Stuffed(line)| + 2))
    {
      ReceiverLine(s, i, line);
    }
  }

  lemma {:induction false} TakesStuffed(receive: nat -> Option<Received>, s: string, i: nat, lines: seq<string>)
    requires TakesAnywhere(receive, s)
    requires forall line | line in lines :: NoLineFeed(line)
    requires At(s, i, StuffAll(lines))
    ensures Takes(receive, i, lines)
    decreases |lines|
  {
    if lines != [] {
      StuffAllStands(s, i, lines);
      assert lines[0] in lines;
      TakesStuffed(receive, s, i + |Stuffed(lines[0])| + 2, lines[1..]);
    }
  }

  /** Whatever the lines, the receiver gets them back, and goes on behind them. */
  lemma ReceiveLines(s: string, i: nat, lines: seq<string>)
    requires forall line | line in lines :: NoLineFeed(line)
    requires At(s, i, StuffAll(lines))
    ensures Receiver(s)(i) == Before(TrimEach(lines), Receiver(s)(i + |StuffAll(lines)|))
  {
    ReceiverTakes(s);
    TakesStuffed(Receiver(s), s, i, lines);
    TakesAll(Receiver(s), i, lines);
  }

  lemma BeforeNone(rest: Option<Received>)
    ensures Before([], rest) == rest
  {
    if rest.Some? { assert [] + rest.value.lines == rest.value.lines; }
  }

  // ---- the payload

  datatype Mail = Mail(subject: string, body: string, fromName: Option<string>, footer: Option<string>)

  predicate OneLine(s: string) {
    '\r' !in s && '\n' !in s
  }

  /** A header value on one line: line breaks become spaces. */
  function EncodeHeader(value: string): (encoded: string)
    ensures |encoded| == |value| && OneLine(encoded)
  {
    seq(|value|, k requires 0 <= k < |value| => if value[k] == '\r' || value[k] == '\n' then ' ' else value[k])
  }

  /** Encoding changes exactly the values that hold a line break, and leaves nothing more to change. */
  lemma EncodeHeaderOnlyBreaks(value: string)
    ensures EncodeHeader(value) == value <==> OneLine(value)
    ensures EncodeHeader(EncodeHeader(value)) == EncodeHeader(value)
    ensures forall k | 0 <= k < |value| && OneLine([value[k]]) :: EncodeHeader(value)[k] == value[k]
  {
    if EncodeHeader(value) == value {
      assert OneLine(EncodeHeader(value));
    }
    forall k | 0 <= k < |value| && OneLine([value[k]]) ensures EncodeHeader(value)[k] == value[k] {
      assert value[k] in [value[k]];
    }
  }

  function Replace(s: string, c: char, sub: string): string {
    if s == "" then "" else (if s[0] == c then sub else [s[0]]) + Replace(s[1..], c, sub)
  }

  function FormatFrom(from: string, fromName: Option<string>): string {
    var addr := EncodeHeader(from);
    if fromName.None? then addr
    else "\"" + Replace(Replace(EncodeHeader(fromName.value), '\\', "\\\\"), '"', "\\\"") + "\" <" + addr + ">"
  }

  function RenderBody(body: string, footer: Option<string>): string {
    if footer.None? || footer.value == "" then body
    else body + (if body == "" then "" else "\n\n") + footer.value
  }

  function JoinRecipients(recipients: seq<string>): string {
    if recipients == [] then ""
    else EncodeHeader(recipients[0]) + (if |recipients| > 1 then ", " else "") + JoinRecipients(recipients[1..])
  }

  const MIME_VERSION := "MIME-Version: 1.0"
  const CONTENT_TYPE := "Content-Type: " + "text/plain; " + "charset=utf-8"

  /** The five header lines of a text mail. */
  function HeaderLines(from: string, mail: Mail, recipients: seq<string>): seq<string> {
    [ "From: " + FormatFrom(from, mail.fromName),
      "To: " + JoinRecipients(recipients),
      "Subject: " + EncodeHeader(mail.subject),
      MIME_VERSION,
      CONTENT_TYPE ]
  }

  function Crlf(lines: seq<string>): string {
    if lines == [] then "" else Crlf(lines[..|lines| - 1]) + lines[|lines| - 1] + "\r\n"
  }

  lemma CrlfPush(lines: seq<string>, k: nat)
    requires k < |lines|
    ensures Crlf(lines[..k + 1]) == Crlf(lines[..k]) + lines[k] + "\r\n"
  {
    assert lines[..k + 1][..k] == lines[..k];
  }

  method PushLine(payload: string, line: string, ghost lines: seq<string>, ghost k: nat) returns (out: string)
    requires k < |lines| && lines[k] == line && payload == Crlf(lines[..k])
    ensures out == payload + line + "\r\n" && out == Crlf(lines[..k + 1])
  {
    CrlfPush(lines, k);
    out := payload + line + "\r\n";
  }

  /** The lines common to all mails. */
  method HeaderBlock(from: string, mail: Mail, recipients: seq<string>, ghost lines: seq<string>)
    returns (payload: string)
    requires lines == HeaderLines(from, mail, recipients) + [""]
    ensures payload == Crlf(lines[..4])
  {
    payload := PushLine("", "From: " + FormatFrom(from, mail.fromName), lines, 0);
    payload := PushLine(payload, "To: " + JoinRecipients(recipients), lines, 1);
    payload := PushLine(payload, "Subject: " + EncodeHeader(mail.subject), lines, 2);
    payload := PushLine(payload, MIME_VERSION, lines, 3);
  }

  /** Those, then the ones of a text mail: its content type and the blank line. */
  method TextHead(from: string, mail: Mail, recipients: seq<string>) returns (payload: string)
    ensures payload == Crlf(HeaderLines(from, mail, recipients) + [""])
  {
    ghost var lines := HeaderLines(from, mail, recipients) + [""];
    payload := HeaderBlock(from, mail, recipients, lines);
    payload := PushLine(payload, CONTENT_TYPE, lines, 4);
    payload := PushLine(payload, "", lines, 5);
    assert lines[..6] == lines;
  }

  /** What is stuffed and sent: header lines, blank line, rendered body. */
  function TextPayload(head: seq<string>, body: string): string {
    StuffAll(Split(Crlf(head) + body)) + TERMINATOR
  }

  method BuildPayload(from: string, mail: Mail, recipients: seq<string>) returns (out: string)
    ensures out == TextPayload(HeaderLines(from, mail, recipients) + [""], RenderBody(mail.body, mail.footer))
    ensures Receive(out, 0) ==
            Some(Received(HeaderLines(from, mail, recipients) + [""]
                          + TrimEach(Split(RenderBody(mail.body, mail.footer))), |out|))
  {
    var payload := TextHead(from, mail, recipients);
    payload := payload + RenderBody(mail.body, mail.footer);
    out := DotStuffAndTerminate(payload);
    PayloadReceived(from, mail, recipients, "");
    assert out + "" == out;
  }

  // ---- what the receiver gets

  lemma {:induction false} ReplaceOneLine(s: string, c: char, sub: string)
    requires OneLine(s) && OneLine(sub)
    ensures OneLine(Replace(s, c, sub))
    decreases |s|
  {
    if s != "" {
      ReplaceOneLine(s[1..], c, sub);
    }
  }

  lemma {:induction false} RecipientsOneLine(recipients: seq<string>)
    ensures OneLine(JoinRecipients(recipients))
    decreases |recipients|
  {
    if recipients != [] {
      RecipientsOneLine(recipients[1..]);
    }
  }

  lemma FromOneLine(from: string, fromName: Option<string>)
    ensures OneLine(FormatFrom(from, fromName))
  {
    if fromName.Some? {
      var name := Replace(EncodeHeader(fromName.value), '\\', "\\\\");
      ReplaceOneLine(EncodeHeader(fromName.value), '\\', "\\\\");
      ReplaceOneLine(name, '"', "\\\"");
    }
  }

  lemma PrefixOneLine(prefix: string, value: string)
    requires OneLine(prefix) && OneLine(value)
    ensures OneLine(prefix + value)
  {
  }

  lemma FromLineOneLine(from: string, mail: Mail)
    ensures OneLine("From: " + FormatFrom(from, mail.fromName))
  {
    FromOneLine(from, mail.fromName);
    PrefixOneLine("From: ", FormatFrom(from, mail.fromName));
  }

  lemma ToLineOneLine(recipients: seq<string>)
    ensures OneLine("To: " + JoinRecipients(recipients))
  {
    RecipientsOneLine(recipients);
    PrefixOneLine("To: ", JoinRecipients(recipients));
  }

  lemma SubjectLineOneLine(subject: string)
    ensures OneLine("Subject: " + EncodeHeader(subject))
  {
    PrefixOneLine("Subject: ", EncodeHeader(subject));
  }

  lemma MimeVersionOneLine()
    ensures OneLine(MIME_VERSION)
  {
  }

  lemma ContentTypeOneLine()
    ensures OneLine(CONTENT_TYPE)
  {
    PrefixOneLine("Content-Type: ", "text/plain; ");
    PrefixOneLine("Content-Type: " + "text/plain; ", "charset=utf-8");
  }

  lemma EachOneLine(a: string, b: string, c: string, d: string, e: string)
    requires OneLine(a) && OneLine(b) && OneLine(c) && OneLine(d) && OneLine(e)
    ensures forall line | line in [a, b, c, d, e] :: OneLine(line)
  {
  }

  /** No header value can break its line, whatever line breaks it was given. */
  lemma HeadersOneLine(from: string, mail: Mail, recipients: seq<string>)
    ensures forall line | line in HeaderLines(from, mail, recipients) :: OneLine(line)
  {
    FromLineOneLine(from, mail);
    ToLineOneLine(recipients);
    SubjectLineOneLine(mail.subject);
    MimeVersionOneLine();
    ContentTypeOneLine();
    EachOneLine("From: " + FormatFrom(from, mail.fromName), "To: " + JoinRecipients(recipients),
                "Subject: " + EncodeHeader(mail.subject), MIME_VERSION, CONTENT_TYPE);
  }

  function WithReturn(lines: seq<string>): seq<string> {
    if lines == [] then [] else WithReturn(lines[..|lines| - 1]) + [lines[|lines| - 1] + "\r"]
  }

  lemma CrlfFront(lines: seq<string>, body: string)
    requires lines != []
    ensures var front, last := lines[..|lines| - 1], lines[|lines| - 1];
            Crlf(lines) + body == Crlf(front) + ((last + "\r") + "\n" + body)
  {
  }

  /** Lines that are single lines come apart again at their line feeds. */
  lemma {:induction false} SplitHeader(lines: seq<string>, body: string)
    requires forall line | line in lines :: OneLine(line)
    ensures Split(Crlf(lines) + body) == WithReturn(lines) + Split(body)
    decreases |lines|
  {
    if lines == [] {
      assert Crlf(lines) + body == body;
    } else {
      var front, last := lines[..|lines| - 1], lines[|lines| - 1];
      assert last in lines && NoLineFeed(last + "\r");
      CrlfFront(lines, body);
      SplitHeader(front, (last + "\r") + "\n" + body);
      SplitCons(last + "\r", body);
      assert WithReturn(front) + ([last + "\r"] + Split(body)) == WithReturn(front) + [last + "\r"] + Split(body);
    }
  }

  lemma {:induction false} TrimEachAppend(a: seq<string>, b: seq<string>)
    ensures TrimEach(a + b) == TrimEach(a) + TrimEach(b)
    decreases |a|
  {
    if a == [] {
      assert a + b == b;
    } else {
      assert (a + b)[1..] == a[1..] + b;
      TrimEachAppend(a[1..], b);
    }
  }

  lemma TrimAddedReturn(line: string)
    requires OneLine(line)
    ensures TrimReturns(line + "\r") == line
  {
    assert (line + "\r")[..|line|] == line;
    if line != "" { assert line[|line| - 1] in line; }
  }

  lemma {:induction false} TrimWithReturn(lines: seq<string>)
    requires forall line | line in lines :: OneLine(line)
    ensures TrimEach(WithReturn(lines)) == lines
    decreases |lines|
  {
    if lines != [] {
      var front, last := lines[..|lines| - 1], lines[|lines| - 1];
      assert last in lines;
      TrimWithReturn(front);
      TrimEachAppend(WithReturn(front), [last + "\r"]);
      TrimAddedReturn(last);
      assert TrimEach([last + "\r"]) == [last];
      assert lines == front + [last];
    }
  }

  lemma TextReceived(head: seq<string>, body: string, more: string)
    requires forall line | line in head :: OneLine(line)
    ensures Receive(TextPayload(head, body) + more, 0)
            == Some(Received(head + TrimEach(Split(body)), |TextPayload(head, body)|))
  {
    var payload := TextPayload(head, body);
    SplitHeader(head, body);
    TrimEachAppend(WithReturn(head), Split(body));
    TrimWithReturn(head);
    SplitPiecesPlain(Crlf(head) + body);
    Terminated(Split(Crlf(head) + body), more);
  }

  /** Terminated lines are received whole, and nothing behind the terminator is touched. */
  lemma Terminated(lines: seq<string>, more: string)
    requires forall line | line in lines :: NoLineFeed(line)
    ensures Receive(StuffAll(lines) + TERMINATOR + more, 0)
            == Some(Received(TrimEach(lines), |StuffAll(lines) + TERMINATOR|))
  {
    var text := StuffAll(lines);
    var s := text + TERMINATOR + more;
    assert s[0..|text|] == text && s[|text|..|text| + |TERMINATOR|] == TERMINATOR;
    ReceiveLines(s, 0, lines);
    ReceiveEnd(s, |text|);
    assert TrimEach(lines) + [] == TrimEach(lines);
  }

  /**
   * Transparency and framing: whatever carriage returns, line feeds and dots the inputs contain, and whatever the
   * connection carries afterwards, the receiver of a payload gets exactly five header lines, a blank line and the
   * lines of the rendered body without trailing carriage returns, and stops exactly at the end of the payload.
   */
  lemma PayloadReceived(from: string, mail: Mail, recipients: seq<string>, more: string)
    ensures var head := HeaderLines(from, mail, recipients) + [""];
            var body := RenderBody(mail.body, mail.footer);
            Receive(TextPayload(head, body) + more, 0)
            == Some(Received(head + TrimEach(Split(body)), |TextPayload(head, body)|))
  {
    HeadersOneLine(from, mail, recipients);
    TextReceived(HeaderLines(from, mail, recipients) + [""], RenderBody(mail.body, mail.footer), more);
  }

  /** The terminator is needed: without it, nothing counts as received. */
  lemma UnterminatedUnreceived(lines: seq<string>)
    requires forall line | line in lines :: NoLineFeed(line)
    ensures Receive(StuffAll(lines), 0) == None
  {
    var text := StuffAll(lines);
    assert text[0..|text|] == text;
    ReceiveLines(text, 0, lines);
  }
}
