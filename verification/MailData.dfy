/** The DATA payload of the failure mail, and a receiver that follows section 4.5.2 of RFC 5321. */
module MailData {
  import opened Basics

  const CRLF: string := ['\r', '\n']

  // ---------------------------------------------------------------------------
  // sender
  // ---------------------------------------------------------------------------

  /** replace(/\r?\n/g, "\r\n") */
  function Normalise(s: string): string {
    if s == [] then []
    else if |s| >= 2 && s[0] == '\r' && s[1] == '\n' then CRLF + Normalise(s[2..])
    else if s[0] == '\n' then CRLF + Normalise(s[1..])
    else [s[0]] + Normalise(s[1..])
  }

  /** The characters after which a multi-line ^ matches. */
  predicate IsTerminator(c: char) { c == '\n' || c == '\r' || c as int == 0x2028 || c as int == 0x2029 }

  /** replace(/^\./gm, ".."), for a text that starts at a line start or not. */
  function Stuff(s: string, lineStart: bool): string {
    if s == [] then []
    else (if lineStart && s[0] == '.' then ['.', '.'] else [s[0]]) + Stuff(s[1..], IsTerminator(s[0]))
  }

  const CONTENT_TYPE: string := "Content-Type: text/plain; charset=utf-8"

  function Headers(sender: string, to: string, subject: string): seq<string> {
    ["From: " + sender, "To: " + to, "Subject: " + subject, CONTENT_TYPE, ""]
  }

  /** Every line with its line end. */
  function Ended(lines: seq<string>): string {
    if lines == [] then [] else lines[0] + CRLF + Ended(lines[1..])
  }

  /** What sendEmail writes after the 354 reply. */
  function Payload(sender: string, to: string, subject: string, body: string): string {
    Ended(Headers(sender, to, subject)) + Stuff(Normalise(body), true) + CRLF + ['.'] + CRLF
  }

  // ---------------------------------------------------------------------------
  // receiver
  // ---------------------------------------------------------------------------

  /** The length of the line before the first CRLF; |s| when there is none. */
  function LineLength(s: string): (n: nat)
    ensures n <= |s|
    ensures n < |s| ==> n + 2 <= |s| && s[n] == '\r' && s[n + 1] == '\n'
  {
    if s == [] then 0
    else if |s| >= 2 && s[0] == '\r' && s[1] == '\n' then 0
    else 1 + LineLength(s[1..])
  }

  function Unstuffed(line: string): string { if line != [] && line[0] == '.' then line[1..] else line }

  datatype Mail = Mail(text: string, rest: string)

  /** Lines up to the one that is a single dot, each without its leading dot; None while that line is missing. */
  function Receive(stream: string): Option<Mail>
    decreases |stream|
  {
    var n := LineLength(stream);
    if n == |stream| then None
    else if stream[..n] == ['.'] then Some(Mail([], stream[n + 2..]))
    else match Receive(stream[n + 2..])
      case None => None
      case Some(mail) => Some(Mail(Unstuffed(stream[..n]) + CRLF + mail.text, mail.rest))
  }

  // ---------------------------------------------------------------------------
  // the lines of a body
  // ---------------------------------------------------------------------------

  function Lines(s: string): (ls: seq<string>)
    ensures ls != []
  {
    if s == [] then [[]]
    else if |s| >= 2 && s[0] == '\r' && s[1] == '\n' then [[]] + Lines(s[2..])
    else if s[0] == '\n' then [[]] + Lines(s[1..])
    else var rest := Lines(s[1..]); [[s[0]] + rest[0]] + rest[1..]
  }

  predicate OneLine(l: string) { '\n' !in l }

  /** No line end inside: what a receiver takes for one line. */
  predicate NoCrlf(l: string) { forall i :: 0 <= i < |l| - 1 ==> !(l[i] == '\r' && l[i + 1] == '\n') }

  lemma {:induction false} LinesAreLines(s: string)
    ensures forall i :: 0 <= i < |Lines(s)| ==> OneLine(Lines(s)[i])
  {
    if s != [] {
      if |s| >= 2 && s[0] == '\r' && s[1] == '\n' {
        LinesAreLines(s[2..]);
      } else {
        LinesAreLines(s[1..]);
      }
    }
  }

  /** Normalising is splitting into lines and ending each with CRLF. */
  lemma {:induction false} NormaliseEndsLines(s: string)
    ensures Normalise(s) + CRLF == Ended(Lines(s))
  {
    if s == [] {
      assert Lines(s) == [[]] && Ended([[]]) == [] + CRLF + Ended([]);
    } else if |s| >= 2 && s[0] == '\r' && s[1] == '\n' {
      NormaliseEndsLines(s[2..]);
      EndedBreak(Normalise(s[2..]), Lines(s[2..]));
    } else if s[0] == '\n' {
      NormaliseEndsLines(s[1..]);
      EndedBreak(Normalise(s[1..]), Lines(s[1..]));
    } else {
      NormaliseEndsLines(s[1..]);
      EndedPrepends(s[0], Lines(s[1..]));
      ConcatAssoc([s[0]], Normalise(s[1..]), CRLF);
    }
  }

  lemma EndedBreak(text: string, ls: seq<string>)
    requires text + CRLF == Ended(ls)
    ensures (CRLF + text) + CRLF == Ended([[]] + ls)
  {
    EndedFirst([], ls);
    ConcatAssoc(CRLF, text, CRLF);
  }

  lemma EndedPrepends(c: char, ls: seq<string>)
    requires ls != []
    ensures Ended([[c] + ls[0]] + ls[1..]) == [c] + Ended(ls)
  {
    var first, rest := ls[0], ls[1..];
    EndedFirst([c] + first, rest);
    Regroup([c], first, CRLF, Ended(rest));
  }

  lemma Regroup(a: string, b: string, c: string, d: string)
    ensures a + b + c + d == a + (b + c + d)
  {}

  lemma EndedFirst(l: string, ls: seq<string>)
    ensures Ended([l] + ls) == l + CRLF + Ended(ls)
  {
    assert ([l] + ls)[1..] == ls;
  }

  // ---------------------------------------------------------------------------
  // stuffing, line by line
  // ---------------------------------------------------------------------------

  function StuffedLines(ls: seq<string>): (r: seq<string>)
    ensures |r| == |ls|
    ensures forall i :: 0 <= i < |ls| ==> r[i] == Stuff(ls[i], true)
  {
    if ls == [] then [] else [Stuff(ls[0], true)] + StuffedLines(ls[1..])
  }

  lemma StuffLineEnd(rest: string, lineStart: bool)
    ensures Stuff(CRLF + rest, lineStart) == CRLF + Stuff(rest, true)
  {
    var s := CRLF + rest;
    assert s[0] == '\r' && s[1..][0] == '\n' && s[1..][1..] == rest;
  }

  lemma {:induction false} StuffOverLineEnd(l: string, rest: string, lineStart: bool)
    requires OneLine(l)
    ensures Stuff(l + CRLF + rest, lineStart) == Stuff(l, lineStart) + CRLF + Stuff(rest, true)
  {
    if l == [] {
      assert l + CRLF + rest == CRLF + rest;
      StuffLineEnd(rest, lineStart);
    } else {
      var s, tail := l + CRLF + rest, Stuff(l[1..], IsTerminator(l[0]));
      assert s[0] == l[0] && s[1..] == l[1..] + CRLF + rest;
      StuffOverLineEnd(l[1..], rest, IsTerminator(l[0]));
      Regroup(if lineStart && l[0] == '.' then ['.', '.'] else [l[0]], tail, CRLF, Stuff(rest, true));
    }
  }

  /** Stuffing a text of lines stuffs each of them at its start. */
  lemma {:induction false} StuffIsPerLine(ls: seq<string>)
    requires forall i :: 0 <= i < |ls| ==> OneLine(ls[i])
    ensures Stuff(Ended(ls), true) == Ended(StuffedLines(ls))
  {
    if ls != [] {
      StuffOverLineEnd(ls[0], Ended(ls[1..]), true);
      StuffIsPerLine(ls[1..]);
    }
  }

  lemma {:induction false} StuffKeepsOneLine(l: string, lineStart: bool)
    requires OneLine(l)
    ensures OneLine(Stuff(l, lineStart))
  {
    if l != [] { StuffKeepsOneLine(l[1..], IsTerminator(l[0])); }
  }

  /** A stuffed line is never the lone dot, and un-stuffing it undoes the stuffing at its start. */
  lemma StuffedLineIsSafe(l: string)
    ensures Stuff(l, true) != ['.']
    ensures Unstuffed(Stuff(l, true)) == Stuff(l, false)
  {
    if l != [] && l[0] == '.' {
      var rest := Stuff(l[1..], false);
      assert Stuff(l, true) == ['.', '.'] + rest && Stuff(l, false) == ['.'] + rest;
      assert (['.', '.'] + rest)[1..] == ['.'] + rest;
      assert |['.', '.'] + rest| >= 2;
    } else if l != [] {
      assert Stuff(l, true)[0] == l[0];
    }
  }
}
