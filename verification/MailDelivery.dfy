/** What a receiver makes of the failure mail: where it ends, and when it arrives as written. */
module MailDelivery {
  import opened Basics
  import opened MailData

  // ---------------------------------------------------------------------------
  // receiving lines
  // ---------------------------------------------------------------------------

  lemma {:induction false} FirstLine(l: string, rest: string)
    requires NoCrlf(l)
    ensures LineLength(l + CRLF + rest) == |l|
  {
    var s := l + CRLF + rest;
    if l == [] {
      assert s[0] == '\r' && s[1] == '\n';
    } else {
      assert s[1..] == l[1..] + CRLF + rest;
      FirstLine(l[1..], rest);
      assert s[0] == l[0] && s[1] == if |l| > 1 then l[1] else '\r';
    }
  }

  lemma ReceiveLine(l: string, rest: string)
    requires NoCrlf(l) && l != ['.']
    ensures Receive(l + CRLF + rest) ==
            match Receive(rest) case None => None case Some(m) => Some(Mail(Unstuffed(l) + CRLF + m.text, m.rest))
  {
    FirstLine(l, rest);
    var s := l + CRLF + rest;
    assert s[..|l|] == l && s[|l| + 2..] == rest;
  }

  lemma ReceiveEnd(rest: string)
    ensures Receive(['.'] + CRLF + rest) == Some(Mail([], rest))
  {
    FirstLine(['.'], rest);
    var s := ['.'] + CRLF + rest;
    assert s[..1] == ['.'] && s[3..] == rest;
  }

  function UnstuffedLines(ls: seq<string>): (r: seq<string>)
    ensures |r| == |ls|
    ensures forall i :: 0 <= i < |ls| ==> r[i] == Unstuffed(ls[i])
  {
    if ls == [] then [] else [Unstuffed(ls[0])] + UnstuffedLines(ls[1..])
  }

  predicate AllLines(ls: seq<string>) { forall i :: 0 <= i < |ls| ==> NoCrlf(ls[i]) }

  /** The stream of these lines, the closing lone dot and what is sent next. */
  function Stream(ls: seq<string>, next: string): string { Ended(ls) + ['.'] + CRLF + next }

  lemma StreamCons(ls: seq<string>, next: string)
    requires ls != []
    ensures Stream(ls, next) == ls[0] + CRLF + Stream(ls[1..], next)
  {
    LineThenRest(ls[0] + CRLF, Ended(ls[1..]), next);
  }

  /** k is the place of the first lone dot, or the number of lines when there is none. */
  predicate StopsAt(ls: seq<string>, k: nat) {
    k <= |ls| && (forall i :: 0 <= i < k ==> ls[i] != ['.']) && (k < |ls| ==> ls[k] == ['.'])
  }

  lemma StopsCons(ls: seq<string>, k: nat)
    requires ls != [] && ls[0] != ['.'] && StopsAt(ls[1..], k)
    ensures StopsAt(ls, k + 1)
  {
    forall i | 0 <= i < k + 1 ensures ls[i] != ['.'] { if i > 0 { assert ls[1..][i - 1] == ls[i]; } }
  }

  /** The lines before the first lone dot arrive, un-stuffed, and nothing else. */
  lemma {:induction false} ReceiveLines(ls: seq<string>, next: string) returns (k: nat, left: string)
    requires AllLines(ls)
    ensures StopsAt(ls, k) && (k == |ls| ==> left == next)
    ensures Receive(Stream(ls, next)) == Some(Mail(Ended(UnstuffedLines(ls[..k])), left))
  {
    if ls == [] {
      k, left := 0, next;
      ReceiveEnd(next);
      assert Stream(ls, next) == ['.'] + CRLF + next;
    } else {
      StreamCons(ls, next);
      if ls[0] == ['.'] {
        k, left := 0, Stream(ls[1..], next);
        ReceiveEnd(left);
      } else {
        ReceiveLine(ls[0], Stream(ls[1..], next));
        k, left := ReceiveLines(ls[1..], next);
        StopsCons(ls, k);
        k := k + 1;
        UnstuffedCons(ls, k);
      }
    }
  }

  lemma LineThenRest(l: string, t: string, rest: string)
    ensures l + t + ['.'] + CRLF + rest == l + (t + ['.'] + CRLF + rest)
  {}

  lemma UnstuffedCons(ls: seq<string>, k: nat)
    requires 0 < k <= |ls|
    ensures Ended(UnstuffedLines(ls[..k])) == Unstuffed(ls[0]) + CRLF + Ended(UnstuffedLines(ls[1..][..k - 1]))
  {
    assert ls[..k][1..] == ls[1..][..k - 1] && ls[..k][0] == ls[0];
  }

  /** A text of lines has only one reading as lines. */
  lemma {:induction false} EndedInjective(a: seq<string>, b: seq<string>)
    requires AllLines(a) && AllLines(b) && Ended(a) == Ended(b)
    ensures a == b
  {
    if a != [] && b != [] {
      FirstLine(a[0], Ended(a[1..]));
      FirstLine(b[0], Ended(b[1..]));
      var s := Ended(a);
      assert a[0] == s[..|a[0]|] == b[0];
      assert Ended(a[1..]) == s[|a[0]| + 2..] == Ended(b[1..]);
      EndedInjective(a[1..], b[1..]);
      assert a == [a[0]] + a[1..] && b == [b[0]] + b[1..];
    }
  }

  lemma UnstuffedIsLines(ls: seq<string>)
    requires AllLines(ls)
    ensures AllLines(UnstuffedLines(ls))
  {}

  /** Of a sent text of lines exactly these lines arrive if and only if no line is the lone dot and each, without
      its leading dot, is the one expected. */
  lemma ReceivedIff(sent: seq<string>, want: seq<string>, next: string)
    requires AllLines(sent) && AllLines(want) && |sent| == |want|
    ensures (Receive(Stream(sent, next)) == Some(Mail(Ended(want), next))) <==>
            AllArrive(sent, want)
  {
    var k, left := ReceiveLines(sent, next);
    var got := UnstuffedLines(sent[..k]);
    UnstuffedIsLines(sent[..k]);
    if Ended(got) == Ended(want) { EndedInjective(got, want); }
    GotAll(sent, want, k, got);
  }

  lemma GotAll(sent: seq<string>, want: seq<string>, k: nat, got: seq<string>)
    requires |sent| == |want| && StopsAt(sent, k) && got == UnstuffedLines(sent[..k])
    ensures AllArrive(sent, want) <==> got == want
  {
    if got == want {
      forall i | 0 <= i < |sent| ensures Arrives(sent[i], want[i]) { assert got[i] == Unstuffed(sent[..k][i]); }
    }
    if AllArrive(sent, want) {
      assert k < |sent| ==> Arrives(sent[k], want[k]);
      forall i | 0 <= i < |sent| ensures got[i] == want[i] { assert Arrives(sent[i], want[i]); }
    }
  }

  /** This line is taken for an ordinary one and arrives like this. */
  predicate Arrives(l: string, w: string) { l != ['.'] && Unstuffed(l) == w }

  predicate AllArrive(sent: seq<string>, want: seq<string>)
    requires |sent| == |want|
  {
    forall i {:trigger Arrives(sent[i], want[i])} :: 0 <= i < |sent| ==> Arrives(sent[i], want[i])
  }

  // ---------------------------------------------------------------------------
  // header values may hold line ends
  // ---------------------------------------------------------------------------

  /** The text split at its line ends. */
  function SplitCrlf(s: string): (ls: seq<string>)
    ensures ls != []
  {
    if s == [] then [[]]
    else if |s| >= 2 && s[0] == '\r' && s[1] == '\n' then [[]] + SplitCrlf(s[2..])
    else var rest := SplitCrlf(s[1..]); [[s[0]] + rest[0]] + rest[1..]
  }

  lemma SplitStarts(s: string)
    ensures SplitCrlf(s)[0] == [] <==> s == [] || (|s| >= 2 && s[0] == '\r' && s[1] == '\n')
    ensures SplitCrlf(s)[0] != [] ==> s != [] && SplitCrlf(s)[0][0] == s[0]
  {}

  lemma {:induction false} SplitIsLines(s: string)
    ensures AllLines(SplitCrlf(s)) && Ended(SplitCrlf(s)) == s + CRLF
  {
    if s == [] {
      assert Ended([[]]) == [] + CRLF + Ended([]);
    } else if |s| >= 2 && s[0] == '\r' && s[1] == '\n' {
      SplitIsLines(s[2..]);
      EndedFirst([], SplitCrlf(s[2..]));
      assert s == CRLF + s[2..];
      ConcatAssoc(CRLF, s[2..], CRLF);
      assert [] + CRLF == CRLF;
    } else {
      SplitIsLines(s[1..]);
      SplitStarts(s[1..]);
      PrependIsLines(s[0], SplitCrlf(s[1..]), s[1..]);
      assert s == [s[0]] + s[1..];
      ConcatAssoc([s[0]], s[1..], CRLF);
    }
  }

  lemma PrependIsLines(c: char, ls: seq<string>, s: string)
    requires ls != [] && AllLines(ls) && Ended(ls) == s + CRLF && (ls[0] != [] ==> s != [] && ls[0][0] == s[0])
    requires !(c == '\r' && s != [] && s[0] == '\n')
    ensures AllLines([[c] + ls[0]] + ls[1..]) && Ended([[c] + ls[0]] + ls[1..]) == [c] + (s + CRLF)
  {
    EndedPrepends(c, ls);
    assert NoCrlf([c] + ls[0]);
  }

  function SplitAll(hs: seq<string>): seq<string> {
    if hs == [] then [] else SplitCrlf(hs[0]) + SplitAll(hs[1..])
  }

  lemma {:induction false} SplitAllIsLines(hs: seq<string>)
    ensures AllLines(SplitAll(hs)) && Ended(SplitAll(hs)) == Ended(hs)
  {
    if hs != [] {
      SplitIsLines(hs[0]);
      SplitAllIsLines(hs[1..]);
      EndedSplits(SplitCrlf(hs[0]), SplitAll(hs[1..]));
    }
  }

  predicate Dotted(l: string) { l != [] && l[0] == '.' }
  predicate SomeDotted(ls: seq<string>) { exists i :: 0 <= i < |ls| && Dotted(ls[i]) }

  /** A line end directly followed by a dot. */
  predicate DotAfterLineEnd(s: string) {
    exists i :: 0 <= i < |s| - 2 && s[i] == '\r' && s[i + 1] == '\n' && s[i + 2] == '.'
  }

  lemma DotAfterStep(s: string)
    requires s != []
    ensures DotAfterLineEnd(s) <==> (|s| > 2 && s[0] == '\r' && s[1] == '\n' && s[2] == '.') || DotAfterLineEnd(s[1..])
  {
    var t := s[1..];
    if i :| 0 <= i < |s| - 2 && s[i] == '\r' && s[i + 1] == '\n' && s[i + 2] == '.' {
      if i > 0 { assert t[i - 1] == '\r' && t[(i - 1) + 1] == '\n' && t[(i - 1) + 2] == '.'; }
    }
    if i :| 0 <= i < |t| - 2 && t[i] == '\r' && t[i + 1] == '\n' && t[i + 2] == '.' {
      assert s[i + 1] == '\r' && s[(i + 1) + 1] == '\n' && s[(i + 1) + 2] == '.';
    }
  }

  lemma SomeDottedCons(l: string, ls: seq<string>)
    ensures SomeDotted([l] + ls) <==> Dotted(l) || SomeDotted(ls)
  {
    assert ([l] + ls)[0] == l;
    if i :| 0 <= i < |ls| && Dotted(ls[i]) { assert ([l] + ls)[i + 1] == ls[i]; }
  }

  lemma {:induction false} SomeDottedConcat(a: seq<string>, b: seq<string>)
    ensures SomeDotted(a + b) <==> SomeDotted(a) || SomeDotted(b)
  {
    if a == [] {
      assert a + b == b;
    } else {
      assert a + b == [a[0]] + (a[1..] + b) && a == [a[0]] + a[1..];
      SomeDottedCons(a[0], a[1..] + b);
      SomeDottedCons(a[0], a[1..]);
      SomeDottedConcat(a[1..], b);
    }
  }

  /** A line of the split text starts with a dot exactly when the text does or a line end in it is followed by one. */
  lemma {:induction false} SplitDotted(s: string)
    ensures SomeDotted(SplitCrlf(s)) <==> Dotted(s) || DotAfterLineEnd(s)
  {
    if s == [] {
      assert SplitCrlf(s) == [[]];
    } else {
      DotAfterStep(s);
      if |s| >= 2 && s[0] == '\r' && s[1] == '\n' {
        DotAfterStep(s[1..]);
        assert s[1..][1..] == s[2..];
        SplitDotted(s[2..]);
        SomeDottedCons([], SplitCrlf(s[2..]));
      } else {
        var rest := SplitCrlf(s[1..]);
        SplitDotted(s[1..]);
        SplitStarts(s[1..]);
        SomeDottedCons(rest[0], rest[1..]);
        assert rest == [rest[0]] + rest[1..];
        SomeDottedCons([s[0]] + rest[0], rest[1..]);
        RestDotted(s[1..]);
      }
    }
  }

  lemma {:induction false} RestDotted(s: string)
    ensures SomeDotted(SplitCrlf(s)[1..]) <==> DotAfterLineEnd(s)
  {
    if s != [] {
      DotAfterStep(s);
      if |s| >= 2 && s[0] == '\r' && s[1] == '\n' {
        DotAfterStep(s[1..]);
        assert s[1..][1..] == s[2..];
        SplitDotted(s[2..]);
        assert SplitCrlf(s)[1..] == SplitCrlf(s[2..]);
      } else {
        RestDotted(s[1..]);
        assert SplitCrlf(s)[1..] == SplitCrlf(s[1..])[1..];
      }
    }
  }

  lemma {:induction false} PrefixHidesNoLineEnd(p: string, s: string)
    requires p != [] && OneLine(p) && '\r' !in p
    ensures DotAfterLineEnd(p + s) <==> DotAfterLineEnd(s)
  {
    DotAfterStep(p + s);
    assert (p + s)[0] == p[0] && p[0] in p;
    assert (p + s)[1..] == p[1..] + s;
    if |p| == 1 { assert p[1..] + s == s; } else { PrefixHidesNoLineEnd(p[1..], s); }
  }

  /** One of the header values has a line end directly followed by a dot. */
  predicate HeaderDot(sender: string, to: string, subject: string) {
    DotAfterLineEnd(sender) || DotAfterLineEnd(to) || DotAfterLineEnd(subject)
  }

  lemma HeaderLinesDotted(sender: string, to: string, subject: string)
    ensures SomeDotted(SplitAll(Headers(sender, to, subject))) <==> HeaderDot(sender, to, subject)
  {
    ValueLinesDotted(sender, to, subject);
    var hs := Headers(sender, to, subject);
    FixedLinesNotDotted(hs[3], hs[4]);
    FiveSplit(hs);
  }

  lemma ValueLinesDotted(sender: string, to: string, subject: string)
    ensures SomeDotted(SplitCrlf("From: " + sender)) <==> DotAfterLineEnd(sender)
    ensures SomeDotted(SplitCrlf("To: " + to)) <==> DotAfterLineEnd(to)
    ensures SomeDotted(SplitCrlf("Subject: " + subject)) <==> DotAfterLineEnd(subject)
  {
    HeaderDotted("From: ", sender);
    HeaderDotted("To: ", to);
    HeaderDotted("Subject: ", subject);
  }

  lemma FixedLinesNotDotted(contentType: string, blank: string)
    requires contentType == CONTENT_TYPE && blank == ""
    ensures !SomeDotted(SplitCrlf(contentType)) && !SomeDotted(SplitCrlf(blank))
  {
    ContentTypeIsPlain(contentType);
    NotDotted(contentType);
    SplitDotted(blank);
  }

  lemma ContentTypeIsPlain(contentType: string)
    requires contentType == CONTENT_TYPE
    ensures contentType != [] && contentType[0] != '.' && forall c :: c in contentType ==> c >= ' '
  {}

  lemma NotDotted(p: string)
    requires p != [] && OneLine(p) && '\r' !in p && p[0] != '.'
    ensures !SomeDotted(SplitCrlf(p))
  {
    HeaderDotted(p, "");
    assert p + "" == p;
  }

  lemma HeaderDotted(p: string, s: string)
    requires p != [] && OneLine(p) && '\r' !in p && p[0] != '.'
    ensures SomeDotted(SplitCrlf(p + s)) <==> DotAfterLineEnd(s)
  {
    SplitDotted(p + s);
    PrefixHidesNoLineEnd(p, s);
    assert (p + s)[0] == p[0];
  }

  lemma FiveSplit(hs: seq<string>)
    requires |hs| == 5
    ensures SomeDotted(SplitAll(hs)) <==>
            || SomeDotted(SplitCrlf(hs[0])) || SomeDotted(SplitCrlf(hs[1])) || SomeDotted(SplitCrlf(hs[2]))
            || SomeDotted(SplitCrlf(hs[3])) || SomeDotted(SplitCrlf(hs[4]))
  {
    AllSplitDotted(hs);
  }

  lemma {:induction false} AllSplitDotted(hs: seq<string>)
    ensures SomeDotted(SplitAll(hs)) <==> exists i :: 0 <= i < |hs| && SomeDotted(SplitCrlf(hs[i]))
  {
    if hs != [] {
      SomeDottedConcat(SplitCrlf(hs[0]), SplitAll(hs[1..]));
      AllSplitDotted(hs[1..]);
      assert forall i :: 0 <= i < |hs| - 1 ==> hs[1..][i] == hs[i + 1];
      if i :| 0 <= i < |hs| && SomeDotted(SplitCrlf(hs[i])) {
        if i > 0 { assert SomeDotted(SplitCrlf(hs[1..][i - 1])); }
      }
    }
  }

  // ---------------------------------------------------------------------------
  // the mail that arrives
  // ---------------------------------------------------------------------------

  /** The lines of the body, with a dot still doubled after a bare CR, U+2028 or U+2029. */
  function ArrivingLines(ls: seq<string>): (r: seq<string>)
    ensures |r| == |ls|
    ensures forall i :: 0 <= i < |ls| ==> r[i] == Stuff(ls[i], false)
  {
    if ls == [] then [] else [Stuff(ls[0], false)] + ArrivingLines(ls[1..])
  }

  lemma {:induction false} EndedSplits(a: seq<string>, b: seq<string>)
    ensures Ended(a + b) == Ended(a) + Ended(b)
  {
    if a == [] {
      assert a + b == b;
    } else {
      assert (a + b)[1..] == a[1..] + b;
      EndedSplits(a[1..], b);
    }
  }

  lemma {:induction false} StuffBeforeEnd(s: string, lineStart: bool)
    ensures Stuff(s + CRLF, lineStart) == Stuff(s, lineStart) + CRLF
  {
    if s == [] {
      StuffLineEnd([], lineStart);
      assert s + CRLF == CRLF + [] == CRLF;
    } else {
      assert (s + CRLF)[1..] == s[1..] + CRLF;
      StuffBeforeEnd(s[1..], IsTerminator(s[0]));
    }
  }

  ghost function SentLines(sender: string, to: string, subject: string, body: string): seq<string> {
    SplitAll(Headers(sender, to, subject)) + StuffedLines(Lines(body))
  }

  lemma PayloadIsLines(sender: string, to: string, subject: string, body: string)
    ensures Payload(sender, to, subject, body) == Ended(SentLines(sender, to, subject, body)) + ['.'] + CRLF
    ensures AllLines(SentLines(sender, to, subject, body))
  {
    var hs, stuffed := Headers(sender, to, subject), StuffedLines(Lines(body));
    BodyIsLines(body, stuffed);
    SplitAllIsLines(hs);
    EndedSplits(SplitAll(hs), stuffed);
    ConcatAssoc(Ended(hs), Stuff(Normalise(body), true), CRLF);
  }

  lemma BodyIsLines(body: string, stuffed: seq<string>)
    requires stuffed == StuffedLines(Lines(body))
    ensures Stuff(Normalise(body), true) + CRLF == Ended(stuffed) && AllLines(stuffed)
  {
    LinesAreLines(body);
    StuffIsPerLine(Lines(body));
    NormaliseEndsLines(body);
    StuffBeforeEnd(Normalise(body), true);
    forall i | 0 <= i < |stuffed| ensures NoCrlf(stuffed[i]) { StuffKeepsOneLine(Lines(body)[i], true); }
  }

  /** The mail with these body lines arrives exactly when no header line starts with a dot and each body line,
      stuffed at its start only, is the one expected. */
  lemma MailArrivesIff(sender: string, to: string, subject: string, body: string, want: seq<string>, next: string)
    requires |want| == |Lines(body)| && AllLines(want)
    ensures (Receive(Payload(sender, to, subject, body) + next) ==
             Some(Mail(Ended(Headers(sender, to, subject)) + Ended(want), next))) <==>
            && !HeaderDot(sender, to, subject)
            && forall i :: 0 <= i < |want| ==> Stuff(Lines(body)[i], false) == want[i]
  {
    var hs, ls := SplitAll(Headers(sender, to, subject)), Lines(body);
    var sent := SentLines(sender, to, subject, body);
    PayloadIsLines(sender, to, subject, body);
    SplitAllIsLines(Headers(sender, to, subject));
    EndedSplits(hs, want);
    HeaderLinesDotted(sender, to, subject);
    assert Payload(sender, to, subject, body) + next == Stream(sent, next);
    ReceivedIff(sent, hs + want, next);
    ArriveConcat(hs, StuffedLines(ls), hs, want);
    HeadersArrive(hs);
    BodyArrives(ls, want);
  }

  lemma ArriveConcat(a: seq<string>, b: seq<string>, x: seq<string>, y: seq<string>)
    requires |a| == |x| && |b| == |y|
    ensures AllArrive(a + b, x + y) <==> AllArrive(a, x) && AllArrive(b, y)
  {
    var s, t := a + b, x + y;
    if AllArrive(s, t) {
      forall i | 0 <= i < |a| ensures Arrives(a[i], x[i]) { assert Arrives(s[i], t[i]); }
      forall i | 0 <= i < |b| ensures Arrives(b[i], y[i]) { assert Arrives(s[|a| + i], t[|a| + i]); }
    }
    if AllArrive(a, x) && AllArrive(b, y) {
      forall i | 0 <= i < |s| ensures Arrives(s[i], t[i]) {
        if i < |a| { assert Arrives(a[i], x[i]); } else { assert Arrives(b[i - |a|], y[i - |a|]); }
      }
    }
  }

  lemma HeadersArrive(hs: seq<string>)
    ensures AllArrive(hs, hs) <==> !SomeDotted(hs)
  {
    forall i | 0 <= i < |hs| ensures Arrives(hs[i], hs[i]) <==> !Dotted(hs[i]) {}
  }

  lemma BodyArrives(ls: seq<string>, want: seq<string>)
    requires |ls| == |want|
    ensures AllArrive(StuffedLines(ls), want) <==> forall i :: 0 <= i < |want| ==> Stuff(ls[i], false) == want[i]
  {
    var sent := StuffedLines(ls);
    forall i | 0 <= i < |ls| ensures Arrives(sent[i], want[i]) <==> Stuff(ls[i], false) == want[i] {
      StuffedLineIsSafe(ls[i]);
    }
  }

  /** For every body the message ends at its final dot line, and what is sent next is not swallowed, exactly when
      no header value has a line end followed by a dot. */
  lemma DeliveredAtFinalDot(sender: string, to: string, subject: string, body: string, next: string)
    ensures (Receive(Payload(sender, to, subject, body) + next) ==
             Some(Mail(Ended(Headers(sender, to, subject)) + Ended(ArrivingLines(Lines(body))), next))) <==>
            !HeaderDot(sender, to, subject)
  {
    var want := ArrivingLines(Lines(body));
    LinesAreLines(body);
    forall i | 0 <= i < |want| ensures NoCrlf(want[i]) { StuffKeepsOneLine(Lines(body)[i], false); }
    MailArrivesIff(sender, to, subject, body, want, next);
  }

  // ---------------------------------------------------------------------------
  // when the body arrives as written
  // ---------------------------------------------------------------------------

  predicate IsOtherTerminator(c: char) { IsTerminator(c) && c != '\n' }

  /** A dot directly after a bare CR, U+2028 or U+2029. */
  predicate HiddenDot(s: string) { exists i :: 0 <= i < |s| - 1 && IsOtherTerminator(s[i]) && s[i + 1] == '.' }

  lemma HiddenDotStep(s: string)
    requires s != []
    ensures HiddenDot(s) <==> (|s| > 1 && IsOtherTerminator(s[0]) && s[1] == '.') || HiddenDot(s[1..])
  {
    if i :| 0 <= i < |s| - 1 && IsOtherTerminator(s[i]) && s[i + 1] == '.' {
      if i > 0 { assert IsOtherTerminator(s[1..][i - 1]) && s[1..][(i - 1) + 1] == '.'; }
    }
    if i :| 0 <= i < |s[1..]| - 1 && IsOtherTerminator(s[1..][i]) && s[1..][i + 1] == '.' {
      assert IsOtherTerminator(s[i + 1]) && s[(i + 1) + 1] == '.';
    }
  }

  /** Stuffing leaves a line alone exactly when it has no dot at a place the pattern takes for a line start. */
  lemma {:induction false} StuffFixedIff(l: string, lineStart: bool)
    requires OneLine(l)
    ensures |Stuff(l, lineStart)| >= |l|
    ensures Stuff(l, lineStart) == l <==> |Stuff(l, lineStart)| == |l|
    ensures Stuff(l, lineStart) == l <==> !(lineStart && l != [] && l[0] == '.') && !HiddenDot(l)
  {
    if l != [] {
      StuffFixedIff(l[1..], IsTerminator(l[0]));
      HiddenDotStep(l);
      assert l == [l[0]] + l[1..];
    }
  }

  ghost predicate SomeHiddenDot(ls: seq<string>) { exists i :: 0 <= i < |ls| && HiddenDot(ls[i]) }

  lemma SomeHiddenDotStep(l: string, ls: seq<string>)
    ensures SomeHiddenDot([l] + ls) <==> HiddenDot(l) || SomeHiddenDot(ls)
  {
    assert ([l] + ls)[0] == l;
    if i :| 0 <= i < |ls| && HiddenDot(ls[i]) { assert ([l] + ls)[i + 1] == ls[i]; }
  }

  /** A dot is hidden in the body exactly when it is hidden in one of its lines. */
  lemma {:induction false} HiddenDotByLine(s: string)
    ensures HiddenDot(s) <==> SomeHiddenDot(Lines(s))
  {
    if s != [] {
      HiddenDotStep(s);
      if |s| >= 2 && s[0] == '\r' && s[1] == '\n' {
        HiddenDotStep(s[1..]);
        assert s[1..][1..] == s[2..];
        HiddenDotByLine(s[2..]);
        SomeHiddenDotStep([], Lines(s[2..]));
      } else {
        HiddenDotByLine(s[1..]);
        var rest := Lines(s[1..]);
        if s[0] == '\n' {
          SomeHiddenDotStep([], rest);
        } else {
          SomeHiddenDotStep(rest[0], rest[1..]);
          assert rest == [rest[0]] + rest[1..];
          var l := [s[0]] + rest[0];
          SomeHiddenDotStep(l, rest[1..]);
          HiddenDotStep(l);
          assert l[1..] == rest[0];
          LineStartsLike(s[1..]);
        }
      }
    }
  }

  lemma LineStartsLike(s: string)
    ensures (Lines(s)[0] != [] && Lines(s)[0][0] == '.') <==> (s != [] && s[0] == '.')
  {}

  // ---------------------------------------------------------------------------
  // the text of the mail, header by header and line by line
  // ---------------------------------------------------------------------------

  lemma FiveEnded(a: string, b: string, c: string, d: string, e: string)
    ensures Ended([a, b, c, d, e]) == a + CRLF + b + CRLF + c + CRLF + d + CRLF + e + CRLF
  {
    EndedSnoc([], a);
    EndedSnoc([a], b);
    EndedSnoc([a, b], c);
    EndedSnoc([a, b, c], d);
    EndedSnoc([a, b, c, d], e);
    assert [] + [a] == [a] && [a] + [b] == [a, b] && [a, b] + [c] == [a, b, c];
    assert [a, b, c] + [d] == [a, b, c, d] && [a, b, c, d] + [e] == [a, b, c, d, e];
    assert "" + a == a;
  }

  lemma EndedSnoc(ls: seq<string>, l: string)
    ensures Ended(ls + [l]) == Ended(ls) + l + CRLF
  {
    EndedSplits(ls, [l]);
    assert [l][1..] == [];
    assert l + CRLF + "" == l + CRLF;
    ConcatAssoc(Ended(ls), l, CRLF);
  }

  /** Which value stands on which header line, with a blank line after them. */
  lemma HeadersAre(sender: string, to: string, subject: string)
    ensures Ended(Headers(sender, to, subject)) ==
            "From: " + sender + CRLF + ("To: " + to) + CRLF + ("Subject: " + subject) + CRLF
            + "Content-Type: text/plain; charset=utf-8" + CRLF + "" + CRLF
  {
    FiveEnded("From: " + sender, "To: " + to, "Subject: " + subject, CONTENT_TYPE, "");
  }

  /** The lines with these line ends between them. */
  function Interleaved(ls: seq<string>, ends: seq<string>): string
    requires |ls| == |ends| + 1
  {
    if ends == [] then ls[0] else ls[0] + ends[0] + Interleaved(ls[1..], ends[1..])
  }

  /** The lines of s and its line ends: a line feed, with a carriage return before it if there is one. */
  ghost predicate SplitsInto(s: string, ls: seq<string>, ends: seq<string>) {
    && |ls| == |ends| + 1 && s == Interleaved(ls, ends)
    && (forall i :: 0 <= i < |ls| ==> '\n' !in ls[i])
    && (forall i :: 0 <= i < |ends| ==> ends[i] in {"\n", "\r\n"})
    && (forall i :: 0 <= i < |ends| && ends[i] == "\n" ==> ls[i] == [] || ls[i][|ls[i]| - 1] != '\r')
  }

  lemma SplitAfterEnd(rest: string, ls: seq<string>, ends: seq<string>, end: string)
    requires SplitsInto(rest, ls, ends) && end in {"\n", "\r\n"}
    ensures SplitsInto(end + rest, [[]] + ls, [end] + ends)
  {
    var more, all := [[]] + ls, [end] + ends;
    assert more[1..] == ls && all[1..] == ends;
    assert Interleaved(more, all) == [] + end + rest;
    forall i | 0 <= i < |all| && all[i] == "\n" ensures more[i] == [] || more[i][|more[i]| - 1] != '\r' {
      if i > 0 { assert all[i] == ends[i - 1] && more[i] == ls[i - 1]; }
    }
  }

  lemma SplitAfterChar(c: char, rest: string, ls: seq<string>, ends: seq<string>)
    requires SplitsInto(rest, ls, ends) && c != '\n' && !(c == '\r' && rest != [] && rest[0] == '\n')
    ensures SplitsInto([c] + rest, [[c] + ls[0]] + ls[1..], ends)
  {
    var more := [[c] + ls[0]] + ls[1..];
    assert more[1..] == ls[1..];
    if ends != [] {
      ConcatAssoc([c], ls[0] + ends[0], Interleaved(ls[1..], ends[1..]));
      ConcatAssoc([c], ls[0], ends[0]);
    }
  }

  /** Normalising splits a text at its line ends and puts CRLF in place of each. */
  lemma {:induction false} NormaliseReplacesEnds(s: string) returns (ends: seq<string>)
    ensures SplitsInto(s, Lines(s), ends)
    ensures Normalise(s) == Interleaved(Lines(s), AllCrlf(|ends|))
  {
    if s == [] {
      ends := [];
    } else if |s| >= 2 && s[0] == '\r' && s[1] == '\n' {
      ends := NormaliseReplacesEnds(s[2..]);
      assert s == "\r\n" + s[2..];
      EndReplaced("\r\n", s[2..], Lines(s[2..]), ends);
      ends := ["\r\n"] + ends;
    } else if s[0] == '\n' {
      ends := NormaliseReplacesEnds(s[1..]);
      assert s == "\n" + s[1..];
      EndReplaced("\n", s[1..], Lines(s[1..]), ends);
      ends := ["\n"] + ends;
    } else {
      ends := NormaliseReplacesEnds(s[1..]);
      assert s == [s[0]] + s[1..];
      SplitAfterChar(s[0], s[1..], Lines(s[1..]), ends);
      InterleavedPrepends(s[0], Lines(s[1..]), AllCrlf(|ends|));
    }
  }

  function AllCrlf(n: nat): seq<string> { seq(n, _ => CRLF) }

  lemma EndReplaced(end: string, tail: string, ls: seq<string>, ends: seq<string>)
    requires SplitsInto(tail, ls, ends) && end in {"\n", "\r\n"}
    ensures SplitsInto(end + tail, [[]] + ls, [end] + ends)
    ensures Interleaved([[]] + ls, AllCrlf(|ends| + 1)) == CRLF + Interleaved(ls, AllCrlf(|ends|))
  {
    SplitAfterEnd(tail, ls, ends, end);
    InterleavedFirst([], ls, |ends|);
  }

  lemma InterleavedFirst(l: string, ls: seq<string>, n: nat)
    requires |ls| == n + 1
    ensures Interleaved([l] + ls, AllCrlf(n + 1)) == l + CRLF + Interleaved(ls, AllCrlf(n))
  {
    assert ([l] + ls)[1..] == ls;
    assert AllCrlf(n + 1)[1..] == AllCrlf(n);
  }

  lemma InterleavedPrepends(c: char, ls: seq<string>, ends: seq<string>)
    requires |ls| == |ends| + 1
    ensures Interleaved([[c] + ls[0]] + ls[1..], ends) == [c] + Interleaved(ls, ends)
  {
    var more := [[c] + ls[0]] + ls[1..];
    assert more[1..] == ls[1..];
    if ends != [] {
      ConcatAssoc([c], ls[0] + ends[0], Interleaved(ls[1..], ends[1..]));
      ConcatAssoc([c], ls[0], ends[0]);
    }
  }

  // ---------------------------------------------------------------------------
  // as written
  // ---------------------------------------------------------------------------

  /** The headers arrive as given and the body CRLF-normalised and otherwise as written, exactly when it hides no dot
      and no header value has a line end followed by a dot. */
  lemma ArrivesAsWrittenIff(sender: string, to: string, subject: string, body: string, next: string)
    ensures (Receive(Payload(sender, to, subject, body) + next) ==
             Some(Mail("From: " + sender + CRLF + ("To: " + to) + CRLF + ("Subject: " + subject) + CRLF
                       + "Content-Type: text/plain; charset=utf-8" + CRLF + "" + CRLF
                       + (Normalise(body) + CRLF), next))) <==>
            !HiddenDot(body) && !HeaderDot(sender, to, subject)
  {
    HeadersAre(sender, to, subject);
    TextArrivesIff(sender, to, subject, body, next);
  }

  lemma TextArrivesIff(sender: string, to: string, subject: string, body: string, next: string)
    ensures (Receive(Payload(sender, to, subject, body) + next) ==
             Some(Mail(Ended(Headers(sender, to, subject)) + (Normalise(body) + CRLF), next))) <==>
            !HiddenDot(body) && !HeaderDot(sender, to, subject)
  {
    var ls := Lines(body);
    LinesAreLines(body);
    NormaliseEndsLines(body);
    HiddenDotByLine(body);
    forall i | 0 <= i < |ls| ensures Stuff(ls[i], false) == ls[i] <==> !HiddenDot(ls[i]) {
      StuffFixedIff(ls[i], false);
    }
    MailArrivesIff(sender, to, subject, body, ls, next);
  }

  /** A bare CR before a dot is enough to change the mail. */
  lemma BareCrDoublesDot(sender: string, to: string, subject: string, next: string)
    ensures Receive(Payload(sender, to, subject, "a\r.b") + next) !=
            Some(Mail(Ended(Headers(sender, to, subject)) + (Normalise("a\r.b") + CRLF), next))
  {
    var s := "a\r.b";
    assert IsOtherTerminator(s[1]) && s[1 + 1] == '.';
    TextArrivesIff(sender, to, subject, s, next);
  }
}
