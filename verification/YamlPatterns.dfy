/** The line predicates are the regular expressions they stand for: a line matches exactly when it can be put together
    from the parts of the pattern. */
module YamlPatterns {
  import opened Text
  import opened YamlLines

  /** \s* */
  ghost predicate Gap(s: string) { AllOf(s, IsSpace) }

  lemma BlankIsGap(s: string)
    ensures Blank(s) <==> Gap(s)
  {
    if Gap(s) {
      forall c | c in s ensures IsSpace(c) { var i :| 0 <= i < |s| && s[i] == c; }
    }
    if Blank(s) {
      forall i | 0 <= i < |s| ensures IsSpace(s[i]) { assert s[i] in s; }
    }
  }

  /** A line starts, after its indentation, with a text that does not start with a blank, exactly when it is made of
      blanks, that text and a rest. */
  lemma AfterLead(s: string, word: string, rest: string)
    requires word != [] && !IsSpace(word[0])
    ensures LStrip(s) == word + rest <==> exists lead :: Gap(lead) && s == lead + (word + rest)
  {
    if LStrip(s) == word + rest {
      LeadSplits(s);
      assert Gap(Lead(s)) by { assert forall i :: 0 <= i < |Lead(s)| ==> Lead(s)[i] in Lead(s); }
    }
    if lead :| Gap(lead) && s == lead + (word + rest) {
      BlankIsGap(lead);
      LeadOf(lead, word + rest);
    }
  }

  lemma FirstChar(a: string, b: string)
    requires b != []
    ensures (a + b)[0] == if a == [] then b[0] else a[0]
  {}

  /** \s*<target>\s*$ */
  ghost predicate Tail(r: string, target: string) { exists a, b :: TailParts(r, a, target, b) }

  ghost predicate TailParts(r: string, a: string, target: string, b: string) {
    Gap(a) && Gap(b) && r == a + target + b
  }

  lemma TailStep(r: string, target: string)
    ensures Tail(r, target) <==>
            || (target <= r && Gap(r[|target|..]))
            || (r != [] && IsSpace(r[0]) && Tail(r[1..], target))
  {
    if target <= r && Gap(r[|target|..]) { assert TailParts(r, [], target, r[|target|..]); }
    if r != [] && IsSpace(r[0]) && Tail(r[1..], target) {
      var a, b :| TailParts(r[1..], a, target, b);
      assert TailParts(r, [r[0]] + a, target, b);
    }
    if a, b :| TailParts(r, a, target, b) {
      if a == [] {
        assert r[|target|..] == b;
      } else {
        assert TailParts(r[1..], a[1..], target, b);
      }
    }
  }

  lemma {:induction false} TargetTailIff(r: string, target: string)
    ensures TargetTail(r, target) <==> Tail(r, target)
  {
    TailStep(r, target);
    if target <= r { BlankIsGap(r[|target|..]); }
    if r != [] { TargetTailIff(r[1..], target); }
  }

  /** \S*\s\s*<target>\s*$, with at least one character before the blank unless one was seen. */
  ghost predicate Anchored(r: string, target: string, seen: bool) {
    exists a, c, rest :: AnchorParts(r, a, c, rest) && (seen || a != []) && Tail(rest, target)
  }

  predicate AnchorParts(r: string, a: string, c: char, rest: string) {
    (forall i :: 0 <= i < |a| ==> !IsSpace(a[i])) && IsSpace(c) && r == a + [c] + rest
  }

  lemma AnchoredAtBlank(r: string, target: string, seen: bool)
    requires r != [] && IsSpace(r[0])
    ensures Anchored(r, target, seen) <==> seen && Tail(r[1..], target)
  {
    assert AnchorParts(r, [], r[0], r[1..]);
    forall a, c, rest | AnchorParts(r, a, c, rest) ensures a == [] && rest == r[1..] {
      FirstChar(a, [c] + rest);
      assert r == a + ([c] + rest);
    }
  }

  lemma AnchoredAtOther(r: string, target: string, seen: bool)
    requires r != [] && !IsSpace(r[0])
    ensures Anchored(r, target, seen) <==> Anchored(r[1..], target, true)
  {
    if a, c, rest :| AnchorParts(r[1..], a, c, rest) && Tail(rest, target) {
      assert AnchorParts(r, [r[0]] + a, c, rest);
    }
    if a, c, rest :| AnchorParts(r, a, c, rest) && Tail(rest, target) {
      assert a != [] && a[0] == r[0];
      assert AnchorParts(r[1..], a[1..], c, rest);
    }
  }

  lemma {:induction false} AnchorTailIff(r: string, target: string, seen: bool)
    ensures AnchorTail(r, target, seen) <==> Anchored(r, target, seen)
  {
    if r != [] {
      if IsSpace(r[0]) {
        TargetTailIff(r[1..], target);
        AnchoredAtBlank(r, target, seen);
      } else {
        AnchorTailIff(r[1..], target, true);
        AnchoredAtOther(r, target, seen);
      }
    }
  }

  /** ^\s*name:\s*<target>\s*$ */
  lemma NameLineIff(s: string, target: string)
    ensures NameLine(s, target) <==>
            exists lead, rest :: Gap(lead) && s == lead + ("name:" + rest) && Tail(rest, target)
  {
    if NameLine(s, target) {
      var rest := LStrip(s)[5..];
      assert LStrip(s) == "name:" + rest;
      AfterLead(s, "name:", rest);
      TargetTailIff(rest, target);
    }
    if lead, rest :| Gap(lead) && s == lead + ("name:" + rest) && Tail(rest, target) {
      AfterLead(s, "name:", rest);
      TargetTailIff(rest, target);
    }
  }

  /** ^\s*name:\s*(?:&\S+\s+)?<target>\s*$ */
  lemma AnchoredNameLineIff(s: string, target: string)
    ensures AnchoredNameLine(s, target) <==>
            || NameLine(s, target)
            || exists lead, gap, anchor :: AnchoredParts(s, lead, gap, anchor) && Anchored(anchor, target, false)
  {
    if AnchoredNameLine(s, target) && !NameLine(s, target) {
      var rest := LStrip(s)[5..];
      assert LStrip(s) == "name:" + rest;
      AfterLead(s, "name:", rest);
      var lead :| Gap(lead) && s == lead + ("name:" + rest);
      var anchor := LStrip(rest)[1..];
      assert LStrip(rest) == "&" + anchor;
      AfterLead(rest, "&", anchor);
      var gap :| Gap(gap) && rest == gap + ("&" + anchor);
      AnchorTailIff(anchor, target, false);
      assert AnchoredParts(s, lead, gap, anchor);
    }
    if lead, gap, anchor :| AnchoredParts(s, lead, gap, anchor) && Anchored(anchor, target, false) {
      var rest := gap + ("&" + anchor);
      AfterLead(s, "name:", rest);
      AfterLead(rest, "&", anchor);
      AnchorTailIff(anchor, target, false);
    }
  }

  ghost predicate AnchoredParts(s: string, lead: string, gap: string, anchor: string) {
    Gap(lead) && Gap(gap) && s == lead + ("name:" + (gap + ("&" + anchor)))
  }

  /** ^(\s*)-\s+alert:\s*<target>\s*$ */
  lemma AlertLineIff(s: string, target: string)
    ensures AlertLine(s, target) <==>
            exists lead, gap, rest :: AlertParts(s, lead, gap, rest) && Tail(rest, target)
  {
    if AlertLine(s, target) {
      var b := LStrip(s);
      var rest := LStrip(b[1..])[6..];
      assert b == "-" + b[1..];
      AfterLead(s, "-", b[1..]);
      var lead :| Gap(lead) && s == lead + ("-" + b[1..]);
      assert LStrip(b[1..]) == "alert:" + rest;
      AfterLead(b[1..], "alert:", rest);
      var gap :| Gap(gap) && b[1..] == gap + ("alert:" + rest);
      FirstChar(gap, "alert:" + rest);
      TargetTailIff(rest, target);
      assert AlertParts(s, lead, gap, rest);
    }
    if lead, gap, rest :| AlertParts(s, lead, gap, rest) && Tail(rest, target) {
      var after := gap + ("alert:" + rest);
      AfterLead(s, "-", after);
      AfterLead(after, "alert:", rest);
      TargetTailIff(rest, target);
      assert LStrip(s)[1..] == after && after[0] == gap[0];
    }
  }

  ghost predicate AlertParts(s: string, lead: string, gap: string, rest: string) {
    Gap(lead) && Gap(gap) && gap != [] && s == lead + ("-" + (gap + ("alert:" + rest)))
  }
}
