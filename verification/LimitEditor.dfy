/** The increase-only resource-limit editor of the doer pipeline: nested block scanning over the lines of
    a YAML file, an unambiguous target or nothing, and a one-line edit. */
module LimitEditor {
  import opened Basics
  import opened Text
  import opened YamlLines

  datatype Outcome = NotFound | NoOp | Changed(line: nat) | Rejected

  datatype Resource = Memory | Cpu

  function FieldOf(r: Resource): string {
    match r
    case Memory => "memory"
    case Cpu => "cpu"
  }

  /** Everything about a line the editor's search looks at. */
  datatype Shape = Shape(sep: bool, name: bool, limits: bool, field: bool, blank: bool, indent: nat)

  function ShapeOf(s: string, target: string, field: string): Shape {
    Shape(DocSep(s), AnchoredNameLine(s, target), LimitsLine(s), FieldLine(s, field), Blank(s), Indent(s))
  }

  function Shapes(lines: seq<string>, target: string, field: string): (r: seq<Shape>)
    ensures |r| == |lines|
    ensures forall i :: 0 <= i < |lines| ==> r[i] == ShapeOf(lines[i], target, field)
  {
    seq(|lines|, i requires 0 <= i < |lines| => ShapeOf(lines[i], target, field))
  }

  // ---------------------------------------------------------------------------
  // what counts as a candidate
  // ---------------------------------------------------------------------------

  /** The first line at or after i that names the target; |ls| when there is none. */
  function FirstName(ls: seq<Shape>, i: nat): (r: nat)
    requires i <= |ls|
    ensures i <= r <= |ls|
    ensures forall k :: i <= k < r ==> !ls[k].name
    ensures r < |ls| ==> ls[r].name
    decreases |ls| - i
  {
    if i == |ls| || ls[i].name then i else FirstName(ls, i + 1)
  }

  /** lo..hi is the whole YAML document around line n: no separator inside, one (or the file's end) on each side. */
  ghost predicate DocumentOf(ls: seq<Shape>, n: nat, lo: nat, hi: nat) {
    && lo <= n < hi <= |ls|
    && (lo == 0 || ls[lo - 1].sep)
    && (hi == |ls| || ls[hi].sep)
    && (forall k :: lo <= k < hi && k != n ==> !ls[k].sep)
  }

  /** Line k lies in the indented block opened by line j. */
  ghost predicate InBlock(ls: seq<Shape>, j: nat, k: nat) {
    j < k < |ls| && forall m :: j < m <= k ==> ls[m].blank || ls[m].indent > ls[j].indent
  }

  /** Line k is the field, directly under the `limits:` of line j. */
  ghost predicate LimitFor(ls: seq<Shape>, j: nat, k: nat) {
    InBlock(ls, j, k) && ls[j].limits && ls[k].field && ls[k].indent == ls[j].indent + 2
  }

  ghost predicate Candidate(ls: seq<Shape>, lo: nat, hi: nat, k: nat) {
    lo <= k < hi <= |ls| && exists j :: lo <= j < k && LimitFor(ls, j, k)
  }

  ghost predicate NoBlankLimits(ls: seq<Shape>) {
    forall i :: 0 <= i < |ls| && ls[i].limits ==> !ls[i].blank
  }

  /** Nested or repeated `limits:` blocks never count one line twice. */
  lemma OneBlockPerLine(ls: seq<Shape>, i: nat, j: nat, k: nat)
    requires NoBlankLimits(ls) && LimitFor(ls, i, k) && LimitFor(ls, j, k)
    ensures i == j
  {}

  lemma LimitsNotBlank(lines: seq<string>, target: string, field: string)
    ensures NoBlankLimits(Shapes(lines, target, field))
  {
    forall i | 0 <= i < |lines| && LimitsLine(lines[i]) ensures !Blank(lines[i]) {
      LeadSplits(lines[i]);
      assert LStrip(lines[i])[0] == 'l';
      assert 'l' in lines[i];
    }
  }

  // ---------------------------------------------------------------------------
  // the search loops
  // ---------------------------------------------------------------------------

  /** The bounds of the target's YAML document. */
  method DocumentBounds(ls: seq<Shape>, ni: nat) returns (start: nat, end: nat)
    requires ni < |ls|
    ensures DocumentOf(ls, ni, start, end)
  {
    start := ni;
    while start > 0 && !ls[start - 1].sep
      invariant start <= ni && forall k :: start <= k < ni ==> !ls[k].sep
    {
      start := start - 1;
    }
    end := ni + 1;
    while end < |ls| && !ls[end].sep
      invariant ni < end <= |ls| && forall k :: ni < k < end ==> !ls[k].sep
    {
      end := end + 1;
    }
  }

  /** The field lines directly under any `limits:` block of start..end: each candidate once. */
  method CollectMatches(ls: seq<Shape>, start: nat, end: nat) returns (matches: seq<nat>)
    requires start <= end <= |ls| && NoBlankLimits(ls)
    ensures forall i, j :: 0 <= i < j < |matches| ==> matches[i] != matches[j]
    ensures forall k :: k in matches <==> Candidate(ls, start, end, k)
  {
    matches := [];
    for j := start to end
      invariant Collected(ls, start, end, j, matches)
    {
      if ls[j].limits {
        matches := CollectBlock(ls, start, end, j, matches);
      } else {
        assert forall k :: !LimitFor(ls, j, k);
        NoNewBlock(ls, start, end, j, matches);
      }
    }
    forall k ensures k in matches <==> Candidate(ls, start, end, k) {
    }
  }

  /** matches holds, once each, the candidates whose `limits:` line is before j. */
  ghost predicate Collected(ls: seq<Shape>, start: nat, end: nat, j: nat, matches: seq<nat>) {
    && (forall a, b :: 0 <= a < b < |matches| ==> matches[a] != matches[b])
    && (forall k :: k in matches <==>
          start <= k < end <= |ls| && exists i :: start <= i < j && i < k && LimitFor(ls, i, k))
  }

  lemma NoNewBlock(ls: seq<Shape>, start: nat, end: nat, j: nat, matches: seq<nat>)
    requires Collected(ls, start, end, j, matches) && start <= j && forall k :: !LimitFor(ls, j, k)
    ensures Collected(ls, start, end, j + 1, matches)
  {
    forall k ensures k in matches <==>
                     start <= k < end <= |ls| && exists i :: start <= i < j + 1 && i < k && LimitFor(ls, i, k) {
      if k in matches {
        var i :| start <= i < j && i < k && LimitFor(ls, i, k);
        assert start <= i < j + 1;
      }
    }
  }

  /** The inner loop: the block under the `limits:` of line j. */
  method CollectBlock(ls: seq<Shape>, start: nat, end: nat, j: nat, before: seq<nat>) returns (matches: seq<nat>)
    requires start <= j < end <= |ls| && ls[j].limits && NoBlankLimits(ls)
    requires Collected(ls, start, end, j, before)
    ensures Collected(ls, start, end, j + 1, matches)
  {
    matches := before;
    var k := j + 1;
    while k < end && (ls[k].blank || ls[k].indent > ls[j].indent)
      invariant j < k <= end
      invariant forall m :: j < m < k ==> ls[m].blank || ls[m].indent > ls[j].indent
      invariant forall a, b :: 0 <= a < b < |matches| ==> matches[a] != matches[b]
      invariant forall x :: x in matches <==> x in before || (j < x < k && LimitFor(ls, j, x))
    {
      assert InBlock(ls, j, k);
      if ls[k].field && ls[k].indent == ls[j].indent + 2 {
        assert LimitFor(ls, j, k);
        NotYetCollected(ls, start, end, j, k, before);
        matches := matches + [k];
      }
      k := k + 1;
    }
    BlockEnds(ls, end, j, k);
    JoinBlock(ls, start, end, j, before, matches);
  }

  lemma NotYetCollected(ls: seq<Shape>, start: nat, end: nat, j: nat, k: nat, before: seq<nat>)
    requires NoBlankLimits(ls) && Collected(ls, start, end, j, before) && LimitFor(ls, j, k)
    ensures k !in before
  {
    if k in before {
      var i :| start <= i < j && i < k && LimitFor(ls, i, k);
      OneBlockPerLine(ls, i, j, k);
    }
  }

  lemma BlockEnds(ls: seq<Shape>, end: nat, j: nat, k: nat)
    requires j < k <= end <= |ls|
    requires k == end || !(ls[k].blank || ls[k].indent > ls[j].indent)
    ensures forall x: nat :: LimitFor(ls, j, x) && x < end ==> x < k
  {}

  lemma JoinBlock(ls: seq<Shape>, start: nat, end: nat, j: nat, before: seq<nat>, matches: seq<nat>)
    requires start <= j < end <= |ls| && Collected(ls, start, end, j, before)
    requires forall a, b :: 0 <= a < b < |matches| ==> matches[a] != matches[b]
    requires forall x :: x in matches <==> x in before || (j < x < end && LimitFor(ls, j, x))
    ensures Collected(ls, start, end, j + 1, matches)
  {
    forall k ensures k in matches <==>
                     start <= k < end <= |ls| && exists i :: start <= i < j + 1 && i < k && LimitFor(ls, i, k) {
      if k in before {
        var i :| start <= i < j && i < k && LimitFor(ls, i, k);
        assert start <= i < j + 1;
      }
    }
  }

  // ---------------------------------------------------------------------------
  // the edit
  // ---------------------------------------------------------------------------

  function DocStart(ls: seq<Shape>, n: nat): nat
    requires n < |ls|
  {
    if n == 0 || ls[n - 1].sep then n else DocStart(ls, n - 1)
  }

  function DocEnd(ls: seq<Shape>, n: nat): nat
    requires n < |ls|
    decreases |ls| - n
  {
    if n + 1 == |ls| || ls[n + 1].sep then n + 1 else DocEnd(ls, n + 1)
  }

  lemma {:induction false} StartIsUnique(ls: seq<Shape>, n: nat, lo: nat, hi: nat)
    requires DocumentOf(ls, n, lo, hi)
    ensures lo == DocStart(ls, n)
    decreases n
  {
    if n > lo { StartFrom(ls, n, lo); }
  }

  lemma {:induction false} StartFrom(ls: seq<Shape>, n: nat, lo: nat)
    requires lo <= n < |ls| && (lo == 0 || ls[lo - 1].sep) && forall k :: lo <= k < n ==> !ls[k].sep
    ensures DocStart(ls, n) == lo
    decreases n
  {
    if n > lo { StartFrom(ls, n - 1, lo); }
  }

  lemma {:induction false} EndFrom(ls: seq<Shape>, n: nat, hi: nat)
    requires n < hi <= |ls| && (hi == |ls| || ls[hi].sep) && forall k :: n < k < hi ==> !ls[k].sep
    ensures DocEnd(ls, n) == hi
    decreases |ls| - n
  {
    if n + 1 < hi { EndFrom(ls, n + 1, hi); }
  }

  lemma BoundsAreUnique(ls: seq<Shape>, n: nat, lo: nat, hi: nat)
    requires DocumentOf(ls, n, lo, hi)
    ensures lo == DocStart(ls, n) && hi == DocEnd(ls, n)
  {
    StartIsUnique(ls, n, lo, hi);
    EndFrom(ls, n, hi);
  }

  lemma DocumentAround(ls: seq<Shape>, n: nat)
    requires n < |ls|
    ensures DocumentOf(ls, n, DocStart(ls, n), DocEnd(ls, n))
  {
    StartFacts(ls, n);
    EndFacts(ls, n);
  }

  lemma {:induction false} StartFacts(ls: seq<Shape>, n: nat)
    requires n < |ls|
    ensures var lo := DocStart(ls, n); lo <= n && (lo == 0 || ls[lo - 1].sep) && forall k :: lo <= k < n ==> !ls[k].sep
    decreases n
  {
    if n > 0 && !ls[n - 1].sep { StartFacts(ls, n - 1); }
  }

  lemma {:induction false} EndFacts(ls: seq<Shape>, n: nat)
    requires n < |ls|
    ensures var hi := DocEnd(ls, n);
            n < hi <= |ls| && (hi == |ls| || ls[hi].sep) && forall k :: n < k < hi ==> !ls[k].sep
    decreases |ls| - n
  {
    if n + 1 < |ls| && !ls[n + 1].sep { EndFacts(ls, n + 1); }
  }

  ghost predicate OnlyCandidate(ls: seq<Shape>, lo: nat, hi: nat, k: nat) {
    Candidate(ls, lo, hi, k) && forall x: nat :: Candidate(ls, lo, hi, x) ==> x == k
  }

  function EditedLine(line: string, field: string, value: string): string {
    Lead(line) + field + ": " + value
  }

  /** The outcome for a given only candidate: compare the quantities, raise the limit or refuse. */
  function Raise(lines: seq<string>, k: nat, field: string, value: string, parse: string -> Option<real>)
      : (Outcome, seq<string>)
    requires k < |lines| && FieldLine(lines[k], field)
  {
    var cur, new_ := parse(FieldValue(lines[k], field)), parse(value);
    if cur.None? || new_.None? || new_.value < cur.value then (Rejected, lines)
    else if new_.value == cur.value then (NoOp, lines)
    else (Changed(k), lines[k := EditedLine(lines[k], field, value)])
  }

  /** _apply_limit: one candidate in the target's document, or nothing. */
  ghost function LimitEdit(lines: seq<string>, target: string, value: string, res: Resource,
                           parse: string -> Option<real>): (Outcome, seq<string>)
  {
    var ls := Shapes(lines, target, FieldOf(res));
    var ni := FirstName(ls, 0);
    if ni == |ls| then (NotFound, lines)
    else if k: nat :| OnlyCandidate(ls, DocStart(ls, ni), DocEnd(ls, ni), k)
         then Raise(lines, k, FieldOf(res), value, parse)
         else (NotFound, lines)
  }

  lemma LimitEditAt(lines: seq<string>, target: string, value: string, res: Resource, parse: string -> Option<real>,
                    k: nat)
    requires var ls := Shapes(lines, target, FieldOf(res));
             var ni := FirstName(ls, 0);
             ni < |ls| && OnlyCandidate(ls, DocStart(ls, ni), DocEnd(ls, ni), k)
    ensures k < |lines| && FieldLine(lines[k], FieldOf(res))
    ensures LimitEdit(lines, target, value, res, parse) == Raise(lines, k, FieldOf(res), value, parse)
  {}

  lemma LimitEditNowhere(lines: seq<string>, target: string, value: string, res: Resource,
                         parse: string -> Option<real>, ls: seq<Shape>, ni: nat)
    requires ls == Shapes(lines, target, FieldOf(res)) && ni == FirstName(ls, 0)
    requires ni == |ls| || NoneOnly(ls, DocStart(ls, ni), DocEnd(ls, ni))
    ensures LimitEdit(lines, target, value, res, parse) == (NotFound, lines)
  {
    if ni < |ls| {
      var lo, hi := DocStart(ls, ni), DocEnd(ls, ni);
      assert forall k: nat :: !OnlyCandidate(ls, lo, hi, k);
    }
  }

  /** No candidate, or more than one. */
  ghost predicate NoneOnly(ls: seq<Shape>, lo: nat, hi: nat) { forall k: nat :: !OnlyCandidate(ls, lo, hi, k) }

  // ---------------------------------------------------------------------------
  // every answer of the editor, and exactly when it is given
  // ---------------------------------------------------------------------------

  /** The YAML document of the first line that names the target. */
  ghost predicate TargetDocument(ls: seq<Shape>, lo: nat, hi: nat) {
    exists n: nat :: n < |ls| && ls[n].name && (forall k :: 0 <= k < n ==> !ls[k].name) && DocumentOf(ls, n, lo, hi)
  }

  /** Line k is the only candidate in the target's document. */
  ghost predicate SoleLimit(ls: seq<Shape>, k: nat) {
    exists lo: nat, hi: nat :: TargetDocument(ls, lo, hi) && OnlyCandidate(ls, lo, hi, k)
  }

  /** What is answered when line k is the only candidate: a quantity that does not parse or is smaller is refused, an
      equal one is no work, a larger one is written. */
  ghost predicate AnswersAt(lines: seq<string>, k: nat, field: string, value: string, parse: string -> Option<real>,
                            outcome: Outcome, edited: seq<string>)
  {
    k < |lines| && FieldLine(lines[k], field) &&
    var cur, new_ := parse(FieldValue(lines[k], field)), parse(value);
    && (outcome == Rejected <==> cur.None? || new_.None? || new_.value < cur.value)
    && (outcome == NoOp <==> cur.Some? && new_.Some? && new_.value == cur.value)
    && (outcome == Changed(k) <==> cur.Some? && new_.Some? && new_.value > cur.value)
    && edited == if outcome.Changed? then lines[k := Lead(lines[k]) + field + ": " + value] else lines
  }

  ghost predicate LimitAnswers(lines: seq<string>, target: string, value: string, res: Resource,
                               parse: string -> Option<real>, outcome: Outcome, edited: seq<string>)
  {
    var ls := Shapes(lines, target, FieldOf(res));
    && (outcome == NotFound <==> forall k: nat :: !SoleLimit(ls, k))
    && (outcome == NotFound ==> edited == lines)
    && forall k: nat :: SoleLimit(ls, k) ==> AnswersAt(lines, k, FieldOf(res), value, parse, outcome, edited)
  }

  lemma SoleLimitIs(ls: seq<Shape>, k: nat)
    ensures var ni := FirstName(ls, 0);
            SoleLimit(ls, k) <==> ni < |ls| && OnlyCandidate(ls, DocStart(ls, ni), DocEnd(ls, ni), k)
  {
    var ni := FirstName(ls, 0);
    if lo: nat, hi: nat :| TargetDocument(ls, lo, hi) && OnlyCandidate(ls, lo, hi, k) {
      BoundsAreUnique(ls, ni, lo, hi);
    }
    if ni < |ls| && OnlyCandidate(ls, DocStart(ls, ni), DocEnd(ls, ni), k) {
      DocumentAround(ls, ni);
      assert TargetDocument(ls, DocStart(ls, ni), DocEnd(ls, ni));
    }
  }

  lemma RaiseAnswers(lines: seq<string>, k: nat, field: string, value: string, parse: string -> Option<real>)
    requires k < |lines| && FieldLine(lines[k], field)
    ensures var (outcome, edited) := Raise(lines, k, field, value, parse);
            outcome != NotFound && AnswersAt(lines, k, field, value, parse, outcome, edited)
  {}

  lemma LimitEditAnswers(lines: seq<string>, target: string, value: string, res: Resource,
                         parse: string -> Option<real>)
    ensures var (outcome, edited) := LimitEdit(lines, target, value, res, parse);
            LimitAnswers(lines, target, value, res, parse, outcome, edited)
  {
    var ls := Shapes(lines, target, FieldOf(res));
    forall k: nat { SoleLimitIs(ls, k); }
    if k: nat :| SoleLimit(ls, k) {
      LimitEditAt(lines, target, value, res, parse, k);
      RaiseAnswers(lines, k, FieldOf(res), value, parse);
      forall j: nat | SoleLimit(ls, j) ensures j == k {}
    }
  }

  /** The editor itself: search, count, compare, write. */
  method ApplyLimit(lines: seq<string>, target: string, value: string, res: Resource, parse: string -> Option<real>)
      returns (outcome: Outcome, edited: seq<string>)
    ensures (outcome, edited) == LimitEdit(lines, target, value, res, parse)
    ensures LimitAnswers(lines, target, value, res, parse, outcome, edited)
  {
    outcome, edited := SearchAndRaise(lines, target, value, res, parse);
    LimitEditAnswers(lines, target, value, res, parse);
  }

  method SearchAndRaise(lines: seq<string>, target: string, value: string, res: Resource,
                        parse: string -> Option<real>)
      returns (outcome: Outcome, edited: seq<string>)
    ensures (outcome, edited) == LimitEdit(lines, target, value, res, parse)
  {
    var field := FieldOf(res);
    LimitsNotBlank(lines, target, field);
    var ls := Shapes(lines, target, field);
    var found := FindOnly(ls);
    if found.None? {
      LimitEditNowhere(lines, target, value, res, parse, ls, FirstName(ls, 0));
      return NotFound, lines;
    }
    LimitEditAt(lines, target, value, res, parse, found.value);
    outcome, edited := RaiseLimit(lines, found.value, field, value, parse);
  }

  /** The search: the only candidate in the target's document. */
  method FindOnly(ls: seq<Shape>) returns (found: Option<nat>)
    requires NoBlankLimits(ls)
    ensures var ni := FirstName(ls, 0);
            if found.Some? then ni < |ls| && OnlyCandidate(ls, DocStart(ls, ni), DocEnd(ls, ni), found.value)
            else ni == |ls| || NoneOnly(ls, DocStart(ls, ni), DocEnd(ls, ni))
  {
    var ni := SearchName(ls);
    if ni == |ls| {
      return None;
    }
    var start, end := DocumentBounds(ls, ni);
    BoundsAreUnique(ls, ni, start, end);
    var matches := CollectMatches(ls, start, end);
    if |matches| != 1 {
      NoOnlyCandidate(ls, start, end, matches);
      return None;
    }
    SingleMatch(ls, start, end, matches);
    return Some(matches[0]);
  }

  /** The comparison and the write. */
  method RaiseLimit(lines: seq<string>, idx: nat, field: string, value: string, parse: string -> Option<real>)
      returns (outcome: Outcome, edited: seq<string>)
    requires idx < |lines| && FieldLine(lines[idx], field)
    ensures (outcome, edited) == Raise(lines, idx, field, value, parse)
  {
    var cur := FieldValue(lines[idx], field);
    var curv, newv := parse(cur), parse(value);
    if curv.None? || newv.None? {
      return Rejected, lines;
    }
    if newv.value == curv.value {
      return NoOp, lines;
    }
    if newv.value < curv.value {
      return Rejected, lines;
    }
    edited := lines[idx := Lead(lines[idx]) + field + ": " + value];
    outcome := Changed(idx);
  }

  method SearchName(ls: seq<Shape>) returns (ni: nat)
    ensures ni == FirstName(ls, 0)
  {
    ni := 0;
    while ni < |ls| && !ls[ni].name
      invariant 0 <= ni <= |ls| && FirstName(ls, 0) == FirstName(ls, ni)
    {
      ni := ni + 1;
    }
  }

  lemma SingleMatch(ls: seq<Shape>, lo: nat, hi: nat, matches: seq<nat>)
    requires |matches| == 1 && forall k :: k in matches <==> Candidate(ls, lo, hi, k)
    ensures OnlyCandidate(ls, lo, hi, matches[0])
  {
    assert matches[0] in matches;
  }

  lemma NoOnlyCandidate(ls: seq<Shape>, lo: nat, hi: nat, matches: seq<nat>)
    requires |matches| != 1 && forall k :: k in matches <==> Candidate(ls, lo, hi, k)
    requires forall i, j :: 0 <= i < j < |matches| ==> matches[i] != matches[j]
    ensures NoneOnly(ls, lo, hi)
  {
    if |matches| >= 2 {
      assert matches[0] in matches && matches[1] in matches;
    } else {
      assert forall k :: k !in matches;
    }
  }

  // ---------------------------------------------------------------------------
  // what a successful edit does, and that it settles the matter
  // ---------------------------------------------------------------------------

  /** The line sits in the target's own YAML document, under one of its `limits:` blocks. */
  ghost predicate InTargetLimits(lines: seq<string>, target: string, field: string, k: nat) {
    var ls := Shapes(lines, target, field);
    exists n: nat, lo: nat, hi: nat, j: nat ::
      && DocumentOf(ls, n, lo, hi) && ls[n].name
      && lo <= j < k < hi && LimitFor(ls, j, k)
  }

  lemma EditedParts(line: string, field: string, value: string)
    requires field in {"memory", "cpu"}
    ensures var new_ := EditedLine(line, field, value);
            && Lead(new_) == Lead(line)
            && LStrip(new_) == field + ":" + (" " + value)
            && FieldLine(new_, field)
            && LStrip(new_)[|field| + 1..] == " " + value
  {
    var tail := field + ":" + (" " + value);
    assert EditedLine(line, field, value) == Lead(line) + tail;
    LeadOf(Lead(line), tail);
  }

  lemma StripSpaceFirst(value: string)
    ensures Strip(" " + value) == Strip(value)
  {
    assert (" " + value)[1..] == value;
  }

  lemma EditedShape(line: string, target: string, field: string, value: string)
    requires FieldLine(line, field) && field in {"memory", "cpu"}
    ensures ShapeOf(EditedLine(line, field, value), target, field) == ShapeOf(line, target, field)
    ensures FieldLine(EditedLine(line, field, value), field)
    ensures FieldValue(EditedLine(line, field, value), field) == Strip(value)
  {
    EditedParts(line, field, value);
    NotSpecial(line, field, target);
    NotSpecial(EditedLine(line, field, value), field, target);
    StripSpaceFirst(value);
  }

  /** A line that starts with the field's name is no separator, name line, limits line or blank. */
  lemma NotSpecial(line: string, field: string, target: string)
    requires FieldLine(line, field) && field in {"memory", "cpu"}
    ensures !DocSep(line) && !AnchoredNameLine(line, target) && !LimitsLine(line) && !Blank(line)
  {
    LeadSplits(line);
    var b := LStrip(line);
    assert b[0] == field[0] && b[0] in line && b[1] == field[1];
    assert !IsSpace(b[0]);
    if Lead(line) == [] { assert line == b; } else { assert line[0] == Lead(line)[0] && Lead(line)[0] in Lead(line); }
  }

  lemma ShapesKept(lines: seq<string>, k: nat, target: string, field: string, value: string)
    requires k < |lines| && FieldLine(lines[k], field) && field in {"memory", "cpu"}
    ensures Shapes(lines[k := EditedLine(lines[k], field, value)], target, field) == Shapes(lines, target, field)
  {
    EditedShape(lines[k], target, field, value);
  }

  lemma LimitEditFinds(lines: seq<string>, target: string, value: string, res: Resource,
                       parse: string -> Option<real>) returns (k: nat)
    requires LimitEdit(lines, target, value, res, parse).0.Changed?
    ensures LimitEdit(lines, target, value, res, parse).0 == Changed(k) && k < |lines| &&
            FieldLine(lines[k], FieldOf(res))
    ensures LimitEdit(lines, target, value, res, parse) == Raise(lines, k, FieldOf(res), value, parse)
    ensures var ls := Shapes(lines, target, FieldOf(res));
            var ni := FirstName(ls, 0);
            ni < |ls| && OnlyCandidate(ls, DocStart(ls, ni), DocEnd(ls, ni), k)
  {
    var ls := Shapes(lines, target, FieldOf(res));
    var ni := FirstName(ls, 0);
    k :| OnlyCandidate(ls, DocStart(ls, ni), DocEnd(ls, ni), k);
    LimitEditAt(lines, target, value, res, parse, k);
  }

  /** Exactly line k differs, and it now holds a strictly larger quantity. */
  ghost predicate RaisedAt(lines: seq<string>, edited: seq<string>, k: nat, field: string, value: string,
                           parse: string -> Option<real>) {
    && |edited| == |lines| && k < |lines|
    && (forall i :: 0 <= i < |lines| && i != k ==> edited[i] == lines[i])
    && FieldLine(lines[k], field) && FieldLine(edited[k], field)
    && FieldValue(edited[k], field) == Strip(value)
    && parse(FieldValue(lines[k], field)).Some? && parse(value).Some?
    && parse(FieldValue(lines[k], field)).value < parse(value).value
  }

  lemma RaiseRaises(lines: seq<string>, k: nat, field: string, value: string, parse: string -> Option<real>)
    requires k < |lines| && FieldLine(lines[k], field) && field in {"memory", "cpu"}
    requires Raise(lines, k, field, value, parse).0.Changed?
    ensures RaisedAt(lines, Raise(lines, k, field, value, parse).1, k, field, value, parse)
  {
    EditedShape(lines[k], "", field, value);
  }

  /** A successful edit changes exactly one line, inside a limits block of the target's own document, to a
      strictly larger quantity. */
  lemma LimitEditIsMinimal(lines: seq<string>, target: string, value: string, res: Resource,
                           parse: string -> Option<real>)
    requires LimitEdit(lines, target, value, res, parse).0.Changed?
    ensures var (outcome, edited) := LimitEdit(lines, target, value, res, parse);
            && RaisedAt(lines, edited, outcome.line, FieldOf(res), value, parse)
            && InTargetLimits(lines, target, FieldOf(res), outcome.line)
  {
    var k := LimitEditFinds(lines, target, value, res, parse);
    RaiseRaises(lines, k, FieldOf(res), value, parse);
    OnlyCandidateInside(lines, target, FieldOf(res), FirstName(Shapes(lines, target, FieldOf(res)), 0), k);
  }

  lemma OnlyCandidateInside(lines: seq<string>, target: string, field: string, ni: nat, k: nat)
    requires var ls := Shapes(lines, target, field);
             ni < |ls| && ls[ni].name && Candidate(ls, DocStart(ls, ni), DocEnd(ls, ni), k)
    ensures InTargetLimits(lines, target, field, k)
  {
    var ls := Shapes(lines, target, field);
    var lo, hi := DocStart(ls, ni), DocEnd(ls, ni);
    DocumentAround(ls, ni);
    var j :| lo <= j < k && LimitFor(ls, j, k);
    assert DocumentOf(ls, ni, lo, hi) && ls[ni].name && lo <= j < k < hi && LimitFor(ls, j, k);
  }

  /** Applying the same edit again reports a no-op (the pipeline hands over stripped values). */
  lemma LimitEditIdempotent(lines: seq<string>, target: string, value: string, res: Resource,
                            parse: string -> Option<real>)
    requires LimitEdit(lines, target, value, res, parse).0.Changed? && Strip(value) == value
    ensures var edited := LimitEdit(lines, target, value, res, parse).1;
            LimitEdit(edited, target, value, res, parse) == (NoOp, edited)
  {
    var k := LimitEditFinds(lines, target, value, res, parse);
    var edited := LimitEdit(lines, target, value, res, parse).1;
    ShapesKept(lines, k, target, FieldOf(res), value);
    EditedShape(lines[k], target, FieldOf(res), value);
    LimitEditAt(edited, target, value, res, parse, k);
  }
}
