/** The `for:` and scalar editors of the doer pipeline: a first success changes or inserts one line close
    to its anchor, and a second application with the same value leaves the text alone. */
module ClauseEditors {
  import opened Text
  import opened YamlLines

  datatype Outcome = NotFound | NoOp | Changed(line: nat)

  // ---------------------------------------------------------------------------
  // the for: clause of an alert rule
  // ---------------------------------------------------------------------------

  function FirstAlert(lines: seq<string>, target: string, i: nat): (r: nat)
    requires i <= |lines|
    ensures i <= r <= |lines|
    ensures forall k :: i <= k < r ==> !AlertLine(lines[k], target)
    ensures r < |lines| ==> AlertLine(lines[r], target)
    decreases |lines| - i
  {
    if i == |lines| || AlertLine(lines[i], target) then i else FirstAlert(lines, target, i + 1)
  }

  function FieldIndent(alert: string): string { Lead(alert) + "  " }

  /** The line ends the rule block of an alert indented by `indent`: a separator or a dedent. */
  predicate EndsRule(s: string, indent: nat) { DocSep(s) || (!Blank(s) && Indent(s) <= indent) }

  predicate ForLine(s: string, fieldIndent: string) { fieldIndent + "for:" <= s }

  function ForValue(s: string, fieldIndent: string): string
    requires ForLine(s, fieldIndent)
  {
    Unquoted(s[|fieldIndent| + 4..])
  }

  function NewForLine(fieldIndent: string, value: string): string { fieldIndent + "for: " + value }

  /** The first for: line of the rule block at or after j; |lines| when the block ends without one. */
  function FindFor(lines: seq<string>, alert: string, j: nat): (r: nat)
    requires j <= |lines|
    ensures || r == |lines|
            || (j <= r < |lines| && ForLine(lines[r], FieldIndent(alert)) && !EndsRule(lines[r], Indent(alert)))
    ensures r < |lines| ==>
              forall k :: j <= k < r ==> !EndsRule(lines[k], Indent(alert)) && !ForLine(lines[k], FieldIndent(alert))
    decreases |lines| - j
  {
    if j == |lines| || EndsRule(lines[j], Indent(alert)) then |lines|
    else if ForLine(lines[j], FieldIndent(alert)) then j
    else FindFor(lines, alert, j + 1)
  }

  /** _apply_for as a function of the lines. */
  function ForEdit(lines: seq<string>, target: string, value: string): (Outcome, seq<string>) {
    var ai := FirstAlert(lines, target, 0);
    if ai == |lines| then (NotFound, lines)
    else
      var fi := FieldIndent(lines[ai]);
      var j := FindFor(lines, lines[ai], ai + 1);
      if j == |lines| then (Changed(ai + 1), lines[..ai + 1] + [NewForLine(fi, value)] + lines[ai + 1..])
      else if ForValue(lines[j], fi) == value then (NoOp, lines)
      else (Changed(j), lines[j := NewForLine(fi, value)])
  }

  /** _apply_for */
  method ApplyFor(lines: seq<string>, target: string, value: string) returns (outcome: Outcome, edited: seq<string>)
    ensures (outcome, edited) == ForEdit(lines, target, value)
    ensures ForAnswers(lines, target, value, outcome, edited)
  {
    outcome, edited := RunFor(lines, target, value);
    ForEditAnswers(lines, target, value);
  }

  /** The editor's loops. */
  method RunFor(lines: seq<string>, target: string, value: string) returns (outcome: Outcome, edited: seq<string>)
    ensures (outcome, edited) == ForEdit(lines, target, value)
  {
    var ai := 0;
    while ai < |lines| && !AlertLine(lines[ai], target)
      invariant 0 <= ai <= |lines| && FirstAlert(lines, target, 0) == FirstAlert(lines, target, ai)
    {
      ai := ai + 1;
    }
    if ai == |lines| {
      return NotFound, lines;
    }
    var indent := Lead(lines[ai]);
    var fieldIndent := indent + "  ";
    var j := ai + 1;
    while j < |lines|
      invariant ai < j <= |lines| && FindFor(lines, lines[ai], ai + 1) == FindFor(lines, lines[ai], j)
    {
      if DocSep(lines[j]) {
        break;
      }
      if !Blank(lines[j]) && Indent(lines[j]) <= |indent| {
        break;
      }
      if ForLine(lines[j], fieldIndent) {
        if ForValue(lines[j], fieldIndent) == value {
          return NoOp, lines;
        }
        return Changed(j), lines[j := NewForLine(fieldIndent, value)];
      }
      j := j + 1;
    }
    edited := lines[..ai + 1] + [NewForLine(fieldIndent, value)] + lines[ai + 1..];
    outcome := Changed(ai + 1);
  }

  lemma FieldIndentIsBlank(alert: string)
    ensures Blank(FieldIndent(alert)) && FieldIndent(alert) != []
    ensures |FieldIndent(alert)| == Indent(alert) + 2 && IsSpace(FieldIndent(alert)[0])
  {
    var fi := FieldIndent(alert);
    forall c | c in fi ensures IsSpace(c) { assert c in Lead(alert) || c in "  "; }
    assert fi[0] in fi;
  }

  lemma NewForLineFacts(alert: string, value: string)
    ensures var fi := FieldIndent(alert);
            var s := NewForLine(fi, value);
            && ForLine(s, fi) && !EndsRule(s, Indent(alert)) && s[|fi| + 4..] == " " + value
  {
    var fi := FieldIndent(alert);
    var tail := "for: " + value;
    var s := fi + tail;
    assert NewForLine(fi, value) == s;
    FieldIndentIsBlank(alert);
    LeadOf(fi, tail);
    assert tail[0] in s && tail[0] == 'f';
    assert s[0] == fi[0];
  }

  lemma UnquotedAfterSpace(value: string)
    ensures Unquoted(" " + value) == Unquoted(value)
  {
    assert (" " + value)[1..] == value;
  }

  /** Line k belongs to the rule block of the alert on line ai: no line up to and including it is a separator
      or a dedent. */
  ghost predicate InRule(lines: seq<string>, ai: nat, k: nat) {
    ai < k < |lines| && forall m :: ai < m <= k ==> !EndsRule(lines[m], Indent(lines[ai]))
  }

  ghost predicate IsForOf(lines: seq<string>, ai: nat, k: nat) {
    InRule(lines, ai, k) && ForLine(lines[k], FieldIndent(lines[ai]))
  }

  /** FindFor finds the rule's first for: line, and finds none exactly when the rule has none. */
  lemma {:induction false} FindForIsFirst(lines: seq<string>, ai: nat, j: nat)
    requires ai < j <= |lines| && forall m :: ai < m < j ==> !EndsRule(lines[m], Indent(lines[ai]))
    ensures var r := FindFor(lines, lines[ai], j);
            && (r < |lines| ==> IsForOf(lines, ai, r))
            && forall k :: j <= k < r ==> !IsForOf(lines, ai, k)
    decreases |lines| - j
  {
    if j < |lines| && !EndsRule(lines[j], Indent(lines[ai])) { FindForIsFirst(lines, ai, j + 1); }
  }

  ghost predicate FirstAlertAt(lines: seq<string>, target: string, ai: nat) {
    ai < |lines| && AlertLine(lines[ai], target) && forall k :: 0 <= k < ai ==> !AlertLine(lines[k], target)
  }

  ghost predicate FirstForOf(lines: seq<string>, ai: nat, k: nat) {
    IsForOf(lines, ai, k) && forall m: nat :: m < k ==> !IsForOf(lines, ai, m)
  }

  /** What is answered when the rule's first for: line is line k: nothing to do when its value, unquoted, is the one
      wanted, else that line is rewritten. */
  ghost predicate ForAnswersAt(lines: seq<string>, ai: nat, k: nat, value: string, outcome: Outcome,
                               edited: seq<string>)
  {
    ai < |lines| && k < |lines| && ForLine(lines[k], FieldIndent(lines[ai])) &&
    if Unquoted(lines[k][|Lead(lines[ai])| + 6..]) == value then outcome == NoOp && edited == lines
    else outcome == Changed(k) && edited == lines[k := Lead(lines[ai]) + "  " + "for: " + value]
  }

  /** Every answer of the for: editor, and exactly when it is given: without the alert nothing is found, a rule
      without a for: line gets one right below the alert, one with it keeps or changes that line. */
  ghost predicate ForAnswers(lines: seq<string>, target: string, value: string, outcome: Outcome, edited: seq<string>)
  {
    && (outcome == NotFound <==> forall k :: 0 <= k < |lines| ==> !AlertLine(lines[k], target))
    && (outcome == NotFound ==> edited == lines)
    && (forall ai: nat :: FirstAlertAt(lines, target, ai) ==>
         ForAnswersBelow(lines, ai, value, outcome, edited))
  }

  ghost predicate ForAnswersBelow(lines: seq<string>, ai: nat, value: string, outcome: Outcome, edited: seq<string>)
    requires ai < |lines|
  {
    && (forall k: nat :: FirstForOf(lines, ai, k) ==> ForAnswersAt(lines, ai, k, value, outcome, edited))
    && ((forall k: nat :: !FirstForOf(lines, ai, k)) ==> InsertedAt(lines, ai, value, outcome, edited))
  }

  /** A new for: line stands right below the alert, and nothing else is different. */
  predicate InsertedAt(lines: seq<string>, ai: nat, value: string, outcome: Outcome, edited: seq<string>)
    requires ai < |lines|
  {
    && outcome == Changed(ai + 1)
    && edited == lines[..ai + 1] + [Lead(lines[ai]) + "  " + "for: " + value] + lines[ai + 1..]
  }

  lemma ForFound(lines: seq<string>, ai: nat)
    requires ai < |lines|
    ensures var r := FindFor(lines, lines[ai], ai + 1);
            && (r < |lines| ==> FirstForOf(lines, ai, r))
            && (r == |lines| ==> forall k: nat :: !IsForOf(lines, ai, k))
            && forall k: nat :: FirstForOf(lines, ai, k) ==> k == r
  {
    FindForIsFirst(lines, ai, ai + 1);
  }

  lemma ForEditAnswers(lines: seq<string>, target: string, value: string)
    ensures ForAnswers(lines, target, value, ForEdit(lines, target, value).0, ForEdit(lines, target, value).1)
  {
    var ai := FirstAlert(lines, target, 0);
    if ai < |lines| {
      var (outcome, edited) := ForEdit(lines, target, value);
      ForEditAt(lines, target, value, ai, FindFor(lines, lines[ai], ai + 1));
      ForFound(lines, ai);
      AnswersBelow(lines, ai, FindFor(lines, lines[ai], ai + 1), value, outcome, edited);
      assert forall k: nat :: FirstAlertAt(lines, target, k) ==> k == ai;
    }
  }

  /** The edit in terms of what the searches find. */
  lemma ForEditAt(lines: seq<string>, target: string, value: string, ai: nat, r: nat)
    requires ai == FirstAlert(lines, target, 0) && ai < |lines| && r == FindFor(lines, lines[ai], ai + 1)
    ensures var (outcome, edited) := ForEdit(lines, target, value);
            && (r == |lines| ==> InsertedAt(lines, ai, value, outcome, edited))
            && (r < |lines| ==> ForAnswersAt(lines, ai, r, value, outcome, edited))
  {}

  lemma AnswersBelow(lines: seq<string>, ai: nat, r: nat, value: string, outcome: Outcome, edited: seq<string>)
    requires ai < |lines| && r <= |lines|
    requires r == |lines| ==> InsertedAt(lines, ai, value, outcome, edited)
    requires r < |lines| ==> ForAnswersAt(lines, ai, r, value, outcome, edited) && FirstForOf(lines, ai, r)
    requires r == |lines| ==> forall k: nat :: !IsForOf(lines, ai, k)
    requires forall k: nat :: FirstForOf(lines, ai, k) ==> k == r
    ensures outcome != NotFound && ForAnswersBelow(lines, ai, value, outcome, edited)
  {}

  /** A success replaces the first for: line of the rule of the first alert with that name, or, exactly when
      that rule has none, inserts one right below the alert; either way the new line is in the rule and every
      other line is as before. */
  lemma ForEditIsLocal(lines: seq<string>, target: string, value: string)
    requires ForEdit(lines, target, value).0.Changed?
    ensures var (outcome, edited) := ForEdit(lines, target, value);
            var ai, k := FirstAlert(lines, target, 0), outcome.line;
            && ai < |lines| && AlertLine(lines[ai], target)
            && var new_ := NewForLine(FieldIndent(lines[ai]), value);
            && InRule(edited, ai, k)
            && if exists m :: IsForOf(lines, ai, m)
               then && IsForOf(lines, ai, k) && (forall m :: ai < m < k ==> !IsForOf(lines, ai, m))
                    && edited == lines[k := new_]
               else k == ai + 1 && edited == lines[..k] + [new_] + lines[k..]
  {
    var (outcome, edited) := ForEdit(lines, target, value);
    var ai, k := FirstAlert(lines, target, 0), outcome.line;
    FindForIsFirst(lines, ai, ai + 1);
    NewForLineFacts(lines[ai], value);
    assert edited[ai] == lines[ai];
  }

  lemma {:induction false} FirstAlertStays(lines: seq<string>, edited: seq<string>, target: string, i: nat)
    requires i <= |lines| && var ai := FirstAlert(lines, target, i);
             ai < |lines| && ai < |edited| && forall k :: 0 <= k <= ai ==> edited[k] == lines[k]
    ensures FirstAlert(edited, target, i) == FirstAlert(lines, target, i)
    decreases |lines| - i
  {
    if !AlertLine(lines[i], target) { FirstAlertStays(lines, edited, target, i + 1); }
  }

  lemma {:induction false} FindForAt(edited: seq<string>, alert: string, j: nat, k: nat)
    requires j <= k < |edited| && ForLine(edited[k], FieldIndent(alert)) && !EndsRule(edited[k], Indent(alert))
    requires forall m :: j <= m < k ==> !EndsRule(edited[m], Indent(alert)) && !ForLine(edited[m], FieldIndent(alert))
    ensures FindFor(edited, alert, j) == k
    decreases k - j
  {
    if j < k { FindForAt(edited, alert, j + 1, k); }
  }

  /** A second application leaves the text as it is, and says so exactly when the value has no white space
      or quotes at its ends. */
  lemma ForEditIdempotent(lines: seq<string>, target: string, value: string)
    requires ForEdit(lines, target, value).0.Changed?
    ensures var edited := ForEdit(lines, target, value).1;
            && ForEdit(edited, target, value).1 == edited
            && (ForEdit(edited, target, value).0 == NoOp <==> Unquoted(value) == value)
  {
    var (outcome, edited) := ForEdit(lines, target, value);
    var ai, k := FirstAlert(lines, target, 0), outcome.line;
    var new_ := NewForLine(FieldIndent(lines[ai]), value);
    NewForLineFacts(lines[ai], value);
    EditedLines(lines, target, value);
    FirstAlertStays(lines, edited, target, 0);
    FoundAgain(edited, value, ai, k);
    ForEditAgain(edited, target, value, ai, k);
  }

  lemma EditedLines(lines: seq<string>, target: string, value: string)
    requires ForEdit(lines, target, value).0.Changed?
    ensures var (outcome, edited) := ForEdit(lines, target, value);
            var ai, k := FirstAlert(lines, target, 0), outcome.line;
            && ai < k < |edited| && ai < |lines| && k <= |lines|
            && edited[k] == NewForLine(FieldIndent(lines[ai]), value)
            && (forall m :: 0 <= m < k ==> edited[m] == lines[m])
            && (forall m :: ai < m < k ==>
                  !EndsRule(lines[m], Indent(lines[ai])) && !ForLine(lines[m], FieldIndent(lines[ai])))
  {}

  lemma ForEditAgain(edited: seq<string>, target: string, value: string, ai: nat, k: nat)
    requires ai < k < |edited| && FirstAlert(edited, target, 0) == ai && FindFor(edited, edited[ai], ai + 1) == k
    requires edited[k] == NewForLine(FieldIndent(edited[ai]), value)
    requires ForValue(edited[k], FieldIndent(edited[ai])) == Unquoted(value)
    ensures ForEdit(edited, target, value).1 == edited
    ensures ForEdit(edited, target, value).0 == NoOp <==> Unquoted(value) == value
  {
    assert edited[k := edited[k]] == edited;
  }

  /** The search finds the written line, and the value in it. */
  lemma FoundAgain(edited: seq<string>, value: string, ai: nat, k: nat)
    requires ai < k < |edited| && edited[k] == NewForLine(FieldIndent(edited[ai]), value)
    requires forall m :: ai < m < k ==>
               !EndsRule(edited[m], Indent(edited[ai])) && !ForLine(edited[m], FieldIndent(edited[ai]))
    ensures FindFor(edited, edited[ai], ai + 1) == k
    ensures ForValue(edited[k], FieldIndent(edited[ai])) == Unquoted(value)
  {
    NewForLineFacts(edited[ai], value);
    UnquotedAfterSpace(value);
    FindForAt(edited, edited[ai], ai + 1, k);
  }

  // ---------------------------------------------------------------------------
  // a scalar field of a named document
  // ---------------------------------------------------------------------------

  function FirstNamed(lines: seq<string>, target: string, i: nat): (r: nat)
    requires i <= |lines|
    ensures i <= r <= |lines|
    ensures forall k :: i <= k < r ==> !NameLine(lines[k], target)
    ensures r < |lines| ==> NameLine(lines[r], target)
    decreases |lines| - i
  {
    if i == |lines| || NameLine(lines[i], target) then i else FirstNamed(lines, target, i + 1)
  }

  /** The first line from j on that passes the test, unless the search is stopped before it; |lines| when there is
      none. */
  function FindBefore(lines: seq<string>, j: nat, stop: string -> bool, test: string -> bool): (r: nat)
    requires j <= |lines|
    ensures r == |lines| || (j <= r < |lines| && test(lines[r]) && !stop(lines[r]))
    ensures r < |lines| ==> forall k :: j <= k < r ==> !stop(lines[k]) && !test(lines[k])
    decreases |lines| - j
  {
    if j == |lines| || stop(lines[j]) then |lines|
    else if test(lines[j]) then j
    else FindBefore(lines, j + 1, stop, test)
  }

  /** The line found is still found where it is replaced by one that passes. */
  lemma {:induction false} FindBeforeStays(lines: seq<string>, edited: seq<string>, j: nat, k: nat,
                                           stop: string -> bool, test: string -> bool)
    requires j <= k < |lines| && FindBefore(lines, j, stop, test) == k
    requires |edited| == |lines| && test(edited[k]) && !stop(edited[k])
    requires forall m :: j <= m < k ==> edited[m] == lines[m]
    ensures FindBefore(edited, j, stop, test) == k
    decreases k - j
  {
    if j < k { FindBeforeStays(lines, edited, j + 1, k, stop, test); }
  }

  function HasField(field: string): string -> bool { s => FieldLine(s, field) }

  /** The first field line at or after j in the same YAML document; |lines| when there is none. */
  function FindField(lines: seq<string>, field: string, j: nat): (r: nat)
    requires j <= |lines|
    ensures r == |lines| || (j <= r < |lines| && FieldLine(lines[r], field) && !DocSep(lines[r]))
    ensures r < |lines| ==> forall k :: j <= k < r ==> !DocSep(lines[k]) && !FieldLine(lines[k], field)
  {
    FindBefore(lines, j, DocSep, HasField(field))
  }

  /** ^(\s*<field>:\s*): everything before the value. */
  function FieldPrefix(s: string, field: string): string
    requires FieldLine(s, field)
  {
    Lead(s) + field + ":" + Lead(LStrip(s)[|field| + 1..])
  }

  function ScalarValue(s: string, field: string): string
    requires FieldLine(s, field)
  {
    Unquoted(LStrip(LStrip(s)[|field| + 1..]))
  }

  function Written(value: string, quote: bool): string { if quote then "\"" + value + "\"" else value }

  /** _apply_scalar as a function of the lines. */
  function ScalarEdit(lines: seq<string>, target: string, value: string, field: string, quote: bool)
      : (Outcome, seq<string>)
  {
    var ni := FirstNamed(lines, target, 0);
    if ni == |lines| then (NotFound, lines)
    else
      var j := FindField(lines, field, ni + 1);
      if j == |lines| then (NotFound, lines)
      else if ScalarValue(lines[j], field) == value then (NoOp, lines)
      else (Changed(j), lines[j := FieldPrefix(lines[j], field) + Written(value, quote)])
  }

  /** _apply_scalar */
  method ApplyScalar(lines: seq<string>, target: string, value: string, field: string, quote: bool)
      returns (outcome: Outcome, edited: seq<string>)
    ensures (outcome, edited) == ScalarEdit(lines, target, value, field, quote)
    ensures ScalarAnswers(lines, target, value, field, quote, outcome, edited)
  {
    outcome, edited := RunScalar(lines, target, value, field, quote);
    ScalarEditAnswers(lines, target, value, field, quote);
  }

  method RunScalar(lines: seq<string>, target: string, value: string, field: string, quote: bool)
      returns (outcome: Outcome, edited: seq<string>)
    ensures (outcome, edited) == ScalarEdit(lines, target, value, field, quote)
  {
    var ni := SearchName(lines, target);
    if ni == |lines| {
      return NotFound, lines;
    }
    var j := SearchField(lines, field, ni + 1);
    if j == |lines| {
      return NotFound, lines;
    }
    if ScalarValue(lines[j], field) == value {
      return NoOp, lines;
    }
    return Changed(j), lines[j := FieldPrefix(lines[j], field) + Written(value, quote)];
  }

  method SearchName(lines: seq<string>, target: string) returns (ni: nat)
    ensures ni == FirstNamed(lines, target, 0)
  {
    ni := 0;
    while ni < |lines| && !NameLine(lines[ni], target)
      invariant 0 <= ni <= |lines| && FirstNamed(lines, target, 0) == FirstNamed(lines, target, ni)
    {
      ni := ni + 1;
    }
  }

  method SearchField(lines: seq<string>, field: string, start: nat) returns (j: nat)
    requires start <= |lines|
    ensures j == FindField(lines, field, start)
  {
    for i := start to |lines|
      invariant FindField(lines, field, start) == FindField(lines, field, i)
    {
      if DocSep(lines[i]) { return |lines|; }
      if FieldLine(lines[i], field) { return i; }
    }
    return |lines|;
  }

  /** Line k is a field line below line ni in the same YAML document. */
  ghost predicate IsFieldBelow(lines: seq<string>, field: string, ni: nat, k: nat) {
    ni < k < |lines| && FieldLine(lines[k], field) && forall m :: ni < m <= k ==> !DocSep(lines[m])
  }

  /** Line k is the first field line below the first line that names the target, in the same document. */
  ghost predicate ScalarTarget(lines: seq<string>, target: string, field: string, k: nat) {
    exists ni: nat :: FirstNameAt(lines, target, ni) && FirstFieldBelow(lines, field, ni, k)
  }

  ghost predicate FirstNameAt(lines: seq<string>, target: string, ni: nat) {
    ni < |lines| && NameLine(lines[ni], target) && forall k :: 0 <= k < ni ==> !NameLine(lines[k], target)
  }

  ghost predicate FirstFieldBelow(lines: seq<string>, field: string, ni: nat, k: nat) {
    IsFieldBelow(lines, field, ni, k) && forall m: nat :: ni < m < k ==> !FieldLine(lines[m], field)
  }

  /** Every answer of the scalar editor, and exactly when it is given: nothing is found when there is no such line;
      nothing is to do when its value, unquoted, is the one wanted; else its value is replaced. */
  ghost predicate ScalarAnswers(lines: seq<string>, target: string, value: string, field: string, quote: bool,
                                outcome: Outcome, edited: seq<string>)
  {
    && (outcome == NotFound <==> forall k: nat :: !ScalarTarget(lines, target, field, k))
    && (outcome == NotFound ==> edited == lines)
    && (forall k: nat :: ScalarTarget(lines, target, field, k) ==>
          ScalarAnswersAt(lines, k, value, field, quote, outcome, edited))
  }

  ghost predicate ScalarAnswersAt(lines: seq<string>, k: nat, value: string, field: string, quote: bool,
                                  outcome: Outcome, edited: seq<string>)
  {
    k < |lines| && FieldLine(lines[k], field) &&
    var after := LStrip(lines[k])[|field| + 1..];
    if Unquoted(LStrip(after)) == value then outcome == NoOp && edited == lines
    else
      && outcome == Changed(k)
      && edited == lines[k := Lead(lines[k]) + field + ":" + Lead(after) + if quote then "\"" + value + "\"" else value]
  }

  lemma ScalarFound(lines: seq<string>, target: string, field: string)
    ensures var ni := FirstNamed(lines, target, 0);
            if ni < |lines| && FindField(lines, field, ni + 1) < |lines|
            then forall k: nat :: ScalarTarget(lines, target, field, k) <==> k == FindField(lines, field, ni + 1)
            else forall k: nat :: !ScalarTarget(lines, target, field, k)
  {
    var ni := FirstNamed(lines, target, 0);
    assert forall n: nat :: FirstNameAt(lines, target, n) <==> n == ni && n < |lines|;
    if ni < |lines| {
      var r := FindField(lines, field, ni + 1);
      FieldBelow(lines, field, ni);
      if r < |lines| { assert FirstNameAt(lines, target, ni) && FirstFieldBelow(lines, field, ni, r); }
    }
  }

  lemma FieldBelow(lines: seq<string>, field: string, ni: nat)
    requires ni < |lines|
    ensures forall k: nat :: FirstFieldBelow(lines, field, ni, k) <==>
              k == FindField(lines, field, ni + 1) && k < |lines|
  {
    FindsFirst(lines, ni + 1, ni + 1, DocSep, HasField(field));
  }

  /** A search that fails was stopped before every line that passes. */
  lemma {:induction false} FindsFirst(lines: seq<string>, from: nat, j: nat, stop: string -> bool,
                                      test: string -> bool)
    requires from <= j <= |lines| && forall m :: from <= m < j ==> !stop(lines[m]) && !test(lines[m])
    ensures FindBefore(lines, j, stop, test) == |lines| ==>
              forall k :: from <= k < |lines| && test(lines[k]) ==> exists m :: from <= m <= k && stop(lines[m])
    decreases |lines| - j
  {
    if j < |lines| && !stop(lines[j]) && !test(lines[j]) { FindsFirst(lines, from, j + 1, stop, test); }
  }

  /** The edit in terms of what the searches find. */
  lemma ScalarEditAt(lines: seq<string>, target: string, value: string, field: string, quote: bool, ni: nat, r: nat)
    requires ni == FirstNamed(lines, target, 0)
    requires r == if ni < |lines| then FindField(lines, field, ni + 1) else |lines|
    ensures var (outcome, edited) := ScalarEdit(lines, target, value, field, quote);
            && (r == |lines| ==> outcome == NotFound && edited == lines)
            && (r < |lines| ==> outcome != NotFound && ScalarAnswersAt(lines, r, value, field, quote, outcome, edited))
  {}

  lemma ScalarEditAnswers(lines: seq<string>, target: string, value: string, field: string, quote: bool)
    ensures var (outcome, edited) := ScalarEdit(lines, target, value, field, quote);
            ScalarAnswers(lines, target, value, field, quote, outcome, edited)
  {
    var ni := FirstNamed(lines, target, 0);
    var r := if ni < |lines| then FindField(lines, field, ni + 1) else |lines|;
    var (outcome, edited) := ScalarEdit(lines, target, value, field, quote);
    ScalarEditAt(lines, target, value, field, quote, ni, r);
    ScalarFound(lines, target, field);
    OnlyScalarTarget(lines, target, field, value, quote, r, outcome, edited);
  }

  lemma OnlyScalarTarget(lines: seq<string>, target: string, field: string, value: string, quote: bool, r: nat,
                         outcome: Outcome, edited: seq<string>)
    requires r <= |lines| && forall k: nat :: ScalarTarget(lines, target, field, k) <==> k == r && r < |lines|
    requires r == |lines| ==> outcome == NotFound && edited == lines
    requires r < |lines| ==> outcome != NotFound && ScalarAnswersAt(lines, r, value, field, quote, outcome, edited)
    ensures ScalarAnswers(lines, target, value, field, quote, outcome, edited)
  {
    if r < |lines| { assert ScalarTarget(lines, target, field, r); }
  }

  /** A success changes the first field line below the first line naming the target, in the same document, and
      there only the value. */
  lemma ScalarEditIsLocal(lines: seq<string>, target: string, value: string, field: string, quote: bool)
    requires ScalarEdit(lines, target, value, field, quote).0.Changed?
    ensures var (outcome, edited) := ScalarEdit(lines, target, value, field, quote);
            var ni, j := FirstNamed(lines, target, 0), outcome.line;
            && ni < j < |lines| && NameLine(lines[ni], target)
            && IsFieldBelow(lines, field, ni, j) && (forall k :: ni < k < j ==> !IsFieldBelow(lines, field, ni, k))
            && edited == lines[j := FieldPrefix(lines[j], field) + Written(value, quote)]
  {}

  /** The two fields this editor is used for. */
  predicate ScalarField(field: string) { field in {"cron", "retain"} }

  lemma WrittenLineFacts(s: string, field: string, w: string)
    requires FieldLine(s, field) && ScalarField(field) && (w == [] || !IsSpace(w[0]))
    ensures var t := FieldPrefix(s, field) + w;
            && FieldLine(t, field) && !DocSep(t)
            && FieldPrefix(t, field) == FieldPrefix(s, field)
            && LStrip(LStrip(t)[|field| + 1..]) == w
  {
    var lead, gap, t := Lead(s), Lead(LStrip(s)[|field| + 1..]), FieldPrefix(s, field) + w;
    Regroup(lead, field, ":", gap, w);
    LineParts(lead, field, gap, w, t);
  }

  lemma Regroup(a: string, b: string, c: string, d: string, e: string)
    ensures a + b + c + d + e == a + (b + c + (d + e))
  {}

  /** A line put together from its indentation, field, gap and value comes apart the same way. */
  lemma LineParts(lead: string, field: string, gap: string, w: string, t: string)
    requires (forall c :: c in lead ==> IsSpace(c)) && (forall c :: c in gap ==> IsSpace(c)) && ScalarField(field)
    requires (w == [] || !IsSpace(w[0])) && t == lead + (field + ":" + (gap + w))
    ensures Lead(t) == lead && LStrip(t) == field + ":" + (gap + w) && FieldLine(t, field) && !DocSep(t)
    ensures LStrip(t)[|field| + 1..] == gap + w && Lead(gap + w) == gap && LStrip(gap + w) == w
  {
    LeadOf(lead, field + ":" + (gap + w));
    LeadOf(gap, w);
    if lead == [] { assert t[0] == field[0]; } else { assert t[0] == lead[0] && t[0] in lead; }
  }

  lemma UnquotedWritten(value: string, quote: bool)
    requires Strip(value) == value
    ensures Unquoted(Written(value, quote)) == Unquoted(value)
    ensures Written(value, quote) == [] || !IsSpace(Written(value, quote)[0])
  {
    if quote {
      var w := "\"" + value + "\"";
      StripFixed(w, IsSpace);
      QuotesOff(value);
    }
  }

  lemma QuotesOff(value: string)
    ensures StripBy("\"" + value + "\"", IsQuote) == StripBy(value, IsQuote)
  {
    assert ("\"" + value + "\"")[1..] == value + "\"";
    LStripAppend(value, '\"');
    var l := LStripBy(value, IsQuote);
    if l != [] {
      assert (l + "\"")[..|l|] == l;
    }
  }

  lemma {:induction false} LStripAppend(s: string, c: char)
    requires IsQuote(c)
    ensures LStripBy(s + [c], IsQuote) == if LStripBy(s, IsQuote) == [] then [] else LStripBy(s, IsQuote) + [c]
  {
    if s == [] {
      assert s + [c] == [c] && [c][1..] == [];
    } else if IsQuote(s[0]) {
      assert (s + [c])[1..] == s[1..] + [c];
      LStripAppend(s[1..], c);
    }
  }

  lemma {:induction false} FirstNamedStays(lines: seq<string>, edited: seq<string>, target: string, i: nat)
    requires i <= |lines| && var ni := FirstNamed(lines, target, i);
             ni < |lines| && ni < |edited| && forall k :: 0 <= k <= ni ==> edited[k] == lines[k]
    ensures FirstNamed(edited, target, i) == FirstNamed(lines, target, i)
    decreases |lines| - i
  {
    if !NameLine(lines[i], target) { FirstNamedStays(lines, edited, target, i + 1); }
  }

  /** A second application with the same (stripped) value leaves the text as it is, and says so exactly when
      the value has no quotes at its ends. */
  lemma ScalarEditIdempotent(lines: seq<string>, target: string, value: string, field: string, quote: bool)
    requires ScalarEdit(lines, target, value, field, quote).0.Changed? && ScalarField(field) && Strip(value) == value
    ensures var edited := ScalarEdit(lines, target, value, field, quote).1;
            && ScalarEdit(edited, target, value, field, quote).1 == edited
            && (ScalarEdit(edited, target, value, field, quote).0 == NoOp <==> Unquoted(value) == value)
  {
    var (outcome, edited) := ScalarEdit(lines, target, value, field, quote);
    var ni, k := FirstNamed(lines, target, 0), outcome.line;
    SecondScalarEdit(lines, edited, target, value, field, quote, ni, k);
  }

  lemma SecondScalarEdit(lines: seq<string>, edited: seq<string>, target: string, value: string, field: string,
                         quote: bool, ni: nat, k: nat)
    requires ni < k < |lines| && FirstNamed(lines, target, 0) == ni && FindField(lines, field, ni + 1) == k
    requires edited == lines[k := FieldPrefix(lines[k], field) + Written(value, quote)]
    requires ScalarField(field) && Strip(value) == value
    ensures ScalarEdit(edited, target, value, field, quote).1 == edited
    ensures ScalarEdit(edited, target, value, field, quote).0 == NoOp <==> Unquoted(value) == value
  {
    FieldFoundAgain(lines, edited, value, field, quote, ni, k);
    FirstNamedStays(lines, edited, target, 0);
    ScalarEditAgain(edited, target, value, field, quote, ni, k);
  }

  lemma FieldFoundAgain(lines: seq<string>, edited: seq<string>, value: string, field: string, quote: bool, ni: nat,
                        k: nat)
    requires ni < k < |lines| && FindField(lines, field, ni + 1) == k && ScalarField(field) && Strip(value) == value
    requires edited == lines[k := FieldPrefix(lines[k], field) + Written(value, quote)]
    ensures FindField(edited, field, ni + 1) == k && ScalarValue(edited[k], field) == Unquoted(value)
    ensures FieldPrefix(edited[k], field) + Written(value, quote) == edited[k]
  {
    UnquotedWritten(value, quote);
    WrittenLineFacts(lines[k], field, Written(value, quote));
    FindBeforeStays(lines, edited, ni + 1, k, DocSep, HasField(field));
  }

  lemma ScalarEditAgain(edited: seq<string>, target: string, value: string, field: string, quote: bool, ni: nat, k: nat)
    requires ni < k < |edited| && FirstNamed(edited, target, 0) == ni && FindField(edited, field, ni + 1) == k
    requires ScalarValue(edited[k], field) == Unquoted(value) &&
             FieldPrefix(edited[k], field) + Written(value, quote) == edited[k]
    ensures ScalarEdit(edited, target, value, field, quote).1 == edited
    ensures ScalarEdit(edited, target, value, field, quote).0 == NoOp <==> Unquoted(value) == value
  {
    assert edited[k := edited[k]] == edited;
  }
}
