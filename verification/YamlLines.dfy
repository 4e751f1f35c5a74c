/** The line patterns of the doer pipeline's editors, as predicates on one line. */
module YamlLines {
  import opened Text

  predicate Blank(s: string) { forall c | c in s :: IsSpace(c) }

  /** line.lstrip() */
  function LStrip(s: string): string { LStripBy(s, IsSpace) }

  /** The leading white space, the first group of every pattern here. */
  function Lead(s: string): (r: string)
    ensures forall c :: c in r ==> IsSpace(c)
  {
    if s != [] && IsSpace(s[0]) then [s[0]] + Lead(s[1..]) else []
  }

  /** len(line) - len(line.lstrip()) */
  function Indent(s: string): nat { |Lead(s)| }

  lemma {:induction false} LeadSplits(s: string)
    ensures s == Lead(s) + LStrip(s)
  {
    if s != [] && IsSpace(s[0]) {
      LeadSplits(s[1..]);
      assert s == [s[0]] + s[1..];
    }
  }

  lemma {:induction false} LeadOf(p: string, b: string)
    requires Blank(p) && (b == [] || !IsSpace(b[0]))
    ensures Lead(p + b) == p && LStrip(p + b) == b
    decreases |p|
  {
    if p == [] {
      assert p + b == b;
    } else {
      assert p[0] in p;
      assert forall c :: c in p[1..] ==> c in p;
      assert (p + b)[1..] == p[1..] + b;
      LeadOf(p[1..], b);
      assert p == [p[0]] + p[1..];
    }
  }

  /** ^---\s*$ */
  predicate DocSep(s: string) { "---" <= s && Blank(s[3..]) }

  /** ^(\s*)limits:\s*$ */
  predicate LimitsLine(s: string) { "limits:" <= LStrip(s) && Blank(LStrip(s)[7..]) }

  /** ^(\s*)<field>:\s*(.*)$ */
  predicate FieldLine(s: string, field: string) { field + ":" <= LStrip(s) }

  /** What follows the colon, stripped. */
  function FieldValue(s: string, field: string): string
    requires FieldLine(s, field)
  {
    Strip(LStrip(s)[|field| + 1..])
  }

  /** \s*<target>\s*$ */
  predicate TargetTail(r: string, target: string) {
    (target <= r && Blank(r[|target|..])) || (r != [] && IsSpace(r[0]) && TargetTail(r[1..], target))
  }

  /** \S+\s+<target>\s*$, after the ampersand of an anchor */
  predicate AnchorTail(r: string, target: string, seen: bool) {
    r != [] && (if IsSpace(r[0]) then seen && TargetTail(r[1..], target) else AnchorTail(r[1..], target, true))
  }

  /** ^\s*name:\s*<target>\s*$ */
  predicate NameLine(s: string, target: string) {
    "name:" <= LStrip(s) && TargetTail(LStrip(s)[5..], target)
  }

  /** ^\s*name:\s*(?:&\S+\s+)?<target>\s*$ */
  predicate AnchoredNameLine(s: string, target: string) {
    var b := LStrip(s);
    "name:" <= b &&
      (TargetTail(b[5..], target) ||
       ("&" <= LStrip(b[5..]) && AnchorTail(LStrip(b[5..])[1..], target, false)))
  }

  /** ^(\s*)-\s+alert:\s*<target>\s*$ */
  predicate AlertLine(s: string, target: string) {
    var b := LStrip(s);
    && "-" <= b
    && |b| > 1 && IsSpace(b[1])
    && "alert:" <= LStrip(b[1..]) && TargetTail(LStrip(b[1..])[6..], target)
  }

  predicate IsQuote(c: char) { c == '\"' || c == '\'' }

  /** value.strip().strip("\"'") */
  function Unquoted(s: string): string { StripBy(Strip(s), IsQuote) }
}
