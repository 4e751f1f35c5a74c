/** The string helpers the Python and TypeScript sources lean on. */
module Text {

  /** The characters Python's `str.strip`, `str.isspace` and the regular-expression class \s accept. */
  predicate IsSpace(c: char) {
    var n := c as int;
    || 0x09 <= n <= 0x0D || 0x1C <= n <= 0x20 || n == 0x85 || n == 0xA0 || n == 0x1680
    || 0x2000 <= n <= 0x200A || n == 0x2028 || n == 0x2029 || n == 0x202F || n == 0x205F || n == 0x3000
  }

  function LStripBy(s: string, drop: char -> bool): (r: string)
    ensures r == [] || !drop(r[0])
  {
    if s != [] && drop(s[0]) then LStripBy(s[1..], drop) else s
  }

  function RStripBy(s: string, drop: char -> bool): (r: string)
    ensures r == [] || !drop(r[|r| - 1])
    ensures r <= s
  {
    if s != [] && drop(s[|s| - 1]) then RStripBy(s[..|s| - 1], drop) else s
  }

  /** Python's `s.strip(chars)`. */
  function StripBy(s: string, drop: char -> bool): (r: string)
    ensures r == [] || (!drop(r[0]) && !drop(r[|r| - 1]))
  {
    RStripBy(LStripBy(s, drop), drop)
  }

  function Strip(s: string): string { StripBy(s, IsSpace) }

  lemma StripFixed(s: string, drop: char -> bool)
    requires s == [] || (!drop(s[0]) && !drop(s[|s| - 1]))
    ensures StripBy(s, drop) == s
  {}

  lemma {:induction false} LStripKeeps(s: string, drop: char -> bool, c: char)
    ensures c in LStripBy(s, drop) ==> c in s
    ensures c in s && !drop(c) ==> c in LStripBy(s, drop)
  {
    if s != [] {
      LStripKeeps(s[1..], drop, c);
      assert s == [s[0]] + s[1..];
    }
  }

  lemma {:induction false} RStripKeeps(s: string, drop: char -> bool, c: char)
    ensures c in RStripBy(s, drop) ==> c in s
    ensures c in s && !drop(c) ==> c in RStripBy(s, drop)
  {
    if s != [] {
      RStripKeeps(s[..|s| - 1], drop, c);
      assert s == s[..|s| - 1] + [s[|s| - 1]];
    }
  }

  /** Stripping invents no character and keeps every character it is not told to drop. */
  lemma StripKeeps(s: string, drop: char -> bool, c: char)
    ensures c in StripBy(s, drop) ==> c in s
    ensures c in s && !drop(c) ==> c in StripBy(s, drop)
  {
    LStripKeeps(s, drop, c);
    RStripKeeps(LStripBy(s, drop), drop, c);
  }

  lemma {:induction false} LStripShrinks(s: string, drop: char -> bool)
    ensures |LStripBy(s, drop)| <= |s|
  {
    if s != [] { LStripShrinks(s[1..], drop); }
  }

  lemma StripShrinks(s: string, drop: char -> bool)
    ensures |StripBy(s, drop)| <= |s|
  {
    LStripShrinks(s, drop);
  }

  // ---------------------------------------------------------------------------
  // what stripping means
  // ---------------------------------------------------------------------------

  ghost predicate AllOf(s: string, drop: char -> bool) { forall i :: 0 <= i < |s| ==> drop(s[i]) }

  ghost predicate StrippedOf(s: string, drop: char -> bool, a: string, t: string, b: string) {
    && s == a + t + b && AllOf(a, drop) && AllOf(b, drop)
    && (t == [] || (!drop(t[0]) && !drop(t[|t| - 1])))
  }

  /** t is s without the characters to drop at its ends, and nothing else is missing. */
  ghost predicate IsStripped(s: string, drop: char -> bool, t: string) { exists a, b :: StrippedOf(s, drop, a, t, b) }

  lemma {:induction false} LeftEnd(s: string, drop: char -> bool) returns (a: string)
    ensures s == a + LStripBy(s, drop) && AllOf(a, drop)
  {
    a := [];
    if s != [] && drop(s[0]) {
      a := LeftEnd(s[1..], drop);
      a := [s[0]] + a;
    }
  }

  lemma {:induction false} RightEnd(s: string, drop: char -> bool) returns (b: string)
    ensures s == RStripBy(s, drop) + b && AllOf(b, drop)
  {
    b := [];
    if s != [] && drop(s[|s| - 1]) {
      b := RightEnd(s[..|s| - 1], drop);
      b := b + [s[|s| - 1]];
    }
  }

  lemma StripIs(s: string, drop: char -> bool)
    ensures IsStripped(s, drop, StripBy(s, drop))
  {
    var a := LeftEnd(s, drop);
    var b := RightEnd(LStripBy(s, drop), drop);
    var t := StripBy(s, drop);
    assert (a + t) + b == a + (t + b);
    assert StrippedOf(s, drop, a, t, b);
  }

  lemma {:induction false} LeftEndIs(a: string, r: string, drop: char -> bool)
    requires AllOf(a, drop) && (r == [] || !drop(r[0]))
    ensures LStripBy(a + r, drop) == r
  {
    if a == [] {
      assert a + r == r;
    } else {
      assert (a + r)[1..] == a[1..] + r;
      LeftEndIs(a[1..], r, drop);
    }
  }

  lemma {:induction false} RightEndIs(t: string, b: string, drop: char -> bool)
    requires AllOf(b, drop) && (t == [] || !drop(t[|t| - 1]))
    ensures RStripBy(t + b, drop) == t
  {
    if b == [] {
      assert t + b == t;
    } else {
      assert (t + b)[..|t + b| - 1] == t + b[..|b| - 1];
      RightEndIs(t, b[..|b| - 1], drop);
    }
  }

  /** There is only one such text. */
  lemma StripIsUnique(s: string, drop: char -> bool, t: string)
    requires IsStripped(s, drop, t)
    ensures t == StripBy(s, drop)
  {
    var a, b :| StrippedOf(s, drop, a, t, b);
    if t == [] {
      assert s == (a + b) + [];
      LeftEndIs(a + b, [], drop);
    } else {
      assert (a + t) + b == a + (t + b);
      LeftEndIs(a, t + b, drop);
      RightEndIs(t, b, drop);
    }
  }

  /** Nothing is left of a text exactly when all of it is to be dropped. */
  lemma StripsToNothing(s: string, drop: char -> bool)
    ensures StripBy(s, drop) == "" <==> AllOf(s, drop)
  {
    StripIs(s, drop);
    if StripBy(s, drop) == "" {
      var a, b :| StrippedOf(s, drop, a, "", b);
      assert s == a + b;
    }
    if AllOf(s, drop) {
      assert StrippedOf(s, drop, s, "", "");
      StripIsUnique(s, drop, "");
    }
  }

  // ---------------------------------------------------------------------------
  // single characters and parts
  // ---------------------------------------------------------------------------

  function Replace(s: string, from: char, to: char): (r: string)
    ensures |r| == |s|
    ensures forall i :: 0 <= i < |s| ==> r[i] == if s[i] == from then to else s[i]
  {
    seq(|s|, i requires 0 <= i < |s| => if s[i] == from then to else s[i])
  }

  /** str.lower() on ASCII letters; other characters are left as they are. */
  function Lower(s: string): string {
    seq(|s|, i requires 0 <= i < |s| => if 'A' <= s[i] <= 'Z' then ((s[i] as int) + 32) as char else s[i])
  }

  predicate Contains(s: string, t: string) { t <= s || (s != [] && Contains(s[1..], t)) }

  ghost predicate OccursIn(part: string, text: string) { exists a, b :: text == a + part + b }

  lemma {:induction false} ContainsIff(s: string, t: string)
    ensures Contains(s, t) <==> OccursIn(t, s)
  {
    if t <= s {
      assert s == [] + t + s[|t|..];
    } else if s != [] {
      ContainsIff(s[1..], t);
      if a, b :| s[1..] == a + t + b {
        assert s == ([s[0]] + a) + t + b;
      }
      if a, b :| s == a + t + b {
        assert a != [] && s[1..] == a[1..] + t + b;
      }
    }
  }
}
