/**
 * Character classes, whitespace normalisation and decimal digit strings, as the
 * bot's Python code uses them through `re` and `str`.
 */
module Text {

  /** Python's notion of whitespace (`str.isspace`, and `\s` in a `str` pattern). */
  predicate IsSpace(c: char) {
    var n := c as int;
    (9 <= n <= 13) || (28 <= n <= 32) || n == 0x85 || n == 0xA0 || n == 0x1680
    || (0x2000 <= n <= 0x200A) || n == 0x2028 || n == 0x2029 || n == 0x202F
    || n == 0x205F || n == 0x3000
  }

  /** An ASCII decimal digit. */
  predicate IsDigit(c: char) {
    '0' <= c <= '9'
  }

  predicate AllDigits(s: string) {
    forall i :: 0 <= i < |s| ==> IsDigit(s[i])
  }

  predicate AllSpaces(s: string) {
    forall i :: 0 <= i < |s| ==> IsSpace(s[i])
  }

  // ---------------------------------------------------------------------------
  // Trimming
  // ---------------------------------------------------------------------------

  /** Length of the whitespace run at the start of `s`. */
  function LeadingSpaces(s: string): (n: nat)
    ensures n <= |s|
    ensures forall i :: 0 <= i < n ==> IsSpace(s[i])
    ensures n < |s| ==> !IsSpace(s[n])
  {
    if |s| > 0 && IsSpace(s[0]) then 1 + LeadingSpaces(s[1..]) else 0
  }

  /** Length of the whitespace run at the end of `s`. */
  function TrailingSpaces(s: string): (n: nat)
    ensures n <= |s|
    ensures forall i :: |s| - n <= i < |s| ==> IsSpace(s[i])
    ensures n < |s| ==> !IsSpace(s[|s| - n - 1])
  {
    if |s| > 0 && IsSpace(s[|s| - 1]) then 1 + TrailingSpaces(s[..|s| - 1]) else 0
  }

  /** `s` without its leading whitespace (also what a greedy `\s*` consumes). */
  function TrimStart(s: string): string {
    s[LeadingSpaces(s)..]
  }

  /** `s` without its trailing whitespace. */
  function TrimEnd(s: string): string {
    s[..|s| - TrailingSpaces(s)]
  }

  /** Python's `str.strip()` with no argument. */
  function Strip(s: string): (r: string)
    ensures |r| > 0 ==> !IsSpace(r[0]) && !IsSpace(r[|r| - 1])
  {
    var t := TrimStart(s);
    assert |t| > 0 ==> !IsSpace(t[0]);
    TrimEnd(t)
  }

  /** What `Strip` keeps is one contiguous piece of its input. */
  lemma StripIsSlice(s: string)
    ensures LeadingSpaces(s) + |Strip(s)| <= |s|
    ensures Strip(s) == s[LeadingSpaces(s)..LeadingSpaces(s) + |Strip(s)|]
  {
  }

  /** A whitespace run in front of text that does not start with whitespace is what `TrimStart` drops. */
  lemma {:induction false} TrimStartSpaces(sp: string, t: string)
    requires AllSpaces(sp) && (|t| > 0 ==> !IsSpace(t[0]))
    ensures LeadingSpaces(sp + t) == |sp| && TrimStart(sp + t) == t
    decreases |sp|
  {
    if |sp| == 0 {
      assert sp + t == t;
    } else {
      assert (sp + t)[1..] == sp[1..] + t;
      TrimStartSpaces(sp[1..], t);
    }
  }

  /** A whitespace run after text that does not end with whitespace is what `TrimEnd` drops. */
  lemma {:induction false} TrimEndSpaces(t: string, sp: string)
    requires AllSpaces(sp) && (|t| > 0 ==> !IsSpace(t[|t| - 1]))
    ensures TrailingSpaces(t + sp) == |sp| && TrimEnd(t + sp) == t
    decreases |sp|
  {
    if |sp| == 0 {
      assert t + sp == t;
    } else {
      var u := t + sp;
      assert u[..|u| - 1] == t + sp[..|sp| - 1];
      TrimEndSpaces(t, sp[..|sp| - 1]);
    }
  }

  /** `strip()` of a padded piece with visible ends is the piece. */
  lemma StripPadded(sp1: string, t: string, sp2: string)
    requires AllSpaces(sp1) && AllSpaces(sp2)
    requires |t| > 0 && !IsSpace(t[0]) && !IsSpace(t[|t| - 1])
    ensures Strip(sp1 + t + sp2) == t
  {
    assert sp1 + t + sp2 == sp1 + (t + sp2);
    TrimStartSpaces(sp1, t + sp2);
    TrimEndSpaces(t, sp2);
  }

  /** Text with a non-whitespace character keeps its leading run when more text follows. */
  lemma {:induction false} LeadingSpacesConcat(p: string, q: string)
    requires LeadingSpaces(p) < |p|
    ensures LeadingSpaces(p + q) == LeadingSpaces(p)
    ensures TrimStart(p + q) == TrimStart(p) + q
    decreases |p|
  {
    if IsSpace(p[0]) {
      assert (p + q)[1..] == p[1..] + q;
      LeadingSpacesConcat(p[1..], q);
    }
  }

  /** Text with a non-whitespace character keeps its trailing run when more text precedes it. */
  lemma {:induction false} TrailingSpacesConcat(p: string, q: string)
    requires TrailingSpaces(q) < |q|
    ensures TrailingSpaces(p + q) == TrailingSpaces(q)
    ensures TrimEnd(p + q) == p + TrimEnd(q)
    decreases |q|
  {
    var u := p + q;
    if IsSpace(q[|q| - 1]) {
      assert u[..|u| - 1] == p + q[..|q| - 1];
      TrailingSpacesConcat(p, q[..|q| - 1]);
    }
  }

  // ---------------------------------------------------------------------------
  // `re.sub(r'\s+', ' ', s).strip()`
  // ---------------------------------------------------------------------------

  /** Every whitespace character is a plain space and no two are adjacent. */
  predicate Collapsed(s: string) {
    && (forall i :: 0 <= i < |s| && IsSpace(s[i]) ==> s[i] == ' ')
    && (forall i :: 0 <= i < |s| - 1 ==> !(IsSpace(s[i]) && IsSpace(s[i + 1])))
  }

  /** A normalised message: collapsed, and no whitespace at either end. */
  predicate IsNormal(s: string) {
    Collapsed(s) && (|s| > 0 ==> !IsSpace(s[0]) && !IsSpace(s[|s| - 1]))
  }

  /** Replaces every maximal whitespace run of `s` by one space. */
  function Collapse(s: string): (r: string)
    ensures Collapsed(r)
    ensures |s| == 0 <==> |r| == 0
    ensures |s| > 0 ==> (IsSpace(r[0]) <==> IsSpace(s[0]))
    ensures |s| > 0 && !IsSpace(s[0]) ==> r[0] == s[0]
    decreases |s|
  {
    if |s| == 0 then []
    else if IsSpace(s[0]) then
      var rest := Collapse(TrimStart(s));
      [' '] + rest
    else
      [s[0]] + Collapse(s[1..])
  }

  /** The text normalisation applied to every incoming message. */
  function Normalize(s: string): (r: string)
    ensures IsNormal(r)
  {
    var c := Collapse(s);
    StripIsSlice(c);
    SliceKeepsCollapsed(c, LeadingSpaces(c), LeadingSpaces(c) + |Strip(c)|);
    Strip(c)
  }

  lemma SliceKeepsCollapsed(s: string, i: nat, j: nat)
    requires Collapsed(s) && i <= j <= |s|
    ensures Collapsed(s[i..j])
  {
    var t := s[i..j];
    forall k | 0 <= k < |t| - 1
      ensures !(IsSpace(t[k]) && IsSpace(t[k + 1]))
    {
      assert t[k] == s[i + k] && t[k + 1] == s[i + k + 1];
    }
  }

  /** One step of `Collapse`, as a lemma. */
  lemma CollapseStep(s: string)
    requires |s| > 0
    ensures IsSpace(s[0]) ==> Collapse(s) == " " + Collapse(TrimStart(s))
    ensures !IsSpace(s[0]) ==> Collapse(s) == [s[0]] + Collapse(s[1..])
  {
  }

  /**
   * The defining step of the collapse: a whitespace run between two pieces that
   * do not touch it with whitespace of their own becomes exactly one space.
   */
  lemma {:induction false} CollapseRun(a: string, w: string, b: string)
    requires |w| > 0 && AllSpaces(w)
    requires |a| > 0 ==> !IsSpace(a[|a| - 1])
    requires |b| > 0 ==> !IsSpace(b[0])
    ensures Collapse(a + w + b) == Collapse(a) + " " + Collapse(b)
    decreases |a|
  {
    if |a| == 0 {
      assert a + w + b == w + b;
      CollapseStep(w + b);
      TrimStartSpaces(w, b);
      assert Collapse(a) + " " + Collapse(b) == " " + Collapse(b);
    } else if IsSpace(a[0]) {
      var t := TrimStart(a);
      assert a + w + b == a + (w + b);
      LeadSpaceStep(a, w + b);
      assert t + (w + b) == t + w + b;
      CollapseRun(t, w, b);
      CollapseStep(a);
      ConcatAssoc(" ", Collapse(t), Collapse(b));
    } else {
      var t := a[1..];
      assert a + w + b == a + (w + b);
      LeadCharStep(a, w + b);
      assert t + (w + b) == t + w + b;
      CollapseRun(t, w, b);
      CollapseStep(a);
      ConcatAssoc([a[0]], Collapse(t), Collapse(b));
    }
  }

  lemma LeadSpaceStep(a: string, rest: string)
    requires |a| > 0 && IsSpace(a[0]) && !IsSpace(a[|a| - 1])
    ensures Collapse(a + rest) == " " + Collapse(TrimStart(a) + rest)
  {
    CollapseStep(a + rest);
    LeadingSpacesConcat(a, rest);
  }

  lemma LeadCharStep(a: string, rest: string)
    requires |a| > 0 && !IsSpace(a[0])
    ensures Collapse(a + rest) == [a[0]] + Collapse(a[1..] + rest)
  {
    CollapseStep(a + rest);
    assert (a + rest)[1..] == a[1..] + rest;
  }

  lemma ConcatAssoc(p: string, x: string, y: string)
    ensures (p + x) + " " + y == p + (x + " " + y)
  {
  }

  /** Collapsing keeps a non-whitespace last character. */
  lemma {:induction false} CollapseLast(s: string)
    requires |s| > 0 && !IsSpace(s[|s| - 1])
    ensures |Collapse(s)| > 0 && Collapse(s)[|Collapse(s)| - 1] == s[|s| - 1]
    decreases |s|
  {
    if IsSpace(s[0]) {
      CollapseLast(TrimStart(s));
    } else if |s| > 1 {
      CollapseLast(s[1..]);
    }
  }

  /**
   * So does the whole normalisation: between two pieces with visible ends, any
   * whitespace run becomes exactly one space.
   */
  lemma NormalizeRun(a: string, w: string, b: string)
    requires |w| > 0 && AllSpaces(w)
    requires |a| > 0 && !IsSpace(a[|a| - 1])
    requires |b| > 0 && !IsSpace(b[0])
    ensures Normalize(a + w + b) == Normalize(a) + " " + Normalize(b)
  {
    CollapseRun(a, w, b);
    CollapseLast(a);
    StripJoin(Collapse(a), Collapse(b));
  }

  /** `strip()` of two pieces joined by one space, where the join has visible characters on both sides. */
  lemma StripJoin(x: string, y: string)
    requires |x| > 0 && !IsSpace(x[|x| - 1])
    requires |y| > 0 && !IsSpace(y[0])
    ensures Strip(x + " " + y) == Strip(x) + " " + Strip(y)
  {
    assert x + " " + y == x + (" " + y);
    LeadingSpacesConcat(x, " " + y);
    var tx := TrimStart(x);
    assert tx + (" " + y) == (tx + " ") + y;
    TrailingSpacesConcat(tx + " ", y);
    assert TrimStart(x + " " + y) == (tx + " ") + y;
    assert Strip(x + " " + y) == (tx + " ") + TrimEnd(y);
    assert TrailingSpaces(tx) == 0;
    assert Strip(x) == tx;
    assert LeadingSpaces(y) == 0;
    assert Strip(y) == TrimEnd(y);
  }

  /** A collapsed string is its own collapse. */
  lemma {:induction false} CollapseOfCollapsed(s: string)
    requires Collapsed(s)
    ensures Collapse(s) == s
    decreases |s|
  {
    if |s| == 0 {
    } else if IsSpace(s[0]) {
      assert LeadingSpaces(s) == 1 by {
        if |s| > 1 {
          assert !IsSpace(s[1]);
          assert LeadingSpaces(s[1..]) == 0;
        }
      }
      SliceKeepsCollapsed(s, 1, |s|);
      CollapseOfCollapsed(s[1..]);
      assert s == [' '] + s[1..];
    } else {
      SliceKeepsCollapsed(s, 1, |s|);
      CollapseOfCollapsed(s[1..]);
      assert s == [s[0]] + s[1..];
    }
  }

  /** A normalised message is left as it is by normalisation. */
  lemma NormalizeOfNormal(s: string)
    requires IsNormal(s)
    ensures Normalize(s) == s
  {
    CollapseOfCollapsed(s);
    assert LeadingSpaces(s) == 0;
    assert TrimStart(s) == s;
    assert TrailingSpaces(s) == 0;
  }

  /** Normalising twice is normalising once. */
  lemma NormalizeIdempotent(s: string)
    ensures Normalize(Normalize(s)) == Normalize(s)
  {
    NormalizeOfNormal(Normalize(s));
  }

  // ---------------------------------------------------------------------------
  // Normalisation keeps every non-whitespace character, in order
  // ---------------------------------------------------------------------------

  /** The non-whitespace characters of `s`, in order. */
  function Visible(s: string): string {
    if |s| == 0 then [] else (if IsSpace(s[0]) then [] else [s[0]]) + Visible(s[1..])
  }

  lemma {:induction false} VisibleConcat(a: string, b: string)
    ensures Visible(a + b) == Visible(a) + Visible(b)
    decreases |a|
  {
    if |a| == 0 {
      assert a + b == b;
    } else {
      assert (a + b)[0] == a[0];
      assert (a + b)[1..] == a[1..] + b;
      VisibleConcat(a[1..], b);
    }
  }

  lemma {:induction false} VisibleOfSpaces(s: string)
    requires forall i :: 0 <= i < |s| ==> IsSpace(s[i])
    ensures Visible(s) == []
    decreases |s|
  {
    if |s| > 0 {
      VisibleOfSpaces(s[1..]);
    }
  }

  lemma VisibleTrimStart(s: string)
    ensures Visible(TrimStart(s)) == Visible(s)
  {
    var n := LeadingSpaces(s);
    assert s == s[..n] + s[n..];
    VisibleConcat(s[..n], s[n..]);
    VisibleOfSpaces(s[..n]);
  }

  lemma VisibleTrimEnd(s: string)
    ensures Visible(TrimEnd(s)) == Visible(s)
  {
    var k := |s| - TrailingSpaces(s);
    assert s == s[..k] + s[k..];
    VisibleConcat(s[..k], s[k..]);
    VisibleOfSpaces(s[k..]);
  }

  lemma {:induction false} VisibleCollapse(s: string)
    ensures Visible(Collapse(s)) == Visible(s)
    decreases |s|
  {
    if |s| == 0 {
    } else if IsSpace(s[0]) {
      VisibleCollapse(TrimStart(s));
      VisibleTrimStart(s);
      VisibleConcat([' '], Collapse(TrimStart(s)));
    } else {
      VisibleCollapse(s[1..]);
      VisibleConcat([s[0]], Collapse(s[1..]));
    }
  }

  lemma StripKeepsVisible(s: string)
    ensures Visible(Strip(s)) == Visible(s)
  {
    VisibleTrimStart(s);
    VisibleTrimEnd(TrimStart(s));
  }

  /** Normalisation only removes or replaces whitespace: the visible text is unchanged. */
  lemma NormalizeKeepsVisible(s: string)
    ensures Visible(Normalize(s)) == Visible(s)
  {
    VisibleCollapse(s);
    StripKeepsVisible(Collapse(s));
  }

  // ---------------------------------------------------------------------------
  // Decimal digit strings
  // ---------------------------------------------------------------------------

  function DigitValue(c: char): nat
    requires IsDigit(c)
  {
    (c as int) - ('0' as int)
  }

  /** Python's `int(s)` on a string of ASCII digits (leading zeros allowed). */
  function DigitsValue(s: string): nat
    requires AllDigits(s)
  {
    if |s| == 0 then 0 else DigitsValue(s[..|s| - 1]) * 10 + DigitValue(s[|s| - 1])
  }

  function Pow10(k: nat): (p: nat)
    ensures p >= 1
  {
    if k == 0 then 1 else 10 * Pow10(k - 1)
  }

  /** A digit string has no whitespace to strip. */
  lemma StripKeepsDigits(d: string)
    requires |d| > 0 && AllDigits(d)
    ensures Strip(d) == d
  {
    assert LeadingSpaces(d) == 0;
    assert TrimStart(d) == d;
    assert TrailingSpaces(d) == 0;
  }

  /** Python's `str(n)` for a natural number: no leading zeros, "0" for zero. */
  function Decimal(n: nat): (r: string)
    ensures |r| > 0 && AllDigits(r)
    ensures DigitsValue(r) == n
    decreases n
  {
    if n < 10 then [('0' as int + n) as char]
    else
      var r := Decimal(n / 10) + [('0' as int + n % 10) as char];
      assert r[..|r| - 1] == Decimal(n / 10);
      r
  }

  /** The decimal form of `n` has at most `k` digits exactly when `n < 10^k` (for `k >= 1`). */
  lemma {:induction false} DecimalLength(n: nat, k: nat)
    requires k >= 1
    ensures |Decimal(n)| <= k <==> n < Pow10(k)
    decreases n
  {
    assert Pow10(1) == 10;
    if n < 10 {
      Pow10Grows(1, k);
    } else {
      assert |Decimal(n)| == |Decimal(n / 10)| + 1;
      assert Pow10(k) == 10 * Pow10(k - 1);
      if k > 1 {
        DecimalLength(n / 10, k - 1);
        assert n < Pow10(k) <==> n / 10 < Pow10(k - 1);
      }
    }
  }

  lemma {:induction false} Pow10Grows(j: nat, k: nat)
    requires j <= k
    ensures Pow10(j) <= Pow10(k)
    decreases k
  {
    if j < k {
      Pow10Grows(j, k - 1);
    }
  }

  /** `k` zero characters. */
  function Zeros(k: nat): (r: string)
    ensures |r| == k && AllDigits(r) && DigitsValue(r) == 0
  {
    if k == 0 then [] else
      var r := Zeros(k - 1) + ['0'];
      assert r[..|r| - 1] == Zeros(k - 1);
      r
  }

  /** Leading zeros do not change a digit string's value. */
  lemma {:induction false} DigitsValueZeroPadded(z: string, s: string)
    requires AllDigits(z) && DigitsValue(z) == 0 && AllDigits(s)
    ensures AllDigits(z + s) && DigitsValue(z + s) == DigitsValue(s)
    decreases |s|
  {
    if |s| > 0 {
      var t := z + s;
      assert t[..|t| - 1] == z + s[..|s| - 1];
      DigitsValueZeroPadded(z, s[..|s| - 1]);
    } else {
      assert z + s == z;
    }
  }

  // ---------------------------------------------------------------------------
  // Display names
  // ---------------------------------------------------------------------------

  /** `f"{first_name} {last_name or ''}".strip()`, the name a bet message registers. */
  function MessageName(first: string, last: string): (r: string)
    ensures |r| > 0 ==> !IsSpace(r[0]) && !IsSpace(r[|r| - 1])
  {
    Strip(first + " " + last)
  }

  /** The registered name keeps every visible character of both names, in order. */
  lemma MessageNameKeepsVisible(first: string, last: string)
    ensures Visible(MessageName(first, last)) == Visible(first) + Visible(last)
  {
    VisibleConcat(first + " ", last);
    VisibleConcat(first, " ");
    assert Visible(" ") == [];
    StripKeepsVisible(first + " " + last);
  }

  /** `" ".join(filter(None, [first_name, last_name]))`, the name `/start` registers. */
  function StartName(first: string, last: string): (r: string)
    ensures first != [] && last != [] ==> r == first + " " + last
    ensures first == [] || last == [] ==> r == first + last
  {
    if first == [] then last
    else if last == [] then first
    else first + " " + last
  }
}
