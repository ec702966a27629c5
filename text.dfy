/** The string operations the source takes from JavaScript: `trim`,
    `toLowerCase` / `toUpperCase`, `includes`, `replace` with a string
    pattern, `String(n)` on a natural number, and the `<=` comparison of two
    strings. */
module Text {
  import opened Seqs

  /** The characters `String.prototype.trim` removes: ECMAScript's
      WhiteSpace (tab, vertical tab, form feed, the byte order mark and every
      space separator) and LineTerminator code points. */
  predicate IsWhitespace(c: char) {
    c == ' ' || c == '\t' || c == '\n' || c == '\r' || c == '\U{000B}' ||
    c == '\U{000C}' || c == '\U{00A0}' || c == '\U{FEFF}' || c == '\U{1680}' ||
    ('\U{2000}' <= c <= '\U{200A}') || c == '\U{2028}' || c == '\U{2029}' ||
    c == '\U{202F}' || c == '\U{205F}' || c == '\U{3000}'
  }

  /** Nothing but white space: what `!s.trim()` tests, by `Trim`. */
  predicate IsBlank(s: string) {
    forall i :: 0 <= i < |s| ==> IsWhitespace(s[i])
  }

  /** A string with one more character in front is blank exactly when the
      character is white space and the rest is blank. */
  lemma BlankCons(c: char, t: string)
    ensures IsBlank([c] + t) <==> IsWhitespace(c) && IsBlank(t)
  {
    var u := [c] + t;
    if IsWhitespace(c) && IsBlank(t) {
      forall i | 0 <= i < |u|
        ensures IsWhitespace(u[i])
      {
        if i > 0 {
          assert u[i] == t[i - 1];
        }
      }
    }
    if IsBlank(u) {
      assert IsWhitespace(u[0]);
      forall i | 0 <= i < |t|
        ensures IsWhitespace(t[i])
      {
        assert u[i + 1] == t[i];
      }
    }
  }

  /** The same for one more character at the back. */
  lemma BlankSnoc(t: string, c: char)
    ensures IsBlank(t + [c]) <==> IsBlank(t) && IsWhitespace(c)
  {
    var u := t + [c];
    if IsBlank(t) && IsWhitespace(c) {
      forall i | 0 <= i < |u|
        ensures IsWhitespace(u[i])
      {
        if i < |t| {
          assert u[i] == t[i];
        }
      }
    }
    if IsBlank(u) {
      assert IsWhitespace(u[|t|]);
      forall i | 0 <= i < |t|
        ensures IsWhitespace(t[i])
      {
        assert u[i] == t[i];
      }
    }
  }

  /** `s.trim()`: the white space at both ends removed. */
  function Trim(s: string): (r: string)
    ensures |r| <= |s|
    ensures r == [] <==> IsBlank(s)
    ensures r != [] ==> !IsWhitespace(r[0]) && !IsWhitespace(Last(r))
  {
    TrimEnd(TrimStart(s))
  }

  /** `trim` removes white space and nothing else: the string is its
      trimmed middle with blank text before and after it. */
  lemma TrimRemovesBlankEnds(s: string)
    ensures exists front, back :: IsBlank(front) && IsBlank(back) && s == front + Trim(s) + back
  {
    var t := TrimStart(s);
    var r := TrimEnd(t);
    var k := |s| - |t|;
    SplitThree(s, k, |r|);
    assert s[k..] == t && t[..|r|] == r && Trim(s) == r;
    assert IsBlank(s[..k]) && IsBlank(t[|r|..]) && s == s[..k] + r + t[|r|..];
  }

  /** The white space at the front removed. */
  function TrimStart(s: string): (r: string)
    ensures |r| <= |s| && r == s[|s| - |r|..]
    ensures IsBlank(s[..|s| - |r|])
    ensures r == [] <==> IsBlank(s)
    ensures r != [] ==> !IsWhitespace(r[0])
  {
    if s != [] && IsWhitespace(s[0]) then
      var t := s[1..];
      var r := TrimStart(t);
      assert s == [s[0]] + t && s[..|s| - |r|] == [s[0]] + t[..|t| - |r|];
      assert s[|s| - |r|..] == t[|t| - |r|..];
      BlankCons(s[0], t);
      BlankCons(s[0], t[..|t| - |r|]);
      r
    else
      assert s[..0] == [] && s[0..] == s;
      s
  }

  /** The white space at the back removed. */
  function TrimEnd(s: string): (r: string)
    ensures |r| <= |s| && r == s[..|r|]
    ensures IsBlank(s[|r|..])
    ensures r == [] <==> IsBlank(s)
    ensures r != [] ==> !IsWhitespace(Last(r))
  {
    if s != [] && IsWhitespace(Last(s)) then
      var t := DropLast(s);
      var r := TrimEnd(t);
      assert s == t + [Last(s)] && s[|r|..] == t[|r|..] + [Last(s)];
      BlankSnoc(t, Last(s));
      BlankSnoc(t[|r|..], Last(s));
      r
    else s
  }

  function LowerChar(c: char): char {
    if 'A' <= c <= 'Z' then (c as int + 32) as char else c
  }

  function UpperChar(c: char): char {
    if 'a' <= c <= 'z' then (c as int - 32) as char else c
  }

  /** `toLowerCase` on ASCII: each capital becomes its own small letter, no
      capital is left, and nothing else changes. */
  function Lower(s: string): (r: string)
    ensures |r| == |s|
    ensures forall i :: 0 <= i < |s| && 'A' <= s[i] <= 'Z' ==> r[i] as int == s[i] as int + 32
    ensures forall i :: 0 <= i < |r| ==> !('A' <= r[i] <= 'Z')
    ensures forall i :: 0 <= i < |s| ==> r[i] == s[i] || 'A' <= s[i] <= 'Z'
  {
    seq(|s|, i requires 0 <= i < |s| => LowerChar(s[i]))
  }

  /** `toUpperCase` on ASCII: each small letter becomes its own capital, no
      small letter is left, and nothing else changes. */
  function Upper(s: string): (r: string)
    ensures |r| == |s|
    ensures forall i :: 0 <= i < |s| && 'a' <= s[i] <= 'z' ==> r[i] as int == s[i] as int - 32
    ensures forall i :: 0 <= i < |r| ==> !('a' <= r[i] <= 'z')
    ensures forall i :: 0 <= i < |s| ==> r[i] == s[i] || 'a' <= s[i] <= 'z'
  {
    seq(|s|, i requires 0 <= i < |s| => UpperChar(s[i]))
  }

  /** `t` is the upper case of `s` when it is so character by character. */
  lemma UpperPointwise(s: string, t: string)
    requires |s| == |t| && forall i :: 0 <= i < |s| ==> UpperChar(s[i]) == t[i]
    ensures Upper(s) == t
  {
  }

  /** `hay.includes(needle)`; every string includes the empty string. */
  predicate Contains(hay: string, needle: string)
    ensures Contains(hay, needle) ==> |needle| <= |hay|
    ensures needle == [] ==> Contains(hay, needle)
  {
    assert needle == [] ==> OccursAt(hay, needle, 0);
    exists i :: 0 <= i <= |hay| - |needle| && OccursAt(hay, needle, i)
  }

  predicate OccursAt(hay: string, needle: string, i: nat)
    requires i + |needle| <= |hay|
  {
    hay[i..i + |needle|] == needle
  }

  /** `s.replace(c, d)` with a one-character string pattern: only the FIRST
      occurrence of `c` is replaced. */
  function ReplaceFirst(s: string, c: char, d: char): (r: string)
    ensures |r| == |s|
    ensures forall i :: 0 <= i < |s| ==> r[i] == s[i] || (s[i] == c && r[i] == d)
    ensures forall i, j :: 0 <= i < j < |s| && r[i] != s[i] ==> r[j] == s[j]
    ensures forall i, j :: 0 <= j < i < |s| && r[i] != s[i] ==> s[j] != c
  {
    if s == [] then []
    else if s[0] == c then [d] + s[1..]
    else
      var t := ReplaceFirst(s[1..], c, d);
      assert forall i :: 1 <= i < |s| ==> s[1..][i - 1] == s[i] && ([s[0]] + t)[i] == t[i - 1];
      [s[0]] + t
  }

  /** Without an occurrence nothing changes. */
  lemma {:induction false} ReplaceFirstAbsent(s: string, c: char, d: char)
    requires c !in s
    ensures ReplaceFirst(s, c, d) == s
  {
    if s != [] {
      assert c !in s[1..];
      ReplaceFirstAbsent(s[1..], c, d);
    }
  }

  /** The occurrence replaced is the first one, and only it changes: the
      text before it stays, it becomes the replacement, the text after it
      stays. */
  lemma {:induction false} ReplaceFirstSplit(a: string, c: char, d: char, b: string)
    requires c !in a
    ensures ReplaceFirst(a + [c] + b, c, d) == a + [d] + b
  {
    var s := a + [c] + b;
    if a == [] {
      assert s == [c] + b && s[1..] == b;
    } else {
      assert s[0] == a[0] && s[1..] == a[1..] + [c] + b;
      assert c !in a[1..];
      ReplaceFirstSplit(a[1..], c, d, b);
      assert a + [d] + b == [a[0]] + (a[1..] + [d] + b);
    }
  }

  /** The same, stated by position: the first occurrence is at `k`. */
  lemma ReplaceFirstAt(s: string, c: char, d: char, k: nat)
    requires k < |s| && s[k] == c && c !in s[..k]
    ensures ReplaceFirst(s, c, d) == s[k := d]
  {
    assert s == s[..k] + [c] + s[k + 1..];
    ReplaceFirstSplit(s[..k], c, d, s[k + 1..]);
    assert s[k := d] == s[..k] + [d] + s[k + 1..];
  }

  function Digit(d: nat): char
    requires d < 10
  {
    "0123456789"[d]
  }

  function DigitValue(c: char): nat {
    if '0' <= c <= '9' then c as int - '0' as int else 0
  }

  /** `String(n)` for a natural number: its decimal digits, no leading zero. */
  function NatToString(n: nat): (r: string)
    ensures |r| > 0
    ensures forall i :: 0 <= i < |r| ==> '0' <= r[i] <= '9'
    decreases n
  {
    if n < 10 then [Digit(n)] else NatToString(n / 10) + [Digit(n % 10)]
  }

  /** Reads decimal digits back; the inverse of `NatToString`. */
  function ParseNat(s: string): nat {
    if s == [] then 0 else ParseNat(DropLast(s)) * 10 + DigitValue(Last(s))
  }

  lemma {:induction false} ParseNatToString(n: nat)
    ensures ParseNat(NatToString(n)) == n
    decreases n
  {
    var s := NatToString(n);
    if n < 10 {
      assert DropLast(s) == [];
    } else {
      assert DropLast(s) == NatToString(n / 10);
      ParseNatToString(n / 10);
    }
  }

  /** Different numbers print as different strings. */
  lemma NatToStringInjective(m: nat, n: nat)
    ensures NatToString(m) == NatToString(n) ==> m == n
  {
    ParseNatToString(m);
    ParseNatToString(n);
  }

  /** JavaScript's `a <= b` on strings: lexicographic order by character,
      where a proper prefix comes first. */
  predicate LexLe(a: string, b: string)
    ensures |a| <= |b| && b[..|a|] == a ==> LexLe(a, b)
    ensures a != [] && b != [] && a[0] != b[0] ==> (LexLe(a, b) <==> a[0] < b[0])
  {
    assert a != [] && |a| <= |b| && b[..|a|] == a ==> a[0] == b[0] && b[1..][..|a| - 1] == a[1..];
    a == [] || (b != [] && (a[0] < b[0] || (a[0] == b[0] && LexLe(a[1..], b[1..]))))
  }

  /** Where the strings first differ, the smaller character comes first:
      "2023-04-10" is before "2023-04-11". */
  lemma {:induction false} LexLeFirstDifference(a: string, b: string, k: nat)
    requires k < |a| && k < |b| && a[..k] == b[..k] && a[k] != b[k]
    ensures LexLe(a, b) <==> a[k] < b[k]
  {
    if k > 0 {
      assert a[0] == a[..k][0] && b[0] == b[..k][0];
      assert a[1..][..k - 1] == a[..k][1..] && b[1..][..k - 1] == b[..k][1..];
      LexLeFirstDifference(a[1..], b[1..], k - 1);
    }
  }

  lemma {:induction false} LexLeReflexive(a: string)
    ensures LexLe(a, a)
  {
    if a != [] {
      LexLeReflexive(a[1..]);
    }
  }

  lemma {:induction false} LexLeAntisymmetric(a: string, b: string)
    ensures LexLe(a, b) && LexLe(b, a) ==> a == b
  {
    if a != [] && b != [] && a[0] == b[0] {
      LexLeAntisymmetric(a[1..], b[1..]);
      if a[1..] == b[1..] {
        assert a == [a[0]] + a[1..] && b == [b[0]] + b[1..];
      }
    }
  }

  lemma {:induction false} LexLeTransitive(a: string, b: string, c: string)
    ensures LexLe(a, b) && LexLe(b, c) ==> LexLe(a, c)
  {
    if a != [] && b != [] && c != [] {
      LexLeTransitive(a[1..], b[1..], c[1..]);
    }
  }

  lemma {:induction false} LexLeTotal(a: string, b: string)
    ensures LexLe(a, b) || LexLe(b, a)
  {
    if a != [] && b != [] && a[0] == b[0] {
      LexLeTotal(a[1..], b[1..]);
    }
  }
}
