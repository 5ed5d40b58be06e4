/**
  String helpers shared by every component: the whitespace class that both
  JavaScript's `\s` and `String.prototype.trim` use, trimming, ASCII case
  mapping, substring search, `join(" ")`, decimal rendering of naturals and
  the code-unit order that `Array.prototype.sort` and `<` use on strings.
 */
module Text {
  import opened Optional

  /** ECMAScript WhiteSpace and LineTerminator code points: the `\s` class and what `trim()` strips. */
  predicate IsSpace(c: char)
  {
    c == ' ' || c == '\t' || c == '\n' || c == '\r' || c == '\U{000B}' || c == '\U{000C}'
    || c == '\U{00A0}' || c == '\U{1680}' || ('\U{2000}' <= c <= '\U{200A}')
    || c == '\U{2028}' || c == '\U{2029}' || c == '\U{202F}' || c == '\U{205F}'
    || c == '\U{3000}' || c == '\U{FEFF}'
  }

  /** The characters a regular-expression `.` does not match. */
  predicate IsLineTerminator(c: char)
  {
    c == '\n' || c == '\r' || c == '\U{2028}' || c == '\U{2029}'
  }

  predicate AllSpace(s: string)
  {
    forall i :: 0 <= i < |s| ==> IsSpace(s[i])
  }

  predicate NoLineTerminator(s: string)
  {
    forall i :: 0 <= i < |s| ==> !IsLineTerminator(s[i])
  }

  /** Drops the leading whitespace run. */
  function TrimStart(s: string): (r: string)
    ensures |r| <= |s|
    decreases |s|
  {
    if s != [] && IsSpace(s[0]) then TrimStart(s[1..]) else s
  }

  /**
    What `TrimStart` keeps is a suffix that does not start with whitespace,
    and what it drops is all whitespace.
   */
  lemma {:induction false} TrimStartShape(s: string)
    ensures TrimStart(s) == s[|s| - |TrimStart(s)|..]
    ensures AllSpace(s[..|s| - |TrimStart(s)|])
    ensures TrimStart(s) == [] || !IsSpace(TrimStart(s)[0])
    decreases |s|
  {
    if s != [] && IsSpace(s[0]) {
      TrimStartShape(s[1..]);
      var k := |s| - |TrimStart(s)|;
      assert s[1..][..k - 1] == s[1..k];
    }
  }

  /** Drops the trailing whitespace run. */
  function TrimEnd(s: string): (r: string)
    ensures |r| <= |s|
    decreases |s|
  {
    if s != [] && IsSpace(s[|s| - 1]) then TrimEnd(s[..|s| - 1]) else s
  }

  /**
    What `TrimEnd` keeps is a prefix that does not end with whitespace, and
    what it drops is all whitespace.
   */
  lemma {:induction false} TrimEndShape(s: string)
    ensures TrimEnd(s) == s[..|TrimEnd(s)|]
    ensures AllSpace(s[|TrimEnd(s)|..])
    ensures TrimEnd(s) == [] || !IsSpace(TrimEnd(s)[|TrimEnd(s)| - 1])
    decreases |s|
  {
    if s != [] && IsSpace(s[|s| - 1]) {
      TrimEndShape(s[..|s| - 1]);
      var k := |TrimEnd(s)|;
      assert s[..|s| - 1][k..] == s[k..|s| - 1];
    }
  }

  /** `s.trim()`. */
  function Trim(s: string): (r: string)
    ensures |r| <= |s|
  {
    TrimEnd(TrimStart(s))
  }

  /** The trimmed string neither starts nor ends with whitespace. */
  lemma TrimEnds(s: string)
    ensures Trim(s) == [] || (!IsSpace(Trim(s)[0]) && !IsSpace(Trim(s)[|Trim(s)| - 1]))
  {
    var t := TrimStart(s);
    TrimStartShape(s);
    TrimEndShape(t);
  }

  /** Trimming yields the empty string exactly for whitespace-only input. */
  lemma TrimEmptyIff(s: string)
    ensures Trim(s) == [] <==> AllSpace(s)
  {
    var t := TrimStart(s);
    TrimStartShape(s);
    if Trim(s) == [] {
      TrimEndShape(t);
      assert AllSpace(t[0..]);
      assert t == [];
      assert s[..|s|] == s;
    } else {
      assert t != [] && t == s[|s| - |t|..];
      assert !IsSpace(s[|s| - |t|]);
    }
  }

  /** A string that starts and ends with a non-space character is its own trim. */
  lemma TrimOfTrimmed(s: string)
    requires s == [] || (!IsSpace(s[0]) && !IsSpace(s[|s| - 1]))
    ensures Trim(s) == s
  {
  }

  function LowerChar(c: char): char
  {
    if 'A' <= c <= 'Z' then (c as int + 32) as char else c
  }

  function UpperChar(c: char): char
  {
    if 'a' <= c <= 'z' then (c as int - 32) as char else c
  }

  /** `toLowerCase()` / `lower()` restricted to the ASCII letters. */
  function Lower(s: string): (r: string)
    ensures |r| == |s|
    ensures forall i :: 0 <= i < |s| ==> r[i] == LowerChar(s[i])
  {
    seq(|s|, i requires 0 <= i < |s| => LowerChar(s[i]))
  }

  /** `toUpperCase()` restricted to the ASCII letters. */
  function Upper(s: string): (r: string)
    ensures |r| == |s|
    ensures forall i :: 0 <= i < |s| ==> r[i] == UpperChar(s[i])
  {
    seq(|s|, i requires 0 <= i < |s| => UpperChar(s[i]))
  }

  predicate IsPrefix(p: string, s: string)
  {
    |p| <= |s| && s[..|p|] == p
  }

  /** `s.includes(p)`: some position of `s` starts an occurrence of `p`. */
  predicate Contains(s: string, p: string)
    decreases |s|
  {
    IsPrefix(p, s) || (s != [] && Contains(s[1..], p))
  }

  /** A string contains a one-character pattern exactly when that character occurs in it. */
  lemma {:induction false} ContainsChar(s: string, c: char)
    ensures Contains(s, [c]) <==> c in s
    decreases |s|
  {
    if s != [] {
      ContainsChar(s[1..], c);
      assert s == [s[0]] + s[1..];
    }
  }

  /** `parts.join(" ")`. */
  function JoinSpace(parts: seq<string>): string
    decreases |parts|
  {
    if |parts| == 0 then ""
    else if |parts| == 1 then parts[0]
    else JoinSpace(parts[..|parts| - 1]) + " " + parts[|parts| - 1]
  }

  /** `parts.join(sep)` for an arbitrary separator. */
  function Join(parts: seq<string>, sep: string): string
    decreases |parts|
  {
    if |parts| == 0 then ""
    else if |parts| == 1 then parts[0]
    else Join(parts[..|parts| - 1], sep) + sep + parts[|parts| - 1]
  }

  function DigitChar(d: nat): char
    requires d < 10
  {
    ('0' as int + d) as char
  }

  /** Decimal rendering of a natural number, as template literals print it. */
  function NatToString(n: nat): (r: string)
    ensures |r| >= 1
    ensures forall i :: 0 <= i < |r| ==> '0' <= r[i] <= '9'
  {
    if n < 10 then [DigitChar(n)] else NatToString(n / 10) + [DigitChar(n % 10)]
  }

  /** Two naturals render the same only if they are equal. */
  lemma {:induction false} NatToStringInjective(a: nat, b: nat)
    requires NatToString(a) == NatToString(b)
    ensures a == b
  {
    if a >= 10 && b >= 10 {
      var sa, sb := NatToString(a), NatToString(b);
      assert sa[..|sa| - 1] == NatToString(a / 10);
      assert sb[..|sb| - 1] == NatToString(b / 10);
      NatToStringInjective(a / 10, b / 10);
    }
  }

  /** Code-unit order on strings (what `<` and the default `sort()` use): `a` sorts no later than `b`. */
  predicate LexLeq(a: string, b: string)
    decreases |a|
  {
    a == [] || (b != [] && (a[0] < b[0] || (a[0] == b[0] && LexLeq(a[1..], b[1..]))))
  }

  lemma {:induction false} LexLeqReflexive(a: string)
    ensures LexLeq(a, a)
    decreases |a|
  {
    if a != [] {
      LexLeqReflexive(a[1..]);
    }
  }

  lemma {:induction false} LexLeqTotal(a: string, b: string)
    ensures LexLeq(a, b) || LexLeq(b, a)
    decreases |a|
  {
    if a != [] && b != [] && a[0] == b[0] {
      LexLeqTotal(a[1..], b[1..]);
    }
  }

  lemma {:induction false} LexLeqTransitive(a: string, b: string, c: string)
    requires LexLeq(a, b) && LexLeq(b, c)
    ensures LexLeq(a, c)
    decreases |a|
  {
    if a != [] && b != [] && c != [] && a[0] == b[0] && b[0] == c[0] {
      LexLeqTransitive(a[1..], b[1..], c[1..]);
    }
  }

  lemma {:induction false} LexLeqAntisymmetric(a: string, b: string)
    requires LexLeq(a, b) && LexLeq(b, a)
    ensures a == b
    decreases |a|
  {
    if a != [] && b != [] {
      LexLeqAntisymmetric(a[1..], b[1..]);
      assert a == [a[0]] + a[1..] && b == [b[0]] + b[1..];
    }
  }

  /** The length of the prefix of `s` free of `c`. */
  function FirstIndex(s: string, c: char): (k: nat)
    ensures k <= |s| && c !in s[..k]
    ensures k < |s| ==> s[k] == c
  {
    if s == [] || s[0] == c then 0
    else
      var k := 1 + FirstIndex(s[1..], c);
      assert s[..k] == [s[0]] + s[1..][..k - 1];
      k
  }

  /** `s.split(c)` for a one-character separator: the pieces between its occurrences. */
  function SplitOn(s: string, c: char): (r: seq<string>)
    ensures |r| >= 1
    decreases |s|
  {
    var k := FirstIndex(s, c);
    if k == |s| then [s] else [s[..k]] + SplitOn(s[k + 1..], c)
  }

  /**
    The tail `\s*(.+)$` of a pattern, applied to what follows the matched
    prefix: the group that the greedy `\s*` leaves to `.+`, if any.
   */
  function SpacedRest(rest: string): Option<string>
  {
    var body := TrimStart(rest);
    if body != [] then (if NoLineTerminator(body) then Some(body) else None)
    else if rest != [] && !IsLineTerminator(rest[|rest| - 1]) then Some([rest[|rest| - 1]])
    else None
  }

  /** A match leaves whitespace followed by a non-empty group free of line terminators. */
  lemma SpacedRestSound(rest: string)
    ensures SpacedRest(rest).Some? ==>
      var v := SpacedRest(rest).value;
      |v| <= |rest| && v == rest[|rest| - |v|..] && AllSpace(rest[..|rest| - |v|])
      && v != [] && NoLineTerminator(v)
  {
    TrimStartShape(rest);
    if TrimStart(rest) == [] && rest != [] {
      assert AllSpace(rest);
    }
  }

  /** Whitespace followed by a non-empty text free of line terminators always matches. */
  lemma SpacedRestComplete(ws: string, body: string)
    requires AllSpace(ws) && body != [] && NoLineTerminator(body)
    ensures SpacedRest(ws + body).Some?
  {
    var rest := ws + body;
    var t := TrimStart(rest);
    TrimStartAfterSpace(ws, body);
    if t != [] {
      forall j | 0 <= j < |t| ensures !IsLineTerminator(t[j]) {
        assert t[j] == body[|body| - |t| + j];
      }
    } else {
      assert rest[|rest| - 1] == body[|body| - 1];
    }
  }

  /** Trimming whitespace followed by `body` keeps a suffix of `body`. */
  lemma {:induction false} TrimStartAfterSpace(ws: string, body: string)
    requires AllSpace(ws)
    ensures |TrimStart(ws + body)| <= |body|
    ensures TrimStart(ws + body) == body[|body| - |TrimStart(ws + body)|..]
    decreases |ws|
  {
    if ws != [] {
      assert (ws + body)[1..] == ws[1..] + body;
      TrimStartAfterSpace(ws[1..], body);
    } else {
      assert ws + body == body;
      TrimStartShape(body);
    }
  }

  /** `Array.from(new Set(xs))`: the distinct values in order of first appearance. */
  function Distinct(xs: seq<string>): (r: seq<string>)
    decreases |xs|
  {
    if xs == [] then []
    else
      var n := |xs| - 1;
      var r := Distinct(xs[..n]);
      if xs[n] in r then r else r + [xs[n]]
  }

  /** The position of the first occurrence of `x` in `xs`. */
  function FirstPos(xs: seq<string>, x: string): (k: nat)
    requires x in xs
    ensures k < |xs| && xs[k] == x
  {
    if xs[0] == x then 0 else 1 + FirstPos(xs[1..], x)
  }

  /** No occurrence comes before the first one. */
  lemma {:induction false} FirstPosFirst(xs: seq<string>, x: string, j: nat)
    requires x in xs && j < FirstPos(xs, x)
    ensures xs[j] != x
  {
    if j > 0 {
      FirstPosFirst(xs[1..], x, j - 1);
    }
  }

  /** Appending an element does not move the first occurrence of an element already present. */
  lemma {:induction false} FirstPosSnoc(xs: seq<string>, y: string, x: string)
    requires x in xs
    ensures x in xs + [y] && FirstPos(xs + [y], x) == FirstPos(xs, x)
  {
    var k := FirstPos(xs, x);
    var k2 := FirstPos(xs + [y], x);
    assert (xs + [y])[k] == x;
    if k < k2 {
      FirstPosFirst(xs + [y], x, k);
    }
    assert xs[k2] == x;
    if k2 < k {
      FirstPosFirst(xs, x, k2);
    }
  }

  predicate NoDuplicates(r: seq<string>)
  {
    forall i, j :: 0 <= i < j < |r| ==> r[i] != r[j]
  }

  /**
    The participants list holds each value of `xs` exactly once, and lists
    them in the order of their first appearance in `xs`.
   */
  lemma {:induction false} DistinctMeaning(xs: seq<string>)
    ensures NoDuplicates(Distinct(xs))
    ensures forall x :: x in Distinct(xs) <==> x in xs
    ensures forall i, j :: 0 <= i < j < |Distinct(xs)| ==> FirstPos(xs, Distinct(xs)[i]) < FirstPos(xs, Distinct(xs)[j])
    decreases |xs|
  {
    if xs != [] {
      var n := |xs| - 1;
      var p := xs[..n];
      DistinctMeaning(p);
      assert xs == p + [xs[n]];
      var r := Distinct(xs);
      forall x | x in p ensures x in xs && FirstPos(xs, x) == FirstPos(p, x) {
        FirstPosSnoc(p, xs[n], x);
      }
      if xs[n] !in Distinct(p) {
        assert xs[n] !in p;
        assert FirstPos(xs, xs[n]) == n;
      }
    }
  }

  /** JavaScript's `s || fallback` on strings: the empty string is falsy. */
  function OrElse(s: string, fallback: string): string
  {
    if s != "" then s else fallback
  }

  /** `s.endsWith(p)`. */
  predicate IsSuffix(p: string, s: string)
  {
    |p| <= |s| && s[|s| - |p|..] == p
  }

  /**
    `s.slice(a, b)`: both ends are clamped into [0, |s|], and an end before
    the start gives the empty string.
   */
  function Slice(s: string, a: int, b: int): (r: string)
    ensures |r| <= |s|
    ensures a <= b ==> |r| <= b - a
  {
    var a' := if a < 0 then 0 else if a > |s| then |s| else a;
    var b' := if b < 0 then 0 else if b > |s| then |s| else b;
    if a' < b' then s[a'..b'] else ""
  }
}
