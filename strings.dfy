/**
 * The few Python `str` operations the modelled code relies on, over `seq<char>`
 * (one `char` per Unicode scalar value, as a Python `str` has one element per code point).
 */
module Strings {
  import opened Wrappers

  /** Python's `str.isspace` for one character: the characters `split()` and `strip()` treat as whitespace. */
  predicate IsSpace(c: char) {
    ('\t' <= c <= '\r') || ('\U{1C}' <= c <= ' ') || c == '\U{85}' || c == '\U{A0}' || c == '\U{1680}'
    || ('\U{2000}' <= c <= '\U{200A}') || c == '\U{2028}' || c == '\U{2029}' || c == '\U{202F}'
    || c == '\U{205F}' || c == '\U{3000}'
  }

  predicate NoSpace(s: string) {
    forall i :: 0 <= i < |s| ==> !IsSpace(s[i])
  }

  predicate StartsWith(s: string, prefix: string) {
    |prefix| <= |s| && s[..|prefix|] == prefix
  }

  predicate EndsWith(s: string, suffix: string) {
    |suffix| <= |s| && s[|s| - |suffix|..] == suffix
  }

  /** Does `pat` occur in `s` starting at position `i`? */
  predicate OccursAt(s: string, pat: string, i: nat) {
    i + |pat| <= |s| && s[i..i + |pat|] == pat
  }

  /** `t in s` for strings: `t` occurs somewhere in `s`. */
  predicate Contains(s: string, t: string) {
    exists i: nat | i <= |s| :: OccursAt(s, t, i)
  }

  lemma ContainsInfix(p: string, t: string, q: string)
    ensures Contains(p + t + q, t)
  {
    assert (p + t + q)[|p|..|p| + |t|] == t;
    assert OccursAt(p + t + q, t, |p|);
  }

  /** `s.lstrip()`: the suffix of `s` left after dropping leading whitespace. */
  function TrimStart(s: string): (r: string)
    ensures |r| <= |s| && r == s[|s| - |r|..]
    ensures r != [] ==> !IsSpace(r[0])
    ensures forall i :: 0 <= i < |s| - |r| ==> IsSpace(s[i])
  {
    if s != [] && IsSpace(s[0]) then TrimStart(s[1..]) else s
  }

  /** `s.rstrip()`: the prefix of `s` left after dropping trailing whitespace. */
  function TrimEnd(s: string): (r: string)
    ensures |r| <= |s| && r == s[..|r|]
    ensures r != [] ==> !IsSpace(r[|r| - 1])
    ensures forall i :: |r| <= i < |s| ==> IsSpace(s[i])
  {
    if s != [] && IsSpace(s[|s| - 1]) then TrimEnd(s[..|s| - 1]) else s
  }

  /** `s.strip()`. */
  function Strip(s: string): (r: string)
    ensures |r| <= |s|
    ensures r != [] ==> !IsSpace(r[0]) && !IsSpace(r[|r| - 1])
  {
    TrimEnd(TrimStart(s))
  }

  /** The longest prefix of `s` without whitespace. */
  function Token(s: string): (w: string)
    ensures |w| <= |s| && w == s[..|w|] && NoSpace(w)
    ensures |w| < |s| ==> IsSpace(s[|w|])
  {
    if s == [] || IsSpace(s[0]) then [] else [s[0]] + Token(s[1..])
  }

  /** Python's `s.split()` with no argument: the maximal runs of non-whitespace characters, in order. */
  function Words(s: string): (ws: seq<string>)
    ensures forall i :: 0 <= i < |ws| ==> ws[i] != [] && NoSpace(ws[i])
    decreases |s|
  {
    var t := TrimStart(s);
    if t == [] then [] else
      var w := Token(t);
      [w] + Words(t[|w|..])
  }

  lemma {:induction false} TrimStartAllSpace(a: string, b: string)
    requires TrimStart(a) == []
    ensures TrimStart(a + b) == TrimStart(b)
    decreases |a|
  {
    if a != [] {
      assert IsSpace(a[0]);
      assert (a + b)[0] == a[0];
      assert (a + b)[1..] == a[1..] + b;
      assert TrimStart(a + b) == TrimStart(a[1..] + b);
      assert TrimStart(a[1..]) == [];
      TrimStartAllSpace(a[1..], b);
    } else {
      assert a + b == b;
    }
  }

  lemma {:induction false} TrimStartAppend(a: string, b: string)
    requires TrimStart(a) != []
    ensures TrimStart(a + b) == TrimStart(a) + b
    decreases |a|
  {
    if IsSpace(a[0]) {
      assert (a + b)[1..] == a[1..] + b;
      TrimStartAppend(a[1..], b);
    }
  }

  lemma {:induction false} TokenBeforeSpace(a: string, b: string)
    requires b != [] && IsSpace(b[0])
    ensures Token(a + b) == Token(a)
    decreases |a|
  {
    if a != [] && !IsSpace(a[0]) {
      assert (a + b)[1..] == a[1..] + b;
      TokenBeforeSpace(a[1..], b);
    } else if a == [] {
      assert a + b == b;
    }
  }

  lemma AppendAssoc<T>(x: seq<T>, y: seq<T>, z: seq<T>)
    ensures x + (y + z) == (x + y) + z
  {
  }

  lemma WordsDependOnTrim(x: string, y: string)
    requires TrimStart(x) == TrimStart(y)
    ensures Words(x) == Words(y)
  {
  }

  lemma WordsUnfold(x: string, t: string, w: string)
    requires TrimStart(x) == t && t != [] && Token(t) == w
    ensures Words(x) == [w] + Words(t[|w|..])
  {
  }

  lemma DropAppend<T>(x: seq<T>, y: seq<T>, k: nat)
    requires k <= |x|
    ensures (x + y)[k..] == x[k..] + y
  {
  }

  lemma WordsAroundSpaceStep(a: string, b: string, t: string, w: string)
    requires b != [] && IsSpace(b[0]) && t == TrimStart(a) && t != [] && w == Token(t)
    ensures Words(a + b) == [w] + Words(t[|w|..] + b)
  {
    TrimStartAppend(a, b);
    TokenBeforeSpace(t, b);
    DropAppend(t, b, |w|);
    WordsUnfold(a + b, t + b, w);
  }

  /** Splitting on whitespace distributes over a boundary that starts with whitespace. */
  lemma {:induction false} WordsAroundSpace(a: string, b: string)
    requires b != [] && IsSpace(b[0])
    ensures Words(a + b) == Words(a) + Words(b)
    decreases |a|
  {
    var t := TrimStart(a);
    if t == [] {
      TrimStartAllSpace(a, b);
      WordsDependOnTrim(a + b, b);
      assert Words(a) + Words(b) == Words(b);
    } else {
      var w := Token(t);
      WordsAroundSpaceStep(a, b, t, w);
      var rest := t[|w|..];
      assert Words(a) == [w] + Words(rest);
      WordsAroundSpace(rest, b);
      AppendAssoc([w], Words(rest), Words(b));
    }
  }

  /** Python's `(x + " " + y).split()` is `x.split() + y.split()`. */
  lemma WordsOfSpaceJoin(x: string, y: string)
    ensures Words(x + " " + y) == Words(x) + Words(y)
  {
    var b := " " + y;
    assert x + " " + y == x + b;
    WordsAroundSpace(x, b);
    TrimStartAllSpace(" ", y);
    WordsDependOnTrim(b, y);
  }

  /** The first element of `ws` that contains a '.', if any (`next(w for w in ws if '.' in w)`). */
  function FirstWithDot(ws: seq<string>): (r: Option<string>)
    ensures r.None? <==> forall i :: 0 <= i < |ws| ==> '.' !in ws[i]
    ensures r.Some? ==> '.' in r.value && r.value in ws
    ensures r.Some? ==> exists i :: 0 <= i < |ws| && ws[i] == r.value && forall j :: 0 <= j < i ==> '.' !in ws[j]
  {
    if ws == [] then None
    else if '.' in ws[0] then Some(ws[0])
    else FirstWithDot(ws[1..])
  }

  /** Earlier words take precedence: the first dotted word of `a + b` comes from `a` when `a` has one. */
  lemma {:induction false} FirstWithDotAppend(a: seq<string>, b: seq<string>)
    ensures FirstWithDot(a + b) == if FirstWithDot(a).Some? then FirstWithDot(a) else FirstWithDot(b)
  {
    if a == [] {
      assert a + b == b;
    } else {
      assert (a + b)[0] == a[0];
      assert (a + b)[1..] == a[1..] + b;
      FirstWithDotAppend(a[1..], b);
    }
  }

  /** The first position at or after `from` where `pat` occurs in `s`. */
  function IndexFrom(s: string, pat: string, from: nat): (r: Option<nat>)
    ensures r.Some? ==> from <= r.value && OccursAt(s, pat, r.value)
    ensures forall j :: from <= j && (r.None? || j < r.value) ==> !OccursAt(s, pat, j)
    decreases |s| - from
  {
    if from + |pat| > |s| then None
    else if s[from..from + |pat|] == pat then Some(from)
    else IndexFrom(s, pat, from + 1)
  }

  /** `s.find(pat)` as an option: the first occurrence of `pat` in `s`. */
  function IndexOf(s: string, pat: string): (r: Option<nat>)
    ensures r.Some? ==> OccursAt(s, pat, r.value)
    ensures forall j: nat :: (r.None? || j < r.value) ==> !OccursAt(s, pat, j)
  {
    IndexFrom(s, pat, 0)
  }

  lemma IndexOfFindsContained(s: string, pat: string)
    ensures IndexOf(s, pat).Some? <==> Contains(s, pat)
  {
    if Contains(s, pat) {
      var i: nat :| OccursAt(s, pat, i);
    }
  }

  /** An occurrence with none before it is the one `IndexOf` finds. */
  lemma IndexOfFirst(s: string, pat: string, i: nat)
    requires OccursAt(s, pat, i) && forall j: nat :: j < i ==> !OccursAt(s, pat, j)
    ensures IndexOf(s, pat) == Some(i)
  {
  }

  /** `s.split(sep)[0]`: the text before the first `sep`, or all of `s`. */
  function Before(s: string, sep: string): (r: string)
    requires sep != []
    ensures |r| <= |s| && r == s[..|r|]
  {
    match IndexOf(s, sep)
    case Some(i) => s[..i]
    case None => s
  }

  /** The text before the first `c` holds no `c`. */
  lemma BeforeExcludes(s: string, c: char)
    ensures c !in Before(s, [c])
  {
    var r := Before(s, [c]);
    if c in r {
      var k :| 0 <= k < |r| && r[k] == c;
      assert s[k..k + 1] == [c];
      assert OccursAt(s, [c], k);
    }
  }

  /** `s.split(sep, 1)[1]`: the text after the first `sep`, absent when `sep` does not occur. */
  function After(s: string, sep: string): (r: Option<string>)
    requires sep != []
    ensures r.Some? ==> |r.value| + |sep| <= |s| && r.value == s[|s| - |r.value|..]
  {
    match IndexOf(s, sep)
    case Some(i) => Some(s[i + |sep|..])
    case None => None
  }

  /** `s.replace(a, b)` for single characters. */
  function ReplaceChar(s: string, a: char, b: char): (r: string)
    ensures |r| == |s|
    ensures forall i :: 0 <= i < |s| ==> r[i] == if s[i] == a then b else s[i]
  {
    if s == [] then [] else [if s[0] == a then b else s[0]] + ReplaceChar(s[1..], a, b)
  }

  function LowerChar(c: char): char {
    if 'A' <= c <= 'Z' then (c as int + 32) as char else c
  }

  /** `s.lower()` restricted to the ASCII letters. */
  function Lower(s: string): (r: string)
    ensures |r| == |s|
    ensures forall i :: 0 <= i < |s| ==> r[i] == LowerChar(s[i])
  {
    if s == [] then [] else [LowerChar(s[0])] + Lower(s[1..])
  }

  lemma LowerIdempotent(s: string)
    ensures Lower(Lower(s)) == Lower(s)
  {
    var l := Lower(s);
    assert forall i :: 0 <= i < |l| ==> LowerChar(l[i]) == l[i];
  }

  /** `c * n` for a one-character string `c`. */
  function Repeat(c: char, n: nat): (r: string)
    ensures |r| == n && forall i :: 0 <= i < n ==> r[i] == c
  {
    if n == 0 then [] else [c] + Repeat(c, n - 1)
  }

  /** The concatenation of all strings of `ss` in order (`"".join(ss)`). */
  function Concat(ss: seq<string>): string {
    if ss == [] then [] else ss[0] + Concat(ss[1..])
  }

  lemma {:induction false} ConcatAppend(a: seq<string>, b: seq<string>)
    ensures Concat(a + b) == Concat(a) + Concat(b)
  {
    if a == [] {
      assert a + b == b;
    } else {
      assert (a + b)[1..] == a[1..] + b;
      ConcatAppend(a[1..], b);
    }
  }

  /** For a one-character needle, `Contains` is membership. */
  lemma ContainsChar(s: string, c: char)
    ensures Contains(s, [c]) <==> c in s
  {
    if c in s {
      var i :| 0 <= i < |s| && s[i] == c;
      assert OccursAt(s, [c], i);
    }
    if Contains(s, [c]) {
      var i: nat :| i <= |s| && OccursAt(s, [c], i);
      assert s[i..i + 1][0] == s[i];
    }
  }

  lemma ContainsAfter(p: string, s: string, t: string)
    requires Contains(s, t)
    ensures Contains(p + s, t)
  {
    var i: nat :| i <= |s| && OccursAt(s, t, i);
    assert (p + s)[|p| + i..|p| + i + |t|] == s[i..i + |t|];
    assert OccursAt(p + s, t, |p| + i);
  }

  /** Every piece of a concatenation occurs in it. */
  lemma {:induction false} ContainsPiece(ps: seq<string>, i: nat)
    requires i < |ps|
    ensures Contains(Concat(ps), ps[i])
  {
    if i == 0 {
      ContainsInfix([], ps[0], Concat(ps[1..]));
      assert [] + ps[0] + Concat(ps[1..]) == Concat(ps);
    } else {
      ContainsPiece(ps[1..], i - 1);
      ContainsAfter(ps[0], Concat(ps[1..]), ps[i]);
    }
  }

  function DigitChar(d: nat): char
    requires d < 10
  {
    "0123456789"[d]
  }

  /** Python's `str(n)` for a natural number: its decimal digits. */
  function NatToString(n: nat): (r: string)
    ensures r != [] && forall i :: 0 <= i < |r| ==> '0' <= r[i] <= '9'
  {
    if n < 10 then [DigitChar(n)] else NatToString(n / 10) + [DigitChar(n % 10)]
  }

  /** Python's `str(i)` for an integer. */
  function IntToString(i: int): (r: string)
    ensures forall k :: 0 <= k < |r| ==> r[k] == '-' || '0' <= r[k] <= '9'
  {
    if i < 0 then "-" + NatToString(-i) else NatToString(i)
  }

  /** The strings `f(x)` of the elements `x` of `xs`, one after the other. */
  function JoinMap<T>(f: T -> string, xs: seq<T>): string {
    if xs == [] then "" else JoinMap(f, xs[..|xs| - 1]) + f(xs[|xs| - 1])
  }

  lemma JoinMapSnoc<T>(f: T -> string, xs: seq<T>, x: T)
    ensures JoinMap(f, xs + [x]) == JoinMap(f, xs) + f(x)
  {
    assert (xs + [x])[..|xs|] == xs;
  }

  /** The strings of a prefix begin those of every longer prefix. */
  lemma {:induction false} JoinMapPrefix<T>(f: T -> string, xs: seq<T>, i: nat, n: nat)
    requires i <= n <= |xs|
    ensures StartsWith(JoinMap(f, xs[..n]), JoinMap(f, xs[..i]))
    decreases n
  {
    if i < n {
      JoinMapPrefix(f, xs, i, n - 1);
      assert xs[..n] == xs[..n - 1] + [xs[n - 1]];
      JoinMapSnoc(f, xs[..n - 1], xs[n - 1]);
      var a := JoinMap(f, xs[..n - 1]);
      var p := JoinMap(f, xs[..i]);
      assert (a + f(xs[n - 1]))[..|p|] == a[..|p|];
    }
  }

  /** The string of the `i`-th element comes right after those of the elements before it. */
  lemma JoinMapInPlace<T>(f: T -> string, xs: seq<T>, i: nat)
    requires i < |xs|
    ensures OccursAt(JoinMap(f, xs), f(xs[i]), |JoinMap(f, xs[..i])|)
  {
    JoinMapPrefix(f, xs, i + 1, |xs|);
    assert xs[..i + 1] == xs[..i] + [xs[i]];
    JoinMapSnoc(f, xs[..i], xs[i]);
    assert xs[..|xs|] == xs;
    var p := JoinMap(f, xs[..i]);
    var q := JoinMap(f, xs[..i + 1]);
    var whole := JoinMap(f, xs);
    assert whole[..|q|] == q;
    assert whole[|p|..|p| + |f(xs[i])|] == q[|p|..];
  }

  /** An occurrence stays an occurrence, shifted, behind a prefix. */
  lemma OccursBehind(prefix: string, s: string, pat: string, k: nat)
    requires OccursAt(s, pat, k)
    ensures OccursAt(prefix + s, pat, |prefix| + k)
  {
    assert (prefix + s)[|prefix| + k..|prefix| + k + |pat|] == s[k..k + |pat|];
  }

  /** An occurrence stays an occurrence in front of a suffix. */
  lemma OccursBefore(s: string, suffix: string, pat: string, k: nat)
    requires OccursAt(s, pat, k)
    ensures OccursAt(s + suffix, pat, k)
  {
    assert (s + suffix)[k..k + |pat|] == s[k..k + |pat|];
  }

  /** Behind a header, the piece of element `i` still sits right after the pieces before it. */
  lemma JoinMapBehind<T>(prefix: string, f: T -> string, xs: seq<T>, i: nat)
    requires i < |xs|
    ensures OccursAt(prefix + JoinMap(f, xs), f(xs[i]), |prefix| + |JoinMap(f, xs[..i])|)
  {
    JoinMapInPlace(f, xs, i);
    OccursBehind(prefix, JoinMap(f, xs), f(xs[i]), |JoinMap(f, xs[..i])|);
  }
}
