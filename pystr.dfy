/**
 * The handful of Python `str` built-ins the compiler core relies on:
 * `strip`, `split()` (on whitespace runs), `" ".join`, `in`, `index`,
 * `rfind`, `count`, `startswith`/`endswith` and `str(int)`.
 */
module PyStr {

  /** Python's `str.isspace` for one character. */
  predicate IsSpace(c: char) {
    || c == ' '
    || '\t' <= c <= '\r'
    || '\U{1C}' <= c <= '\U{1F}'
    || c == '\U{85}' || c == '\U{A0}' || c == '\U{1680}'
    || '\U{2000}' <= c <= '\U{200A}'
    || c == '\U{2028}' || c == '\U{2029}' || c == '\U{202F}' || c == '\U{205F}' || c == '\U{3000}'
  }

  predicate NoSpace(s: string) {
    forall k :: 0 <= k < |s| ==> !IsSpace(s[k])
  }

  // ---------------------------------------------------------------- strip

  /** The first index at or after `i` that does not hold whitespace (or the end). */
  function LeadEnd(s: string, i: nat): (e: nat)
    requires i <= |s|
    ensures i <= e <= |s|
    ensures forall k :: i <= k < e ==> IsSpace(s[k])
    ensures e < |s| ==> !IsSpace(s[e])
    decreases |s| - i
  {
    if i < |s| && IsSpace(s[i]) then LeadEnd(s, i + 1) else i
  }

  /** The index just after the last non-whitespace character before `j` (or 0). */
  function TrailStart(s: string, j: nat): (b: nat)
    requires j <= |s|
    ensures b <= j
    ensures forall k :: b <= k < j ==> IsSpace(s[k])
    ensures b > 0 ==> !IsSpace(s[b - 1])
  {
    if j > 0 && IsSpace(s[j - 1]) then TrailStart(s, j - 1) else j
  }

  /** `s.lstrip()`. */
  function LStrip(s: string): (r: string)
    ensures |r| <= |s| && r == s[|s| - |r|..]
    ensures r != [] ==> !IsSpace(r[0])
    ensures forall k :: 0 <= k < |s| - |r| ==> IsSpace(s[k])
  {
    s[LeadEnd(s, 0)..]
  }

  /** `s.rstrip()`. */
  function RStrip(s: string): (r: string)
    ensures |r| <= |s| && r == s[..|r|]
    ensures r != [] ==> !IsSpace(r[|r| - 1])
    ensures forall k :: |r| <= k < |s| ==> IsSpace(s[k])
  {
    s[..TrailStart(s, |s|)]
  }

  /**
   * `s.strip()`: the slice of `s` left once the whitespace at both ends is
   * removed; what remains neither starts nor ends with whitespace.
   */
  function Strip(s: string): (r: string)
    ensures r != [] ==> !IsSpace(r[0]) && !IsSpace(r[|r| - 1])
    ensures exists a, b ::
              && 0 <= a <= b <= |s| && r == s[a..b]
              && (forall k :: 0 <= k < a ==> IsSpace(s[k]))
              && (forall k :: b <= k < |s| ==> IsSpace(s[k]))
  {
    var l := LStrip(s);
    var a := |s| - |l|;
    var m := RStrip(l);
    assert m == s[a..a + |m|];
    assert forall k :: a + |m| <= k < |s| ==> s[k] == l[k - a];
    m
  }

  // ---------------------------------------------------------------- split / join

  /** Length of the longest prefix of `s` free of whitespace. */
  function WordLen(s: string): (n: nat)
    ensures n <= |s| && NoSpace(s[..n])
    ensures n < |s| ==> IsSpace(s[n])
  {
    if s == [] || IsSpace(s[0]) then 0 else 1 + WordLen(s[1..])
  }

  /** Whitespace in front of a string does not change what `strip()` keeps. */
  lemma StripLeadingSpace(ws: string, x: string)
    requires forall k :: 0 <= k < |ws| ==> IsSpace(ws[k])
    ensures Strip(ws + x) == Strip(x)
  {
    var s := ws + x;
    var e1, e2 := LeadEnd(s, 0), |ws| + LeadEnd(x, 0);
    assert forall k :: |ws| <= k < e2 ==> s[k] == x[k - |ws|];
    assert e2 < |s| ==> s[e2] == x[e2 - |ws|];
    assert e1 == e2;
    assert LStrip(s) == LStrip(x);
  }

  /** The characters of `s` that are not whitespace, in order. */
  function NonSpaceChars(s: string): string {
    if s == [] then [] else (if IsSpace(s[0]) then [] else [s[0]]) + NonSpaceChars(s[1..])
  }

  /** The words of `ws` written one after the other, with nothing between them. */
  function Concat(ws: seq<string>): string {
    if ws == [] then [] else ws[0] + Concat(ws[1..])
  }

  /** A whitespace-free prefix passes through NonSpaceChars whole. */
  lemma {:induction false} NonSpaceCharsOfWord(s: string, n: nat)
    requires n <= |s| && NoSpace(s[..n])
    ensures NonSpaceChars(s) == s[..n] + NonSpaceChars(s[n..])
  {
    if n > 0 {
      assert s[1..][..n - 1] == s[..n][1..];
      assert s[1..][n - 1..] == s[n..];
      NonSpaceCharsOfWord(s[1..], n - 1);
      assert s[..n] == [s[0]] + s[1..][..n - 1];
    }
  }

  /**
   * `s.split()`: the maximal runs of non-whitespace, in order.  The words are
   * non-empty and whitespace-free, and written back to back they are exactly
   * the non-whitespace characters of `s`: splitting loses and invents nothing.
   */
  function SplitWs(s: string): (r: seq<string>)
    ensures forall k :: 0 <= k < |r| ==> r[k] != [] && NoSpace(r[k])
    ensures Concat(r) == NonSpaceChars(s)
    decreases |s|
  {
    if s == [] then []
    else if IsSpace(s[0]) then SplitWs(s[1..])
    else
      var n := WordLen(s);
      NonSpaceCharsOfWord(s, n);
      var rest := SplitWs(s[n..]);
      assert ([s[..n]] + rest)[1..] == rest;
      [s[..n]] + rest
  }

  /**
   * `w` occurs in `s` at `a` as a maximal run: preceded by whitespace or the
   * start, and followed by whitespace or the end.
   */
  predicate MaximalRunAt(s: string, w: string, a: int) {
    && 0 <= a <= |s| - |w| && s[a..a + |w|] == w
    && (a == 0 || IsSpace(s[a - 1]))
    && (a + |w| == |s| || IsSpace(s[a + |w|]))
  }

  /** A maximal run of a suffix `s[d..]` is one of `s`, unless it starts the suffix right after a non-space. */
  lemma MaximalRunShift(s: string, d: nat, w: string, a: int)
    requires d <= |s| && MaximalRunAt(s[d..], w, a)
    requires a == 0 ==> d == 0 || IsSpace(s[d - 1])
    ensures MaximalRunAt(s, w, d + a)
  {
    assert s[d + a..d + a + |w|] == s[d..][a..a + |w|];
  }

  /** Every word of `s.split()` is a maximal run of non-whitespace characters of `s`. */
  lemma {:induction false} SplitWsMaximal(s: string, k: nat)
    requires k < |SplitWs(s)|
    ensures exists a :: MaximalRunAt(s, SplitWs(s)[k], a)
    decreases |s|
  {
    var w := SplitWs(s)[k];
    if IsSpace(s[0]) {
      SplitWsMaximal(s[1..], k);
      var a' :| MaximalRunAt(s[1..], w, a');
      MaximalRunShift(s, 1, w, a');
    } else {
      var n := WordLen(s);
      var rest := SplitWs(s[n..]);
      assert SplitWs(s) == [s[..n]] + rest;
      if k == 0 {
        assert MaximalRunAt(s, w, 0);
      } else {
        assert w == rest[k - 1];
        SplitWsMaximal(s[n..], k - 1);
        var a' :| MaximalRunAt(s[n..], w, a');
        assert s[n..][a'] == w[0] && !IsSpace(w[0]) && IsSpace(s[n..][0]);
        MaximalRunShift(s, n, w, a');
      }
    }
  }

  lemma AppendAssoc<T>(a: seq<T>, b: seq<T>, c: seq<T>)
    ensures (a + b) + c == a + (b + c)
  {
  }

  /** `sep.join(parts)`. */
  function Join(parts: seq<string>, sep: string): string
  {
    if parts == [] then ""
    else if |parts| == 1 then parts[0]
    else parts[0] + sep + Join(parts[1..], sep)
  }

  lemma {:induction false} WordLenOfWordThenSpace(w: string, rest: string)
    requires NoSpace(w)
    ensures WordLen(w + " " + rest) == |w|
  {
    if w != [] {
      assert (w + " " + rest)[1..] == w[1..] + " " + rest;
      WordLenOfWordThenSpace(w[1..], rest);
    }
  }

  lemma {:induction false} WordLenPrefix(a: string, b: string)
    requires WordLen(a) < |a|
    ensures WordLen(a + b) == WordLen(a)
  {
    if !IsSpace(a[0]) {
      assert (a + b)[1..] == a[1..] + b;
      WordLenPrefix(a[1..], b);
    }
  }

  /**
   * Splitting `a + " " + b` on whitespace gives the words of `a` followed
   * by the words of `b`: joining lines with a space never merges or splits words.
   */
  lemma {:induction false} SplitWsAppend(a: string, b: string)
    ensures SplitWs(a + " " + b) == SplitWs(a) + SplitWs(b)
    decreases |a|
  {
    var s := a + " " + b;
    if a == [] {
      assert s[1..] == b;
    } else if IsSpace(a[0]) {
      assert s[1..] == a[1..] + " " + b;
      SplitWsAppend(a[1..], b);
    } else if WordLen(a) == |a| {
      SplitWsWordThenSpace(a, b);
    } else {
      var n := WordLen(a);
      WordLenPrefix(a, " " + b);
      assert s == a + (" " + b);
      assert s[..n] == a[..n];
      assert s[n..] == a[n..] + " " + b;
      SplitWsAppend(a[n..], b);
    }
  }

  lemma SplitWsWordThenSpace(a: string, b: string)
    requires a != [] && WordLen(a) == |a|
    ensures SplitWs(a + " " + b) == SplitWs(a) + SplitWs(b)
  {
    var s := a + " " + b;
    var n := |a|;
    WordLenOfWordThenSpace(a, b);
    assert s[..n] == a;
    assert s[n..] == " " + b;
    assert (" " + b)[1..] == b;
    assert SplitWs(" " + b) == SplitWs(b);
    assert SplitWs(s) == [a] + SplitWs(b);
    SplitWordAlone(a);
  }

  /** Words free of whitespace survive a `" ".join` followed by `split()`. */
  lemma {:induction false} SplitJoinRoundTrip(ws: seq<string>)
    requires forall k :: 0 <= k < |ws| ==> ws[k] != [] && NoSpace(ws[k])
    ensures SplitWs(Join(ws, " ")) == ws
  {
    if |ws| == 1 {
      SplitWordAlone(ws[0]);
    } else if |ws| > 1 {
      SplitJoinRoundTrip(ws[1..]);
      SplitWsAppend(ws[0], Join(ws[1..], " "));
      SplitWordAlone(ws[0]);
    }
  }

  lemma {:induction false} SplitWordAlone(w: string)
    requires w != [] && NoSpace(w)
    ensures SplitWs(w) == [w]
  {
    WordLenOfWord(w);
    assert w[..|w|] == w;
    assert w[|w|..] == [];
  }

  lemma {:induction false} WordLenOfWord(w: string)
    requires NoSpace(w)
    ensures WordLen(w) == |w|
  {
    if w != [] {
      WordLenOfWord(w[1..]);
    }
  }

  // ---------------------------------------------------------------- searching

  predicate StartsWith(s: string, p: string) {
    |p| <= |s| && s[..|p|] == p
  }

  predicate EndsWith(s: string, p: string) {
    |p| <= |s| && s[|s| - |p|..] == p
  }

  predicate OccursAt(s: string, sub: string, k: int) {
    0 <= k && k + |sub| <= |s| && s[k..k + |sub|] == sub
  }

  /** `s.find(sub)` searching from `from`: the first occurrence at or after `from`, or -1. */
  function FindFrom(s: string, sub: string, from: nat): (r: int)
    requires from <= |s|
    ensures r == -1 || (from <= r && OccursAt(s, sub, r))
    ensures forall k :: from <= k && (r == -1 || k < r) ==> !OccursAt(s, sub, k)
    decreases |s| - from
  {
    if from + |sub| > |s| then -1
    else if s[from..from + |sub|] == sub then from
    else FindFrom(s, sub, from + 1)
  }

  /** `s.find(sub)`; `sub in s` is `Find(s, sub) != -1`. */
  function Find(s: string, sub: string): (r: int)
    ensures r == -1 || OccursAt(s, sub, r)
    ensures forall k :: 0 <= k && (r == -1 || k < r) ==> !OccursAt(s, sub, k)
  {
    FindFrom(s, sub, 0)
  }

  /** `s.index(c)` for a character known to occur. */
  function IndexOf(s: string, c: char): (r: nat)
    requires c in s
    ensures r < |s| && s[r] == c && c !in s[..r]
  {
    if s[0] == c then 0 else 1 + IndexOf(s[1..], c)
  }

  /** `s.rfind(c)`: the last index holding `c`, or -1. */
  function RFind(s: string, c: char): (r: int)
    ensures -1 <= r < |s|
    ensures r >= 0 ==> s[r] == c
    ensures forall k :: r < k < |s| ==> s[k] != c
  {
    if s == [] then -1
    else if s[|s| - 1] == c then |s| - 1
    else RFind(s[..|s| - 1], c)
  }

  /** `s.count(c)`: the number of positions of `s` holding `c`. */
  function Count(s: string, c: char): (n: nat)
    ensures n == multiset(s)[c]
    ensures n <= |s|
    ensures n == 0 <==> c !in s
  {
    if s == [] then 0
    else
      assert s == s[..|s| - 1] + [s[|s| - 1]];
      Count(s[..|s| - 1], c) + (if s[|s| - 1] == c then 1 else 0)
  }

  /** Python slice `s[:k]` for a non-negative `k` (clamped at the end). */
  function Prefix(s: string, k: nat): (r: string)
    ensures |r| == if k <= |s| then k else |s|
    ensures r == s[..|r|]
  {
    if k <= |s| then s[..k] else s
  }

  // ---------------------------------------------------------------- str(int)

  function DigitChar(d: nat): (c: char)
    requires d < 10
    ensures '0' <= c <= '9'
  {
    (d + '0' as int) as char
  }

  function DigitValue(c: char): nat {
    if '0' <= c <= '9' then (c as int - '0' as int) as nat else 0
  }

  /** `str(n)` for a natural number: decimal digits, no leading zero. */
  function NatToString(n: nat): (r: string)
    ensures |r| >= 1
    ensures forall k :: 0 <= k < |r| ==> '0' <= r[k] <= '9'
    ensures r[0] == '0' <==> n == 0
    ensures |r| > 1 ==> r[0] != '0'
    decreases n
  {
    if n < 10 then [DigitChar(n)] else NatToString(n / 10) + [DigitChar(n % 10)]
  }

  /** Reads a string of decimal digits back (the inverse of NatToString). */
  function ParseDigits(s: string): nat {
    if s == [] then 0 else ParseDigits(s[..|s| - 1]) * 10 + DigitValue(s[|s| - 1])
  }

  lemma DigitRoundTrip(d: nat)
    requires d < 10
    ensures DigitValue(DigitChar(d)) == d
  {
  }

  /** `int(str(n)) == n`: decimal rendering loses nothing. */
  lemma {:induction false} ParseNatToString(n: nat)
    ensures ParseDigits(NatToString(n)) == n
    decreases n
  {
    DigitRoundTrip(n % 10);
    if n >= 10 {
      ParseNatToString(n / 10);
      var s := NatToString(n);
      assert s == NatToString(n / 10) + [DigitChar(n % 10)];
      assert s[..|s| - 1] == NatToString(n / 10);
      assert s[|s| - 1] == DigitChar(n % 10);
      assert ParseDigits(s) == ParseDigits(NatToString(n / 10)) * 10 + n % 10;
    }
  }

  lemma NatToStringInjective(a: nat, b: nat)
    ensures NatToString(a) == NatToString(b) ==> a == b
  {
    ParseNatToString(a);
    ParseNatToString(b);
  }

  /** `str(i)` for any integer. */
  function IntToString(i: int): (r: string)
    ensures r != [] && (r[0] == '-' <==> i < 0)
  {
    if i < 0 then "-" + NatToString(-i) else NatToString(i)
  }

  lemma IntToStringInjective(a: int, b: int)
    ensures IntToString(a) == IntToString(b) ==> a == b
  {
    if IntToString(a) == IntToString(b) {
      if a < 0 {
        assert IntToString(a)[1..] == NatToString(-a);
        assert IntToString(b)[1..] == NatToString(-b);
        NatToStringInjective(-a, -b);
      } else {
        NatToStringInjective(a, b);
      }
    }
  }

  /** No decimal rendering contains whitespace or a newline. */
  lemma IntToStringNoSpace(i: int)
    ensures NoSpace(IntToString(i)) && '\n' !in IntToString(i)
  {
    var r := IntToString(i);
    if i < 0 {
      assert forall k :: 1 <= k < |r| ==> r[k] == NatToString(-i)[k - 1];
    }
  }

  /**
   * A separator that occurs in neither of two prefixes splits equal strings
   * at the same place.
   */
  lemma SplitAtSeparator(a1: string, r1: string, a2: string, r2: string, c: char)
    requires c !in a1 && c !in a2
    requires a1 + [c] + r1 == a2 + [c] + r2
    ensures a1 == a2 && r1 == r2
  {
    var s := a1 + [c] + r1;
    SeparatorPosition(s, a1, r1, c);
    SeparatorPosition(s, a2, r2, c);
    assert |a1| == |a2|;
    assert a1 == s[..|a1|];
    assert r1 == s[|a1| + 1..];
  }

  lemma SeparatorPosition(s: string, a: string, r: string, c: char)
    requires c !in a && s == a + [c] + r
    ensures |a| < |s| && s[|a|] == c
    ensures forall k :: 0 <= k < |a| ==> s[k] != c
  {
    assert forall k :: 0 <= k < |a| ==> s[k] == a[k];
  }

  /** A decimal rendering holds only digits and possibly a leading minus sign. */
  lemma IntToStringChars(i: int)
    ensures forall k :: 0 <= k < |IntToString(i)| ==>
      var ch := IntToString(i)[k]; ('0' <= ch <= '9') || ch == '-'
  {
    var r := IntToString(i);
    if i < 0 {
      assert forall k :: 1 <= k < |r| ==> r[k] == NatToString(-i)[k - 1];
    }
  }

  /** Counting distributes over concatenation. */
  lemma {:induction false} CountConcat(a: string, b: string, c: char)
    ensures Count(a + b, c) == Count(a, c) + Count(b, c)
    decreases |b|
  {
    if b != [] {
      assert (a + b)[..|a + b| - 1] == a + b[..|b| - 1];
      CountConcat(a, b[..|b| - 1], c);
    } else {
      assert a + b == a;
    }
  }
}
