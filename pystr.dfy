/** The parts of Python's `str` type that the modelled code relies on:
    `strip`, `rstrip(c)`, `startswith`, `endswith`, `in`, `split(sep)`,
    `sep.join(parts)`, `lower` (ASCII letters only), slicing with Python's
    index clamping, and `str(int)`. */
module PyStr {
  import opened Wrappers

  type Str = seq<char>

  /** The characters `str.strip()` removes (Python's Unicode whitespace). */
  predicate IsSpace(c: char) {
    || c == ' '
    || ('\t' <= c <= '\r')
    || ('\U{1C}' <= c <= '\U{1F}')
    || c == '\U{85}' || c == '\U{A0}' || c == '\U{1680}'
    || ('\U{2000}' <= c <= '\U{200A}')
    || c == '\U{2028}' || c == '\U{2029}' || c == '\U{202F}' || c == '\U{205F}' || c == '\U{3000}'
  }

  /** Python's `not s.strip()`: the string holds whitespace only. */
  predicate IsBlank(s: Str) {
    forall i :: 0 <= i < |s| ==> IsSpace(s[i])
  }

  function TrimLeft(s: Str): (r: Str)
    ensures |r| <= |s| && r == s[|s| - |r|..]
    ensures r == [] || !IsSpace(r[0])
    ensures forall i :: 0 <= i < |s| - |r| ==> IsSpace(s[i])
  {
    if s != [] && IsSpace(s[0]) then TrimLeft(s[1..]) else s
  }

  function TrimRight(s: Str): (r: Str)
    ensures |r| <= |s| && r == s[..|r|]
    ensures r == [] || !IsSpace(r[|r| - 1])
    ensures forall i :: |r| <= i < |s| ==> IsSpace(s[i])
  {
    if s != [] && IsSpace(s[|s| - 1]) then TrimRight(s[..|s| - 1]) else s
  }

  /** Neither end is whitespace. */
  predicate Trimmed(s: Str) {
    s == [] || (!IsSpace(s[0]) && !IsSpace(s[|s| - 1]))
  }

  /** `r` is the slice `s[i..i + |r|]` with only whitespace around it. */
  predicate StripsAt(s: Str, r: Str, i: nat) {
    && i + |r| <= |s|
    && r == s[i..i + |r|]
    && (forall j :: 0 <= j < i ==> IsSpace(s[j]))
    && (forall j :: i + |r| <= j < |s| ==> IsSpace(s[j]))
  }

  /** `s.strip()`: a slice of `s` with only whitespace cut from either
      end; empty exactly when `s` is blank, and otherwise starting and
      ending with a non-space character. */
  function Strip(s: Str): (r: Str)
    ensures |r| <= |s|
    ensures exists i :: StripsAt(s, r, i)
    ensures r == [] <==> IsBlank(s)
    ensures Trimmed(r)
  {
    var l := TrimLeft(s);
    assert l == [] ==> IsBlank(s);
    TrimmedSlice(s, l, TrimRight(l));
    TrimRight(l)
  }

  /** Stripping takes a slice of `s` with whitespace on either side. */
  lemma TrimmedSlice(s: Str, l: Str, r: Str)
    requires l == TrimLeft(s) && r == TrimRight(l)
    ensures StripsAt(s, r, |s| - |l|)
  {
    InnerSlice(s, l, r, IsSpace);
  }

  /** Cutting characters that satisfy `p` off the front and then the back
      of `s` leaves a slice of `s` with such characters on either side. */
  lemma InnerSlice(s: Str, l: Str, r: Str, p: char -> bool)
    requires |l| <= |s| && l == s[|s| - |l|..]
    requires forall j :: 0 <= j < |s| - |l| ==> p(s[j])
    requires |r| <= |l| && r == l[..|r|]
    requires forall j :: |r| <= j < |l| ==> p(l[j])
    ensures r == s[|s| - |l|..|s| - |l| + |r|]
    ensures forall j :: |s| - |l| + |r| <= j < |s| ==> p(s[j])
  {
    var i := |s| - |l|;
    forall j | i + |r| <= j < |s| ensures p(s[j]) {
      assert s[j] == l[j - i];
    }
  }

  /** A string that neither starts nor ends with whitespace is its own strip. */
  lemma StripOfStripped(s: Str)
    requires Trimmed(s)
    ensures Strip(s) == s
  {
  }

  /** `s.rstrip(c)` for a one-character argument. */
  function RStripChar(s: Str, c: char): (r: Str)
    ensures |r| <= |s| && r == s[..|r|]
    ensures r == [] || r[|r| - 1] != c
    ensures forall i :: |r| <= i < |s| ==> s[i] == c
  {
    if s != [] && s[|s| - 1] == c then RStripChar(s[..|s| - 1], c) else s
  }

  predicate StartsWith(s: Str, prefix: Str) {
    |prefix| <= |s| && s[..|prefix|] == prefix
  }

  predicate EndsWith(s: Str, suffix: Str) {
    |suffix| <= |s| && s[|s| - |suffix|..] == suffix
  }

  /** A suffix of a suffix is a suffix. */
  lemma EndsWithTransitive(s: Str, t: Str, u: Str)
    requires EndsWith(s, t) && EndsWith(t, u)
    ensures EndsWith(s, u)
  {
    assert s[|s| - |u|..] == t[|t| - |u|..];
  }

  predicate OccursAt(s: Str, sub: Str, i: nat) {
    i + |sub| <= |s| && s[i..i + |sub|] == sub
  }

  /** `s.find(sub)`, with None for -1: the first position where `sub` occurs. */
  function IndexOf(s: Str, sub: Str): (r: Option<nat>)
    ensures r.Some? ==> OccursAt(s, sub, r.value)
    ensures r.Some? ==> forall j :: 0 <= j < r.value ==> !OccursAt(s, sub, j)
    ensures r.None? ==> forall j :: 0 <= j <= |s| ==> !OccursAt(s, sub, j)
    decreases |s|
  {
    if |s| < |sub| then None
    else if s[..|sub|] == sub then Some(0)
    else
      var rest := IndexOf(s[1..], sub);
      assert !OccursAt(s, sub, 0);
      assert forall j :: 1 <= j <= |s| ==> (OccursAt(s, sub, j) <==> OccursAt(s[1..], sub, j - 1)) by {
        forall j | 1 <= j <= |s|
          ensures OccursAt(s, sub, j) <==> OccursAt(s[1..], sub, j - 1)
        {
          if j + |sub| <= |s| {
            assert s[1..][j - 1..j - 1 + |sub|] == s[j..j + |sub|];
          }
        }
      }
      match rest
      case None => None
      case Some(i) => Some(i + 1)
  }

  /** Python's `sub in s`. */
  predicate Contains(s: Str, sub: Str) {
    IndexOf(s, sub).Some?
  }

  /** `sep.join(parts)`. */
  function Join(sep: Str, parts: seq<Str>): Str
    decreases |parts|
  {
    if |parts| == 0 then []
    else if |parts| == 1 then parts[0]
    else parts[0] + sep + Join(sep, parts[1..])
  }

  /** `s.split(sep)` for a non-empty separator: cut at every occurrence,
      scanning left to right. There is always at least one piece, and
      joining the pieces back gives `s`. */
  function Split(s: Str, sep: Str): (r: seq<Str>)
    requires |sep| > 0
    ensures |r| >= 1
    ensures Join(sep, r) == s
    decreases |s|
  {
    match IndexOf(s, sep)
    case None => [s]
    case Some(i) =>
      var tail := Split(s[i + |sep|..], sep);
      assert s == s[..i] + sep + s[i + |sep|..];
      [s[..i]] + tail
  }

  /** No piece of a split holds the separator. */
  lemma {:induction false} SplitPiecesLackSep(s: Str, sep: Str)
    requires |sep| > 0
    ensures forall k :: 0 <= k < |Split(s, sep)| ==> !Contains(Split(s, sep)[k], sep)
    decreases |s|
  {
    match IndexOf(s, sep)
    case None =>
    case Some(i) =>
      var head := s[..i];
      forall j | 0 <= j <= |head| ensures !OccursAt(head, sep, j) {
        if j + |sep| <= |head| {
          assert head[j..j + |sep|] == s[j..j + |sep|];
          assert !OccursAt(s, sep, j);
        }
      }
      assert !Contains(head, sep);
      SplitPiecesLackSep(s[i + |sep|..], sep);
  }

  /** A separator of one character that no part holds: splitting the joined
      string gives the parts back. */
  lemma {:induction false} SplitJoinChar(parts: seq<Str>, c: char)
    requires |parts| >= 1
    requires forall k :: 0 <= k < |parts| ==> c !in parts[k]
    ensures Split(Join([c], parts), [c]) == parts
    decreases |parts|
  {
    var s := Join([c], parts);
    if |parts| == 1 {
      NoCharNoOccurrence(parts[0], c);
    } else {
      var a := parts[0];
      var rest := Join([c], parts[1..]);
      assert s == a + [c] + rest;
      assert OccursAt(s, [c], |a|) by { assert s[|a|..|a| + 1] == [c]; }
      forall j | 0 <= j < |a| ensures !OccursAt(s, [c], j) {
        assert s[j] == a[j];
      }
      var i := IndexOf(s, [c]).value;
      assert i == |a|;
      assert s[..i] == a;
      assert s[i + 1..] == rest;
      SplitJoinChar(parts[1..], c);
    }
  }

  /** Splitting the rejoined tail of a split on one character gives that
      tail back. */
  lemma SplitTailRoundTrip(s: Str, c: char, n: nat)
    requires 0 < n <= |Split(s, [c])|
    ensures var parts := Split(s, [c]);
      Split(Join([c], parts[|parts| - n..]), [c]) == parts[|parts| - n..]
  {
    var parts := Split(s, [c]);
    var tail := parts[|parts| - n..];
    SplitPiecesLackSep(s, [c]);
    forall k | 0 <= k < |tail| ensures c !in tail[k] {
      assert tail[k] == parts[|parts| - n + k];
      NoOccurrenceNoChar(tail[k], c);
    }
    SplitJoinChar(tail, c);
  }

  lemma NoCharNoOccurrence(s: Str, c: char)
    requires c !in s
    ensures IndexOf(s, [c]).None?
  {
    forall j | 0 <= j <= |s| ensures !OccursAt(s, [c], j) {
      if j + 1 <= |s| {
        assert s[j..j + 1] == [s[j]];
      }
    }
  }

  /** A string in which the one-character string `[c]` does not occur
      does not hold `c`. */
  lemma NoOccurrenceNoChar(s: Str, c: char)
    requires !Contains(s, [c])
    ensures c !in s
  {
    forall i | 0 <= i < |s| ensures s[i] != c {
      assert !OccursAt(s, [c], i);
      assert s[i..i + 1] == [s[i]];
    }
  }

  predicate IsUpper(c: char) {
    'A' <= c <= 'Z'
  }

  function LowerChar(c: char): (r: char)
    ensures !IsUpper(r)
    ensures IsSpace(r) <==> IsSpace(c)
  {
    if IsUpper(c) then (c as int + 32) as char else c
  }

  /** `s.lower()` on ASCII letters; other characters are kept. */
  function Lower(s: Str): (r: Str)
    ensures |r| == |s|
    ensures forall i :: 0 <= i < |r| ==> !IsUpper(r[i])
    ensures forall i :: 0 <= i < |s| ==>
      (IsUpper(s[i]) ==> r[i] as int == s[i] as int + 32) && (!IsUpper(s[i]) ==> r[i] == s[i])
  {
    seq(|s|, i requires 0 <= i < |s| => LowerChar(s[i]))
  }

  /** A string without upper-case letters is its own lower case. */
  lemma LowerOfLower(s: Str)
    requires forall i :: 0 <= i < |s| ==> !IsUpper(s[i])
    ensures Lower(s) == s
  {
  }

  /** Lower-casing keeps a stripped string stripped. */
  lemma LowerTrimmed(s: Str)
    requires Trimmed(s)
    ensures Trimmed(Lower(s))
  {
    if s != [] {
      var r := Lower(s);
      assert r[0] == LowerChar(s[0]);
      assert r[|r| - 1] == LowerChar(s[|s| - 1]);
    }
  }

  /** Python's clamping of a slice bound: negative counts from the end. */
  function ClampIndex(i: int, n: nat): (r: nat)
    ensures r <= n
    ensures 0 <= i <= n ==> r == i
    ensures i >= n ==> r == n
  {
    if i < 0 then (if i + n < 0 then 0 else i + n)
    else if i > n then n
    else i
  }

  /** `s[a:b]` with Python's slicing rules for any integer bounds. */
  function Slice(s: Str, a: int, b: int): (r: Str)
    ensures |r| <= |s|
    ensures 0 <= a <= b <= |s| ==> r == s[a..b]
    ensures |s| <= a ==> r == []
  {
    var lo, hi := ClampIndex(a, |s|), ClampIndex(b, |s|);
    if lo < hi then s[lo..hi] else []
  }

  function DigitChar(d: nat): char
    requires d < 10
  {
    "0123456789"[d]
  }

  function NatToDecimal(n: nat): (r: Str)
    ensures |r| >= 1
    ensures forall i :: 0 <= i < |r| ==> '0' <= r[i] <= '9'
    decreases n
  {
    if n < 10 then [DigitChar(n)] else NatToDecimal(n / 10) + [DigitChar(n % 10)]
  }

  /** `str(n)` for an int. */
  function IntToDecimal(n: int): Str {
    if n < 0 then "-" + NatToDecimal(-n) else NatToDecimal(n)
  }

  /** The value of a string of decimal digits, read the way `int(s)` does. */
  function DecimalValue(s: Str): nat
    requires forall i :: 0 <= i < |s| ==> '0' <= s[i] <= '9'
    decreases |s|
  {
    if s == [] then 0 else DecimalValue(s[..|s| - 1]) * 10 + (s[|s| - 1] as int - '0' as int)
  }

  /** `int(str(n)) == n` for a natural number. */
  lemma {:induction false} DecimalRoundTrip(n: nat)
    ensures DecimalValue(NatToDecimal(n)) == n
    decreases n
  {
    if n >= 10 {
      var front := NatToDecimal(n / 10);
      var s := front + [DigitChar(n % 10)];
      assert s[..|s| - 1] == front;
      DecimalRoundTrip(n / 10);
    }
  }
}
