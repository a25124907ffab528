/** The `pathlib` operations the modelled code uses, on POSIX path strings:
    `Path(p).name`, `.suffix`, `.stem`, `Path(d) / name`, and the ordering
    `sorted()` applies to paths (component lists compared lexicographically,
    components compared by code point). */
module Paths {
  import opened PyStr

  /** `r` is a '/'-free tail of `s` that is all of `s` or follows a '/'. */
  predicate IsLastComponent(s: Str, r: Str) {
    && '/' !in r
    && EndsWith(s, r)
    && (|r| < |s| ==> s[|s| - |r| - 1] == '/')
  }

  /** The part of `s` after its last '/'. */
  function LastComponent(s: Str): (r: Str)
    ensures IsLastComponent(s, r)
  {
    var i := RFind(s, '/');
    var r := s[i + 1..];
    assert s[|s| - |r|..] == r;
    assert '/' !in r by {
      forall j | 0 <= j < |r| ensures r[j] != '/' {
        assert r[j] == s[i + 1 + j];
      }
    }
    r
  }

  /** `Path(p).name`: the last component, trailing slashes ignored. */
  function FileName(p: Str): (r: Str)
    ensures IsLastComponent(RStripChar(p, '/'), r)
  {
    LastComponent(RStripChar(p, '/'))
  }

  /** `s.rfind(c)`, -1 when `c` does not occur. */
  function RFind(s: Str, c: char): (r: int)
    ensures -1 <= r < |s|
    ensures r >= 0 ==> s[r] == c
    ensures forall i :: r < i < |s| ==> s[i] != c
    decreases |s|
  {
    if s == [] then -1
    else if s[|s| - 1] == c then |s| - 1
    else RFind(s[..|s| - 1], c)
  }

  /** `Path.suffix` of a file name: from the last '.', when that dot is
      neither the first nor the last character; otherwise empty. */
  function Suffix(name: Str): (r: Str)
    ensures r == [] || (r[0] == '.' && '.' !in r[1..] && |r| >= 2)
    ensures |r| < |name| || r == []
    ensures EndsWith(name, r)
    ensures forall i :: 0 < i < |name| - 1 && name[i] == '.' && '.' !in name[i + 1..] ==> r == name[i..]
  {
    var i := RFind(name, '.');
    if 0 < i < |name| - 1 then name[i..] else []
  }

  /** `Path.stem`: the name without its suffix. */
  function Stem(name: Str): Str {
    var i := RFind(name, '.');
    if 0 < i < |name| - 1 then name[..i] else name
  }

  /** A name is its stem followed by its suffix. */
  lemma StemSuffix(name: Str)
    ensures Stem(name) + Suffix(name) == name
  {
  }

  /** `Path(d) / name` rendered as a string: an absolute `name` replaces
      the directory. */
  function JoinPath(dir: Str, name: Str): Str {
    if dir == [] || (name != [] && name[0] == '/') then name
    else if dir[|dir| - 1] == '/' then dir + name
    else dir + "/" + name
  }

  /** A joined path ends with the joined name. */
  lemma JoinPathEndsWith(dir: Str, name: Str)
    ensures EndsWith(JoinPath(dir, name), name)
  {
    var p := JoinPath(dir, name);
    assert p[|p| - |name|..] == name;
  }

  /** Joining a plain name onto a directory gives a path whose name is it. */
  lemma FileNameOfJoin(dir: Str, name: Str)
    requires name != [] && '/' !in name
    ensures FileName(JoinPath(dir, name)) == name
  {
    var p := JoinPath(dir, name);
    assert p[|p| - 1] == name[|name| - 1];
    assert RStripChar(p, '/') == p;
    LastComponentOfSuffix(p, name);
  }

  /** A '/'-free tail that follows a '/' (or is the whole string) is the
      last component. */
  lemma LastComponentOfSuffix(p: Str, name: Str)
    requires '/' !in name && EndsWith(p, name)
    requires |name| == |p| || p[|p| - |name| - 1] == '/'
    ensures LastComponent(p) == name
  {
    var q := |p| - |name| - 1;
    NoSlashInTail(p, name);
    var i := RFind(p, '/');
    assert i == q;
  }

  lemma NoSlashInTail(p: Str, name: Str)
    requires '/' !in name && EndsWith(p, name)
    ensures forall j :: |p| - |name| <= j < |p| ==> p[j] != '/'
  {
    forall j | |p| - |name| <= j < |p| ensures p[j] != '/' {
      assert p[j] == name[j - (|p| - |name|)];
    }
  }

  // ---- ordering -------------------------------------------------------

  /** Lexicographic order: the first differing element decides, and a
      proper prefix comes first. */
  predicate LexLt<T(==)>(a: seq<T>, b: seq<T>, lt: (T, T) -> bool)
    decreases |a|
  {
    if a == [] then b != []
    else if b == [] then false
    else if a[0] != b[0] then lt(a[0], b[0])
    else LexLt(a[1..], b[1..], lt)
  }

  ghost predicate StrictTotalOrder<T(!new)>(lt: (T, T) -> bool) {
    && (forall x :: !lt(x, x))
    && (forall x, y, z :: lt(x, y) && lt(y, z) ==> lt(x, z))
    && (forall x, y :: x != y ==> lt(x, y) || lt(y, x))
  }

  lemma {:induction false} LexIrreflexive<T>(a: seq<T>, lt: (T, T) -> bool)
    ensures !LexLt(a, a, lt)
    decreases |a|
  {
    if a != [] { LexIrreflexive(a[1..], lt); }
  }

  lemma {:induction false} LexTransitive<T(!new)>(a: seq<T>, b: seq<T>, c: seq<T>, lt: (T, T) -> bool)
    requires StrictTotalOrder(lt)
    requires LexLt(a, b, lt) && LexLt(b, c, lt)
    ensures LexLt(a, c, lt)
    decreases |a|
  {
    if a != [] && a[0] == b[0] && b[0] == c[0] {
      LexTransitive(a[1..], b[1..], c[1..], lt);
    }
  }

  lemma {:induction false} LexTotal<T(!new)>(a: seq<T>, b: seq<T>, lt: (T, T) -> bool)
    requires StrictTotalOrder(lt)
    requires a != b
    ensures LexLt(a, b, lt) || LexLt(b, a, lt)
    decreases |a|
  {
    if a != [] && b != [] && a[0] == b[0] {
      assert a[1..] != b[1..] by { assert a == [a[0]] + a[1..] && b == [b[0]] + b[1..]; }
      LexTotal(a[1..], b[1..], lt);
    }
  }

  /** The lexicographic extension of a strict total order is one. */
  lemma LexOrder<T(!new)>(lt: (T, T) -> bool)
    requires StrictTotalOrder(lt)
    ensures StrictTotalOrder((a: seq<T>, b: seq<T>) => LexLt(a, b, lt))
  {
    var L := (a: seq<T>, b: seq<T>) => LexLt(a, b, lt);
    forall a: seq<T> ensures !L(a, a) { LexIrreflexive(a, lt); }
    forall a: seq<T>, b: seq<T>, c: seq<T> | L(a, b) && L(b, c) ensures L(a, c) {
      LexTransitive(a, b, c, lt);
    }
    forall a: seq<T>, b: seq<T> | a != b ensures L(a, b) || L(b, a) { LexTotal(a, b, lt); }
  }

  function CharLt(x: char, y: char): bool { x < y }

  /** String comparison `a < b` in Python: by code point. */
  function StrLt(a: Str, b: Str): bool { LexLt(a, b, CharLt) }

  /** `Path(p) < Path(q)`: the lists of '/'-separated components compared. */
  function PathLt(p: Str, q: Str): bool {
    LexLt(Split(p, "/"), Split(q, "/"), StrLt)
  }

  lemma StrOrder()
    ensures StrictTotalOrder(StrLt)
  {
    assert StrictTotalOrder(CharLt);
    forall a: Str ensures !StrLt(a, a) { LexIrreflexive(a, CharLt); }
    forall a: Str, b: Str, c: Str | StrLt(a, b) && StrLt(b, c) ensures StrLt(a, c) {
      LexTransitive(a, b, c, CharLt);
    }
    forall a: Str, b: Str | a != b ensures StrLt(a, b) || StrLt(b, a) { LexTotal(a, b, CharLt); }
  }

  /** Path comparison is a strict total order on path strings: distinct
      strings have distinct component lists. */
  lemma PathOrder()
    ensures forall p :: !PathLt(p, p)
    ensures forall p, q, r :: PathLt(p, q) && PathLt(q, r) ==> PathLt(p, r)
    ensures forall p, q :: p != q ==> PathLt(p, q) || PathLt(q, p)
  {
    StrOrder();
    forall p: Str ensures !PathLt(p, p) { LexIrreflexive(Split(p, "/"), StrLt); }
    forall p: Str, q: Str, r: Str | PathLt(p, q) && PathLt(q, r) ensures PathLt(p, r) {
      LexTransitive(Split(p, "/"), Split(q, "/"), Split(r, "/"), StrLt);
    }
    forall p: Str, q: Str | p != q ensures PathLt(p, q) || PathLt(q, p) {
      assert Split(p, "/") != Split(q, "/") by {
        assert Join("/", Split(p, "/")) == p && Join("/", Split(q, "/")) == q;
      }
      LexTotal(Split(p, "/"), Split(q, "/"), StrLt);
    }
  }

  lemma PathAsymmetric(p: Str, q: Str)
    requires PathLt(p, q)
    ensures !PathLt(q, p)
  {
    PathOrder();
  }

  /** "Not greater" is transitive: p <= q and q <= r give p <= r. */
  lemma PathLeTransitive(p: Str, q: Str, r: Str)
    requires !PathLt(q, p) && !PathLt(r, q)
    ensures !PathLt(r, p)
  {
    PathOrder();
  }

  ghost predicate SortedPaths(s: seq<Str>) {
    forall i, j :: 0 <= i < j < |s| ==> !PathLt(s[j], s[i])
  }

  /** Insert `x` before the first element it is not greater than. */
  function InsertPath(x: Str, s: seq<Str>): (r: seq<Str>)
    requires SortedPaths(s)
    ensures SortedPaths(r)
    ensures multiset(r) == multiset(s) + multiset{x}
    decreases |s|
  {
    if s == [] then [x]
    else if PathLt(s[0], x) then
      SortedTail(s);
      var rest := InsertPath(x, s[1..]);
      InsertAfterHead(x, s, rest);
      [s[0]] + rest
    else
      InsertBeforeHead(x, s);
      [x] + s
  }

  lemma InsertAfterHead(x: Str, s: seq<Str>, rest: seq<Str>)
    requires s != [] && SortedPaths(s) && PathLt(s[0], x)
    requires SortedPaths(rest) && multiset(rest) == multiset(s[1..]) + multiset{x}
    ensures SortedPaths([s[0]] + rest)
    ensures multiset([s[0]] + rest) == multiset(s) + multiset{x}
  {
    assert s == [s[0]] + s[1..];
    forall k | 0 <= k < |rest| ensures !PathLt(rest[k], s[0]) {
      assert rest[k] in multiset(rest);
      if rest[k] == x {
        PathAsymmetric(s[0], x);
      } else {
        assert rest[k] in s[1..];
      }
    }
  }

  lemma SortedTail(s: seq<Str>)
    requires s != [] && SortedPaths(s)
    ensures SortedPaths(s[1..])
  {
    forall i, j | 0 <= i < j < |s| - 1 ensures !PathLt(s[1..][j], s[1..][i]) {
      assert s[1..][j] == s[j + 1] && s[1..][i] == s[i + 1];
    }
  }

  lemma InsertBeforeHead(x: Str, s: seq<Str>)
    requires s != [] && SortedPaths(s) && !PathLt(s[0], x)
    ensures SortedPaths([x] + s)
  {
    forall k | 0 <= k < |s| ensures !PathLt(s[k], x) {
      if k > 0 { PathLeTransitive(x, s[0], s[k]); }
    }
  }

  /** `sorted(paths)`: the same paths, in path order. */
  function SortPaths(s: seq<Str>): (r: seq<Str>)
    ensures SortedPaths(r)
    ensures multiset(r) == multiset(s)
    decreases |s|
  {
    if s == [] then []
    else
      assert s == s[..|s| - 1] + [s[|s| - 1]];
      InsertPath(s[|s| - 1], SortPaths(s[..|s| - 1]))
  }
}
