/** List building shared by the modelled loops: keeping the candidates a
    loop decides to append, in order, and cutting a list to its first
    `limit` elements. */
module Lists {
  import opened Wrappers

  /** The present values among `cs`, in order: what a loop that appends
      `x` for each `Some(x)` and skips each `None` builds. */
  function Somes<T>(cs: seq<Option<T>>): (r: seq<T>)
    ensures |r| <= |cs|
    decreases |cs|
  {
    if cs == [] then []
    else
      var init := Somes(cs[..|cs| - 1]);
      match cs[|cs| - 1]
      case None => init
      case Some(x) => init + [x]
  }

  lemma SomesSnoc<T>(cs: seq<Option<T>>, c: Option<T>)
    ensures Somes(cs + [c]) == Somes(cs) + (if c.Some? then [c.value] else [])
  {
    assert (cs + [c])[..|cs|] == cs;
  }

  lemma {:induction false} SomesAppend<T>(a: seq<Option<T>>, b: seq<Option<T>>)
    ensures Somes(a + b) == Somes(a) + Somes(b)
    decreases |b|
  {
    if b != [] {
      var b', x := b[..|b| - 1], b[|b| - 1];
      var t := if x.Some? then [x.value] else [];
      assert a + b == (a + b') + [x];
      assert b == b' + [x];
      SomesSnoc(a + b', x);
      SomesSnoc(b', x);
      SomesAppend(a, b');
      calc {
        Somes(a + b);
        Somes(a + b') + t;
        (Somes(a) + Somes(b')) + t;
        Somes(a) + (Somes(b') + t);
        Somes(a) + Somes(b);
      }
    } else {
      assert a + b == a;
    }
  }

  /** Nothing is kept when every candidate is absent. */
  lemma {:induction false} SomesNone<T>(cs: seq<Option<T>>)
    requires forall i :: 0 <= i < |cs| ==> cs[i].None?
    ensures Somes(cs) == []
    decreases |cs|
  {
    if cs != [] {
      SomesNone(cs[..|cs| - 1]);
    }
  }

  /** Where the kept values came from: the k-th kept value is the candidate
      at position `r[k]`; positions strictly increase (the order is kept),
      and every present candidate is kept. */
  function Positions<T>(cs: seq<Option<T>>): (r: seq<nat>)
    ensures |r| == |Somes(cs)|
    ensures forall k :: 0 <= k < |r| ==> r[k] < |cs| && cs[r[k]] == Some(Somes(cs)[k])
    ensures forall k, l :: 0 <= k < l < |r| ==> r[k] < r[l]
    ensures forall i :: 0 <= i < |cs| && cs[i].Some? ==> i in r
    decreases |cs|
  {
    if cs == [] then []
    else
      var init := Positions(cs[..|cs| - 1]);
      if cs[|cs| - 1].Some? then init + [|cs| - 1] else init
  }

  /** A candidate's position is kept exactly when the candidate is present. */
  lemma PositionsMember<T>(cs: seq<Option<T>>)
    ensures forall i :: 0 <= i < |cs| ==> (i in Positions(cs) <==> cs[i].Some?)
  {
    var p := Positions(cs);
    forall i | 0 <= i < |cs| && i in p ensures cs[i].Some? {
      var k :| 0 <= k < |p| && p[k] == i;
    }
  }

  /** A value is kept exactly when some candidate holds it. */
  lemma SomesMember<T>(cs: seq<Option<T>>, x: T)
    ensures x in Somes(cs) <==> Some(x) in cs
  {
    var p := Positions(cs);
    if x in Somes(cs) {
      var k :| 0 <= k < |Somes(cs)| && Somes(cs)[k] == x;
      assert cs[p[k]] == Some(x);
    }
    if Some(x) in cs {
      var i :| 0 <= i < |cs| && cs[i] == Some(x);
      assert i in p;
      var k :| 0 <= k < |p| && p[k] == i;
      assert Somes(cs)[k] == x;
    }
  }

  /** Lists that agree with `f` position by position still do once each
      is extended by a list that does. */
  lemma PointwiseAppend<A, B>(xs: seq<A>, ys: seq<B>, xs': seq<A>, ys': seq<B>, f: A -> B, ok: A -> bool)
    requires |xs| == |ys| && forall t :: 0 <= t < |xs| ==> ok(xs[t]) && ys[t] == f(xs[t])
    requires |xs'| == |ys'| && forall t :: 0 <= t < |xs'| ==> ok(xs'[t]) && ys'[t] == f(xs'[t])
    ensures |xs + xs'| == |ys + ys'|
    ensures forall t :: 0 <= t < |xs + xs'| ==> ok((xs + xs')[t]) && (ys + ys')[t] == f((xs + xs')[t])
  {
    forall t | |xs| <= t < |xs + xs'| ensures ok((xs + xs')[t]) && (ys + ys')[t] == f((xs + xs')[t]) {
      assert (xs + xs')[t] == xs'[t - |xs|];
    }
  }

  /** `xs[:limit]` when `limit > 0` and the list is longer; else `xs`. */
  function Limit<T>(xs: seq<T>, limit: int): (r: seq<T>)
    ensures limit > 0 && |xs| > limit ==> |r| == limit
    ensures limit <= 0 || |xs| <= limit ==> r == xs
    ensures |r| <= |xs| && r == xs[..|r|]
  {
    if limit > 0 && |xs| > limit then xs[..limit] else xs
  }
}
