/** Small facts about ordered id lists that every part of the model shares. */
module Common {

  type SteamId = nat
  type ConversationId = int

  datatype Option<+T> = None | Some(value: T)

  function Min(a: int, b: int): int { if a < b then a else b }

  function Max(a: int, b: int): int { if a < b then b else a }

  /** Strictly ascending, hence also free of duplicates. */
  ghost predicate Increasing(q: seq<nat>) {
    forall i, j :: 0 <= i < j < |q| ==> q[i] < q[j]
  }

  function Elements(q: seq<nat>): (s: set<nat>)
    ensures forall x :: x in s <==> x in q
  {
    set x | x in q
  }

  /**
   * What "ORDER BY id DESC LIMIT n", turned around, means for the set `s` of matching ids: the `n`
   * largest (all of them when there are fewer), oldest first.
   */
  ghost predicate IsNewest(s: set<nat>, n: nat, q: seq<nat>) {
    && Increasing(q)
    && |q| == Min(n, |s|)
    && (forall x | x in q :: x in s)
    && (forall x, y | x in s && x !in q && y in q :: x < y)
  }

  lemma {:induction false} LeastElement(s: set<nat>) returns (least: nat)
    requires s != {}
    ensures least in s && forall x | x in s :: least <= x
    decreases |s|
  {
    var some :| some in s;
    var rest := s - {some};
    assert forall x | x in s :: x == some || x in rest;
    if rest == {} {
      least := some;
    } else {
      var below := LeastElement(rest);
      least := if some < below then some else below;
    }
  }

  function Minimum(s: set<nat>): (m: nat)
    requires s != {}
    ensures m in s && forall x | x in s :: m <= x
  {
    assert exists m :: m in s && forall x | x in s :: m <= x by {
      var least := LeastElement(s);
    }
    var m :| m in s && forall x | x in s :: m <= x;
    m
  }

  function Maximum(s: set<nat>): (m: nat)
    requires s != {}
    ensures m in s && forall x | x in s :: x <= m
    decreases |s|
  {
    var m := Minimum(s);
    assert forall x | x in s :: x == m || x in s - {m};
    if s - {m} == {} then m else Maximum(s - {m})
  }

  /** The ids of `s`, oldest first. */
  function Ascending(s: set<nat>): (q: seq<nat>)
    ensures Increasing(q) && |q| == |s|
    ensures forall x :: x in q <==> x in s
    decreases |s|
  {
    if s == {} then []
    else
      var m := Minimum(s);
      [m] + Ascending(s - {m})
  }

  lemma IncreasingElements(q: seq<nat>)
    requires Increasing(q)
    ensures |Elements(q)| == |q|
    decreases |q|
  {
    if q != [] {
      var last := |q| - 1;
      IncreasingElements(q[..last]);
      assert q[last] !in q[..last];
      assert Elements(q) == Elements(q[..last]) + {q[last]};
    }
  }

  /** Two strictly ascending lists of the same ids are the same list. */
  lemma {:induction false} AscendingIsUnique(p: seq<nat>, q: seq<nat>)
    requires Increasing(p) && Increasing(q)
    requires Elements(p) == Elements(q)
    ensures p == q
    decreases |p|
  {
    IncreasingElements(p);
    IncreasingElements(q);
    if p != [] {
      var k := |p| - 1;
      assert p[k] in Elements(q) && q[k] in Elements(p);
      assert p[k] == q[k];
      assert Elements(p[..k]) == Elements(p) - {p[k]};
      assert Elements(q[..k]) == Elements(q) - {q[k]};
      AscendingIsUnique(p[..k], q[..k]);
      assert p == p[..k] + [p[k]] && q == q[..k] + [q[k]];
    }
  }

  /** The last `n` of the ids of `s` in ascending order. */
  function LastOf(s: set<nat>, n: nat): (q: seq<nat>)
    ensures IsNewest(s, n, q)
  {
    var all := Ascending(s);
    var q := all[|all| - Min(n, |all|)..];
    assert forall x | x in s && x !in q :: exists i :: 0 <= i < |all| - |q| && all[i] == x by {
      forall x | x in s && x !in q
        ensures exists i :: 0 <= i < |all| - |q| && all[i] == x
      {
        var i :| 0 <= i < |all| && all[i] == x;
        assert forall k :: |all| - |q| <= k < |all| ==> all[k] == q[k - (|all| - |q|)];
      }
    }
    q
  }

  /** The page is determined by what it must contain. */
  lemma NewestIsUnique(s: set<nat>, n: nat, p: seq<nat>, q: seq<nat>)
    requires IsNewest(s, n, p) && IsNewest(s, n, q)
    ensures p == q
  {
    IncreasingElements(p);
    IncreasingElements(q);
    if exists x :: x in p && x !in q {
      assert Elements(q) <= Elements(p);
      SameSizeSubset(Elements(q), Elements(p));
      assert false;
    }
    SameSizeSubset(Elements(p), Elements(q));
    AscendingIsUnique(p, q);
  }

  lemma SameSizeSubset(a: set<nat>, b: set<nat>)
    requires |a| == |b| && a <= b
    ensures a == b
  {
    assert b == a + (b - a);
    assert |b| == |a| + |b - a|;
  }

  /** The `n` newest of `s`, oldest first. */
  ghost function Newest(s: set<nat>, n: nat): (q: seq<nat>)
    ensures IsNewest(s, n, q)
  {
    assert IsNewest(s, n, LastOf(s, n));
    var q :| IsNewest(s, n, q);
    q
  }

  /** When fewer than `n` match, the page is everything. */
  lemma NewestIsAll(s: set<nat>, n: nat, q: seq<nat>)
    requires IsNewest(s, n, q) && |s| <= n
    ensures Elements(q) == s
  {
    IncreasingElements(q);
    SameSizeSubset(Elements(q), s);
  }

  /** Asking for one row too many and dropping the oldest gives the page that was wanted. */
  lemma NewestDropsOldest(s: set<nat>, n: nat, q: seq<nat>)
    requires IsNewest(s, n + 1, q) && |q| == n + 1
    ensures IsNewest(s, n, q[1..])
    ensures q[0] in s && forall x | x in q[1..] :: q[0] < x
  {
    forall x | x in q
      ensures x == q[0] || x in q[1..]
    {
      var i :| 0 <= i < |q| && q[i] == x;
      if i > 0 { assert q[1..][i - 1] == x; }
    }
    forall y | y in q[1..]
      ensures y in q && q[0] < y
    {
      var i :| 0 <= i < |q[1..]| && q[1..][i] == y;
      assert q[i + 1] == y;
    }
  }

  lemma SubsetIsSmaller<T>(a: set<T>, b: set<T>)
    requires a <= b
    ensures |a| <= |b|
  {
    assert b == a + (b - a);
  }

  /** std::isspace in the C locale. */
  predicate IsSpace(ch: char) {
    ch == ' ' || '\t' <= ch <= '\r'
  }

  /** Space, tab, line feed, vertical tab, form feed and carriage return. */
  lemma SpacesAre(ch: char)
    ensures IsSpace(ch) <==> ch in " \t\n\U{0B}\U{0C}\r"
  {
    var six := " \t\n\U{0B}\U{0C}\r";
    assert IsSpace(ch) ==> ch == six[0] || ch == six[1] || ch == six[2] || ch == six[3] || ch == six[4] || ch == six[5];
  }
}
