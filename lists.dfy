/** The machine-id lists kept in the three JSON files, and the list
    operations the server applies to them: a membership test, an append
    guarded by that test, and Python's `list.remove`. */
module Lists {

  /** No id occurs twice in `s`. */
  predicate NoDups(s: seq<string>)
  {
    forall i, j :: 0 <= i < j < |s| ==> s[i] != s[j]
  }

  /** `a` is an initial segment of `b`: `b` only grew at its end. */
  predicate IsPrefix(a: seq<string>, b: seq<string>)
  {
    |a| <= |b| && b[..|a|] == a
  }

  /** Growing twice at the end is growing at the end. */
  lemma IsPrefixTransitive(a: seq<string>, b: seq<string>, c: seq<string>)
    requires IsPrefix(a, b) && IsPrefix(b, c)
    ensures IsPrefix(a, c)
  {
    assert c[..|a|] == c[..|b|][..|a|];
  }

  /** `if x not in s: s.append(x)` */
  function AppendIfAbsent(s: seq<string>, x: string): (r: seq<string>)
    ensures x in r
    ensures forall y :: y in r <==> y in s || y == x
    ensures IsPrefix(s, r) && |r| == if x in s then |s| else |s| + 1
  {
    if x in s then s else s + [x]
  }

  /** Position of the first occurrence of `x` in `s`. */
  function IndexOf(s: seq<string>, x: string): (i: nat)
    requires x in s
    ensures i < |s| && s[i] == x && x !in s[..i]
  {
    if s[0] == x then 0
    else
      var j := IndexOf(s[1..], x);
      assert s[..j + 1] == [s[0]] + s[1..][..j];
      j + 1
  }

  /** Python's `s.remove(x)`: drops the first occurrence of `x` only
      (Python raises ValueError when `x` is absent; every caller tests
      `x in s` first). */
  function RemoveFirst(s: seq<string>, x: string): (r: seq<string>)
    requires x in s
    ensures |r| == |s| - 1
    ensures r == s[..IndexOf(s, x)] + s[IndexOf(s, x) + 1..]
  {
    if s[0] == x then s[1..]
    else
      var r := [s[0]] + RemoveFirst(s[1..], x);
      assert s[..IndexOf(s, x)] == [s[0]] + s[1..][..IndexOf(s[1..], x)];
      r
  }

  /** Appending an absent id keeps a list duplicate-free. */
  lemma AppendIfAbsentNoDups(s: seq<string>, x: string)
    requires NoDups(s)
    ensures NoDups(AppendIfAbsent(s, x))
  {
    if x !in s {
      var r := s + [x];
      forall i, j | 0 <= i < j < |r| ensures r[i] != r[j] {
        if j == |s| { assert r[i] == s[i]; }
      }
    }
  }

  /** Removing the first `x` keeps every other id's membership. */
  lemma RemoveFirstOthers(s: seq<string>, x: string)
    requires x in s
    ensures forall y :: y != x ==> (y in RemoveFirst(s, x) <==> y in s)
  {
    var r, i := RemoveFirst(s, x), IndexOf(s, x);
    forall y | y != x && y in s ensures y in r {
      var k :| 0 <= k < |s| && s[k] == y;
      assert r[if k < i then k else k - 1] == y;
    }
    forall y | y in r ensures y in s {
      var k :| 0 <= k < |r| && r[k] == y;
      assert s[if k < i then k else k + 1] == y;
    }
  }

  /** On a duplicate-free list, `remove` takes out every occurrence of `x`,
      keeps the list duplicate-free and touches no other id. */
  lemma RemoveFirstNoDups(s: seq<string>, x: string)
    requires NoDups(s) && x in s
    ensures NoDups(RemoveFirst(s, x))
    ensures x !in RemoveFirst(s, x)
    ensures forall y :: y != x ==> (y in RemoveFirst(s, x) <==> y in s)
  {
    var r, i := RemoveFirst(s, x), IndexOf(s, x);
    forall p | 0 <= p < |r| ensures r[p] == s[if p < i then p else p + 1] { }
    forall p, q | 0 <= p < q < |r| ensures r[p] != r[q] {
      assert r[p] == s[if p < i then p else p + 1];
      assert r[q] == s[if q < i then q else q + 1];
    }
    forall p | 0 <= p < |r| ensures r[p] != x {
      assert r[p] == s[if p < i then p else p + 1];
    }
    RemoveFirstOthers(s, x);
  }

  /** On a duplicate-free list every id occurs exactly once or not at all. */
  lemma {:induction false} NoDupsOccursOnce(s: seq<string>, x: string)
    requires NoDups(s)
    ensures multiset(s)[x] == if x in s then 1 else 0
  {
    if s != [] {
      var t := s[1..];
      assert s == [s[0]] + t;
      assert NoDups(t) by {
        forall i, j | 0 <= i < j < |t| ensures t[i] != t[j] { assert t[i] == s[i + 1] && t[j] == s[j + 1]; }
      }
      NoDupsOccursOnce(t, x);
      assert s[0] !in t by {
        forall k | 0 <= k < |t| ensures t[k] != s[0] { assert t[k] == s[k + 1]; }
      }
      assert multiset(s) == multiset{s[0]} + multiset(t);
    }
  }
}
