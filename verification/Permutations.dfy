// Reordered sequences: what survives mapping and filtering.
module Permutations {
  function Map<A, B>(f: A -> B, s: seq<A>): (r: seq<B>)
    ensures |r| == |s|
  {
    seq(|s|, i requires 0 <= i < |s| => f(s[i]))
  }

  function Without<A>(s: seq<A>, i: nat): seq<A>
    requires i < |s|
  {
    s[..i] + s[i + 1..]
  }

  lemma WithoutIsLess<A>(s: seq<A>, i: nat)
    requires i < |s|
    ensures multiset(s) == multiset(Without(s, i)) + multiset{s[i]}
  {
    assert s == s[..i] + [s[i]] + s[i + 1..];
  }

  /** Two permutations share their first element's place in the other, and drop it alike. */
  lemma Matching<A>(s: seq<A>, t: seq<A>) returns (i: nat)
    requires multiset(s) == multiset(t) && s != []
    ensures i < |t| && t[i] == s[0] && multiset(s[1..]) == multiset(Without(t, i))
  {
    assert s[0] in multiset(t);
    i :| 0 <= i < |t| && t[i] == s[0];
    WithoutIsLess(t, i);
    WithoutIsLess(s, 0);
    assert Without(s, 0) == s[1..];
    assert multiset(s[1..]) == multiset(Without(t, i)) by {
      assert multiset(s[1..]) + multiset{s[0]} - multiset{s[0]} == multiset(s[1..]);
    }
  }

  lemma ConsCount<A>(x: A, s: seq<A>, y: A)
    ensures multiset([x] + s)[y] == (if x == y then 1 else 0) + multiset(s)[y]
  {
  }

  lemma SameLength<A>(s: seq<A>, t: seq<A>)
    requires multiset(s) == multiset(t)
    ensures |s| == |t|
    ensures forall x :: x in s <==> x in t
  {
    assert |multiset(s)| == |s| && |multiset(t)| == |t|;
    forall x ensures x in s <==> x in t {
      assert x in s <==> x in multiset(s);
    }
  }

  lemma {:induction false} MapPermutes<A, B>(f: A -> B, s: seq<A>, t: seq<A>)
    requires multiset(s) == multiset(t)
    ensures multiset(Map(f, s)) == multiset(Map(f, t))
  {
    SameLength(s, t);
    if s == [] {
      assert t == [] && Map(f, s) == Map(f, t);
    } else {
      var i := Matching(s, t);
      MapPermutes(f, s[1..], Without(t, i));
      assert Without(Map(f, s), 0) == Map(f, s[1..]);
      assert Without(Map(f, t), i) == Map(f, Without(t, i));
      WithoutIsLess(Map(f, s), 0);
      WithoutIsLess(Map(f, t), i);
    }
  }
}
