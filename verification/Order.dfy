// The order of Rust's `String` (by code point) and the `BTreeSet<String>` the bulk sync
// collects qualifying members into, kept as the ascending sequence it iterates as.
module Order {
  predicate Less(a: string, b: string) {
    b != [] && (a == [] || a[0] < b[0] || (a[0] == b[0] && Less(a[1..], b[1..])))
  }

  lemma {:induction false} LessTransitive(a: string, b: string, c: string)
    requires Less(a, b) && Less(b, c)
    ensures Less(a, c)
  {
    if a != [] && a[0] == b[0] && b[0] == c[0] {
      LessTransitive(a[1..], b[1..], c[1..]);
    }
  }

  lemma {:induction false} LessIrreflexive(a: string)
    ensures !Less(a, a)
  {
    if a != [] {
      LessIrreflexive(a[1..]);
    }
  }

  lemma {:induction false} LessTotal(a: string, b: string)
    ensures a == b || Less(a, b) || Less(b, a)
  {
    if a != [] && b != [] && a[0] == b[0] {
      LessTotal(a[1..], b[1..]);
      assert a == [a[0]] + a[1..] && b == [b[0]] + b[1..];
    }
  }

  /** Strictly increasing, hence free of duplicates. */
  predicate Ascending(s: seq<string>) {
    forall i, j | 0 <= i < j < |s| :: Less(s[i], s[j])
  }

  function Elems<T>(s: seq<T>): set<T> {
    set x | x in s
  }

  /** `BTreeSet::insert`. */
  function Insert(s: seq<string>, x: string): (r: seq<string>)
    requires Ascending(s)
    ensures Ascending(r)
    ensures Elems(r) == Elems(s) + {x}
  {
    if s == [] then [x]
    else if x == s[0] then s
    else if Less(x, s[0]) then
      InsertFront(s, x);
      [x] + s
    else
      var tail := Insert(s[1..], x);
      InsertBehind(s, x, tail);
      [s[0]] + tail
  }

  lemma InsertFront(s: seq<string>, x: string)
    requires Ascending(s) && s != [] && Less(x, s[0])
    ensures Ascending([x] + s) && Elems([x] + s) == Elems(s) + {x}
  {
    forall j | 0 <= j < |s| ensures Less(x, s[j]) {
      if j > 0 {
        LessTransitive(x, s[0], s[j]);
      }
    }
  }

  lemma InsertBehind(s: seq<string>, x: string, tail: seq<string>)
    requires Ascending(s) && s != [] && x != s[0] && !Less(x, s[0])
    requires Ascending(tail) && Elems(tail) == Elems(s[1..]) + {x}
    ensures Ascending([s[0]] + tail) && Elems([s[0]] + tail) == Elems(s) + {x}
  {
    LessTotal(x, s[0]);
    forall y | y in tail ensures Less(s[0], y) {
      assert y in Elems(tail);
      assert y in s[1..] || y == x;
    }
    var r := [s[0]] + tail;
    assert s == [s[0]] + s[1..];
    forall y ensures y in r <==> y in s || y == x {
      assert y in tail <==> y in Elems(tail);
    }
  }

  /** Two ascending sequences are equal exactly when they hold the same elements. */
  lemma {:induction false} AscendingUnique(a: seq<string>, b: seq<string>)
    requires Ascending(a) && Ascending(b)
    ensures a == b <==> Elems(a) == Elems(b)
  {
    if Elems(a) == Elems(b) {
      if a == [] || b == [] {
        EmptyElems(a);
        EmptyElems(b);
      } else {
        HeadIsLeast(a);
        HeadIsLeast(b);
        assert a[0] in Elems(b) && b[0] in Elems(a);
        LessIrreflexive(a[0]);
        if Less(a[0], b[0]) { LessTransitive(a[0], b[0], a[0]); }
        TailElems(a);
        TailElems(b);
        AscendingUnique(a[1..], b[1..]);
        assert a == [a[0]] + a[1..] && b == [b[0]] + b[1..];
      }
    }
  }

  lemma EmptyElems(a: seq<string>)
    ensures Elems(a) == {} <==> a == []
  {
    if a != [] {
      assert a[0] in Elems(a);
    }
  }

  lemma HeadIsLeast(a: seq<string>)
    requires Ascending(a) && a != []
    ensures forall x | x in Elems(a) :: x == a[0] || Less(a[0], x)
  {
  }

  lemma TailElems(a: seq<string>)
    requires Ascending(a) && a != []
    ensures Elems(a[1..]) == Elems(a) - {a[0]}
  {
    LessIrreflexive(a[0]);
    assert a == [a[0]] + a[1..];
  }

  /** The members of `s` ordered before `x`. */
  function Below(s: set<string>, x: string): set<string> {
    set y | y in s && Less(y, x)
  }

  /** The `n` least members of `s`: those with fewer than `n` members below them. */
  function Least(s: set<string>, n: nat): set<string> {
    set x | x in s && |Below(s, x)| < n
  }

  /** `Vec::truncate`. */
  function Truncate<T>(s: seq<T>, n: nat): seq<T> {
    if n < |s| then s[..n] else s
  }

  /** Position and rank coincide in an ascending sequence. */
  lemma RankIsIndex(s: seq<string>, i: nat)
    requires Ascending(s) && i < |s|
    ensures Below(Elems(s), s[i]) == Elems(s[..i]) && |Below(Elems(s), s[i])| == i
  {
    forall y | y in s && Less(y, s[i]) ensures y in s[..i] {
      var j :| 0 <= j < |s| && s[j] == y;
      LessIrreflexive(y);
      if j > i { LessTransitive(s[i], s[j], s[i]); LessIrreflexive(s[i]); }
      assert s[..i][j] == y;
    }
    AscendingSize(s[..i]);
  }

  lemma {:induction false} AscendingSize(s: seq<string>)
    requires Ascending(s)
    ensures |Elems(s)| == |s|
  {
    if s != [] {
      TailElems(s);
      AscendingSize(s[1..]);
      assert s[0] in Elems(s);
    }
  }

  /** Cutting an ascending listing to `n` keeps exactly the `n` least members. */
  lemma TruncateIsLeast(s: seq<string>, n: nat)
    requires Ascending(s)
    ensures Ascending(Truncate(s, n)) && Elems(Truncate(s, n)) == Least(Elems(s), n)
  {
    var cut := Truncate(s, n);
    forall x ensures x in cut <==> x in Least(Elems(s), n) {
      if x in cut {
        var i :| 0 <= i < |cut| && cut[i] == x;
        RankIsIndex(s, i);
      }
      if x in Least(Elems(s), n) {
        var i :| 0 <= i < |s| && s[i] == x;
        RankIsIndex(s, i);
        assert cut[i] == x;
      }
    }
  }

  lemma SubsetSize<T>(a: set<T>, b: set<T>)
    requires a <= b
    ensures |a| <= |b|
    ensures |a| == |b| ==> a == b
  {
    assert |b| == |a| + |b - a| by { assert b == a + (b - a); }
    if |a| == |b| { assert b - a == {}; }
  }

  /** A set of size at most `n` is its own `n` least members; otherwise the cut has size `n`. */
  lemma LeastSize(s: set<string>, n: nat)
    ensures |s| <= n ==> Least(s, n) == s
    ensures n <= |s| ==> |Least(s, n)| == n
  {
    var list := Listing(s);
    TruncateIsLeast(list, n);
    AscendingSize(list);
    AscendingSize(Truncate(list, n));
  }

  /** Every finite set has an ascending listing. */
  ghost function Listing(s: set<string>): (r: seq<string>)
    ensures Ascending(r) && Elems(r) == s
  {
    if s == {} then []
    else
      var x :| x in s;
      Insert(Listing(s - {x}), x)
  }

  /** Adding one member moves every other member's rank by at most one. */
  lemma RankAfterInsert(s: set<string>, u: string, x: string)
    requires u !in s
    ensures Below(s + {u}, x) == if Less(u, x) then Below(s, x) + {u} else Below(s, x)
    ensures |Below(s + {u}, x)| == |Below(s, x)| + if Less(u, x) then 1 else 0
  {
  }

  lemma RanksDiffer(s: set<string>, x: string, y: string)
    requires x in s && y in s && Less(x, y)
    ensures |Below(s, x)| < |Below(s, y)|
  {
    forall z | z in Below(s, x) ensures z in Below(s, y) {
      LessTransitive(z, x, y);
    }
    LessIrreflexive(x);
    assert x in Below(s, y) && x !in Below(s, x);
    SubsetSize(Below(s, x), Below(s, y));
  }

  /** One more qualifying member changes a capped list by at most that member coming in
      and one other going out, and never brings anyone else in. */
  lemma CapIsStable(s: set<string>, u: string, n: nat)
    requires u !in s
    ensures Least(s + {u}, n) <= Least(s, n) + {u}
    ensures |Least(s, n) - Least(s + {u}, n)| <= 1
    ensures u !in Least(s + {u}, n) ==> Least(s + {u}, n) == Least(s, n)
  {
    var before, after := Least(s, n), Least(s + {u}, n);
    forall x ensures x in after ==> x in before + {u} {
      RankAfterInsert(s, u, x);
    }
    var out := before - after;
    forall x, y | x in out && y in out ensures x == y {
      RankAfterInsert(s, u, x);
      RankAfterInsert(s, u, y);
      LessTotal(x, y);
      if Less(x, y) { RanksDiffer(s, x, y); }
      if Less(y, x) { RanksDiffer(s, y, x); }
    }
    AtMostOne(out);
    if u !in after && out != {} {
      var x :| x in out;
      RankAfterInsert(s, u, x);
      RanksDiffer(s + {u}, u, x);
    }
  }

  lemma AtMostOne<T>(s: set<T>)
    requires forall x, y | x in s && y in s :: x == y
    ensures |s| <= 1
  {
    if s != {} {
      var x :| x in s;
      assert s == {x};
    }
  }
}
