/** The natural order of Java strings (`String.compareTo`) and the sort of
    a duplicate-free list by it (`Collections.sort`). */
module Order {
  import opened Seqs

  /** `a.compareTo(b) < 0`: the first differing character decides, and a
      proper prefix comes first. */
  predicate LexLess(a: string, b: string) {
    if |a| == 0 then |b| > 0
    else if |b| == 0 then false
    else if a[0] == b[0] then LexLess(a[1..], b[1..])
    else a[0] < b[0]
  }

  lemma {:induction false} LexLessIrreflexive(a: string)
    ensures !LexLess(a, a)
  {
    if |a| > 0 {
      LexLessIrreflexive(a[1..]);
    }
  }

  lemma {:induction false} LexLessTransitive(a: string, b: string, c: string)
    requires LexLess(a, b) && LexLess(b, c)
    ensures LexLess(a, c)
  {
    if |a| > 0 && a[0] == b[0] && b[0] == c[0] {
      LexLessTransitive(a[1..], b[1..], c[1..]);
    }
  }

  lemma {:induction false} LexLessTotal(a: string, b: string)
    requires a != b
    ensures LexLess(a, b) || LexLess(b, a)
  {
    if |a| > 0 && |b| > 0 && a[0] == b[0] {
      assert a == [a[0]] + a[1..] && b == [b[0]] + b[1..];
      LexLessTotal(a[1..], b[1..]);
    }
  }

  lemma LexLessAsymmetric(a: string, b: string)
    requires LexLess(a, b)
    ensures !LexLess(b, a)
  {
    if LexLess(b, a) {
      LexLessTransitive(a, b, a);
      LexLessIrreflexive(a);
    }
  }

  /** Every element comes strictly before every later one. */
  predicate StrictlySorted(s: seq<string>) {
    forall i, j :: 0 <= i < j < |s| ==> LexLess(s[i], s[j])
  }

  /** Inserts `x` at its place in a strictly sorted list. */
  function Insert(x: string, s: seq<string>): (r: seq<string>)
    requires StrictlySorted(s) && x !in s
    ensures StrictlySorted(r)
    ensures multiset(r) == multiset(s) + multiset{x}
  {
    if |s| == 0 then [x]
    else if LexLess(x, s[0]) then
      HeadBelowTail(s);
      assert forall y :: y in s ==> LexLess(x, y) by {
        forall y | y in s ensures LexLess(x, y) {
          if y != s[0] { LexLessTransitive(x, s[0], y); }
        }
      }
      ConsSorted(x, s);
      [x] + s
    else
      var rest := Insert(x, s[1..]);
      assert s == [s[0]] + s[1..];
      assert LexLess(s[0], x) by { LexLessTotal(x, s[0]); }
      HeadBelowTail(s);
      assert forall y :: y in rest ==> LexLess(s[0], y) by {
        forall y | y in rest ensures LexLess(s[0], y) {
          assert y in multiset(s[1..]) + multiset{x};
        }
      }
      ConsSorted(s[0], rest);
      [s[0]] + rest
  }

  /** The head of a strictly sorted list comes before every later element. */
  lemma HeadBelowTail(s: seq<string>)
    requires StrictlySorted(s) && |s| > 0
    ensures StrictlySorted(s[1..])
    ensures forall y :: y in s[1..] ==> LexLess(s[0], y)
  {
    forall y | y in s[1..] ensures LexLess(s[0], y) {
      var i :| 0 <= i < |s[1..]| && s[1..][i] == y;
      assert s[i + 1] == y;
    }
  }

  /** Prefixing an element below all of a strictly sorted list keeps it
      strictly sorted. */
  lemma ConsSorted(a: string, t: seq<string>)
    requires StrictlySorted(t)
    requires forall y :: y in t ==> LexLess(a, y)
    ensures StrictlySorted([a] + t)
  {
    forall i, j | 0 <= i < j < |[a] + t| ensures LexLess(([a] + t)[i], ([a] + t)[j]) {
      assert ([a] + t)[j] == t[j - 1];
      if i > 0 { assert ([a] + t)[i] == t[i - 1]; }
      else { assert t[j - 1] in t; }
    }
  }

  /** Insertion sort; the source sorts a list built from a `Set`, so the
      input has no duplicates. */
  function Sort(s: seq<string>): (r: seq<string>)
    requires NoDuplicates(s)
    ensures StrictlySorted(r)
    ensures multiset(r) == multiset(s)
  {
    if |s| == 0 then []
    else
      var rest := Sort(s[1..]);
      assert s == [s[0]] + s[1..];
      assert s[0] !in rest by {
        assert s[0] !in multiset(s[1..]);
      }
      Insert(s[0], rest)
  }

  /** A strictly sorted list is determined by its elements, so the order in
      which a `HashSet` hands its elements to the sort does not matter. */
  lemma {:induction false} SortedUnique(a: seq<string>, b: seq<string>)
    requires StrictlySorted(a) && StrictlySorted(b)
    requires forall x :: x in a <==> x in b
    ensures a == b
  {
    SortedCard(a);
    SortedCard(b);
    assert (set x | x in a) == (set x | x in b);
    if |a| > 0 {
      if a[0] != b[0] {
        // each head occurs later in the other list, so each precedes the other
        assert b[0] in a;
        assert a[0] in b;
        var i :| 0 <= i < |a| && a[i] == b[0];
        var j :| 0 <= j < |b| && b[j] == a[0];
        LexLessAsymmetric(a[0], a[i]);
        assert false;
      }
      forall x ensures x in a[1..] <==> x in b[1..] {
        if x in a[1..] {
          var i :| 1 <= i < |a| && a[i] == x;
          assert LexLess(a[0], a[i]);
          assert x != b[0] by { LexLessIrreflexive(x); }
          assert x in a;
          var k :| 0 <= k < |b| && b[k] == x;
          assert b[1..][k - 1] == x;
        }
        if x in b[1..] {
          var i :| 1 <= i < |b| && b[i] == x;
          assert LexLess(b[0], b[i]);
          assert x != a[0] by { LexLessIrreflexive(x); }
          assert x in b;
          var k :| 0 <= k < |a| && a[k] == x;
          assert a[1..][k - 1] == x;
        }
      }
      SortedUnique(a[1..], b[1..]);
      assert a == [a[0]] + a[1..] && b == [b[0]] + b[1..];
    }
  }

  lemma SortedCard(s: seq<string>)
    requires StrictlySorted(s)
    ensures |set x | x in s| == |s|
  {
    forall i, j | 0 <= i < j < |s| ensures s[i] != s[j] {
      LexLessIrreflexive(s[i]);
    }
    NoDuplicatesCard(s);
  }
}
