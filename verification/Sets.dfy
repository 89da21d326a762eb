/** Facts about finite sets that several modules need. */
module Sets {
  ghost function Pick<T>(s: set<T>): (x: T)
    requires s != {}
    ensures x in s
  {
    var x :| x in s;
    x
  }

  /** Ranging over a Go map or set visits its elements in no particular order. */
  method PickOne<T>(s: set<T>) returns (x: T)
    requires s != {}
    ensures x in s
  {
    x :| x in s;
  }

  lemma SubsetOfSameSize<T>(a: set<T>, b: set<T>)
    requires a <= b && |a| == |b|
    ensures a == b
  {
    assert |b - a| == 0;
  }

  lemma Smaller<T>(a: set<T>, b: set<T>)
    requires a <= b
    ensures |a| <= |b|
  {
    assert |b - a| == |b| - |a|;
  }

  /** A set has subsets of every size up to its own. */
  lemma {:induction false} SubsetOfSize<T>(s: set<T>, n: nat)
    requires n <= |s|
    ensures exists a :: a <= s && |a| == n
    decreases |s|
  {
    if n == |s| {
      assert s <= s && |s| == n;
    } else {
      var x := Pick(s);
      SubsetOfSize(s - {x}, n);
      var a :| a <= s - {x} && |a| == n;
      assert a <= s;
    }
  }

  /** SPOP removes n members of its own choice. */
  method PickSubset<T>(s: set<T>, n: nat) returns (a: set<T>)
    requires n <= |s|
    ensures a <= s && |a| == n && |s - a| == |s| - n
  {
    SubsetOfSize(s, n);
    a :| a <= s && |a| == n;
  }
}
