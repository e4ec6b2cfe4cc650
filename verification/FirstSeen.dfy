/** Removing repeats while keeping first-seen order: the shape shared by the cache
    manager's `unique_hashes` and by the retrieval provenance loops. */
module FirstSeen {

  ghost predicate NoDuplicates<T>(s: seq<T>) {
    forall i, j :: 0 <= i < j < |s| ==> s[i] != s[j]
  }

  /** The elements of `s`, each once, in the order of their first occurrence. */
  function Unique<T(==, !new)>(s: seq<T>): (out: seq<T>)
    ensures NoDuplicates(out)
    ensures forall x :: x in out <==> x in s
  {
    if s == [] then []
    else
      var front, last := s[..|s| - 1], s[|s| - 1];
      assert s == front + [last];
      if last in front then Unique(front) else Unique(front) + [last]
  }

  function Members<T(==, !new)>(s: seq<T>): set<T> {
    set x | x in s
  }

  /** What one more element adds: nothing, if it was seen before. */
  lemma UniqueStep<T(!new)>(s: seq<T>, n: nat)
    requires n < |s|
    ensures var u := Unique(s[..n]);
            Unique(s[..n + 1]) == if s[n] in Members(s[..n]) then u else u + [s[n]]
    ensures Members(s[..n + 1]) == Members(s[..n]) + {s[n]}
    ensures Members(Unique(s[..n])) == Members(s[..n])
  {
    assert s[..n + 1][..n] == s[..n];
    assert s[..n + 1] == s[..n] + [s[n]];
  }

  ghost function FirstIndex<T>(s: seq<T>, x: T): (i: nat)
    requires x in s
    ensures i < |s| && s[i] == x && x !in s[..i]
  {
    if s[0] == x then 0
    else
      assert s == [s[0]] + s[1..];
      var i := 1 + FirstIndex(s[1..], x);
      assert s[..i] == [s[0]] + s[1..][..i - 1];
      i
  }

  lemma {:induction false} FirstIndexInPrefix<T>(s: seq<T>, n: nat, x: T)
    requires n <= |s| && x in s[..n]
    ensures FirstIndex(s, x) == FirstIndex(s[..n], x)
  {
    if s[0] != x {
      assert s[..n][1..] == s[1..][..n - 1];
      FirstIndexInPrefix(s[1..], n - 1, x);
    }
  }

  /** Position in the result follows position of first occurrence in the input. */
  lemma {:induction false} FirstSeenOrder<T(!new)>(s: seq<T>, i: nat, j: nat)
    requires i < j < |Unique(s)|
    ensures Unique(s)[i] in s && Unique(s)[j] in s
    ensures FirstIndex(s, Unique(s)[i]) < FirstIndex(s, Unique(s)[j])
  {
    var n := |s| - 1;
    var front := s[..n];
    assert s == front + [s[n]];
    FirstIndexInPrefix(s, n, Unique(s)[i]);
    if j < |Unique(front)| {
      FirstSeenOrder(front, i, j);
      FirstIndexInPrefix(s, n, Unique(s)[j]);
    } else {
      assert Unique(s)[j] == s[n] && s[n] !in front;
      assert FirstIndex(s, s[n]) >= n;
    }
  }

  /** `s` without the members of `drop`, order kept. */
  function Excluding<T(==, !new)>(s: seq<T>, drop: set<T>): (out: seq<T>)
    ensures forall x :: x in out <==> x in s && x !in drop
    ensures NoDuplicates(s) ==> NoDuplicates(out)
  {
    if s == [] then []
    else
      var front, last := s[..|s| - 1], s[|s| - 1];
      assert s == front + [last];
      if last in drop then Excluding(front, drop) else Excluding(front, drop) + [last]
  }
}
