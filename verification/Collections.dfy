// Facts about finite sets and lists that several components use.
module Collections {

  function SetOf<T(==)>(s: seq<T>): set<T> {
    set x | x in s
  }

  ghost predicate AllDifferent<T>(s: seq<T>) {
    forall i, j :: 0 <= i < j < |s| ==> s[i] != s[j]
  }

  lemma SetOfGrows<T>(s: seq<T>, x: T)
    ensures SetOf(s + [x]) == SetOf(s) + {x}
  {
  }

  lemma {:induction false} DistinctSize<T>(s: seq<T>)
    requires AllDifferent(s)
    ensures |SetOf(s)| == |s|
  {
    if s == [] {
      assert SetOf(s) == {};
    } else {
      var init := s[..|s| - 1];
      DistinctSize(init);
      assert SetOf(s) == SetOf(init) + {s[|s| - 1]};
      assert s[|s| - 1] !in init;
    }
  }

  lemma SubsetSize<T>(a: set<T>, b: set<T>)
    requires a <= b
    ensures |a| <= |b| && (|a| == |b| ==> a == b)
  {
    assert b == a + (b - a);
    assert |b| == |a| + |b - a|;
  }

  // `left` holds the elements of `was` at the positions `at`, in their order.
  ghost predicate PickedFrom<T>(was: seq<T>, left: seq<T>, at: seq<int>) {
    && |at| == |left|
    && (forall j :: 0 <= j < |at| ==> 0 <= at[j] < |was| && left[j] == was[at[j]])
    && (forall j, k :: 0 <= j < k < |at| ==> at[j] < at[k])
  }

  lemma PickedMore<T>(was: seq<T>, left: seq<T>, at: seq<int>, x: T, keep: bool)
    requires PickedFrom(was, left, at)
    ensures PickedFrom(was + [x], left + if keep then [x] else [], at + if keep then [|was|] else [])
  {
    var more := at + if keep then [|was|] else [];
    forall j | 0 <= j < |more|
      ensures 0 <= more[j] <= |was| && (j < |at| ==> more[j] == at[j])
    {
    }
  }

  // The last `limit` elements of a list.
  function Newest<T>(s: seq<T>, limit: nat): seq<T> {
    if |s| > limit then s[|s| - limit..] else s
  }

  // Keeping the newest elements one by one keeps the newest of all.
  lemma NewestOfNewest<T>(s: seq<T>, x: T, limit: nat)
    requires limit > 0
    ensures Newest(Newest(s, limit) + [x], limit) == Newest(s + [x], limit)
  {
  }
}
