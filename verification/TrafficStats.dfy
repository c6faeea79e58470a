// Reported traffic on its way into the tables: client totals, time buckets,
// merging of duplicate buckets, and the downsampled view.
module TrafficStats {
  import opened RelayItems
  import opened TrafficCounters

  datatype Bucket = Bucket(id: nat, key: Key, time: int, traffic: int)

  predicate SameBucket(a: Bucket, b: Bucket) {
    a.key == b.key && a.time == b.time
  }

  // The unique index over resource, tag, time and direction.
  ghost predicate Distinct(rows: seq<Bucket>) {
    forall i, j :: 0 <= i < j < |rows| ==> !SameBucket(rows[i], rows[j])
  }

  function Min(a: nat, b: nat): nat {
    if a < b then a else b
  }

  // Adds a row's traffic to its bucket, or the row if it has none. A bucket
  // keeps its smallest id.
  function Merge(rows: seq<Bucket>, row: Bucket): seq<Bucket> {
    if rows == [] then [row]
    else if SameBucket(rows[0], row) then
      [rows[0].(id := Min(rows[0].id, row.id), traffic := rows[0].traffic + row.traffic)] + rows[1..]
    else [rows[0]] + Merge(rows[1..], row)
  }

  function MergeAll(rows: seq<Bucket>, more: seq<Bucket>): seq<Bucket> {
    if more == [] then rows else Merge(MergeAll(rows, more[..|more| - 1]), more[|more| - 1])
  }

  function Total(rows: seq<Bucket>, key: Key): int {
    if rows == [] then 0 else Total(rows[1..], key) + if rows[0].key == key then rows[0].traffic else 0
  }

  // The traffic of one bucket.
  function At(rows: seq<Bucket>, key: Key, time: int): int {
    if rows == [] then 0
    else At(rows[1..], key, time) + if rows[0].key == key && rows[0].time == time then rows[0].traffic else 0
  }

  function Lower(a: Option<nat>, b: Option<nat>): Option<nat> {
    if a.None? then b else if b.None? then a else Some(Min(a.value, b.value))
  }

  function IdAt(row: Bucket, key: Key, time: int): Option<nat> {
    if row.key == key && row.time == time then Some(row.id) else None
  }

  // The smallest id in one bucket, if the bucket has rows.
  function Lowest(rows: seq<Bucket>, key: Key, time: int): Option<nat> {
    if rows == [] then None else Lower(IdAt(rows[0], key, time), Lowest(rows[1..], key, time))
  }

  // ------------------------------------------------- merging loses nothing

  lemma {:induction false} MergeAdds(rows: seq<Bucket>, row: Bucket, key: Key, time: int)
    ensures Total(Merge(rows, row), key) == Total(rows, key) + if row.key == key then row.traffic else 0
    ensures At(Merge(rows, row), key, time)
              == At(rows, key, time) + if row.key == key && row.time == time then row.traffic else 0
  {
    if rows != [] && !SameBucket(rows[0], row) {
      MergeAdds(rows[1..], row, key, time);
    }
  }

  lemma {:induction false} MergeAddsNoOther(rows: seq<Bucket>, row: Bucket, other: Bucket)
    requires forall r :: r in rows ==> !SameBucket(r, other)
    requires !SameBucket(row, other)
    ensures forall r :: r in Merge(rows, row) ==> !SameBucket(r, other)
  {
    if rows != [] && !SameBucket(rows[0], row) {
      MergeAddsNoOther(rows[1..], row, other);
    } else if rows != [] {
      assert !SameBucket(rows[0], other);
      assert forall r :: r in rows[1..] ==> r in rows;
    }
  }

  lemma {:induction false} MergeKeepsDistinct(rows: seq<Bucket>, row: Bucket)
    requires Distinct(rows)
    ensures Distinct(Merge(rows, row))
  {
    if rows != [] && !SameBucket(rows[0], row) {
      MergeKeepsDistinct(rows[1..], row);
      var tail := Merge(rows[1..], row);
      forall r | r in rows[1..]
        ensures !SameBucket(r, rows[0])
      {
      }
      MergeAddsNoOther(rows[1..], row, rows[0]);
      forall j | 0 <= j < |tail|
        ensures !SameBucket(rows[0], tail[j])
      {
        assert tail[j] in tail;
      }
    }
  }

  // MAIN: merging rows into a table keeps every figure's total, adds the rows
  // bucket by bucket, and never makes two rows of one bucket.
  lemma {:induction false} MergingLosesNothing(rows: seq<Bucket>, more: seq<Bucket>, key: Key, time: int)
    ensures Total(MergeAll(rows, more), key) == Total(rows, key) + Total(more, key)
    ensures At(MergeAll(rows, more), key, time) == At(rows, key, time) + At(more, key, time)
    ensures Distinct(rows) ==> Distinct(MergeAll(rows, more))
  {
    if more != [] {
      var init, last := more[..|more| - 1], more[|more| - 1];
      MergingLosesNothing(rows, init, key, time);
      MergeAdds(MergeAll(rows, init), last, key, time);
      if Distinct(rows) { MergeKeepsDistinct(MergeAll(rows, init), last); }
      TotalOfLast(init, last, key, time);
      assert more == init + [last];
    }
  }

  lemma {:induction false} TotalOfLast(rows: seq<Bucket>, row: Bucket, key: Key, time: int)
    ensures Total(rows + [row], key) == Total(rows, key) + if row.key == key then row.traffic else 0
    ensures At(rows + [row], key, time)
              == At(rows, key, time) + if row.key == key && row.time == time then row.traffic else 0
  {
    if rows != [] {
      assert (rows + [row])[1..] == rows[1..] + [row];
      TotalOfLast(rows[1..], row, key, time);
    }
  }

  lemma {:induction false} MergeAllIds(rows: seq<Bucket>, key: Key, time: int)
    ensures Lowest(MergeAll([], rows), key, time) == Lowest(rows, key, time)
  {
    if rows != [] {
      var init, last := rows[..|rows| - 1], rows[|rows| - 1];
      MergeAllIds(init, key, time);
      MergeId(MergeAll([], init), last, key, time);
      LowestOfLast(init, last, key, time);
      assert rows == init + [last];
    }
  }

  lemma {:induction false} MergeId(rows: seq<Bucket>, row: Bucket, key: Key, time: int)
    ensures Lowest(Merge(rows, row), key, time) == Lower(Lowest(rows, key, time), IdAt(row, key, time))
  {
    if rows != [] && !SameBucket(rows[0], row) {
      MergeId(rows[1..], row, key, time);
    }
  }

  lemma {:induction false} LowestOfLast(rows: seq<Bucket>, row: Bucket, key: Key, time: int)
    ensures Lowest(rows + [row], key, time) == Lower(Lowest(rows, key, time), IdAt(row, key, time))
  {
    if rows != [] {
      assert (rows + [row])[1..] == rows[1..] + [row];
      LowestOfLast(rows[1..], row, key, time);
    }
  }

  // MAIN: duplicate buckets are collapsed before the unique index is added.
  // Every bucket keeps its traffic and its smallest id, and no bucket appears
  // or disappears.
  method DedupStats(rows: seq<Bucket>, works: bool) returns (r: seq<Bucket>)
    ensures works ==> Distinct(r)
    ensures !works || Distinct(rows) ==> r == rows
    ensures forall key :: Total(r, key) == Total(rows, key)
    ensures forall key, time ::
              At(r, key, time) == At(rows, key, time) && Lowest(r, key, time) == Lowest(rows, key, time)
  {
    var duplicate := HasDuplicate(rows);
    if !duplicate || !works {
      return rows;
    }
    r := [];
    for i := 0 to |rows|
      invariant r == MergeAll([], rows[..i])
    {
      assert rows[..i + 1][..i] == rows[..i];
      r := Merge(r, rows[i]);
    }
    assert rows[..|rows|] == rows;
    Deduplicated(rows);
  }

  lemma Deduplicated(rows: seq<Bucket>)
    ensures Distinct(MergeAll([], rows))
    ensures forall key :: Total(MergeAll([], rows), key) == Total(rows, key)
    ensures forall key, time :: At(MergeAll([], rows), key, time) == At(rows, key, time)
    ensures forall key, time :: Lowest(MergeAll([], rows), key, time) == Lowest(rows, key, time)
  {
    forall key, time
      ensures Distinct(MergeAll([], rows)) && Total(MergeAll([], rows), key) == Total(rows, key)
      ensures At(MergeAll([], rows), key, time) == At(rows, key, time)
      ensures Lowest(MergeAll([], rows), key, time) == Lowest(rows, key, time)
    {
      MergingLosesNothing([], rows, key, time);
      MergeAllIds(rows, key, time);
    }
    MergingLosesNothing([], rows, Key(Resource(UserKind, ""), true), 0);
    forall key
      ensures Total(MergeAll([], rows), key) == Total(rows, key)
    {
      MergingLosesNothing([], rows, key, 0);
    }
  }

  method HasDuplicate(rows: seq<Bucket>) returns (found: bool)
    ensures found <==> !Distinct(rows)
  {
    for i := 0 to |rows|
      invariant Distinct(rows[..i])
    {
      for j := 0 to i
        invariant forall k :: 0 <= k < j ==> !SameBucket(rows[k], rows[i])
      {
        if SameBucket(rows[j], rows[i]) {
          return true;
        }
      }
    }
    assert rows[..|rows|] == rows;
    found := false;
  }
}
