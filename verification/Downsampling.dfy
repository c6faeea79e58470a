// The downsampled view of stored traffic.
module Downsampling {
  import opened TrafficStats

  // Integer division as the source has it: towards zero.
  function Quotient(a: int, b: int): int
    requires b != 0
  {
    if (a >= 0) == (b > 0) then (if a >= 0 then a / b else -a / -b)
    else if a >= 0 then -(a / -b)
    else -(-a / b)
  }

  datatype Sums = Sums(up: int, down: int)

  function Span(startTime: int, endTime: int, numBuckets: nat): (span: int)
    requires numBuckets >= 1
    ensures span != 0
  {
    var span := Quotient(endTime - startTime, numBuckets);
    if span == 0 then 1 else span
  }

  function IndexOf(time: int, startTime: int, span: int, numBuckets: nat): (b: nat)
    requires span != 0 && numBuckets >= 1
    ensures b < numBuckets
  {
    var b := Quotient(time - startTime, span);
    if b < 0 then 0 else if b >= numBuckets then numBuckets - 1 else b
  }

  // The traffic of one direction, and the part that falls into one bucket.
  function DirectionTotal(rows: seq<Bucket>, up: bool): int {
    if rows == [] then 0
    else
      DirectionTotal(rows[..|rows| - 1], up)
      + if rows[|rows| - 1].key.direction == up then rows[|rows| - 1].traffic else 0
  }

  function BucketTotal(rows: seq<Bucket>, startTime: int, span: int, numBuckets: nat, b: nat, up: bool): int
    requires span != 0 && numBuckets >= 1
  {
    if rows == [] then 0
    else BucketTotal(rows[..|rows| - 1], startTime, span, numBuckets, b, up)
         + if IndexOf(rows[|rows| - 1].time, startTime, span, numBuckets) == b && rows[|rows| - 1].key.direction == up
           then rows[|rows| - 1].traffic else 0
  }

  function Get(result: map<nat, Sums>, b: nat): Sums {
    if b in result then result[b] else Sums(0, 0)
  }

  lemma BucketTotalStep(stats: seq<Bucket>, i: nat, startTime: int, span: int, numBuckets: nat)
    requires i < |stats| && span != 0 && numBuckets >= 1
    ensures forall b, up ::
              BucketTotal(stats[..i + 1], startTime, span, numBuckets, b, up)
              == BucketTotal(stats[..i], startTime, span, numBuckets, b, up)
                 + if IndexOf(stats[i].time, startTime, span, numBuckets) == b && stats[i].key.direction == up
                   then stats[i].traffic else 0
  {
    assert stats[..i + 1][..i] == stats[..i];
  }

  method AddTo(sums: map<nat, Sums>, bucket: nat, r: Bucket) returns (result: map<nat, Sums>)
    ensures result.Keys == sums.Keys + {bucket}
    ensures forall b :: Get(result, b).up == Get(sums, b).up + if b == bucket && r.key.direction then r.traffic else 0
    ensures forall b ::
              Get(result, b).down == Get(sums, b).down + if b == bucket && !r.key.direction then r.traffic else 0
  {
    result := sums;
    if bucket !in result {
      result := result[bucket := Sums(0, 0)];
    }
    if r.key.direction {
      result := result[bucket := result[bucket].(up := result[bucket].up + r.traffic)];
    } else {
      result := result[bucket := result[bucket].(down := result[bucket].down + r.traffic)];
    }
  }

  // Every index is below numBuckets, and each bucket holds exactly the traffic
  // of the rows that fall into it.
  method DownsampleStats(stats: seq<Bucket>, startTime: int, endTime: int, numBuckets: nat)
      returns (result: map<nat, Sums>, span: int)
    requires numBuckets >= 1
    ensures span == Span(startTime, endTime, numBuckets)
    ensures forall b :: b in result ==>
              b < numBuckets && exists i :: 0 <= i < |stats| && IndexOf(stats[i].time, startTime, span, numBuckets) == b
    ensures forall b :: Get(result, b).up == BucketTotal(stats, startTime, span, numBuckets, b, true)
    ensures forall b :: Get(result, b).down == BucketTotal(stats, startTime, span, numBuckets, b, false)
  {
    result := map[];
    span := Quotient(endTime - startTime, numBuckets);
    if span == 0 {
      span := 1;
    }
    for i := 0 to |stats|
      invariant span != 0
      invariant forall b :: b in result ==>
                b < numBuckets && exists j :: 0 <= j < i && IndexOf(stats[j].time, startTime, span, numBuckets) == b
      invariant forall b :: Get(result, b).up == BucketTotal(stats[..i], startTime, span, numBuckets, b, true)
      invariant forall b :: Get(result, b).down == BucketTotal(stats[..i], startTime, span, numBuckets, b, false)
    {
      BucketTotalStep(stats, i, startTime, span, numBuckets);
      var r := stats[i];
      var bucket := Quotient(r.time - startTime, span);
      if bucket < 0 {
        bucket := 0;
      }
      if bucket >= numBuckets {
        bucket := numBuckets - 1;
      }
      assert bucket == IndexOf(r.time, startTime, span, numBuckets);
      result := AddTo(result, bucket, r);
    }
    assert stats[..|stats|] == stats;
  }

  function SumOver(rows: seq<Bucket>, startTime: int, span: int, numBuckets: nat, n: nat, up: bool): int
    requires span != 0 && numBuckets >= 1
  {
    if n == 0 then 0
    else
      SumOver(rows, startTime, span, numBuckets, n - 1, up)
      + BucketTotal(rows, startTime, span, numBuckets, n - 1, up)
  }

  // MAIN: the buckets together hold all traffic of each direction.
  lemma {:induction false} DownsamplingLosesNothing(rows: seq<Bucket>, startTime: int, span: int, numBuckets: nat,
      up: bool)
    requires span != 0 && numBuckets >= 1
    ensures SumOver(rows, startTime, span, numBuckets, numBuckets, up) == DirectionTotal(rows, up)
  {
    if rows == [] {
      SumOverNothing(startTime, span, numBuckets, numBuckets, up);
    } else {
      DownsamplingLosesNothing(rows[..|rows| - 1], startTime, span, numBuckets, up);
      SumOverOneMore(rows, startTime, span, numBuckets, numBuckets, up);
    }
  }

  lemma {:induction false} SumOverNothing(startTime: int, span: int, numBuckets: nat, n: nat, up: bool)
    requires span != 0 && numBuckets >= 1
    ensures SumOver([], startTime, span, numBuckets, n, up) == 0
  {
    if n > 0 {
      SumOverNothing(startTime, span, numBuckets, n - 1, up);
    }
  }

  lemma {:induction false} SumOverOneMore(rows: seq<Bucket>, startTime: int, span: int, numBuckets: nat, n: nat,
      up: bool)
    requires span != 0 && numBuckets >= 1 && rows != []
    ensures var last := rows[|rows| - 1];
            SumOver(rows, startTime, span, numBuckets, n, up)
            == SumOver(rows[..|rows| - 1], startTime, span, numBuckets, n, up)
               + if IndexOf(last.time, startTime, span, numBuckets) < n && last.key.direction == up
                 then last.traffic else 0
  {
    if n > 0 {
      SumOverOneMore(rows, startTime, span, numBuckets, n - 1, up);
    }
  }

  // A row of the queried window falls into the bucket whose span holds its
  // time; the last bucket also takes the remainder.
  lemma BucketHoldsItsTimes(time: int, startTime: int, endTime: int, numBuckets: nat)
    requires numBuckets >= 1 && startTime < time <= endTime
    ensures var span := Span(startTime, endTime, numBuckets);
            var b := IndexOf(time, startTime, span, numBuckets);
            && span > 0 && startTime + b * span <= time
            && (b < numBuckets - 1 ==> time < startTime + (b + 1) * span)
  {
    var span := Span(startTime, endTime, numBuckets);
    assert span >= 1;
    var q := (time - startTime) / span;
    assert q * span <= time - startTime < (q + 1) * span;
    var b := IndexOf(time, startTime, span, numBuckets);
    if q >= numBuckets {
      Scaled(numBuckets - 1, q, span);
    }
  }

  lemma Scaled(a: int, b: int, c: int)
    requires a <= b && c >= 0
    ensures a * c <= b * c
  {
  }

  // The number of buckets a query asks for: at most one for each stored bucket.
  function NumBuckets(startTime: int, endTime: int, bucketSeconds: int): (n: nat)
    ensures 1 <= n <= 360
    ensures bucketSeconds >= 1 && endTime - startTime >= bucketSeconds ==> n * bucketSeconds <= endTime - startTime
  {
    var seconds := if bucketSeconds < 1 then 1 else bucketSeconds;
    var most := Quotient(endTime - startTime, seconds);
    var n := if most < 360 then most else 360;
    if n < 1 then 1
    else
      assert endTime - startTime >= 0 ==> most == (endTime - startTime) / seconds;
      Scaled(n, most, seconds);
      n
  }
}
