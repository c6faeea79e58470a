// The traffic counters of the running core: shared atomic cells that
// connections add to at any time, and that a report swaps to zero.
module TrafficCounters {

  datatype Kind = InboundKind | OutboundKind | UserKind

  // The source keeps one map of counters a kind.
  datatype Resource = Resource(kind: Kind, tag: string)

  // One figure: a resource in one direction (true is up).
  datatype Key = Key(resource: Resource, direction: bool)

  datatype Stat = Stat(key: Key, traffic: int)

  // The cells of a resource: `read` counts up, `write` counts down.
  datatype Counter = Counter(read: nat, write: nat)

  // Traffic added to a cell between two swaps.
  datatype Add = Add(cell: nat, bytes: nat)

  function Traffic(stats: seq<Stat>, key: Key): int {
    if stats == [] then 0
    else Traffic(stats[..|stats| - 1], key) + if stats[|stats| - 1].key == key then stats[|stats| - 1].traffic else 0
  }

  // The sum of the cells that belong to a figure.
  ghost function Sum(cells: seq<int>, owners: seq<Key>, key: Key): int
    requires |cells| == |owners|
  {
    if cells == [] then 0
    else
      Sum(cells[..|cells| - 1], owners[..|owners| - 1], key)
      + if owners[|owners| - 1] == key then cells[|cells| - 1] else 0
  }

  lemma {:induction false} TrafficOfBoth(a: seq<Stat>, b: seq<Stat>, key: Key)
    ensures Traffic(a + b, key) == Traffic(a, key) + Traffic(b, key)
  {
    if b == [] {
      assert a + b == a;
    } else {
      assert (a + b)[..|a + b| - 1] == a + b[..|b| - 1];
      TrafficOfBoth(a, b[..|b| - 1], key);
    }
  }

  lemma {:induction false} SumUpdate(cells: seq<int>, owners: seq<Key>, i: nat, v: int, key: Key)
    requires |cells| == |owners| && i < |cells|
    ensures Sum(cells[i := v], owners, key) == Sum(cells, owners, key) + if owners[i] == key then v - cells[i] else 0
  {
    var n := |cells| - 1;
    if i < n {
      assert cells[i := v][..n] == cells[..n][i := v];
      SumUpdate(cells[..n], owners[..n], i, v, key);
    } else {
      assert cells[i := v][..n] == cells[..n];
    }
  }

  lemma SumNewCell(cells: seq<int>, owners: seq<Key>, owner: Key, key: Key)
    requires |cells| == |owners|
    ensures Sum(cells + [0], owners + [owner], key) == Sum(cells, owners, key)
  {
    assert (cells + [0])[..|cells|] == cells && (owners + [owner])[..|owners|] == owners;
  }

  // What was counted is either reported or still in a cell.
  ghost predicate Balance(counted: seq<int>, cells: seq<int>, owners: seq<Key>, rows: seq<Stat>) {
    && |owners| == |cells| == |counted|
    && forall key :: Sum(counted, owners, key) == Traffic(rows, key) + Sum(cells, owners, key)
  }

  lemma AddingBalances(counted: seq<int>, cells: seq<int>, owners: seq<Key>, rows: seq<Stat>, i: nat, bytes: int)
    requires Balance(counted, cells, owners, rows) && i < |cells|
    ensures Balance(counted[i := counted[i] + bytes], cells[i := cells[i] + bytes], owners, rows)
  {
    forall key
      ensures Sum(counted[i := counted[i] + bytes], owners, key)
                == Traffic(rows, key) + Sum(cells[i := cells[i] + bytes], owners, key)
    {
      SumUpdate(cells, owners, i, cells[i] + bytes, key);
      SumUpdate(counted, owners, i, counted[i] + bytes, key);
    }
  }

  lemma SwappingBalances(counted: seq<int>, cells: seq<int>, owners: seq<Key>, rows: seq<Stat>, i: nat)
    requires Balance(counted, cells, owners, rows) && i < |cells|
    ensures Balance(counted, cells[i := 0], owners, rows + [Stat(owners[i], cells[i])])
  {
    forall key
      ensures Sum(counted, owners, key)
                == Traffic(rows + [Stat(owners[i], cells[i])], key) + Sum(cells[i := 0], owners, key)
    {
      SumUpdate(cells, owners, i, 0, key);
      assert (rows + [Stat(owners[i], cells[i])])[..|rows|] == rows;
    }
  }

  lemma NewCellBalances(counted: seq<int>, cells: seq<int>, owners: seq<Key>, rows: seq<Stat>, owner: Key)
    requires Balance(counted, cells, owners, rows)
    ensures Balance(counted + [0], cells + [0], owners + [owner], rows)
  {
    forall key
      ensures Sum(counted + [0], owners + [owner], key) == Traffic(rows, key) + Sum(cells + [0], owners + [owner], key)
    {
      SumNewCell(cells, owners, owner, key);
      SumNewCell(counted, owners, owner, key);
    }
  }

  // Rows of no traffic may be left out.
  lemma ZeroRowsBalance(counted: seq<int>, cells: seq<int>, owners: seq<Key>, rows: seq<Stat>, a: Key, b: Key)
    requires Balance(counted, cells, owners, rows + [Stat(a, 0)] + [Stat(b, 0)])
    ensures Balance(counted, cells, owners, rows)
  {
    forall key
      ensures Traffic(rows + [Stat(a, 0)] + [Stat(b, 0)], key) == Traffic(rows, key)
    {
      TrafficOfBoth(rows + [Stat(a, 0)], [Stat(b, 0)], key);
      TrafficOfBoth(rows, [Stat(a, 0)], key);
    }
  }

  lemma TrafficOfPair(a: Stat, b: Stat)
    requires a.key != b.key
    ensures Traffic([a, b], a.key) == a.traffic && Traffic([a, b], b.key) == b.traffic
  {
    assert [a, b] == [a] + [b];
    TrafficOfBoth([a], [b], a.key);
    TrafficOfBoth([a], [b], b.key);
  }

  lemma Appended(a: seq<Stat>, b: seq<Stat>, c: seq<Stat>)
    ensures a + (b + c) == a + b + c
  {
  }

  predicate Counts(stats: seq<Stat>) {
    forall n :: 0 <= n < |stats| ==> stats[n].traffic >= 0
  }

  lemma {:induction false} TrafficOfCounts(stats: seq<Stat>, key: Key)
    requires Counts(stats)
    ensures Traffic(stats, key) >= 0
  {
    if stats != [] {
      TrafficOfCounts(stats[..|stats| - 1], key);
    }
  }

  class StatsTracker {
    var counters: map<Resource, Counter>
    var cells: seq<int>            // every cell ever made; connections keep theirs
    ghost var owners: seq<Key>     // the figure each cell was made for
    ghost var counted: seq<int>    // all traffic ever added to each cell
    ghost var emitted: seq<Stat>   // all rows ever reported

    ghost predicate Owns(r: Resource, c: Counter)
      reads this
    {
      && c.read < |owners| && owners[c.read] == Key(r, true)
      && c.write < |owners| && owners[c.write] == Key(r, false)
    }

    ghost predicate Valid()
      reads this
    {
      && |owners| == |cells| == |counted|
      && (forall i :: 0 <= i < |cells| ==> cells[i] >= 0)
      && (forall r :: r in counters ==> Owns(r, counters[r]))
    }

    ghost predicate Balanced(rows: seq<Stat>)
      reads this
    {
      Balance(counted, cells, owners, rows)
    }

    constructor ()
      ensures Valid() && Balanced(emitted) && emitted == [] && cells == []
    {
      counters, cells := map[], [];
      owners, counted, emitted := [], [], [];
    }

    // A connection adds traffic to a cell it holds, without taking the lock.
    method AddTraffic(add: Add, ghost rows: seq<Stat>)
      requires Valid() && Balanced(rows) && add.cell < |cells|
      modifies this`cells, this`counted
      ensures Valid() && Balanced(rows)
      ensures cells == old(cells)[add.cell := old(cells)[add.cell] + add.bytes]
      ensures counted == old(counted)[add.cell := old(counted)[add.cell] + add.bytes]
    {
      AddingBalances(counted, cells, owners, rows, add.cell, add.bytes);
      cells := cells[add.cell := cells[add.cell] + add.bytes];
      counted := counted[add.cell := counted[add.cell] + add.bytes];
    }

    // Whatever connections do between two steps of a report. An addition to a
    // cell that does not exist stands for none.
    method Interfere(adds: seq<Add>, ghost rows: seq<Stat>)
      requires Valid() && Balanced(rows)
      modifies this`cells, this`counted
      ensures Valid() && Balanced(rows) && |cells| == |old(cells)|
      ensures forall i :: 0 <= i < |cells| ==> cells[i] >= old(cells)[i]
    {
      for n := 0 to |adds|
        invariant Valid() && Balanced(rows) && |cells| == |old(cells)|
        invariant forall i :: 0 <= i < |cells| ==> cells[i] >= old(cells)[i]
      {
        if adds[n].cell < |cells| {
          AddTraffic(adds[n], rows);
        }
      }
    }

    method NewCell(owner: Key) returns (cell: nat)
      requires Valid() && Balanced(emitted)
      modifies this`cells, this`owners, this`counted
      ensures Valid() && Balanced(emitted)
      ensures cell == |old(cells)| && cells == old(cells) + [0] && owners == old(owners) + [owner]
    {
      NewCellBalances(counted, cells, owners, emitted, owner);
      cell := |cells|;
      cells, counted, owners := cells + [0], counted + [0], owners + [owner];
    }

    method LoadOrCreateCounter(r: Resource) returns (counter: Counter)
      requires Valid() && Balanced(emitted)
      modifies this`counters, this`cells, this`owners, this`counted
      ensures Valid() && Balanced(emitted)
      ensures r in counters && counters == old(counters)[r := counter]
      ensures r in old(counters) ==> counter == old(counters)[r] && cells == old(cells)
      ensures old(cells) <= cells && forall i :: |old(cells)| <= i < |cells| ==> cells[i] == 0
    {
      if r in counters {
        counter := counters[r];
      } else {
        var read := NewCell(Key(r, true));
        var write := NewCell(Key(r, false));
        counter := Counter(read, write);
        counters := counters[r := counter];
      }
    }

    // The cells a routed connection counts into: those of its inbound, its
    // outbound and its user, where it has one.
    method GetReadCounters(inbound: string, outbound: string, user: string)
        returns (readCounters: seq<nat>, writeCounters: seq<nat>)
      requires Valid() && Balanced(emitted)
      modifies this`counters, this`cells, this`owners, this`counted
      ensures Valid() && Balanced(emitted) && old(cells) <= cells
      ensures counters.Keys == old(counters).Keys + Named(inbound, outbound, user)
      ensures readCounters == Cells(counters, inbound, outbound, user, true)
      ensures writeCounters == Cells(counters, inbound, outbound, user, false)
    {
      readCounters, writeCounters := [], [];
      if inbound != "" {
        var counter := LoadOrCreateCounter(Resource(InboundKind, inbound));
        readCounters, writeCounters := [counter.read], [counter.write];
      }
      if outbound != "" {
        var counter := LoadOrCreateCounter(Resource(OutboundKind, outbound));
        readCounters, writeCounters := readCounters + [counter.read], writeCounters + [counter.write];
      }
      if user != "" {
        var counter := LoadOrCreateCounter(Resource(UserKind, user));
        readCounters, writeCounters := readCounters + [counter.read], writeCounters + [counter.write];
      }
    }

    // Closing the core forgets the counters; connections still hold the cells.
    method Reset()
      requires Valid()
      modifies this`counters
      ensures Valid() && counters == map[]
    {
      counters := map[];
    }

    method Swap(cell: nat, ghost rows: seq<Stat>) returns (value: int)
      requires Valid() && Balanced(rows) && cell < |cells|
      modifies this`cells
      ensures Valid() && cells == old(cells)[cell := 0] && value == old(cells)[cell] >= 0
      ensures Balanced(rows + [Stat(owners[cell], value)])
    {
      SwappingBalances(counted, cells, owners, rows, cell);
      value := cells[cell];
      cells := cells[cell := 0];
    }

    // Swaps the two cells of one resource; `during` is what connections add
    // before each swap.
    method TakeCounter(r: Resource, during: Key -> seq<Add>, ghost rows: seq<Stat>) returns (s: seq<Stat>)
      requires Valid() && Balanced(rows) && r in counters
      modifies this`cells, this`counted
      ensures Valid() && Balanced(rows + s) && |cells| == |old(cells)|
      ensures s == [] || (|s| == 2 && s[0].key == Key(r, false) && s[1].key == Key(r, true))
      ensures Counts(s) && Traffic(s, Key(r, true)) >= old(cells)[counters[r].read]
                && Traffic(s, Key(r, false)) >= old(cells)[counters[r].write]
      ensures forall i :: 0 <= i < |cells| && owners[i].resource != r ==> cells[i] >= old(cells)[i]
    {
      var downKey, upKey := Key(r, false), Key(r, true);
      Interfere(during(downKey), rows);
      var down := Swap(counters[r].write, rows);
      Interfere(during(upKey), rows + [Stat(downKey, down)]);
      var up := Swap(counters[r].read, rows + [Stat(downKey, down)]);
      s := [];
      if down > 0 || up > 0 {
        s := [Stat(downKey, down), Stat(upKey, up)];
        assert rows + s == rows + [Stat(downKey, down)] + [Stat(upKey, up)];
        TrafficOfPair(Stat(downKey, down), Stat(upKey, up));
      } else {
        ZeroRowsBalance(counted, cells, owners, rows, downKey, upKey);
        assert rows + s == rows;
      }
    }

    // MAIN: in every schedule, what was counted for a figure is what was
    // reported for it plus what its cells still hold, and a report carries at
    // least what its counters held when it began.
    method GetStats(during: Key -> seq<Add>) returns (s: seq<Stat>)
      requires Valid() && Balanced(emitted)
      modifies this`cells, this`counted, this`emitted
      ensures Valid() && Balanced(emitted) && emitted == old(emitted) + s && Counts(s)
      ensures forall r :: r in counters ==> Fetched(s, r, counters[r], old(cells))
    {
      s := [];
      var todo := counters.Keys;
      assert emitted + [] == emitted;
      while todo != {}
        invariant todo <= counters.Keys && emitted == old(emitted)
        invariant Valid() && Balanced(emitted + s) && |cells| == |old(cells)| && Counts(s)
        invariant forall r :: r in counters && r !in todo ==> Fetched(s, r, counters[r], old(cells))
        invariant forall i :: 0 <= i < |cells| && owners[i].resource in todo ==> cells[i] >= old(cells)[i]
        decreases |todo|
      {
        var r :| r in todo;
        todo := todo - {r};
        ghost var before := s;
        var pair := TakeCounter(r, during, emitted + s);
        Appended(emitted, s, pair);
        s := s + pair;
        FetchedStays(before, pair, counters, old(cells), r);
      }
      emitted := emitted + s;
    }
  }

  ghost predicate Fetched(s: seq<Stat>, r: Resource, c: Counter, cells: seq<int>) {
    && (c.read < |cells| ==> Traffic(s, Key(r, true)) >= cells[c.read])
    && (c.write < |cells| ==> Traffic(s, Key(r, false)) >= cells[c.write])
  }

  lemma FetchedStays(s: seq<Stat>, pair: seq<Stat>, counters: map<Resource, Counter>, cells: seq<int>, r: Resource)
    requires Counts(s) && Counts(pair) && r in counters && Fetched(pair, r, counters[r], cells)
    ensures Counts(s + pair)
    ensures Fetched(s + pair, r, counters[r], cells)
    ensures forall q :: q in counters && Fetched(s, q, counters[q], cells) ==> Fetched(s + pair, q, counters[q], cells)
  {
    forall q, d
      ensures Traffic(s + pair, Key(q, d)) >= Traffic(s, Key(q, d))
                && Traffic(s + pair, Key(q, d)) >= Traffic(pair, Key(q, d))
    {
      TrafficOfBoth(s, pair, Key(q, d));
      TrafficOfCounts(s, Key(q, d));
      TrafficOfCounts(pair, Key(q, d));
    }
  }

  ghost function Named(inbound: string, outbound: string, user: string): set<Resource> {
    (if inbound != "" then {Resource(InboundKind, inbound)} else {})
    + (if outbound != "" then {Resource(OutboundKind, outbound)} else {})
    + (if user != "" then {Resource(UserKind, user)} else {})
  }

  ghost function Cells(counters: map<Resource, Counter>, inbound: string, outbound: string, user: string,
      up: bool): seq<nat>
    requires Named(inbound, outbound, user) <= counters.Keys
  {
    Cell(counters, Resource(InboundKind, inbound), up) + Cell(counters, Resource(OutboundKind, outbound), up)
    + Cell(counters, Resource(UserKind, user), up)
  }

  ghost function Cell(counters: map<Resource, Counter>, r: Resource, up: bool): seq<nat>
    requires r.tag != "" ==> r in counters
  {
    if r.tag == "" then [] else if up then [counters[r].read] else [counters[r].write]
  }
}
