// Saving reported traffic, and what a client's totals come to over a run.
module TrafficSaving {
  import opened TrafficCounters
  import opened ClientAccounts
  import opened TrafficStats

  datatype Used = Used(up: int, down: int)

  function UserKey(name: string, up: bool): Key {
    Key(Resource(UserKind, name), up)
  }

  function Credited(a: Account, stats: seq<Stat>): Account {
    a.(up := a.up + Traffic(stats, UserKey(a.client.name, true)),
        down := a.down + Traffic(stats, UserKey(a.client.name, false)))
  }

  function CreditedRows(rows: map<nat, Account>, stats: seq<Stat>): map<nat, Account> {
    map k | k in rows :: Credited(rows[k], stats)
  }

  function CreditedOne(a: Account, stats: seq<Stat>, names: set<string>): Account {
    if a.client.name in names then Credited(a, stats) else a
  }

  function CreditedFor(rows: map<nat, Account>, stats: seq<Stat>, names: set<string>): map<nat, Account> {
    map k | k in rows :: CreditedOne(rows[k], stats, names)
  }

  // UPDATE clients ... WHERE name = name; columns without traffic are left out.
  function Bumped(rows: map<nat, Account>, name: string, t: Used): map<nat, Account> {
    map k | k in rows :: BumpedOne(rows[k], name, t)
  }

  function BumpedOne(a: Account, name: string, t: Used): Account {
    if a.client.name != name then a
    else a.(up := if t.up > 0 then a.up + t.up else a.up, down := if t.down > 0 then a.down + t.down else a.down)
  }

  lemma CreditOneMore(rows: map<nat, Account>, stats: seq<Stat>, names: set<string>, name: string, t: Used)
    requires Counts(stats) && name !in names
    requires t == Used(Traffic(stats, UserKey(name, true)), Traffic(stats, UserKey(name, false)))
    ensures Bumped(CreditedFor(rows, stats, names), name, t) == CreditedFor(rows, stats, names + {name})
  {
    TrafficOfCounts(stats, UserKey(name, true));
    TrafficOfCounts(stats, UserKey(name, false));
    forall k | k in rows
      ensures BumpedOne(CreditedOne(rows[k], stats, names), name, t) == CreditedOne(rows[k], stats, names + {name})
    {
      if rows[k].client.name == name {
        assert t.up >= 0 && t.down >= 0;
      }
    }
  }

  lemma CreditedNone(rows: map<nat, Account>, stats: seq<Stat>)
    ensures CreditedFor(rows, stats, {}) == rows
  {
  }

  lemma CreditedAll(rows: map<nat, Account>, stats: seq<Stat>, userTraffic: map<string, Used>)
    requires forall name ::
              Get(userTraffic, name) == Used(Traffic(stats, UserKey(name, true)), Traffic(stats, UserKey(name, false)))
    ensures CreditedFor(rows, stats, userTraffic.Keys) == CreditedRows(rows, stats)
  {
    forall k | k in rows && rows[k].client.name !in userTraffic
      ensures Credited(rows[k], stats) == rows[k]
    {
      assert Get(userTraffic, rows[k].client.name) == Used(0, 0);
    }
  }

  // An account takes in what was reported under its name, and nothing else.
  ghost predicate Received(was: Account, now: Account, stats: seq<Stat>) {
    && now.up == was.up + Traffic(stats, Key(Resource(UserKind, was.client.name), true))
    && now.down == was.down + Traffic(stats, Key(Resource(UserKind, was.client.name), false))
    && now == was.(up := now.up, down := now.down)
  }

  ghost predicate RowsReceived(was: map<nat, Account>, now: map<nat, Account>, stats: seq<Stat>) {
    now.Keys == was.Keys && forall k :: k in was ==> Received(was[k], now[k], stats)
  }

  lemma CreditedAreReceived(rows: map<nat, Account>, stats: seq<Stat>)
    ensures RowsReceived(rows, CreditedRows(rows, stats), stats)
  {
  }

  // The rows as they go into the bucket table, with ids of their own.
  function BucketRows(stats: seq<Stat>, time: int, nextId: nat): seq<Bucket> {
    seq(|stats|, i requires 0 <= i < |stats| => Bucket(nextId + i, stats[i].key, time, stats[i].traffic))
  }

  function Get(m: map<string, Used>, name: string): Used {
    if name in m then m[name] else Used(0, 0)
  }

  class StatsStore {
    const table: ClientTable
    var buckets: seq<Bucket>
    var nextId: nat

    constructor (table: ClientTable)
      ensures this.table == table && buckets == [] && IdsBelow()
    {
      this.table, buckets, nextId := table, [], 0;
    }

    ghost predicate IdsBelow()
      reads this
    {
      forall b :: b in buckets ==> b.id < nextId
    }

    method SumUserTraffic(stats: seq<Stat>) returns (userTraffic: map<string, Used>)
      ensures forall name ::
                Get(userTraffic, name)
                == Used(Traffic(stats, UserKey(name, true)), Traffic(stats, UserKey(name, false)))
    {
      userTraffic := map[];
      for i := 0 to |stats|
        invariant forall name ::
                  Get(userTraffic, name)
                  == Used(Traffic(stats[..i], UserKey(name, true)), Traffic(stats[..i], UserKey(name, false)))
      {
        assert stats[..i + 1][..i] == stats[..i];
        var stat := stats[i];
        if stat.key.resource.kind == UserKind {
          var tag := stat.key.resource.tag;
          if tag !in userTraffic {
            userTraffic := userTraffic[tag := Used(0, 0)];
          }
          if stat.key.direction {
            userTraffic := userTraffic[tag := userTraffic[tag].(up := userTraffic[tag].up + stat.traffic)];
          } else {
            userTraffic := userTraffic[tag := userTraffic[tag].(down := userTraffic[tag].down + stat.traffic)];
          }
        }
      }
      assert stats[..|stats|] == stats;
    }

    method CreditUsers(tx: map<nat, Account>, stats: seq<Stat>) returns (updated: map<nat, Account>)
      requires Counts(stats)
      ensures updated == CreditedRows(tx, stats)
    {
      var userTraffic := SumUserTraffic(stats);
      updated := tx;
      CreditedNone(tx, stats);
      var todo := userTraffic.Keys;
      ghost var credited: set<string> := {};
      while todo != {}
        invariant credited + todo == userTraffic.Keys && credited !! todo
        invariant updated == CreditedFor(tx, stats, credited)
        decreases |todo|
      {
        var name :| name in todo;
        todo := todo - {name};
        assert userTraffic[name] == Get(userTraffic, name);
        CreditOneMore(tx, stats, credited, name, userTraffic[name]);
        updated := Bumped(updated, name, userTraffic[name]);
        credited := credited + {name};
      }
      CreditedAll(tx, stats, userTraffic);
    }

    // One transaction: client rows, then the bucket table if it is kept.
    method SaveStats(stats: seq<Stat>, enableTraffic: bool, bucketSeconds: int, now: nat, works: bool, commits: bool)
      requires Counts(stats) && IdsBelow()
      modifies this, table
      ensures IdsBelow()
      ensures !works || !commits ==> table.rows == old(table.rows) && buckets == old(buckets)
      ensures works && commits ==> table.rows == CreditedRows(old(table.rows), stats)
      ensures works && commits ==> RowsReceived(old(table.rows), table.rows, stats)
      ensures works && commits && enableTraffic ==>
                var seconds := if bucketSeconds < 1 then 1 else bucketSeconds;
                buckets == MergeAll(old(buckets), BucketRows(stats, now - now % seconds, old(nextId)))
      ensures !enableTraffic ==> buckets == old(buckets)
    {
      CreditedAreReceived(table.rows, stats);
      if |stats| == 0 {
        assert table.rows == CreditedRows(table.rows, stats);
        return;
      }
      var updated := CreditUsers(table.rows, stats);
      if !works {
        return;
      }
      if enableTraffic {
        var seconds := if bucketSeconds < 1 then 1 else bucketSeconds;
        var merged := MergeStats(stats, now - now % seconds);
        if commits {
          buckets, nextId := merged, nextId + |stats|;
        }
      }
      if commits {
        table.rows := updated;
      }
    }

    // The upsert of all rows at the bucket time.
    method MergeStats(stats: seq<Stat>, time: int) returns (merged: seq<Bucket>)
      requires IdsBelow()
      ensures merged == MergeAll(buckets, BucketRows(stats, time, nextId))
      ensures forall b :: b in merged ==> b.id < nextId + |stats|
    {
      merged := buckets;
      ghost var rows := BucketRows(stats, time, nextId);
      for i := 0 to |stats|
        invariant merged == MergeAll(buckets, rows[..i])
        invariant forall b :: b in merged ==> b.id < nextId + |stats|
      {
        var row := Bucket(nextId + i, stats[i].key, time, stats[i].traffic);
        assert rows[..i + 1][..i] == rows[..i] && rows[i] == row;
        MergeIdsBelow(merged, row, nextId + |stats|);
        merged := Merge(merged, row);
      }
      assert rows[..|stats|] == rows;
    }
  }

  lemma {:induction false} MergeIdsBelow(rows: seq<Bucket>, row: Bucket, n: nat)
    requires row.id < n && forall b :: b in rows ==> b.id < n
    ensures forall b :: b in Merge(rows, row) ==> b.id < n
  {
    if rows != [] {
      MergeIdsBelow(rows[1..], row, n);
    }
  }

  // A figure's stored traffic grows by exactly what was reported for it, all
  // of it in the bucket of the save.
  lemma BucketsReceiveAll(buckets: seq<Bucket>, stats: seq<Stat>, time: int, nextId: nat, key: Key)
    ensures Total(MergeAll(buckets, BucketRows(stats, time, nextId)), key) == Total(buckets, key) + Traffic(stats, key)
    ensures At(MergeAll(buckets, BucketRows(stats, time, nextId)), key, time)
              == At(buckets, key, time) + Traffic(stats, key)
    ensures Distinct(buckets) ==> Distinct(MergeAll(buckets, BucketRows(stats, time, nextId)))
  {
    MergingLosesNothing(buckets, BucketRows(stats, time, nextId), key, time);
    BucketRowsTotal(stats, time, nextId, key);
  }

  lemma {:induction false} BucketRowsTotal(stats: seq<Stat>, time: int, nextId: nat, key: Key)
    ensures Total(BucketRows(stats, time, nextId), key) == At(BucketRows(stats, time, nextId), key, time)
              == Traffic(stats, key)
  {
    if stats != [] {
      var init := stats[..|stats| - 1];
      BucketRowsTotal(init, time, nextId, key);
      var rows := BucketRows(stats, time, nextId);
      assert rows == BucketRows(init, time, nextId) + [rows[|stats| - 1]];
      TotalOfLast(BucketRows(init, time, nextId), rows[|stats| - 1], key, time);
    }
  }

  // ------------------------------------------------------------ whole runs

  // What can happen to client accounts, committed.
  datatype Event = Saving(stats: seq<Stat>) | Depletion(dt: int) | ResetAll

  function AfterEvent(a: Account, e: Event): Account {
    match e
    case Saving(stats) => Credited(a, stats)
    case Depletion(dt) => Depleted(a, dt)
    case ResetAll => if Unreset(a) then Emptied(a) else a
  }

  function After(a: Account, events: seq<Event>): Account {
    if events == [] then a else AfterEvent(After(a, events[..|events| - 1]), events[|events| - 1])
  }

  function Reported(events: seq<Event>): seq<Stat> {
    if events == [] then []
    else Reported(events[..|events| - 1]) + match events[|events| - 1]
                                            case Saving(stats) => stats
                                            case _ => []
  }

  // MAIN: over any run, a client's all-time figures grow by exactly the
  // traffic reported under its name; no reset changes them.
  lemma {:induction false} RunsConserveTraffic(a: Account, events: seq<Event>)
    ensures var b, name := After(a, events), a.client.name;
            && b.client.name == name
            && b.totalUp + b.up == a.totalUp + a.up + Traffic(Reported(events), UserKey(name, true))
            && b.totalDown + b.down == a.totalDown + a.down + Traffic(Reported(events), UserKey(name, false))
  {
    if events != [] {
      RunsConserveTraffic(a, events[..|events| - 1]);
      var before := Reported(events[..|events| - 1]);
      if events[|events| - 1].Saving? {
        TrafficOfBoth(before, events[|events| - 1].stats, UserKey(a.client.name, true));
        TrafficOfBoth(before, events[|events| - 1].stats, UserKey(a.client.name, false));
      } else {
        assert Reported(events) == before;
      }
    }
  }

  // A client that is neither delayed nor periodic keeps its time.
  lemma {:induction false} TimeStays(a: Account, events: seq<Event>)
    requires !a.delayStart && !a.autoReset
    ensures var b := After(a, events);
            !b.delayStart && !b.autoReset && b.expiry == a.expiry && b.resetDays == a.resetDays
  {
    if events != [] {
      TimeStays(a, events[..|events| - 1]);
    }
  }

  // MAIN: a delayed client that is used has its time counted from the next
  // depletion on, and whatever happens then, traffic, resets and further
  // depletions, the depletion after its last day cuts it off.
  lemma StartedClientEnds(a: Account, dt: int, events: seq<Event>, later: int)
    requires a.client.enable && a.delayStart && !a.autoReset && a.up + a.down > 0
    requires 0 < dt + 86400 * a.resetDays < later
    ensures var b := After(a, [Depletion(dt)] + events + [Depletion(later)]);
            !b.client.enable && !b.delayStart && b.expiry == dt + 86400 * a.resetDays
  {
    var started := AfterEvent(a, Depletion(dt));
    ResetIsAt(a, dt);
    TimeStays(started, events);
    AfterBehind(a, Depletion(dt), events);
    var all := [Depletion(dt)] + events;
    assert (all + [Depletion(later)])[..|all|] == all;
    ResetIsAt(After(a, all), later);
  }

  lemma {:induction false} AfterBehind(a: Account, e: Event, events: seq<Event>)
    ensures After(a, [e] + events) == After(AfterEvent(a, e), events)
  {
    if events == [] {
      assert [e] + events == [e] && [e][..0] == [];
      assert After(a, []) == a;
    } else {
      var init := events[..|events| - 1];
      AfterBehind(a, e, init);
      assert ([e] + events)[..|events|] == [e] + init;
    }
  }

  function AfterRows(rows: map<nat, Account>, events: seq<Event>): map<nat, Account> {
    map k | k in rows :: After(rows[k], events)
  }

  lemma OneMoreEvent(rows: map<nat, Account>, events: seq<Event>, e: Event)
    ensures forall k :: k in rows ==> AfterRows(rows, events + [e])[k] == AfterEvent(AfterRows(rows, events)[k], e)
    ensures forall key :: Traffic(Reported(events + [e]), key)
                       == Traffic(Reported(events), key) + if e.Saving? then Traffic(e.stats, key) else 0
  {
    assert (events + [e])[..|events|] == events;
    forall key
      ensures Traffic(Reported(events + [e]), key)
                == Traffic(Reported(events), key) + if e.Saving? then Traffic(e.stats, key) else 0
    {
      if e.Saving? {
        TrafficOfBoth(Reported(events), e.stats, key);
      } else {
        assert Reported(events) + [] == Reported(events);
      }
    }
  }

  // --------------------------------------------------- counters and accounts

  // What happens on a running panel: connections are routed and used, the core
  // is closed, the counters are reported and saved, clients are cut off or reset.
  datatype Step =
    | Route(inbound: string, outbound: string, user: string)
    | Use(adds: seq<Add>)
    | CloseCore
    | Report(during: Key -> seq<Add>, enableTraffic: bool, bucketSeconds: int, now: nat, works: bool, commits: bool)
    | Deplete(dt: int, works: bool, commits: bool)
    | ResetTraffic(works: bool)

  // The step commits something on the accounts.
  predicate Commits(step: Step) {
    match step
    case Report(_, _, _, _, works, commits) => works && commits
    case Deplete(_, works, commits) => works && commits
    case ResetTraffic(works) => works
    case _ => false
  }

  function Committing(steps: seq<Step>): seq<Step> {
    if steps == [] then []
    else
      var last := steps[|steps| - 1];
      Committing(steps[..|steps| - 1]) + if Commits(last) then [last] else []
  }

  // Event by event, what the committing steps did.
  ghost predicate Records(events: seq<Event>, steps: seq<Step>) {
    |events| == |steps| && forall i :: 0 <= i < |events| ==> IsOf(events[i], steps[i])
  }

  predicate IsOf(e: Event, step: Step) {
    match step
    case Report(_, _, _, _, _, _) => e.Saving?
    case Deplete(dt, _, _) => e == Depletion(dt)
    case ResetTraffic(_) => e == ResetAll
    case _ => false
  }

  // What was counted for a user is what its account grew by, what was in
  // reports whose save was rolled back, and what the cells still hold.
  ghost predicate Settled(counted: seq<int>, cells: seq<int>, owners: seq<Key>, before: seq<Stat>, lost: seq<Stat>,
                          was: Account, now: Account)
    requires |counted| == |cells| == |owners|
  {
    var up, down := UserKey(was.client.name, true), UserKey(was.client.name, false);
    && Sum(counted, owners, up)
       == Traffic(before, up) + (now.totalUp + now.up) - (was.totalUp + was.up) + Traffic(lost, up)
          + Sum(cells, owners, up)
    && Sum(counted, owners, down)
       == Traffic(before, down) + (now.totalDown + now.down) - (was.totalDown + was.down) + Traffic(lost, down)
          + Sum(cells, owners, down)
  }

  ghost predicate ReportsAddUp(emitted: seq<Stat>, before: seq<Stat>, events: seq<Event>, lost: seq<Stat>) {
    forall key :: Traffic(emitted, key) == Traffic(before, key) + Traffic(Reported(events), key) + Traffic(lost, key)
  }

  lemma CountedIsAccountedFor(counted: seq<int>, cells: seq<int>, owners: seq<Key>, before: seq<Stat>,
      emitted: seq<Stat>, events: seq<Event>, lost: seq<Stat>, was: Account)
    requires Balance(counted, cells, owners, emitted) && ReportsAddUp(emitted, before, events, lost)
    ensures Settled(counted, cells, owners, before, lost, was, After(was, events))
  {
    RunsConserveTraffic(was, events);
  }

  lemma ReportKept(emitted: seq<Stat>, before: seq<Stat>, events: seq<Event>, lost: seq<Stat>, s: seq<Stat>)
    requires ReportsAddUp(emitted, before, events, lost)
    ensures ReportsAddUp(emitted + s, before, events + [Saving(s)], lost)
    ensures ReportsAddUp(emitted + s, before, events, lost + s)
  {
    OneMoreEvent(map[], events, Saving(s));
    forall key
      ensures Traffic(emitted + s, key) == Traffic(emitted, key) + Traffic(s, key)
      ensures Traffic(lost + s, key) == Traffic(lost, key) + Traffic(s, key)
    {
      TrafficOfBoth(emitted, s, key);
      TrafficOfBoth(lost, s, key);
    }
  }

  lemma NoReport(emitted: seq<Stat>, before: seq<Stat>, events: seq<Event>, lost: seq<Stat>, e: Event)
    requires ReportsAddUp(emitted, before, events, lost) && !e.Saving?
    ensures ReportsAddUp(emitted, before, events + [e], lost)
  {
    OneMoreEvent(map[], events, e);
  }

  // One step; `e` is the event it committed on the accounts, `dropped` the
  // report it lost.
  method Perform(tracker: StatsTracker, store: StatsStore, step: Step)
      returns (ghost e: seq<Event>, ghost dropped: seq<Stat>)
    requires tracker.Valid() && tracker.Balanced(tracker.emitted) && store.IdsBelow()
    modifies tracker, store, store.table
    ensures tracker.Valid() && tracker.Balanced(tracker.emitted) && store.IdsBelow()
    ensures Records(e, if Commits(step) then [step] else []) && store.table.rows == AfterRows(old(store.table.rows), e)
    ensures tracker.emitted == old(tracker.emitted) + (if e != [] && e[0].Saving? then e[0].stats else dropped)
    ensures dropped != [] ==> e == [] && step.Report? && !(step.works && step.commits)
  {
    e, dropped := [], [];
    match step
    case Route(inbound, outbound, user) =>
      NoEvent(store.table.rows);
      var r, w := tracker.GetReadCounters(inbound, outbound, user);
    case Use(adds) =>
      NoEvent(store.table.rows);
      tracker.Interfere(adds, tracker.emitted);
    case CloseCore =>
      NoEvent(store.table.rows);
      tracker.Reset();
    case Report(_, _, _, _, _, _) =>
      e, dropped := PerformReport(tracker, store, step);
    case Deplete(_, _, _) =>
      e := PerformDepletion(store.table, step);
    case ResetTraffic(_) =>
      e := PerformReset(store.table, step);
  }

  method PerformDepletion(table: ClientTable, step: Step) returns (ghost e: seq<Event>)
    requires step.Deplete?
    modifies table
    ensures Records(e, if Commits(step) then [step] else []) && table.rows == AfterRows(old(table.rows), e)
  {
    e := [];
    NoEvent(table.rows);
    var ok, ids := table.DepleteClients(step.dt, step.works, step.commits);
    if step.works && step.commits {
      e := [Depletion(step.dt)];
      OneEvent(old(table.rows), e[0]);
    }
  }

  method PerformReset(table: ClientTable, step: Step) returns (ghost e: seq<Event>)
    requires step.ResetTraffic?
    modifies table
    ensures Records(e, if Commits(step) then [step] else []) && table.rows == AfterRows(old(table.rows), e)
  {
    e := [];
    NoEvent(table.rows);
    table.ResetAllClientsTraffic(step.works);
    if step.works {
      e := [ResetAll];
      OneEvent(old(table.rows), e[0]);
      forall k | k in table.rows
        ensures table.rows[k] == AfterEvent(old(table.rows)[k], ResetAll)
      {
        ResetAllIsEmptying(old(table.rows)[k], table.rows[k]);
      }
    }
  }

  lemma NoEvent(rows: map<nat, Account>)
    ensures AfterRows(rows, []) == rows
  {
  }

  // Swaps the counters out and saves what they held.
  method PerformReport(tracker: StatsTracker, store: StatsStore, step: Step)
      returns (ghost e: seq<Event>, ghost dropped: seq<Stat>)
    requires step.Report? && tracker.Valid() && tracker.Balanced(tracker.emitted) && store.IdsBelow()
    modifies tracker, store, store.table
    ensures tracker.Valid() && tracker.Balanced(tracker.emitted) && store.IdsBelow()
    ensures Records(e, if Commits(step) then [step] else []) && store.table.rows == AfterRows(old(store.table.rows), e)
    ensures tracker.emitted == old(tracker.emitted) + (if e != [] && e[0].Saving? then e[0].stats else dropped)
    ensures dropped != [] ==> e == [] && !(step.works && step.commits)
  {
    e, dropped := [], [];
    ghost var was := store.table.rows;
    NoEvent(was);
    var s := tracker.GetStats(step.during);
    store.SaveStats(s, step.enableTraffic, step.bucketSeconds, step.now, step.works, step.commits);
    if step.works && step.commits {
      e := [Saving(s)];
      OneEvent(was, e[0]);
    } else {
      dropped := s;
    }
  }

  lemma OneEvent(rows: map<nat, Account>, e: Event)
    ensures forall k :: k in rows ==> AfterRows(rows, [e])[k] == AfterEvent(rows[k], e)
  {
    forall k | k in rows
      ensures After(rows[k], [e]) == AfterEvent(rows[k], e)
    {
      assert [e][..0] == [] && After(rows[k], []) == rows[k];
    }
  }

  // The accounts are what the events make of them, and the reports add up.
  ghost predicate InStep(rows0: map<nat, Account>, rows: map<nat, Account>, before: seq<Stat>, emitted: seq<Stat>,
                         events: seq<Event>, lost: seq<Stat>)
  {
    rows == AfterRows(rows0, events) && ReportsAddUp(emitted, before, events, lost)
  }

  lemma InStepStays(rows0: map<nat, Account>, rows: map<nat, Account>, later: map<nat, Account>, before: seq<Stat>,
                    emitted: seq<Stat>, more: seq<Stat>, events: seq<Event>, lost: seq<Stat>, e: seq<Event>,
                    dropped: seq<Stat>)
    requires InStep(rows0, rows, before, emitted, events, lost)
    requires |e| <= 1 && later == AfterRows(rows, e) && (dropped != [] ==> e == [])
    requires more == emitted + if e != [] && e[0].Saving? then e[0].stats else dropped
    ensures InStep(rows0, later, before, more, events + e, lost + dropped)
  {
    if e == [] {
      assert events + e == events;
      assert AfterRows(rows, []) == rows;
      ReportKept(emitted, before, events, lost, dropped);
    } else {
      assert e == [e[0]] && lost + dropped == lost;
      AccountsFollow(rows0, rows, later, events, e[0]);
      if e[0].Saving? {
        ReportKept(emitted, before, events, lost, e[0].stats);
      } else {
        assert emitted + dropped == emitted;
        NoReport(emitted, before, events, lost, e[0]);
      }
    }
  }

  lemma AccountsFollow(rows0: map<nat, Account>, rows: map<nat, Account>, later: map<nat, Account>, events: seq<Event>,
      e: Event)
    requires rows == AfterRows(rows0, events) && later == AfterRows(rows, [e])
    ensures later == AfterRows(rows0, events + [e])
  {
    OneMoreEvent(rows0, events, e);
    OneEvent(rows, e);
  }

  // MAIN: over any run of traffic, reports, depletions and resets, with any
  // report's save rolled back, nothing counted for a user is unaccounted for:
  // the accounts are what the committed events make of them, in order, and
  // what was reported is what was saved and what was lost.
  method Run(tracker: StatsTracker, store: StatsStore, steps: seq<Step>)
      returns (ghost events: seq<Event>, ghost lost: seq<Stat>)
    requires tracker.Valid() && tracker.Balanced(tracker.emitted) && store.IdsBelow()
    modifies tracker, store, store.table
    ensures tracker.Valid() && store.table.rows.Keys == old(store.table.rows).Keys
    ensures Records(events, Committing(steps))
    ensures InStep(old(store.table.rows), store.table.rows, old(tracker.emitted), tracker.emitted, events, lost)
    ensures forall k :: k in old(store.table.rows) ==>
              Settled(tracker.counted, tracker.cells, tracker.owners, old(tracker.emitted), lost,
                      old(store.table.rows)[k], store.table.rows[k])
    ensures (forall i :: 0 <= i < |steps| && steps[i].Report? ==> steps[i].works && steps[i].commits) ==> lost == []
  {
    ghost var rows0, before := store.table.rows, tracker.emitted;
    events, lost := [], [];
    assert InStep(rows0, rows0, before, before, [], []);
    for i := 0 to |steps|
      invariant tracker.Valid() && tracker.Balanced(tracker.emitted) && store.IdsBelow()
      invariant Records(events, Committing(steps[..i]))
      invariant InStep(rows0, store.table.rows, before, tracker.emitted, events, lost)
      invariant (forall j :: 0 <= j < i && steps[j].Report? ==> steps[j].works && steps[j].commits) ==> lost == []
    {
      ghost var emitted, rows := tracker.emitted, store.table.rows;
      ghost var e, dropped := Perform(tracker, store, steps[i]);
      InStepStays(rows0, rows, store.table.rows, before, emitted, tracker.emitted, events, lost, e, dropped);
      events, lost := events + e, lost + dropped;
      assert steps[..i + 1][..i] == steps[..i];
    }
    assert steps[..|steps|] == steps;
    forall k | k in rows0
      ensures Settled(tracker.counted, tracker.cells, tracker.owners, before, lost, rows0[k], store.table.rows[k])
    {
      CountedIsAccountedFor(tracker.counted, tracker.cells, tracker.owners, before, tracker.emitted, events, lost,
          rows0[k]);
    }
  }
}
