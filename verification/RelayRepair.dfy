// Startup repair of paired pools: items that share one IPv4 outbound are
// given outbounds of their own, each with its item's upstream.
module RelayRepair {
  import opened RelayItems
  import opened RelayPanel

  // `repaired` lists the items whose outbound has been checked and written.
  datatype State = State(items: seq<RelayItem>, outbounds: map<string, Outbound>, used: set<string>, repaired: set<nat>)

  // Items without an IPv4 outbound or an upstream are left alone, and so are
  // items whose outbound is missing.
  predicate Skipped(item: RelayItem, outbounds: map<string, Outbound>) {
    || item.ipv4OutboundTag == "" || item.upstream.server == "" || item.upstream.port < 1
    || item.ipv4OutboundTag !in outbounds
  }

  // Treating item i; `clone` is the random tag a clone would get.
  function Repair(s: State, i: nat, clone: string): Result<State>
    requires i < |s.items|
  {
    var item := s.items[i];
    var tag := item.ipv4OutboundTag;
    if Skipped(item, s.outbounds) then Success(s)
    else if s.outbounds[tag].kind != "socks" then Failure("IPv4 outbound is not socks")
    else if tag !in s.used then
      Success(s.(outbounds := s.outbounds[tag := ProxyOutbound(item)], used := s.used + {tag},
          repaired := s.repaired + {i}))
    else if clone in s.outbounds then Failure("UNIQUE constraint failed")
    else
      Success(State(s.items[i := item.(ipv4OutboundTag := clone)],
                    s.outbounds[clone := ProxyOutbound(item)],
                    s.used + {clone}, s.repaired + {i}))
  }

  function RepairUpTo(s: State, n: nat, clones: nat -> string): (r: Result<State>)
    requires n <= |s.items|
    ensures r.Success? ==> |r.value.items| == |s.items|
  {
    if n == 0 then Success(s)
    else match RepairUpTo(s, n - 1, clones)
      case Failure(e) => Failure(e)
      case Success(t) => Repair(t, n - 1, clones(n - 1))
  }

  function Start(items: seq<RelayItem>, outbounds: map<string, Outbound>): State {
    State(items, outbounds, {}, {})
  }

  // The repair loop over one pool. Rows are written only when they differ, and
  // the pool only when a tag changed.
  method RepairPairedPool(items0: seq<RelayItem>, outbounds0: map<string, Outbound>, clones: nat -> string)
      returns (ok: bool, items: seq<RelayItem>, outbounds: map<string, Outbound>, itemsChanged: bool)
    ensures ok <==> RepairUpTo(Start(items0, outbounds0), |items0|, clones).Success?
    ensures ok ==> var end := RepairUpTo(Start(items0, outbounds0), |items0|, clones).value;
                   items == end.items && outbounds == end.outbounds && (itemsChanged <==> items != items0)
    ensures ok ==> PoolRepaired(items0, outbounds0, items, outbounds)
  {
    items, outbounds, itemsChanged, ok := items0, outbounds0, false, true;
    var usedTags: set<string> := {};
    ghost var start, repaired: set<nat> := Start(items0, outbounds0), {};
    for index := 0 to |items0|
      invariant ok && |items| == |items0|
      invariant RepairUpTo(start, index, clones) == Success(State(items, outbounds, usedTags, repaired))
      invariant itemsChanged <==> items != items0
      invariant forall k :: index <= k < |items| ==> items[k] == items0[k]
      invariant usedTags <= outbounds.Keys
    {
      var item := items[index];
      var tag := item.ipv4OutboundTag;
      if tag == "" || item.upstream.server == "" || item.upstream.port < 1 || tag !in outbounds {
        continue;
      }
      if outbounds[tag].kind != "socks" {
        ok := false;
        RepairFails(start, index + 1, |items0|, clones);
        return;
      }
      ghost var before := State(items, outbounds, usedTags, repaired);
      repaired := repaired + {index};
      var row := outbounds[tag];
      if tag in usedTags {
        var clone := clones(index);
        if clone in outbounds {
          ok := false;
          RepairFails(start, index + 1, |items0|, clones);
          return;
        }
        row := ProxyOutbound(item);
        outbounds := outbounds[clone := row];
        item := item.(ipv4OutboundTag := clone);
        assert items0[index] != item;
        items := items[index := item];
        itemsChanged := true;
      }
      usedTags := usedTags + {item.ipv4OutboundTag};
      if row != ProxyOutbound(item) {
        outbounds := outbounds[item.ipv4OutboundTag := ProxyOutbound(item)];
      }
      assert outbounds == before.outbounds[item.ipv4OutboundTag := ProxyOutbound(item)];
      assert Repair(before, index, clones(index)) == Success(State(items, outbounds, usedTags, repaired));
    }
    PoolIsRepaired(items0, outbounds0, clones);
  }

  lemma {:induction false} RepairFails(s: State, n: nat, m: nat, clones: nat -> string)
    requires n <= m <= |s.items| && RepairUpTo(s, n, clones).Failure?
    ensures RepairUpTo(s, m, clones).Failure?
    decreases m
  {
    if n < m {
      RepairFails(s, n, m - 1, clones);
    }
  }

  // ------------------------------------------------------------ separation

  // Every repaired item has an outbound to itself, holding its own upstream.
  ghost predicate Separated(s: State) {
    && (forall i :: i in s.repaired ==> i < |s.items| && OwnsOutbound(s, i))
    && (forall i, j :: i in s.repaired && j in s.repaired && i != j ==>
        s.items[i].ipv4OutboundTag != s.items[j].ipv4OutboundTag)
    && (forall tag :: tag in s.used ==> exists i :: i in s.repaired && s.items[i].ipv4OutboundTag == tag)
  }

  ghost predicate OwnsOutbound(s: State, i: nat)
    requires i < |s.items|
  {
    var tag := s.items[i].ipv4OutboundTag;
    tag in s.used && tag in s.outbounds && s.outbounds[tag] == ProxyOutbound(s.items[i])
  }

  // What a repair may not touch: other fields, outbounds no item claimed.
  ghost predicate Confined(was: State, now: State, n: nat)
    requires n <= |was.items|
  {
    && |now.items| == |was.items|
    && (forall i :: 0 <= i < |was.items| ==>
        now.items[i] == was.items[i].(ipv4OutboundTag := now.items[i].ipv4OutboundTag))
    && (forall i :: n <= i < |was.items| ==> now.items[i] == was.items[i])
    && (forall i :: 0 <= i < |was.items| && i !in now.repaired ==> now.items[i] == was.items[i])
    && (forall i :: i in now.repaired ==> i < n)
    && (forall tag :: tag in was.outbounds ==>
        tag in now.outbounds && now.outbounds[tag].kind == was.outbounds[tag].kind)
    && (forall tag :: tag in was.outbounds && tag !in now.used ==> now.outbounds[tag] == was.outbounds[tag])
    && now.used <= now.outbounds.Keys
  }

  // MAIN: after the loop over the first n items, the repaired ones are
  // separated; no later write disturbed an earlier one.
  lemma {:induction false} RepairSeparates(s: State, n: nat, clones: nat -> string)
    requires n <= |s.items| && s.used == {} && s.repaired == {}
    requires RepairUpTo(s, n, clones).Success?
    ensures Separated(RepairUpTo(s, n, clones).value) && Confined(s, RepairUpTo(s, n, clones).value, n)
  {
    if n > 0 {
      RepairSeparates(s, n - 1, clones);
      RepairStepSeparates(s, RepairUpTo(s, n - 1, clones).value, n - 1, clones(n - 1));
    }
  }

  lemma RepairStepSeparates(s: State, t: State, i: nat, clone: string)
    requires i < |s.items| && Separated(t) && Confined(s, t, i) && Repair(t, i, clone).Success?
    ensures Separated(Repair(t, i, clone).value) && Confined(s, Repair(t, i, clone).value, i + 1)
  {
    var u := Repair(t, i, clone).value;
    if !Skipped(t.items[i], t.outbounds) {
      var tag := if t.items[i].ipv4OutboundTag !in t.used then t.items[i].ipv4OutboundTag else clone;
      assert u == Claimed(t, i, tag);
      ClaimSeparates(t, i, tag);
      ClaimIsConfined(s, t, i, tag);
    }
  }

  // The state after item i takes over the outbound `tag`.
  function Claimed(t: State, i: nat, tag: string): State
    requires i < |t.items|
  {
    State(t.items[i := t.items[i].(ipv4OutboundTag := tag)],
          t.outbounds[tag := ProxyOutbound(t.items[i])],
          t.used + {tag}, t.repaired + {i})
  }

  lemma ClaimSeparates(t: State, i: nat, tag: string)
    requires i < |t.items| && i !in t.repaired && tag !in t.used && Separated(t)
    ensures Separated(Claimed(t, i, tag))
  {
    var u := Claimed(t, i, tag);
    forall k | k in u.repaired
      ensures k < |u.items| && OwnsOutbound(u, k)
    {
      if k != i { assert OwnsOutbound(t, k); }
    }
    forall x | x in u.used
      ensures exists k :: k in u.repaired && u.items[k].ipv4OutboundTag == x
    {
      if x == tag {
        assert i in u.repaired && u.items[i].ipv4OutboundTag == x;
      } else {
        var k :| k in t.repaired && t.items[k].ipv4OutboundTag == x;
        assert k in u.repaired && u.items[k].ipv4OutboundTag == x;
      }
    }
  }

  lemma ClaimIsConfined(s: State, t: State, i: nat, tag: string)
    requires i < |s.items| && Confined(s, t, i)
    requires tag !in t.used && (tag in t.outbounds ==> t.outbounds[tag].kind == "socks")
    ensures Confined(s, Claimed(t, i, tag), i + 1)
  {
  }

  // An item is repaired exactly when it has an upstream and its outbound
  // existed before or was made along the way.
  lemma {:induction false} RepairedExactly(s: State, n: nat, clones: nat -> string, i: nat)
    requires n <= |s.items| && s.used == {} && s.repaired == {} && i < n
    requires RepairUpTo(s, n, clones).Success?
    ensures RepairUpTo(s, i, clones).Success?
    ensures i in RepairUpTo(s, n, clones).value.repaired
            <==> !Skipped(s.items[i], RepairUpTo(s, i, clones).value.outbounds)
    ensures !Skipped(s.items[i], s.outbounds) ==> i in RepairUpTo(s, n, clones).value.repaired
  {
    RepairSeparates(s, n - 1, clones);
    OneMoreRepaired(RepairUpTo(s, n - 1, clones).value, n - 1, clones(n - 1), i);
    if i < n - 1 {
      RepairedExactly(s, n - 1, clones, i);
    }
  }

  lemma OneMoreRepaired(t: State, k: nat, clone: string, i: nat)
    requires k < |t.items| && Repair(t, k, clone).Success?
    ensures i in Repair(t, k, clone).value.repaired
            <==> i in t.repaired || (i == k && !Skipped(t.items[k], t.outbounds))
    ensures t.outbounds.Keys <= Repair(t, k, clone).value.outbounds.Keys
  {
  }

  // ------------------------------------------------- the pool, told by fields

  // An item that is to be repaired: it names an outbound that is there, and
  // has an upstream.
  predicate ToRepair(item: RelayItem, outbounds: map<string, Outbound>) {
    && item.ipv4OutboundTag != "" && item.ipv4OutboundTag in outbounds
    && item.upstream.server != "" && item.upstream.port >= 1
  }

  predicate SendsTo(o: Outbound, upstream: Upstream) {
    o.kind == "socks" && o.upstream == Some(upstream) && o.strategy == "ipv4_only" && o.bind == None
  }

  // Each such item has an outbound to itself that sends to its own upstream;
  // the rest of the items and every other outbound are as before.
  ghost predicate PoolRepaired(was: seq<RelayItem>, outbounds: map<string, Outbound>, now: seq<RelayItem>,
                               later: map<string, Outbound>) {
    && |now| == |was|
    && (forall i :: 0 <= i < |was| ==> now[i] == was[i].(ipv4OutboundTag := now[i].ipv4OutboundTag))
    && (forall i :: 0 <= i < |was| && ToRepair(was[i], outbounds) ==> RepairedItem(now[i], later))
    && (forall i, j :: 0 <= i < j < |was| && ToRepair(was[i], outbounds) && ToRepair(was[j], outbounds) ==>
          now[i].ipv4OutboundTag != now[j].ipv4OutboundTag)
    && (forall i :: 0 <= i < |was| && !(was[i].ipv4OutboundTag != "" && was[i].upstream.server != ""
                                        && was[i].upstream.port >= 1) ==>
          now[i] == was[i])
    && (forall tag :: tag in outbounds && !WantedByOne(was, outbounds, tag) ==>
          tag in later && later[tag] == outbounds[tag])
  }

  predicate RepairedItem(item: RelayItem, outbounds: map<string, Outbound>) {
    item.ipv4OutboundTag in outbounds && SendsTo(outbounds[item.ipv4OutboundTag], item.upstream)
  }

  ghost predicate WantedByOne(items: seq<RelayItem>, outbounds: map<string, Outbound>, tag: string) {
    exists i :: 0 <= i < |items| && ToRepair(items[i], outbounds) && items[i].ipv4OutboundTag == tag
  }

  // Whatever is repaired had an upstream, and kept its tag or got a new one.
  lemma {:induction false} RepairedHadUpstream(s: State, n: nat, clones: nat -> string)
    requires n <= |s.items| && s.used == {} && s.repaired == {} && RepairUpTo(s, n, clones).Success?
    ensures var t := RepairUpTo(s, n, clones).value;
            && s.outbounds.Keys <= t.outbounds.Keys
            && forall i :: i in t.repaired ==>
                 && i < n && s.items[i].ipv4OutboundTag != ""
                 && s.items[i].upstream.server != "" && s.items[i].upstream.port >= 1
                 && (t.items[i].ipv4OutboundTag == s.items[i].ipv4OutboundTag
                     || t.items[i].ipv4OutboundTag !in s.outbounds)
  {
    if n > 0 {
      RepairedHadUpstream(s, n - 1, clones);
      RepairSeparates(s, n - 1, clones);
      var t := RepairUpTo(s, n - 1, clones).value;
      assert t.items[n - 1] == s.items[n - 1];
    }
  }

  // MAIN: the repaired pool, in the fields of its items and outbounds.
  lemma PoolIsRepaired(items: seq<RelayItem>, outbounds: map<string, Outbound>, clones: nat -> string)
    requires RepairUpTo(Start(items, outbounds), |items|, clones).Success?
    ensures var end := RepairUpTo(Start(items, outbounds), |items|, clones).value;
            PoolRepaired(items, outbounds, end.items, end.outbounds)
  {
    var s := Start(items, outbounds);
    var end := RepairUpTo(s, |items|, clones).value;
    RepairSeparates(s, |items|, clones);
    RepairedHadUpstream(s, |items|, clones);
    forall i | 0 <= i < |items| && ToRepair(items[i], outbounds)
      ensures i in end.repaired && RepairedItem(end.items[i], end.outbounds)
    {
      RepairedExactly(s, |items|, clones, i);
      assert OwnsOutbound(end, i);
    }
    forall tag | tag in outbounds && tag in end.used
      ensures WantedByOne(items, outbounds, tag)
    {
      var i :| i in end.repaired && end.items[i].ipv4OutboundTag == tag;
      assert ToRepair(items[i], outbounds);
    }
  }

  // MAIN: with SOCKS outbounds and new tags for the clones a repair succeeds.
  lemma {:induction false} RepairWorks(s: State, n: nat, clones: nat -> string)
    requires n <= |s.items| && s.used == {} && s.repaired == {}
    requires forall i :: 0 <= i < |s.items| && s.items[i].ipv4OutboundTag in s.outbounds ==>
               s.outbounds[s.items[i].ipv4OutboundTag].kind == "socks"
    requires forall i: nat :: i < n ==> clones(i) !in s.outbounds
    requires forall i: nat, j: nat :: i < j < n ==> clones(i) != clones(j)
    ensures RepairUpTo(s, n, clones).Success?
    ensures forall tag :: tag in RepairUpTo(s, n, clones).value.outbounds && tag !in s.outbounds ==>
              RepairUpTo(s, n, clones).value.outbounds[tag].kind == "socks" && IsClone(clones, n, tag)
  {
    if n > 0 {
      RepairWorks(s, n - 1, clones);
      RepairSeparates(s, n - 1, clones);
      RepairStepWorks(s, RepairUpTo(s, n - 1, clones).value, n - 1, clones);
    }
  }

  lemma RepairStepWorks(s: State, t: State, i: nat, clones: nat -> string)
    requires i < |s.items| && Confined(s, t, i)
    requires s.items[i].ipv4OutboundTag in s.outbounds ==> s.outbounds[s.items[i].ipv4OutboundTag].kind == "socks"
    requires clones(i) !in s.outbounds && !IsClone(clones, i, clones(i))
    requires forall tag :: tag in t.outbounds && tag !in s.outbounds ==>
               t.outbounds[tag].kind == "socks" && IsClone(clones, i, tag)
    ensures Repair(t, i, clones(i)).Success?
    ensures forall tag :: tag in Repair(t, i, clones(i)).value.outbounds && tag !in s.outbounds ==>
              Repair(t, i, clones(i)).value.outbounds[tag].kind == "socks" && IsClone(clones, i + 1, tag)
  {
    var tag := s.items[i].ipv4OutboundTag;
    assert t.items[i] == s.items[i] && clones(i) !in t.outbounds;
    assert tag in t.outbounds ==> t.outbounds[tag].kind == "socks";
    assert IsClone(clones, i + 1, clones(i));
    forall other
      ensures IsClone(clones, i, other) ==> IsClone(clones, i + 1, other)
    {
    }
  }

  ghost predicate IsClone(clones: nat -> string, n: nat, tag: string) {
    exists i: nat :: i < n && clones(i) == tag
  }
}
