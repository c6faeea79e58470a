// Creation of a relay pool: addresses, rows, route rules and the running core
// come into being together or not at all.
module RelayCreation {
  import opened RelayItems
  import opened RelayPanel
  import PortRange
  import RouteRules
  import RouteMeaning

  // The validated request.
  datatype Request = Request(
    mode: Mode, addSystemAddresses: bool, appleIDIPv4Only: bool, strategy: string,
    portStart: int, upstreams: nat, other: string)

  // The random tags an item's rows are given.
  datatype Names = Names(inbound: string, outbound: string, ipv4: string, dual: string, client: string)

  // ------------------------------------------------------------ the rows

  function MainOutbound(req: Request, item: RelayItem): Outbound {
    if req.mode.UpstreamMode? then Outbound("socks", None, "", Some(item.upstream), "")
    else
      var ipv6Only := req.mode.DualStackMode? || req.appleIDIPv4Only || req.strategy == "";
      Outbound("direct", BindOf(item), if ipv6Only then IPV6_ONLY else req.strategy, None, "")
  }

  function FallbackOutbound(names: Names): Outbound {
    Outbound("relay-fallback", None, "", None, names.outbound + "\n" + names.ipv4)
  }

  // Tags are unique in the tables.
  predicate TagsFree(t: Tables, req: Request, names: Names) {
    && names.inbound !in t.inbounds && names.outbound !in t.outbounds
    && (req.mode.PairsUpstream() ==> names.ipv4 !in t.outbounds && names.ipv4 != names.outbound)
    && (req.mode.DualStackMode? ==>
        names.dual !in t.outbounds && names.dual != names.outbound && names.dual != names.ipv4)
  }

  // One item's rows: inbound, outbounds and client.
  function ItemOutbounds(req: Request, item: RelayItem, names: Names): map<string, Outbound> {
    map[names.outbound := MainOutbound(req, item)]
    + (if req.mode.PairsUpstream() then map[names.ipv4 := ProxyOutbound(item)] else map[])
    + (if req.mode.DualStackMode? then map[names.dual := FallbackOutbound(names)] else map[])
  }

  function WithItem(t: Tables, req: Request, item: RelayItem, port: int, names: Names): Tables {
    t.(inbounds := t.inbounds[names.inbound := Inbound(port, item.other)],
       outbounds := t.outbounds + ItemOutbounds(req, item, names),
       clients := t.clients + [ClientRow(names.client, names.inbound)])
  }

  // The item with the tags of its rows.
  function TaggedItem(req: Request, item: RelayItem, names: Names): RelayItem {
    item.(inboundTag := names.inbound,
          outboundTag := if req.mode.DualStackMode? then names.dual else names.outbound,
          ipv6OutboundTag := if req.mode.DualStackMode? then names.outbound else item.ipv6OutboundTag,
          ipv4OutboundTag := if req.mode.PairsUpstream() then names.ipv4 else item.ipv4OutboundTag,
          appleIDIPv4Only := if req.mode.PairsUpstream() then req.appleIDIPv4Only else item.appleIDIPv4Only)
  }

  function InsertItems(t: Tables, req: Request, items: seq<RelayItem>, portStart: int,
      names: nat -> Names): Result<(Tables, seq<RelayItem>)> {
    if items == [] then Success((t, []))
    else
      var n := |items| - 1;
      InsertAfter(InsertItems(t, req, items[..n], portStart, names), req, items[n], portStart + n, names(n))
  }

  function InsertAfter(before: Result<(Tables, seq<RelayItem>)>, req: Request, item: RelayItem, port: int,
      names: Names): Result<(Tables, seq<RelayItem>)> {
    match before
    case Failure(e) => Failure(e)
    case Success(rows) => Inserting(rows.0, rows.1, req, item, port, names)
  }

  // What an insertion of a batch says about its last item.
  lemma LastInserted(t: Tables, req: Request, items: seq<RelayItem>, portStart: int, names: nat -> Names, now: Tables,
                     done: seq<RelayItem>) returns (mid: Tables, before: seq<RelayItem>)
    requires items != [] && InsertItems(t, req, items, portStart, names) == Success((now, done))
    ensures var n := |items| - 1;
            && InsertItems(t, req, items[..n], portStart, names) == Success((mid, before))
            && TagsFree(mid, req, names(n)) && now == WithItem(mid, req, items[n], portStart + n, names(n))
            && done == before + [TaggedItem(req, items[n], names(n))]
  {
    var n := |items| - 1;
    var rows := InsertItems(t, req, items[..n], portStart, names).value;
    mid, before := rows.0, rows.1;
  }

  function Inserting(t: Tables, done: seq<RelayItem>, req: Request, item: RelayItem, port: int,
      names: Names): Result<(Tables, seq<RelayItem>)> {
    if TagsFree(t, req, names) then
      Success((WithItem(t, req, item, port, names), done + [TaggedItem(req, item, names)]))
    else Failure("UNIQUE constraint failed")
  }

  // The statements for one item; each insertion fails on a tag already there.
  method InsertRow(t: Tables, req: Request, item0: RelayItem, port: int, names: Names)
      returns (ok: bool, now: Tables, item: RelayItem)
    ensures ok <==> TagsFree(t, req, names)
    ensures ok ==> now == WithItem(t, req, item0, port, names) && item == TaggedItem(req, item0, names)
  {
    ok, now, item := false, t, item0;
    if names.inbound in t.inbounds {
      return;
    }
    var inbounds, outbounds := t.inbounds[names.inbound := Inbound(port, item0.other)], t.outbounds;
    item := item.(inboundTag := names.inbound);
    if names.outbound in outbounds {
      return;
    }
    outbounds := outbounds[names.outbound := MainOutbound(req, item0)];
    item := item.(outboundTag := names.outbound);
    if req.mode.PairsUpstream() {
      item := item.(appleIDIPv4Only := req.appleIDIPv4Only);
      if names.ipv4 in outbounds {
        return;
      }
      outbounds := outbounds[names.ipv4 := ProxyOutbound(item0)];
      item := item.(ipv4OutboundTag := names.ipv4);
      if req.mode.DualStackMode? {
        item := item.(ipv6OutboundTag := names.outbound);
        if names.dual in outbounds {
          return;
        }
        outbounds := outbounds[names.dual := FallbackOutbound(names)];
        item := item.(outboundTag := names.dual);
      }
    }
    assert outbounds == t.outbounds + ItemOutbounds(req, item0, names);
    ok, now := true,
        t.(inbounds := inbounds, outbounds := outbounds,
        clients := t.clients + [ClientRow(names.client, names.inbound)]);
  }

  function UsedPorts(t: Tables): set<int> {
    set tag | tag in t.inbounds && t.inbounds[tag].port > 0 :: t.inbounds[tag].port
  }

  // Everything the creation transaction writes, apart from the change log.
  function Draft(t: Tables, req: Request, items: seq<RelayItem>, portStart: int, names: nat -> Names,
      pool: nat): Result<(Tables, seq<RelayItem>)> {
    match InsertItems(t, req, items, portStart, names)
    case Failure(e) => Failure(e)
    case Success(rows) => Finished(rows.0, rows.1, req, pool)
  }

  function Finished(t: Tables, items: seq<RelayItem>, req: Request, pool: nat): Result<(Tables, seq<RelayItem>)> {
    if pool in t.pools then Failure("UNIQUE constraint failed")
    else match RouteRules.Updated(t.settings, items, req.strategy == IPV6_ONLY, false)
      case Failure(e) => Failure(e)
      case Success(settings) =>
        Success((t.(pools := t.pools[pool := Pool(req.mode, items, false, 0, 0, 0, req.other)],
                    links := NewLinks(pool, items) + t.links,
                    settings := settings),
                 items))
  }

  // Refresh links for the items with an address, where there are none yet.
  function NewLinks(pool: nat, items: seq<RelayItem>): map<(nat, string), int> {
    map i | 0 <= i < |items| && !items[i].ipv6.NoAddress? && items[i].inboundTag != "" ::
      (pool, items[i].inboundTag) := 0
  }

  method InsertNext(ghost t: Tables, rows: (Tables, seq<RelayItem>), req: Request, items: seq<RelayItem>,
      portStart: int, names: nat -> Names, i: nat)
      returns (r: Result<(Tables, seq<RelayItem>)>)
    requires i < |items| && InsertItems(t, req, items[..i], portStart, names) == Success(rows)
    ensures r == InsertItems(t, req, items[..i + 1], portStart, names)
    ensures r.Failure? ==> r.error == "UNIQUE constraint failed"
  {
    r := Insert(rows.0, rows.1, req, items[i], portStart + i, names(i));
    InsertStep(t, req, items, portStart, names, i, rows, r);
  }

  method Insert(t: Tables, done: seq<RelayItem>, req: Request, item: RelayItem, port: int, names: Names)
      returns (r: Result<(Tables, seq<RelayItem>)>)
    ensures r == Inserting(t, done, req, item, port, names)
    ensures r.Failure? ==> r.error == "UNIQUE constraint failed"
  {
    var ok, now, tagged := InsertRow(t, req, item, port, names);
    if ok {
      r := Success((now, done + [tagged]));
    } else {
      r := Failure("UNIQUE constraint failed");
    }
  }

  method InsertRows(t: Tables, req: Request, items: seq<RelayItem>, portStart: int, names: nat -> Names)
      returns (r: Result<(Tables, seq<RelayItem>)>)
    ensures r == InsertItems(t, req, items, portStart, names)
  {
    var rows: (Tables, seq<RelayItem>) := (t, []);
    for i := 0 to |items|
      invariant InsertItems(t, req, items[..i], portStart, names) == Success(rows)
    {
      var next := InsertNext(t, rows, req, items, portStart, names, i);
      if next.Failure? {
        InsertionFails(t, req, items, portStart, names, i + 1);
        return next;
      }
      rows := next.value;
    }
    assert items[..|items|] == items;
    return Success(rows);
  }

  lemma InsertStep(t: Tables, req: Request, items: seq<RelayItem>, portStart: int, names: nat -> Names, i: nat,
                   rows: (Tables, seq<RelayItem>), next: Result<(Tables, seq<RelayItem>)>)
    requires i < |items| && InsertItems(t, req, items[..i], portStart, names) == Success(rows)
    requires next == Inserting(rows.0, rows.1, req, items[i], portStart + i, names(i))
    ensures InsertItems(t, req, items[..i + 1], portStart, names) == next
  {
    assert items[..i + 1][..i] == items[..i];
  }

  lemma {:induction false} InsertionFails(t: Tables, req: Request, items: seq<RelayItem>, portStart: int,
      names: nat -> Names, n: nat)
    requires n <= |items| && InsertItems(t, req, items[..n], portStart, names) == Failure("UNIQUE constraint failed")
    ensures InsertItems(t, req, items, portStart, names) == Failure("UNIQUE constraint failed")
    decreases |items|
  {
    if n == |items| {
      assert items[..n] == items;
    } else {
      assert items[..|items| - 1][..n] == items[..n];
      InsertionFails(t, req, items[..|items| - 1], portStart, names, n);
    }
  }

  ghost predicate Tagged(names: nat -> Names) {
    forall i :: names(i).inbound != "" && names(i).outbound != "" && names(i).dual != ""
  }

  // `now` is `t` with one more item in it, and `done` is that item with its tags.
  ghost predicate InsertedOne(req: Request, t: Tables, now: Tables, item: RelayItem, done: RelayItem, port: int) {
    && now.settings == t.settings && now.pools == t.pools && now.links == t.links && now.changes == t.changes
    && done.inboundTag !in t.inbounds && RouteRules.Eligible(done) && done.ipv6 == item.ipv6
    && now.inbounds == t.inbounds[done.inboundTag := Inbound(port, item.other)]
    && Extends(t.outbounds, now.outbounds, item) && HasEgress(req, now.outbounds, item, done)
    && t.clients <= now.clients && |now.clients| == |t.clients| + 1
        && now.clients[|t.clients|].inbound == done.inboundTag
  }

  // The outbounds an item's tags name: one sending from its own address or to
  // its own upstream, in paired modes another one to its upstream, and in
  // dual-stack mode a third that falls back from the first to the second.
  ghost predicate HasEgress(req: Request, outbounds: map<string, Outbound>, item: RelayItem, done: RelayItem) {
    var own := if req.mode.DualStackMode? then done.ipv6OutboundTag else done.outboundTag;
    && own in outbounds
    && (if req.mode.UpstreamMode? then SendsUpstream(outbounds[own], item)
        else SendsDirect(outbounds[own], item,
                         if req.mode.DualStackMode? || req.appleIDIPv4Only || req.strategy == "" then "ipv6_only"
                         else req.strategy))
    && (req.mode.PairedMode? || req.mode.DualStackMode? ==>
        done.ipv4OutboundTag in outbounds && SendsUpstream(outbounds[done.ipv4OutboundTag], item)
        && outbounds[done.ipv4OutboundTag].strategy == "ipv4_only")
    && (req.mode.DualStackMode? ==>
        && done.outboundTag in outbounds && outbounds[done.outboundTag].kind == "relay-fallback"
        && outbounds[done.outboundTag].other == done.ipv6OutboundTag + "\n" + done.ipv4OutboundTag)
  }

  predicate SendsUpstream(o: Outbound, item: RelayItem) {
    o.kind == "socks" && o.upstream == Some(item.upstream) && o.bind == None
  }

  predicate SendsDirect(o: Outbound, item: RelayItem, strategy: string) {
    && o.kind == "direct" && o.strategy == strategy
    && (o.bind.Some? <==> item.ipv6.Valid?) && (item.ipv6.Valid? ==> o.bind.value == item.ipv6.addr)
  }

  // New outbounds bind the item's address or nothing.
  ghost predicate Extends(was: map<string, Outbound>, now: map<string, Outbound>, item: RelayItem) {
    && (forall tag :: tag in was ==> tag in now && now[tag] == was[tag])
    && (forall tag :: tag in now && tag !in was && now[tag].bind.Some? ==> now[tag].bind == BindOf(item))
  }

  lemma InsertItemIsExact(t: Tables, req: Request, item: RelayItem, port: int, names: Names)
    requires TagsFree(t, req, names) && names.inbound != "" && names.outbound != "" && names.dual != ""
    ensures InsertedOne(req, t, WithItem(t, req, item, port, names), item, TaggedItem(req, item, names), port)
  {
    NewOutboundsExtend(t, req, item, names);
    NewOutboundsServe(t.outbounds, req, item, names);
  }

  lemma NewOutboundsServe(outbounds: map<string, Outbound>, req: Request, item: RelayItem, names: Names)
    requires req.mode.PairsUpstream() ==> names.ipv4 != names.outbound
    requires req.mode.DualStackMode? ==> names.dual != names.outbound && names.dual != names.ipv4
    ensures HasEgress(req, outbounds + ItemOutbounds(req, item, names), item, TaggedItem(req, item, names))
  {
  }

  lemma NewOutboundsExtend(t: Tables, req: Request, item: RelayItem, names: Names)
    requires TagsFree(t, req, names)
    ensures Extends(t.outbounds, t.outbounds + ItemOutbounds(req, item, names), item)
  {
    var own := ItemOutbounds(req, item, names);
    assert own.Keys !! t.outbounds.Keys;
    assert forall tag :: tag in own ==> own[tag].bind == None || own[tag].bind == BindOf(item);
  }

  // What inserting a batch does: every item gets an inbound of its own on its
  // own port and a client row of its own, both new to the tables, the outbounds
  // its tags name are its own, and only the items' addresses become bound.
  ghost predicate Inserted(req: Request, t: Tables, now: Tables, items: seq<RelayItem>, done: seq<RelayItem>,
      portStart: int) {
    && |done| == |items|
    && now.settings == t.settings && now.pools == t.pools && now.links == t.links && now.changes == t.changes
    && (forall tag :: tag in t.inbounds ==> tag in now.inbounds && now.inbounds[tag] == t.inbounds[tag])
    && (forall tag :: tag in t.outbounds ==> tag in now.outbounds && now.outbounds[tag] == t.outbounds[tag])
    && EachInserted(req, t, now, items, done, portStart)
    && t.clients <= now.clients && |now.clients| == |t.clients| + |items|
    && (forall k :: 0 <= k < |done| ==> now.clients[|t.clients| + k].inbound == done[k].inboundTag)
    && NewBinds(t.outbounds, now.outbounds, items)
  }

  ghost predicate EachInserted(req: Request, t: Tables, now: Tables, items: seq<RelayItem>, done: seq<RelayItem>,
      portStart: int)
    requires |done| == |items|
  {
    && (forall k :: 0 <= k < |done| ==> ItemInserted(req, t, now, items[k], done[k], portStart + k))
    && RouteRules.DistinctInbounds(done)
  }

  ghost predicate ItemInserted(req: Request, t: Tables, now: Tables, item: RelayItem, done: RelayItem, port: int) {
    && RouteRules.Eligible(done) && done.ipv6 == item.ipv6 && HasEgress(req, now.outbounds, item, done)
    && done.inboundTag !in t.inbounds
    && done.inboundTag in now.inbounds && now.inbounds[done.inboundTag] == Inbound(port, item.other)
  }

  lemma {:induction false} InsertionIsExact(t: Tables, req: Request, items: seq<RelayItem>, portStart: int,
      names: nat -> Names, now: Tables, done: seq<RelayItem>)
    requires InsertItems(t, req, items, portStart, names) == Success((now, done)) && Tagged(names)
    ensures Inserted(req, t, now, items, done, portStart)
  {
    if items != [] {
      var n := |items| - 1;
      var mid, before := LastInserted(t, req, items, portStart, names, now, done);
      InsertionIsExact(t, req, items[..n], portStart, names, mid, before);
      InsertItemIsExact(mid, req, items[n], portStart + n, names(n));
      var last := TaggedItem(req, items[n], names(n));
      assert done == before + [last];
      InsertedStep(req, t, mid, now, items, before, last, done, portStart);
    } else {
      NothingInserted(req, t, portStart);
    }
  }

  lemma NothingInserted(req: Request, t: Tables, portStart: int)
    ensures Inserted(req, t, t, [], [], portStart)
  {
  }

  lemma InsertedStep(req: Request, t: Tables, mid: Tables, now: Tables, items: seq<RelayItem>, done: seq<RelayItem>,
                     last: RelayItem, all: seq<RelayItem>, portStart: int)
    requires all == done + [last] && items != [] && Inserted(req, t, mid, items[..|items| - 1], done, portStart)
    requires InsertedOne(req, mid, now, items[|items| - 1], last, portStart + |items| - 1)
    ensures Inserted(req, t, now, items, all, portStart)
  {
    ItemsStayInserted(req, t, mid, now, items, done, last, all, portStart);
    NewBindsHeld(t.outbounds, mid.outbounds, now.outbounds, items);
  }

  lemma ItemsStayInserted(req: Request, t: Tables, mid: Tables, now: Tables, items: seq<RelayItem>,
                          done: seq<RelayItem>, last: RelayItem, all: seq<RelayItem>, portStart: int)
    requires all == done + [last] && |items| == |all| && t.inbounds.Keys <= mid.inbounds.Keys
    requires EachInserted(req, t, mid, items[..|items| - 1], done, portStart)
    requires InsertedOne(req, mid, now, items[|items| - 1], last, portStart + |items| - 1)
    ensures EachInserted(req, t, now, items, all, portStart)
  {
    var n := |items| - 1;
    forall k | 0 <= k < |items|
      ensures ItemInserted(req, t, now, items[k], all[k], portStart + k)
      ensures k < n ==> all[k].inboundTag != last.inboundTag
    {
      if k < n {
        assert ItemInserted(req, t, mid, items[..n][k], done[k], portStart + k);
        StaysInserted(req, t, mid, now, items[k], done[k], portStart + k, items[n], last, portStart + n);
      }
    }
  }

  lemma StaysInserted(req: Request, t: Tables, mid: Tables, now: Tables, item: RelayItem, done: RelayItem, port: int,
                      next: RelayItem, last: RelayItem, lastPort: int)
    requires ItemInserted(req, t, mid, item, done, port) && InsertedOne(req, mid, now, next, last, lastPort)
    ensures ItemInserted(req, t, now, item, done, port)
  {
  }

  // Only the items' addresses become bound.
  ghost predicate NewBinds(was: map<string, Outbound>, now: map<string, Outbound>, items: seq<RelayItem>) {
    forall tag :: tag in now && tag !in was && now[tag].bind.Some? ==> Holds(items, now[tag].bind.value)
  }

  lemma NewBindsHeld(was: map<string, Outbound>, mid: map<string, Outbound>, now: map<string, Outbound>,
                     items: seq<RelayItem>)
    requires items != [] && NewBinds(was, mid, items[..|items| - 1]) && Extends(mid, now, items[|items| - 1])
    ensures NewBinds(was, now, items)
  {
    var n := |items| - 1;
    forall tag | tag in now && tag !in was && now[tag].bind.Some?
      ensures Holds(items, now[tag].bind.value)
    {
      var a := now[tag].bind.value;
      if tag in mid {
        var i :| 0 <= i < n && items[..n][i].ipv6 == Valid(a);
        assert items[i].ipv6 == Valid(a);
      } else {
        assert items[n].ipv6 == Valid(a);
      }
    }
  }

  ghost predicate Holds(items: seq<RelayItem>, a: Address) {
    exists i :: 0 <= i < |items| && items[i].ipv6 == Valid(a)
  }

  lemma AllEligible(req: Request, t: Tables, now: Tables, items: seq<RelayItem>, done: seq<RelayItem>, portStart: int)
    requires Inserted(req, t, now, items, done, portStart)
    ensures RouteRules.DistinctInbounds(done) && forall k :: 0 <= k < |done| ==> RouteRules.Eligible(done[k])
  {
    forall k | 0 <= k < |done|
      ensures RouteRules.Eligible(done[k])
    {
      assert ItemInserted(req, t, now, items[k], done[k], portStart + k);
    }
  }

  // MAIN: once a pool is created, every one of its items gives its intended egress.
  lemma CreatedPoolRoutes(t: Tables, req: Request, items: seq<RelayItem>, portStart: int, names: nat -> Names,
      pool: nat, now: Tables, done: seq<RelayItem>, k: nat, conn: RouteMeaning.Connection, env: RouteMeaning.Env)
    requires Draft(t, req, items, portStart, names, pool) == Success((now, done)) && Tagged(names) && k < |items|
    ensures |done| == |items|
    ensures conn.inbound == done[k].inboundTag ==>
              RouteMeaning.Route(now.settings, conn, env)
              == RouteMeaning.Intended(done[k], req.strategy == IPV6_ONLY, conn.dest, env)
  {
    var rows := InsertItems(t, req, items, portStart, names).value;
    InsertionIsExact(t, req, items, portStart, names, rows.0, rows.1);
    if conn.inbound == done[k].inboundTag {
      AllEligible(req, t, rows.0, items, done, portStart);
      RouteMeaning.AddedPoolMeaning(rows.0.settings, done, req.strategy == IPV6_ONLY, k, conn, env);
    }
  }

  // ------------------------------------------------------ the addresses

  // Which items have to be added to the system: those whose address is neither
  // assigned already nor added for an earlier item.
  predicate Missing(item: RelayItem, existing: set<Address>) {
    item.ipv6.BadAddress? || (item.ipv6.Valid? && item.ipv6.addr !in existing)
  }

  function Addresses(items: seq<RelayItem>): set<Address> {
    set i | 0 <= i < |items| && items[i].ipv6.Valid? :: items[i].ipv6.addr
  }

  function Flagged(items: seq<RelayItem>, existing: set<Address>): (r: seq<RelayItem>)
    ensures |r| == |items|
  {
    if items == [] then []
    else
      var n := |items| - 1;
      var last := items[n];
      Flagged(items[..n], existing)
        + [if Missing(last, existing + Addresses(items[..n])) then last.(addedByUs := true) else last]
  }

  function ToAdd(items: seq<RelayItem>, existing: set<Address>): seq<RelayItem> {
    if items == [] then []
    else
      var n := |items| - 1;
      var last := items[n];
      ToAdd(items[..n], existing)
        + if Missing(last, existing + Addresses(items[..n])) then [last.(addedByUs := true)] else []
  }

  lemma AddressesStep(items: seq<RelayItem>, n: nat)
    requires n < |items|
    ensures Addresses(items[..n + 1])
              == Addresses(items[..n]) + if items[n].ipv6.Valid? then {items[n].ipv6.addr} else {}
  {
    assert items[..n + 1] == items[..n] + [items[n]];
    forall a | a in Addresses(items[..n])
      ensures a in Addresses(items[..n + 1])
    {
      var i :| 0 <= i < n && items[..n][i].ipv6 == Valid(a);
      assert items[..n + 1][i].ipv6 == Valid(a);
    }
    assert items[..n + 1][n] == items[n];
    forall a | a in Addresses(items[..n + 1])
      ensures a in Addresses(items[..n]) || items[n].ipv6 == Valid(a)
    {
      var i :| 0 <= i <= n && items[..n + 1][i].ipv6 == Valid(a);
      if i < n { assert items[..n][i].ipv6 == Valid(a); }
    }
  }

  predicate AddableItem(item: RelayItem) {
    item.ipv6.NoAddress? || (item.ipv6.Valid? && item.iface != "" && 1 <= item.prefix <= 128)
  }

  predicate Addable(items: seq<RelayItem>) {
    forall i :: 0 <= i < |items| ==> AddableItem(items[i])
  }

  // Since position `start` the core kept running and the kernel kept `kernel`.
  ghost predicate Calm(trace: seq<Moment>, start: nat, running: Option<CoreConfig>, kernel: set<KernelEntry>) {
    forall i :: start <= i < |trace| ==> trace[i].running == running && kernel <= trace[i].kernel
  }

  lemma StaysCalm(trace: seq<Moment>, now: seq<Moment>, start: nat, running: Option<CoreConfig>,
      kernel: set<KernelEntry>, later: set<KernelEntry>)
    requires Calm(trace, start, running, kernel) && start <= |trace| && trace <= now
    requires Calm(now, |trace|, running, later) && kernel <= later
    ensures Calm(now, start, running, kernel)
  {
    forall i | start <= i < |now|
      ensures now[i].running == running && kernel <= now[i].kernel
    {
      if i < |trace| { assert now[i] == trace[i]; }
    }
  }

  // One item: nothing to do, or its address is added.
  method AssignOne(p: Panel, item: RelayItem, existing: set<Address>, allowed: bool, works: bool) returns (ok: bool)
    requires existing <= Assigned(p.kernel)
    modifies p`kernel, p`trace
    ensures ok && Missing(item, existing) ==> allowed && item.ipv6.Valid?
    ensures p.kernel == old(p.kernel) + if ok && Missing(item, existing) then Entry(item) else {}
    ensures ok && Missing(item, existing) ==> Entry(item) !! old(p.kernel)
    ensures ok && item.ipv6.Valid? ==> item.ipv6.addr in Assigned(p.kernel)
    ensures existing <= Assigned(p.kernel)
    ensures allowed && works && AddableItem(item) && Assigned(old(p.kernel)) <= existing ==> ok
    ensures Assigned(old(p.kernel)) <= existing && item.ipv6.Valid? ==>
              Assigned(p.kernel) <= existing + {item.ipv6.addr}
    ensures Assigned(old(p.kernel)) <= existing && !item.ipv6.Valid? ==> Assigned(p.kernel) <= existing
    ensures old(p.trace) <= p.trace && Calm(p.trace, |old(p.trace)|, p.running, old(p.kernel))
  {
    ok := true;
    if !Missing(item, existing) {
      return;
    }
    if !allowed {
      ok := false;
      return;
    }
    ghost var before := p.kernel;
    ok := p.AddAddress(item, works);
    assert Assigned(before) <= Assigned(p.kernel);
    if ok {
      assert (item.iface, item.ipv6.addr) in p.kernel;
    }
  }

  lemma FlaggedStep(items: seq<RelayItem>, n: nat, detected: set<Address>)
    requires n < |items|
    ensures var missing, item := Missing(items[n], detected + Addresses(items[..n])), items[n].(addedByUs := true);
            && Flagged(items[..n + 1], detected) == Flagged(items[..n], detected) + [if missing then item else items[n]]
            && ToAdd(items[..n + 1], detected) == ToAdd(items[..n], detected) + (if missing then [item] else [])
            && Entries(ToAdd(items[..n], detected) + [item]) == Entries(ToAdd(items[..n], detected)) + Entry(items[n])
  {
    assert items[..n + 1][..n] == items[..n];
    var added := ToAdd(items[..n], detected);
    assert (added + [items[n].(addedByUs := true)])[..|added|] == added;
  }

  // The first n items are dealt with: kernel and lists are as they should be.
  ghost predicate Progress(start: set<KernelEntry>, kernel: set<KernelEntry>, items: seq<RelayItem>, n: nat,
      detected: set<Address>, allowed: bool, existing: set<Address>, done: seq<RelayItem>, added: seq<RelayItem>)
    requires n <= |items|
  {
    && done == Flagged(items[..n], detected) && added == ToAdd(items[..n], detected)
    && (allowed || added == [])
    && existing == detected + Addresses(items[..n]) && existing <= Assigned(kernel)
    && (Assigned(start) <= detected ==> Assigned(kernel) <= existing)
    && kernel == start + Entries(added) && Entries(added) !! start
  }

  lemma ProgressStart(start: set<KernelEntry>, items: seq<RelayItem>, detected: set<Address>, allowed: bool)
    requires detected <= Assigned(start)
    ensures Progress(start, start, items, 0, detected, allowed, detected, [], [])
  {
    assert Addresses(items[..0]) == {};
  }

  lemma ProgressEnd(start: set<KernelEntry>, kernel: set<KernelEntry>, items: seq<RelayItem>, detected: set<Address>,
                    allowed: bool, existing: set<Address>, done: seq<RelayItem>, added: seq<RelayItem>)
    requires Progress(start, kernel, items, |items|, detected, allowed, existing, done, added)
    ensures done == Flagged(items, detected) && added == ToAdd(items, detected)
    ensures (allowed || ToAdd(items, detected) == []) && Addresses(items) <= Assigned(kernel)
    ensures kernel == start + Entries(added) && Entries(added) !! start
  {
    assert items[..|items|] == items;
  }

  lemma ProgressStep(start: set<KernelEntry>, kernel: set<KernelEntry>, later: set<KernelEntry>, items: seq<RelayItem>,
      n: nat, detected: set<Address>, allowed: bool, existing: set<Address>, done: seq<RelayItem>,
      added: seq<RelayItem>)
    requires n < |items| && Progress(start, kernel, items, n, detected, allowed, existing, done, added)
    requires var item := items[n];
             && (Missing(item, existing) ==> allowed && item.ipv6.Valid? && Entry(item) !! kernel)
             && later == kernel + (if Missing(item, existing) then Entry(item) else {})
             && (item.ipv6.Valid? ==> item.ipv6.addr in Assigned(later)) && existing <= Assigned(later)
             && (Assigned(kernel) <= existing ==>
                 Assigned(later) <= existing + if item.ipv6.Valid? then {item.ipv6.addr} else {})
    ensures var item := items[n];
            var flagged := if Missing(item, existing) then item.(addedByUs := true) else item;
            Progress(start, later, items, n + 1, detected, allowed,
                existing + (if item.ipv6.Valid? then {item.ipv6.addr} else {}),
                     done + [flagged], added + if Missing(item, existing) then [flagged] else [])
  {
    AddressesStep(items, n);
    FlaggedStep(items, n, detected);
    if Missing(items[n], existing) {
      assert Entries(added + [items[n].(addedByUs := true)]) == Entries(added) + Entry(items[n]);
    } else {
      assert added + [] == added;
    }
  }

  method AssignNext(p: Panel, items: seq<RelayItem>, n: nat, ghost detected: set<Address>, existing: set<Address>,
      allowed: bool, works: bool, ghost start: set<KernelEntry>, ghost done: seq<RelayItem>,
      ghost added: seq<RelayItem>) returns (ok: bool)
    requires n < |items| && Progress(start, p.kernel, items, n, detected, allowed, existing, done, added)
    modifies p`kernel, p`trace
    ensures ok ==>
              var flagged := if Missing(items[n], existing) then items[n].(addedByUs := true) else items[n];
              Progress(start, p.kernel, items, n + 1, detected, allowed,
                  existing + (if items[n].ipv6.Valid? then {items[n].ipv6.addr} else {}),
                       done + [flagged], added + if Missing(items[n], existing) then [flagged] else [])
    ensures !ok ==> p.kernel == old(p.kernel)
    ensures allowed && works && AddableItem(items[n]) && Assigned(start) <= detected ==> ok
    ensures old(p.trace) <= p.trace && Calm(p.trace, |old(p.trace)|, p.running, old(p.kernel))
              && old(p.kernel) <= p.kernel
  {
    ok := AssignOne(p, items[n], existing, allowed, works);
    if ok {
      ProgressStep(start, old(p.kernel), p.kernel, items, n, detected, allowed, existing, done, added);
    }
  }

  // Putting the batch's addresses on the system.
  method AssignAddresses(p: Panel, items: seq<RelayItem>, detected: set<Address>, allowed: bool, works: nat -> bool)
      returns (ok: bool, done: seq<RelayItem>, added: seq<RelayItem>)
    requires detected <= Assigned(p.kernel)
    modifies p`kernel, p`trace
    ensures ok ==> done == Flagged(items, detected) && added == ToAdd(items, detected)
    ensures ok ==> allowed || ToAdd(items, detected) == []
    ensures allowed && (forall i :: works(i)) && Addable(items) && Assigned(old(p.kernel)) <= detected ==> ok
    ensures ok ==> Addresses(items) <= Assigned(p.kernel)
    ensures p.kernel == old(p.kernel) + Entries(added) && Entries(added) !! old(p.kernel)
    ensures old(p.trace) <= p.trace && Calm(p.trace, |old(p.trace)|, p.running, old(p.kernel))
  {
    done, added := [], [];
    var existing := detected;
    ok := true;
    var n := 0;
    ProgressStart(p.kernel, items, detected, allowed);
    while n < |items|
      invariant 0 <= n <= |items| && ok
      invariant Progress(old(p.kernel), p.kernel, items, n, detected, allowed, existing, done, added)
      invariant old(p.trace) <= p.trace && Calm(p.trace, |old(p.trace)|, p.running, old(p.kernel))
    {
      ghost var trace, before := p.trace, p.kernel;
      var item := items[n];
      var missing := Missing(item, existing);
      ok := AssignNext(p, items, n, detected, existing, allowed, works(n), old(p.kernel), done, added);
      StaysCalm(trace, p.trace, |old(p.trace)|, p.running, old(p.kernel), before);
      if !ok {
        return;
      }
      existing := existing + (if item.ipv6.Valid? then {item.ipv6.addr} else {});
      item := if missing then item.(addedByUs := true) else item;
      added := added + if missing then [item] else [];
      done := done + [item];
      n := n + 1;
    }
    ProgressEnd(old(p.kernel), p.kernel, items, detected, allowed, existing, done, added);
  }

  // ------------------------------------------------------------ the outcome

  // The new inbounds listen on consecutive ports that nobody had, starting as
  // low as the request allows.
  ghost predicate PortsChosen(was: map<string, Inbound>, now: map<string, Inbound>, done: seq<RelayItem>,
                              preferred: int) {
    exists start :: PortsFrom(was, now, done, preferred, start)
  }

  ghost predicate PortsFrom(was: map<string, Inbound>, now: map<string, Inbound>, done: seq<RelayItem>,
                            preferred: int, start: int) {
    && 1 <= preferred <= start && start + |done| - 1 <= 65535
    && (forall k :: 0 <= k < |done| ==>
          done[k].inboundTag in now && now[done[k].inboundTag].port == start + k)
    && (forall tag :: tag in was ==> !(start <= was[tag].port < start + |done|))
    && (forall s :: preferred <= s < start ==> Blocked(was, s, |done|))
  }

  ghost predicate Blocked(was: map<string, Inbound>, start: int, count: nat) {
    exists tag :: tag in was && start <= was[tag].port < start + count
  }

  lemma UsedPortsBlock(t: Tables, start: int, count: nat)
    requires start >= 1
    ensures PortRange.RangeFree(UsedPorts(t), start, count) <==> !Blocked(t.inbounds, start, count)
  {
    if Blocked(t.inbounds, start, count) {
      var tag :| tag in t.inbounds && start <= t.inbounds[tag].port < start + count;
      assert t.inbounds[tag].port in UsedPorts(t);
    }
  }

  lemma FirstFitIsChosen(t: Tables, preferred: int, count: nat)
    requires PortRange.RangeRequested(preferred, count)
    ensures match PortRange.FirstFit(UsedPorts(t), preferred, count)
            case Some(start) =>
              && preferred <= start && start + count - 1 <= 65535 && !Blocked(t.inbounds, start, count)
              && forall s :: preferred <= s < start ==> Blocked(t.inbounds, s, count)
            case None => forall s :: preferred <= s && s + count - 1 <= 65535 ==> Blocked(t.inbounds, s, count)
  {
    PortRange.FirstFitIsLeast(UsedPorts(t), preferred, count);
    forall s | s >= preferred
      ensures PortRange.RangeFree(UsedPorts(t), s, count) <==> !Blocked(t.inbounds, s, count)
    {
      UsedPortsBlock(t, s, count);
    }
  }

  // Item k has to be put on the system: its address is not there, and no
  // earlier item brings it.
  ghost predicate Lacks(items: seq<RelayItem>, existing: set<Address>, k: int)
    requires 0 <= k < |items|
  {
    || items[k].ipv6.BadAddress?
    || (items[k].ipv6.Valid? && items[k].ipv6.addr !in existing
        && forall j :: 0 <= j < k ==> items[j].ipv6 != items[k].ipv6)
  }

  // The stored item is the requested one with the tags of its rows.
  ghost predicate StoredItem(req: Request, item: RelayItem, done: RelayItem, lacks: bool) {
    done == item.(inboundTag := done.inboundTag, outboundTag := done.outboundTag,
                  ipv6OutboundTag := done.ipv6OutboundTag, ipv4OutboundTag := done.ipv4OutboundTag,
                  appleIDIPv4Only := if req.mode.PairedMode? || req.mode.DualStackMode? then req.appleIDIPv4Only
                                     else item.appleIDIPv4Only,
                  addedByUs := item.addedByUs || lacks)
  }

  ghost predicate NamesOutbound(item: RelayItem, tag: string) {
    tag == item.outboundTag || tag == item.ipv6OutboundTag || tag == item.ipv4OutboundTag
  }

  // The rows: the old ones are there unchanged, each item has its own inbound,
  // outbounds and client row, and there are no others.
  ghost predicate RowsCreated(was: Tables, now: Tables, req: Request, items: seq<RelayItem>, done: seq<RelayItem>)
    requires |items| == |done|
  {
    && OldRowsKept(was, now) && OnlyRowsOf(was, now, done) && ClientRowsOf(was, now, done)
    && (forall k :: 0 <= k < |done| ==> HasRows(was, now, req, items[k], done[k]))
    && (forall j, k :: 0 <= j < k < |done| ==> done[j].inboundTag != done[k].inboundTag)
  }

  ghost predicate OldRowsKept(was: Tables, now: Tables) {
    && (forall tag :: tag in was.inbounds ==> tag in now.inbounds && now.inbounds[tag] == was.inbounds[tag])
    && (forall tag :: tag in was.outbounds ==> tag in now.outbounds && now.outbounds[tag] == was.outbounds[tag])
  }

  ghost predicate HasRows(was: Tables, now: Tables, req: Request, item: RelayItem, done: RelayItem) {
    && done.inboundTag in now.inbounds && done.inboundTag !in was.inbounds
    && now.inbounds[done.inboundTag].other == item.other && HasEgress(req, now.outbounds, item, done)
  }

  ghost predicate OnlyRowsOf(was: Tables, now: Tables, done: seq<RelayItem>) {
    && (forall tag :: tag in now.inbounds && tag !in was.inbounds ==> ListensOne(done, tag))
    && (forall tag :: tag in now.outbounds && tag !in was.outbounds ==> NamedByOne(done, tag))
  }

  ghost predicate ListensOne(done: seq<RelayItem>, tag: string) {
    exists k :: 0 <= k < |done| && done[k].inboundTag == tag
  }

  ghost predicate NamedByOne(done: seq<RelayItem>, tag: string) {
    exists k :: 0 <= k < |done| && NamesOutbound(done[k], tag)
  }

  ghost predicate ClientRowsOf(was: Tables, now: Tables, done: seq<RelayItem>) {
    && was.clients <= now.clients && |now.clients| == |was.clients| + |done|
    && (forall k :: 0 <= k < |done| ==> now.clients[|was.clients| + k].inbound == done[k].inboundTag)
  }

  // The client rows carry the names chosen for the items.
  ghost predicate ClientsNamed(was: seq<ClientRow>, now: seq<ClientRow>, names: nat -> Names, n: nat) {
    |now| == |was| + n && forall k :: 0 <= k < n ==> now[|was| + k].name == names(k).client
  }

  lemma {:induction false} InsertionNamesClients(t: Tables, req: Request, items: seq<RelayItem>, portStart: int,
                                                 names: nat -> Names, now: Tables, done: seq<RelayItem>)
    requires InsertItems(t, req, items, portStart, names) == Success((now, done))
    ensures ClientsNamed(t.clients, now.clients, names, |items|)
  {
    if items != [] {
      var n := |items| - 1;
      var mid, before := LastInserted(t, req, items, portStart, names, now, done);
      InsertionNamesClients(t, req, items[..n], portStart, names, mid, before);
      OneMoreNamed(t.clients, mid.clients, names, n);
    }
  }

  lemma OneMoreNamed(was: seq<ClientRow>, now: seq<ClientRow>, names: nat -> Names, n: nat)
    requires ClientsNamed(was, now, names, n)
    ensures ClientsNamed(was, now + [ClientRow(names(n).client, names(n).inbound)], names, n + 1)
  {
  }

  ghost predicate LinksCreated(was: map<(nat, string), int>, now: map<(nat, string), int>, pool: nat,
                               done: seq<RelayItem>) {
    && (forall key :: key in now <==> key in was || (key.0 == pool && Linked(done, key.1)))
    && (forall key :: key in now ==> now[key] == if key in was then was[key] else 0)
  }

  ghost predicate Linked(done: seq<RelayItem>, inbound: string) {
    inbound != "" && exists k :: 0 <= k < |done| && done[k].inboundTag == inbound && !done[k].ipv6.NoAddress?
  }

  // Everything a creation commits to the tables, in their own terms.
  ghost predicate TablesCreated(was: Tables, now: Tables, req: Request, items: seq<RelayItem>, done: seq<RelayItem>,
                                existing: set<Address>, actor: string, pool: nat) {
    && pool !in was.pools && |done| == |items|
    && now == was.(settings := now.settings, inbounds := now.inbounds, outbounds := now.outbounds,
                   clients := now.clients, links := now.links,
                   pools := was.pools[pool := Pool(req.mode, done, false, 0, 0, 0, req.other)],
                   changes := was.changes + [Change(actor, "create", pool, |done|, "")])
    && (forall k :: 0 <= k < |done| ==> StoredItem(req, items[k], done[k], Lacks(items, existing, k)))
    && RowsCreated(was, now, req, items, done)
    && PortsChosen(was.inbounds, now.inbounds, done, req.portStart)
    && LinksCreated(was.links, now.links, pool, done)
    && RouteRules.ConfigUpdated(was.settings, now.settings, done, false)
  }

  // The kernel: the addresses that were lacking have come, nothing else.
  ghost predicate KernelCreated(was: set<KernelEntry>, now: set<KernelEntry>, items: seq<RelayItem>,
                                existing: set<Address>) {
    forall e :: e in now <==>
      e in was || exists k :: 0 <= k < |items| && Lacks(items, existing, k) && Occupies(items[k], e)
  }

  lemma MissingIsLacking(items: seq<RelayItem>, existing: set<Address>, k: nat)
    requires k < |items|
    ensures Missing(items[k], existing + Addresses(items[..k])) <==> Lacks(items, existing, k)
  {
    if items[k].ipv6.Valid? {
      assert items[k].ipv6.addr in Addresses(items[..k])
        <==> exists j :: 0 <= j < k && items[..k][j].ipv6 == items[k].ipv6;
    }
  }

  lemma {:induction false} FlaggedAt(items: seq<RelayItem>, existing: set<Address>)
    ensures forall k :: 0 <= k < |items| ==>
              Flagged(items, existing)[k]
              == items[k].(addedByUs := items[k].addedByUs || Lacks(items, existing, k))
  {
    if items != [] {
      var n := |items| - 1;
      FlaggedAt(items[..n], existing);
      forall k | 0 <= k < |items|
        ensures Flagged(items, existing)[k] == items[k].(addedByUs := items[k].addedByUs || Lacks(items, existing, k))
      {
        if k < n {
          LacksInPrefix(items, existing, n, k);
        } else {
          MissingIsLacking(items, existing, n);
        }
      }
    }
  }

  lemma LacksInPrefix(items: seq<RelayItem>, existing: set<Address>, n: nat, k: nat)
    requires k < n <= |items|
    ensures Lacks(items[..n], existing, k) <==> Lacks(items, existing, k)
  {
    assert forall j :: 0 <= j < n ==> items[..n][j] == items[j];
  }

  lemma {:induction false} ToAddEntries(items: seq<RelayItem>, existing: set<Address>, e: KernelEntry)
    ensures e in Entries(ToAdd(items, existing))
       <==> exists k :: 0 <= k < |items| && Lacks(items, existing, k) && Occupies(items[k], e)
  {
    if items != [] {
      var n := |items| - 1;
      ToAddEntries(items[..n], existing, e);
      MissingIsLacking(items, existing, n);
      ToAddGrows(items, existing);
      forall k | 0 <= k < n
        ensures Lacks(items[..n], existing, k) <==> Lacks(items, existing, k)
      {
        LacksInPrefix(items, existing, n, k);
      }
      if k :| 0 <= k < |items| && Lacks(items, existing, k) && Occupies(items[k], e) {
        if k < n { assert Occupies(items[..n][k], e); }
      }
      if k :| 0 <= k < n && Lacks(items[..n], existing, k) && Occupies(items[..n][k], e) {
        assert Occupies(items[k], e);
      }
    }
  }

  lemma ToAddGrows(items: seq<RelayItem>, existing: set<Address>)
    requires items != []
    ensures var n := |items| - 1;
            Entries(ToAdd(items, existing))
            == Entries(ToAdd(items[..n], existing))
               + if Missing(items[n], existing + Addresses(items[..n])) then Entry(items[n]) else {}
  {
    var n := |items| - 1;
    var before := ToAdd(items[..n], existing);
    assert (before + [items[n].(addedByUs := true)])[..|before|] == before;
    assert before + [] == before;
  }

  lemma CreationOnKernel(was: set<KernelEntry>, items: seq<RelayItem>, existing: set<Address>)
    ensures KernelCreated(was, was + Entries(ToAdd(items, existing)), items, existing)
  {
    forall e
      ensures e in Entries(ToAdd(items, existing))
         <==> exists k :: 0 <= k < |items| && Lacks(items, existing, k) && Occupies(items[k], e)
    {
      ToAddEntries(items, existing, e);
    }
  }

  // The tags of one item's outbounds.
  function OutboundTags(req: Request, names: Names): set<string> {
    {names.outbound} + (if req.mode.PairsUpstream() then {names.ipv4} else {})
    + if req.mode.DualStackMode? then {names.dual} else {}
  }

  ghost predicate NamesInboundOf(names: nat -> Names, n: nat, tag: string) {
    exists i :: 0 <= i < n && names(i).inbound == tag
  }

  ghost predicate NamesOutboundOf(req: Request, names: nat -> Names, n: nat, tag: string) {
    exists i :: 0 <= i < n && tag in OutboundTags(req, names(i))
  }

  // Exactly the items' own tags are new.
  lemma {:induction false} InsertionTags(t: Tables, req: Request, items: seq<RelayItem>, portStart: int,
                                         names: nat -> Names, now: Tables, done: seq<RelayItem>, tag: string)
    requires InsertItems(t, req, items, portStart, names) == Success((now, done))
    ensures tag in now.inbounds <==> tag in t.inbounds || NamesInboundOf(names, |items|, tag)
    ensures tag in now.outbounds <==> tag in t.outbounds || NamesOutboundOf(req, names, |items|, tag)
  {
    if items != [] {
      var n := |items| - 1;
      var mid, before := LastInserted(t, req, items, portStart, names, now, done);
      InsertionTags(t, req, items[..n], portStart, names, mid, before, tag);
      TagsGrow(req, names, n, tag);
      RowTags(mid, req, items[n], portStart + n, names(n));
    }
  }

  lemma TagsGrow(req: Request, names: nat -> Names, n: nat, tag: string)
    ensures NamesInboundOf(names, n + 1, tag) <==> NamesInboundOf(names, n, tag) || tag == names(n).inbound
    ensures NamesOutboundOf(req, names, n + 1, tag)
       <==> NamesOutboundOf(req, names, n, tag) || tag in OutboundTags(req, names(n))
  {
  }

  lemma RowTags(t: Tables, req: Request, item: RelayItem, port: int, names: Names)
    ensures WithItem(t, req, item, port, names).inbounds.Keys == t.inbounds.Keys + {names.inbound}
    ensures WithItem(t, req, item, port, names).outbounds.Keys == t.outbounds.Keys + OutboundTags(req, names)
  {
    assert ItemOutbounds(req, item, names).Keys == OutboundTags(req, names);
  }

  lemma {:induction false} InsertionTagsItems(t: Tables, req: Request, items: seq<RelayItem>, portStart: int,
                                              names: nat -> Names, now: Tables, done: seq<RelayItem>)
    requires InsertItems(t, req, items, portStart, names) == Success((now, done))
    ensures AllTagged(req, items, names, done)
  {
    if items != [] {
      var n := |items| - 1;
      var mid, before := LastInserted(t, req, items, portStart, names, now, done);
      InsertionTagsItems(t, req, items[..n], portStart, names, mid, before);
      OneMoreTagged(req, items, names, before);
    }
  }

  ghost predicate AllTagged(req: Request, items: seq<RelayItem>, names: nat -> Names, done: seq<RelayItem>) {
    |done| == |items| && forall k :: 0 <= k < |done| ==> done[k] == TaggedItem(req, items[k], names(k))
  }

  lemma OneMoreTagged(req: Request, items: seq<RelayItem>, names: nat -> Names, done: seq<RelayItem>)
    requires items != [] && AllTagged(req, items[..|items| - 1], names, done)
    ensures AllTagged(req, items, names, done + [TaggedItem(req, items[|items| - 1], names(|items| - 1))])
  {
  }

  // The random tags are new and all different.
  ghost predicate FreshNames(t: Tables, req: Request, names: nat -> Names, n: nat) {
    && (forall i :: 0 <= i < n ==> TagsFree(t, req, names(i)))
    && (forall i, j :: 0 <= i < j < n ==>
          names(i).inbound != names(j).inbound && OutboundTags(req, names(i)) !! OutboundTags(req, names(j)))
  }

  lemma {:induction false} FreshNamesInsert(t: Tables, req: Request, items: seq<RelayItem>, portStart: int,
                                            names: nat -> Names)
    requires FreshNames(t, req, names, |items|)
    ensures var r := InsertItems(t, req, items, portStart, names);
            r.Success? && SameOtherwise(t, r.value.0)
  {
    if items != [] {
      var n := |items| - 1;
      FreshNamesInsert(t, req, items[..n], portStart, names);
      var (mid, before) := InsertItems(t, req, items[..n], portStart, names).value;
      NextNamesFree(t, req, items[..n], portStart, names, mid, before);
    }
  }

  // Only inbounds, outbounds and client rows differ.
  ghost predicate SameOtherwise(was: Tables, now: Tables) {
    now == was.(inbounds := now.inbounds, outbounds := now.outbounds, clients := now.clients)
  }

  lemma NextNamesFree(t: Tables, req: Request, items: seq<RelayItem>, portStart: int, names: nat -> Names, mid: Tables,
                      done: seq<RelayItem>)
    requires FreshNames(t, req, names, |items| + 1)
    requires InsertItems(t, req, items, portStart, names) == Success((mid, done))
    ensures TagsFree(mid, req, names(|items|))
  {
    var next := names(|items|);
    forall tag
      ensures tag in OutboundTags(req, next) ==> tag !in mid.outbounds
      ensures tag == next.inbound ==> tag !in mid.inbounds
    {
      NextTagIsNew(t, req, names, |items|, tag);
      InsertionTags(t, req, items, portStart, names, mid, done, tag);
    }
    NextTagIsNew(t, req, names, |items|, "");
    TagsFreeByMembers(t, mid, req, next);
  }

  lemma NextTagIsNew(t: Tables, req: Request, names: nat -> Names, n: nat, tag: string)
    requires FreshNames(t, req, names, n + 1)
    ensures TagsFree(t, req, names(n))
    ensures tag in OutboundTags(req, names(n)) ==> tag !in t.outbounds && !NamesOutboundOf(req, names, n, tag)
    ensures tag == names(n).inbound ==> tag !in t.inbounds && !NamesInboundOf(names, n, tag)
  {
  }

  lemma TagsFreeByMembers(t: Tables, mid: Tables, req: Request, names: Names)
    requires TagsFree(t, req, names) && names.inbound !in mid.inbounds
    requires forall tag :: tag in OutboundTags(req, names) ==> tag !in mid.outbounds
    ensures TagsFree(mid, req, names)
  {
  }

  // MAIN: with fresh names, a free range of ports, a new pool id and the
  // reserved server tag in order, nothing in the tables hinders a creation.
  lemma NothingHindersCreation(t: Tables, req: Request, items: seq<RelayItem>, names: nat -> Names, pool: nat)
    requires FreshNames(t, req, names, |items|) && pool !in t.pools && !RouteRules.ServersRefuse(t.settings.servers)
    requires 1 <= req.portStart && items != []
    requires exists s :: req.portStart <= s && s + |items| - 1 <= 65535 && !Blocked(t.inbounds, s, |items|)
    ensures CreatedTables(t, req, items, names, pool).Success?
  {
    FirstFitIsChosen(t, req.portStart, |items|);
    var start := PortRange.FirstFit(UsedPorts(t), req.portStart, |items|).value;
    FreshNamesInsert(t, req, items, start, names);
    var (now, done) := InsertItems(t, req, items, start, names).value;
    RouteRules.UpdateIsTold(now.settings, done, req.strategy == IPV6_ONLY, false);
  }

  lemma CreationRows(t: Tables, req: Request, items: seq<RelayItem>, start: int, names: nat -> Names, now: Tables,
                     done: seq<RelayItem>)
    requires InsertItems(t, req, items, start, names) == Success((now, done)) && Tagged(names)
    ensures |done| == |items| && RowsCreated(t, now, req, items, done)
  {
    InsertionIsExact(t, req, items, start, names, now, done);
    InsertedHaveRows(req, t, now, items, done, start);
    OnlyItemsRows(t, req, items, start, names, now, done);
  }

  lemma InsertedHaveRows(req: Request, t: Tables, now: Tables, items: seq<RelayItem>, done: seq<RelayItem>, start: int)
    requires Inserted(req, t, now, items, done, start)
    ensures OldRowsKept(t, now) && ClientRowsOf(t, now, done)
    ensures forall k :: 0 <= k < |done| ==> HasRows(t, now, req, items[k], done[k])
    ensures forall j, k :: 0 <= j < k < |done| ==> done[j].inboundTag != done[k].inboundTag
  {
    forall k | 0 <= k < |done|
      ensures HasRows(t, now, req, items[k], done[k]) && done[k].inboundTag != ""
    {
      assert ItemInserted(req, t, now, items[k], done[k], start + k);
    }
  }

  lemma OnlyItemsRows(t: Tables, req: Request, items: seq<RelayItem>, start: int, names: nat -> Names, now: Tables,
                      done: seq<RelayItem>)
    requires InsertItems(t, req, items, start, names) == Success((now, done))
    ensures OnlyRowsOf(t, now, done)
  {
    InsertionTagsItems(t, req, items, start, names, now, done);
    forall tag
      ensures tag in now.inbounds && tag !in t.inbounds ==> ListensOne(done, tag)
      ensures tag in now.outbounds && tag !in t.outbounds ==> NamedByOne(done, tag)
    {
      InsertionTags(t, req, items, start, names, now, done, tag);
      TagsAreNamed(req, items, names, done, tag);
    }
  }

  lemma TagsAreNamed(req: Request, items: seq<RelayItem>, names: nat -> Names, done: seq<RelayItem>, tag: string)
    requires AllTagged(req, items, names, done)
    ensures NamesInboundOf(names, |items|, tag) ==> ListensOne(done, tag)
    ensures NamesOutboundOf(req, names, |items|, tag) ==> NamedByOne(done, tag)
  {
    if NamesInboundOf(names, |items|, tag) {
      var i :| 0 <= i < |items| && names(i).inbound == tag;
      assert done[i].inboundTag == tag;
    }
    if NamesOutboundOf(req, names, |items|, tag) {
      var i :| 0 <= i < |items| && tag in OutboundTags(req, names(i));
      assert NamesOutbound(done[i], tag);
    }
  }

  // The chosen start, with the rows on it.
  lemma CreationPorts(t: Tables, req: Request, items: seq<RelayItem>, start: int, names: nat -> Names, now: Tables,
                      done: seq<RelayItem>)
    requires InsertItems(t, req, items, start, names) == Success((now, done)) && Tagged(names)
    requires 1 <= req.portStart <= start && start + |items| - 1 <= 65535 && !Blocked(t.inbounds, start, |items|)
    requires forall s :: req.portStart <= s < start ==> Blocked(t.inbounds, s, |items|)
    ensures PortsChosen(t.inbounds, now.inbounds, done, req.portStart)
  {
    InsertionIsExact(t, req, items, start, names, now, done);
    forall k | 0 <= k < |done|
      ensures done[k].inboundTag in now.inbounds && now.inbounds[done[k].inboundTag].port == start + k
    {
      assert ItemInserted(req, t, now, items[k], done[k], start + k);
    }
    assert PortsFrom(t.inbounds, now.inbounds, done, req.portStart, start);
  }

  // ------------------------------------------------------------ creation

  datatype Faults = Faults(
    discovers: bool, visible: KernelEntry -> bool,
    adds: nat -> bool, ready: bool, egress: bool,
    begin: bool, writes: bool, switch: SwitchFaults,
    cleans: nat -> bool, startsAfter: bool)

  datatype Outcome = NotCreated | Created(items: seq<RelayItem>, started: bool)

  // Each item of a paired pool must have come with an upstream of its own.
  predicate Pairs(req: Request, items: seq<RelayItem>) {
    req.mode.PairsUpstream() ==>
      |items| == req.upstreams
      && forall i :: 0 <= i < |items| ==> items[i].upstream.server != "" && items[i].upstream.port >= 1
  }

  // What a creation commits, apart from the change log.
  function CreatedTables(t: Tables, req: Request, items: seq<RelayItem>, names: nat -> Names,
      pool: nat): Result<(Tables, seq<RelayItem>)> {
    if !PortRange.RangeRequested(req.portStart, |items|) then Failure("relay port range is invalid")
    else match PortRange.FirstFit(UsedPorts(t), req.portStart, |items|)
      case None => Failure("no continuous relay port range is available")
      case Some(start) => Draft(t, req, items, start, names, pool)
  }

  lemma CreatedRows(t: Tables, req: Request, items: seq<RelayItem>, names: nat -> Names, pool: nat)
      returns (start: int, now: Tables, done: seq<RelayItem>)
    requires CreatedTables(t, req, items, names, pool).Success?
    ensures InsertItems(t, req, items, start, names) == Success((now, done))
    ensures CreatedTables(t, req, items, names, pool).value.0.outbounds == now.outbounds
    ensures pool !in now.pools && Finished(now, done, req, pool) == CreatedTables(t, req, items, names, pool)
    ensures 1 <= req.portStart <= start && start + |items| - 1 <= 65535 && !Blocked(t.inbounds, start, |items|)
    ensures forall s :: req.portStart <= s < start ==> Blocked(t.inbounds, s, |items|)
  {
    FirstFitIsChosen(t, req.portStart, |items|);
    start := PortRange.FirstFit(UsedPorts(t), req.portStart, |items|).value;
    var rows := InsertItems(t, req, items, start, names).value;
    now, done := rows.0, rows.1;
  }

  // The committed configuration binds only what the old one bound and the
  // addresses of the items.
  lemma CreationBinds(t: Tables, req: Request, items: seq<RelayItem>, names: nat -> Names, pool: nat, a: Address)
    requires CreatedTables(t, req, items, names, pool).Success? && Tagged(names)
    requires a in Bound(CreatedTables(t, req, items, names, pool).value.0.outbounds)
    ensures a in Bound(t.outbounds) || a in Addresses(items)
  {
    var start, now, done := CreatedRows(t, req, items, names, pool);
    InsertionIsExact(t, req, items, start, names, now, done);
    InsertedBinds(req, t, now, items, done, start, a);
  }

  lemma InsertedBinds(req: Request, t: Tables, now: Tables, items: seq<RelayItem>, done: seq<RelayItem>, start: int,
                      a: Address)
    requires Inserted(req, t, now, items, done, start) && a in Bound(now.outbounds)
    ensures a in Bound(t.outbounds) || a in Addresses(items)
  {
    var tag :| tag in now.outbounds && now.outbounds[tag].bind == Some(a);
    if tag in t.outbounds {
      assert a in Bound(t.outbounds);
    } else {
      var i :| 0 <= i < |items| && items[i].ipv6 == Valid(a);
    }
  }

  lemma {:induction false} FlaggedKeepsAddresses(items: seq<RelayItem>, existing: set<Address>)
    ensures forall i :: 0 <= i < |items| ==>
              Flagged(items, existing)[i] == items[i].(addedByUs := Flagged(items, existing)[i].addedByUs)
    ensures Addresses(Flagged(items, existing)) == Addresses(items)
  {
    if items != [] {
      FlaggedKeepsAddresses(items[..|items| - 1], existing);
    }
    var done := Flagged(items, existing);
    forall a | a in Addresses(items)
      ensures a in Addresses(done)
    {
      var i :| 0 <= i < |items| && items[i].ipv6 == Valid(a);
      assert done[i].ipv6 == Valid(a);
    }
  }

  // The transaction of a creation: free ports, rows, rules, switch, commit.
  method CreateInTransaction(p: Panel, req: Request, items: seq<RelayItem>, actor: string, names: nat -> Names,
      pool: nat, f: Faults)
      returns (r: Option<seq<RelayItem>>)
    modifies p`tables, p`running, p`trace
    ensures r.Some? ==>
              && CreatedTables(old(p.tables), req, items, names, pool).Success?
              && r.value == CreatedTables(old(p.tables), req, items, names, pool).value.1
              && p.tables == Logged(CreatedTables(old(p.tables), req, items, names, pool).value.0, actor, pool, |items|)
              && p.running == (if old(p.running.Some?) then Some(BuildConfig(p.tables)) else None)
    ensures r.None? ==>
              p.tables == old(p.tables) && p.running in {None, old(p.running), Some(BuildConfig(old(p.tables)))}
    ensures r.None? && f.switch.restoreStop && f.switch.restoreStart ==>
              p.running == old(p.running) || (old(p.running).Some? && p.running == Some(BuildConfig(old(p.tables))))
    ensures f.begin && f.writes && CreatedTables(old(p.tables), req, items, names, pool).Success? ==>
              (r.Some? <==> Switches(f.switch, old(p.running.Some?)))
    ensures old(p.trace) <= p.trace
    ensures forall i :: |old(p.trace)| <= i < |p.trace| ==> p.trace[i].kernel == p.kernel
    ensures forall i :: |old(p.trace)| <= i < |p.trace| ==>
              || p.trace[i].running in {None, old(p.running), Some(BuildConfig(old(p.tables)))}
              || (CreatedTables(old(p.tables), req, items, names, pool).Success? &&
                  p.trace[i].running
                      == Some(BuildConfig(CreatedTables(old(p.tables), req, items, names, pool).value.0)))
  {
    if !f.begin || !f.writes {
      return None;
    }
    var start := PortRange.NextRelayPortRange(UsedPorts(p.tables), req.portStart, |items|);
    if start.Failure? {
      return None;
    }
    var rows := InsertRows(p.tables, req, items, start.value, names);
    if rows.Failure? || pool in rows.value.0.pools {
      return None;
    }
    var (t, done) := rows.value;
    var settings := RouteRules.UpdateRouteRules(t.settings, done, req.strategy == IPV6_ONLY, false);
    if settings.Failure? {
      return None;
    }
    var draft := t.(pools := t.pools[pool := Pool(req.mode, done, false, 0, 0, 0, req.other)],
                    links := NewLinks(pool, done) + t.links, settings := settings.value);
    var committed := SwitchAndCommit(p, draft, Change(actor, "create", pool, |items|, ""), f.switch);
    return if committed then Some(done) else None;
  }

  // MAIN: what a creation that went through has made of the tables.
  lemma CreationCreatesTables(t: Tables, req: Request, items: seq<RelayItem>, existing: set<Address>, actor: string,
                              names: nat -> Names, pool: nat)
    requires CreatedTables(t, req, Flagged(items, existing), names, pool).Success? && Tagged(names)
    ensures var (now, done) := CreatedTables(t, req, Flagged(items, existing), names, pool).value;
            TablesCreated(t, Logged(now, actor, pool, |items|), req, items, done, existing, actor, pool)
  {
    var flagged := Flagged(items, existing);
    FlaggedAt(items, existing);
    var start, rows, done := CreatedRows(t, req, flagged, names, pool);
    CreationRows(t, req, flagged, start, names, rows, done);
    CreationPorts(t, req, flagged, start, names, rows, done);
    InsertionTagsItems(t, req, flagged, start, names, rows, done);
    InsertionIsExact(t, req, flagged, start, names, rows, done);
    FlagsDoNotMatter(t, rows, req, items, flagged, done);
    FinishedTables(t, rows, req, done, pool);
    forall k | 0 <= k < |done|
      ensures StoredItem(req, items[k], done[k], Lacks(items, existing, k))
    {
      assert done[k] == TaggedItem(req, flagged[k], names(k));
    }
    var (now, _) := CreatedTables(t, req, flagged, names, pool).value;
    SameRows(t, rows, Logged(now, actor, pool, |items|), req, items, done);
  }

  // Every created item gives its intended egress, for every connection.
  ghost predicate RoutesIntended(settings: RouteRules.Config, done: seq<RelayItem>, ipv6Only: bool) {
    forall k, conn: RouteMeaning.Connection, env: RouteMeaning.Env ::
      0 <= k < |done| && conn.inbound == done[k].inboundTag ==>
        RouteMeaning.Route(settings, conn, env) == RouteMeaning.Intended(done[k], ipv6Only, conn.dest, env)
  }

  lemma CreationRoutes(t: Tables, req: Request, items: seq<RelayItem>, names: nat -> Names, pool: nat)
    requires CreatedTables(t, req, items, names, pool).Success? && Tagged(names)
    ensures var (now, done) := CreatedTables(t, req, items, names, pool).value;
            RoutesIntended(now.settings, done, req.strategy == "ipv6_only")
  {
    var start, rows, done := CreatedRows(t, req, items, names, pool);
    var now := CreatedTables(t, req, items, names, pool).value.0;
    InsertionIsExact(t, req, items, start, names, rows, done);
    forall k, conn: RouteMeaning.Connection, env: RouteMeaning.Env
      | 0 <= k < |done| && conn.inbound == done[k].inboundTag
      ensures RouteMeaning.Route(now.settings, conn, env)
              == RouteMeaning.Intended(done[k], req.strategy == "ipv6_only", conn.dest, env)
    {
      CreatedPoolRoutes(t, req, items, start, names, pool, now, done, k, conn, env);
    }
  }

  lemma CreationNamesClients(t: Tables, req: Request, items: seq<RelayItem>, names: nat -> Names, pool: nat)
    requires CreatedTables(t, req, items, names, pool).Success?
    ensures ClientsNamed(t.clients, CreatedTables(t, req, items, names, pool).value.0.clients, names, |items|)
  {
    var start, rows, done := CreatedRows(t, req, items, names, pool);
    InsertionNamesClients(t, req, items, start, names, rows, done);
  }

  // After the rows come pool, links and rules.
  lemma FinishedTables(t: Tables, rows: Tables, req: Request, done: seq<RelayItem>, pool: nat)
    requires Finished(rows, done, req, pool).Success? && RouteRules.DistinctInbounds(done)
    requires rows == t.(inbounds := rows.inbounds, outbounds := rows.outbounds, clients := rows.clients)
    ensures var now := Finished(rows, done, req, pool).value.0;
            && pool !in t.pools
            && now == rows.(settings := now.settings, links := now.links,
                            pools := t.pools[pool := Pool(req.mode, done, false, 0, 0, 0, req.other)])
            && LinksCreated(t.links, now.links, pool, done)
            && RouteRules.ConfigUpdated(t.settings, now.settings, done, false)
  {
    RouteRules.UpdateIsTold(t.settings, done, req.strategy == IPV6_ONLY, false);
    LinksAreCreated(t.links, pool, done);
  }

  lemma LinksAreCreated(links: map<(nat, string), int>, pool: nat, done: seq<RelayItem>)
    ensures LinksCreated(links, NewLinks(pool, done) + links, pool, done)
  {
    forall key
      ensures key in NewLinks(pool, done) <==> key.0 == pool && Linked(done, key.1)
    {
      assert key == (key.0, key.1);
    }
  }

  lemma SameRows(was: Tables, rows: Tables, now: Tables, req: Request, items: seq<RelayItem>, done: seq<RelayItem>)
    requires |items| == |done| && RowsCreated(was, rows, req, items, done)
    requires now.inbounds == rows.inbounds && now.outbounds == rows.outbounds && now.clients == rows.clients
    ensures RowsCreated(was, now, req, items, done)
  {
    forall k | 0 <= k < |done|
      ensures HasRows(was, now, req, items[k], done[k])
    {
      assert HasRows(was, rows, req, items[k], done[k]);
    }
  }

  // The rows of an item do not depend on who added its address.
  lemma FlagsDoNotMatter(was: Tables, now: Tables, req: Request, items: seq<RelayItem>, flagged: seq<RelayItem>,
                         done: seq<RelayItem>)
    requires |items| == |flagged| == |done| && RowsCreated(was, now, req, flagged, done)
    requires forall k :: 0 <= k < |items| ==> flagged[k] == items[k].(addedByUs := flagged[k].addedByUs)
    ensures RowsCreated(was, now, req, items, done)
  {
    forall k | 0 <= k < |done|
      ensures HasRows(was, now, req, items[k], done[k])
    {
      assert HasRows(was, now, req, flagged[k], done[k]);
      FlagDoesNotMatter(was, now, req, items[k], flagged[k], done[k]);
    }
  }

  lemma FlagDoesNotMatter(was: Tables, now: Tables, req: Request, item: RelayItem, flagged: RelayItem, done: RelayItem)
    requires flagged == item.(addedByUs := flagged.addedByUs)
    ensures HasRows(was, now, req, item, done) <==> HasRows(was, now, req, flagged, done)
  {
  }

  function Logged(t: Tables, actor: string, pool: nat, count: nat): Tables {
    t.(changes := t.changes + [Change(actor, "create", pool, count, "")])
  }

  function Existing(kernel: set<KernelEntry>, req: Request, f: Faults): set<Address> {
    if req.mode.UsesIPv6() then Detected(kernel, f.visible) else {}
  }

  // What a successful creation leaves behind.
  ghost predicate Completed(p: Panel, t: Tables, wasRunning: bool, kernel: set<KernelEntry>, req: Request,
      items: seq<RelayItem>, actor: string, names: nat -> Names, pool: nat, f: Faults, r: Outcome)
    requires r.Created?
    reads p
  {
    var existing := Existing(kernel, req, f);
    var created := CreatedTables(t, req, Flagged(items, existing), names, pool);
    && created.Success? && r.items == created.value.1
    && p.tables == Logged(created.value.0, actor, pool, |items|)
    && p.kernel == kernel + Entries(ToAdd(items, existing))
    && Addresses(items) <= Assigned(p.kernel)
    && (ToAdd(items, existing) == [] || req.addSystemAddresses)
    && p.running == (if wasRunning || r.started then Some(BuildConfig(p.tables)) else None)
  }

  predicate NoFault(f: Faults, req: Request, wasRunning: bool) {
    && (req.mode.UsesIPv6() ==> f.discovers && f.egress)
    && f.ready && f.begin && f.writes && Switches(f.switch, wasRunning)
  }

  // Assigning the addresses and, once they work, the transaction.
  method AssignAndCreate(p: Panel, req: Request, items: seq<RelayItem>, existing: set<Address>, actor: string,
      names: nat -> Names, pool: nat, f: Faults)
      returns (r: Outcome, added: seq<RelayItem>)
    requires Tagged(names) && Pairs(req, items) && existing == Existing(p.kernel, req, f)
    modifies p
    ensures r.NotCreated? ==> p.tables == old(p.tables)
    ensures p.kernel == old(p.kernel) + Entries(added) && Entries(added) !! old(p.kernel)
    ensures r.NotCreated? && f.switch.restoreStop && f.switch.restoreStart ==>
              p.running == old(p.running) || (old(p.running).Some? && p.running == Some(BuildConfig(old(p.tables))))
    ensures r.NotCreated? ==> p.running in {None, old(p.running), Some(BuildConfig(old(p.tables)))}
    ensures r.Created? ==>
              Completed(p, old(p.tables), old(p.running.Some?), old(p.kernel), req, items, actor, names, pool, f, r)
    ensures (&& NoFault(f, req, old(p.running.Some?)) && req.addSystemAddresses
             && (forall i :: f.adds(i)) && Addable(items) && Assigned(old(p.kernel)) <= existing
             && CreatedTables(old(p.tables), req, Flagged(items, existing), names, pool).Success?) ==> r.Created?
    ensures old(p.trace) <= p.trace
    ensures Backed(Moment(old(p.running), old(p.kernel)))
            && Bound(old(p.tables).outbounds) <= Assigned(old(p.kernel)) ==>
              AllBacked(p.trace, |old(p.trace)|)
  {
    ghost var t0, run0, k0, tr0 := p.tables, p.running, p.kernel, p.trace;
    var ok, done;
    ok, done, added := AssignAddresses(p, items, existing, req.addSystemAddresses, f.adds);
    ghost var tr1 := p.trace;
    r := NotCreated;
    if ok && f.ready && (req.mode.UsesIPv6() ==> f.egress) {
      r := CreateAssigned(p, req, items, done, existing, actor, names, pool, f);
    }
    if Backed(Moment(run0, k0)) && Bound(t0.outbounds) <= Assigned(k0) {
      forall i | |tr0| <= i < |p.trace|
        ensures Backed(p.trace[i])
      {
        if i < |tr1| {
          assert p.trace[i] == tr1[i];
        }
        CreationMomentBacked(t0, run0, k0, req, items, existing, names, pool, p.trace[i]);
      }
    }
  }

  // MAIN: one creation, with every step allowed to fail. Nothing remains of a
  // failed one; a successful one is in the tables, in the core and in the
  // kernel; and whatever the core binds is assigned at every moment.
  method CreateRelay(p: Panel, req: Request, items: seq<RelayItem>, actor: string, names: nat -> Names, pool: nat,
      f: Faults) returns (r: Outcome)
    requires Tagged(names)
    modifies p
    ensures r.NotCreated? ==> p.tables == old(p.tables)
    ensures r.NotCreated? && (forall i :: f.cleans(i)) ==> p.kernel == old(p.kernel)
    ensures r.NotCreated? && f.switch.restoreStop && f.switch.restoreStart ==>
              p.running == old(p.running) || (old(p.running).Some? && p.running == Some(BuildConfig(old(p.tables))))
    ensures r.Created? ==>
              Completed(p, old(p.tables), old(p.running.Some?), old(p.kernel), req, items, actor, names, pool, f, r)
    ensures r.Created? ==>
              CreationOutcome(old(p.tables), old(p.kernel), p.tables, p.kernel, req, items, r.items,
                              Existing(old(p.kernel), req, f), actor, pool)
    ensures r.Created? ==> RoutesIntended(p.tables.settings, r.items, req.strategy == "ipv6_only")
    ensures r.Created? ==> ClientsNamed(old(p.tables).clients, p.tables.clients, names, |items|)
    ensures r.Created? && (old(p.running).Some? || r.started) ==>
              p.running == Some(CoreConfig(p.tables.settings, p.tables.inbounds, p.tables.outbounds, p.tables.clients))
    ensures (&& Pairs(req, items) && NoFault(f, req, old(p.running.Some?)) && req.addSystemAddresses
             && (forall i :: f.adds(i)) && Addable(items) && Assigned(old(p.kernel)) <= Existing(old(p.kernel), req, f)
             && (var flagged := Flagged(items, Existing(old(p.kernel), req, f));
                 CreatedTables(old(p.tables), req, flagged, names, pool).Success?))
            ==> r.Created?
    ensures old(p.trace) <= p.trace
    ensures Backed(Moment(old(p.running), old(p.kernel)))
            && Bound(old(p.tables).outbounds) <= Assigned(old(p.kernel)) ==>
              AllBacked(p.trace, |old(p.trace)|)
  {
    if !Pairs(req, items) || (req.mode.UsesIPv6() && !f.discovers) {
      return NotCreated;
    }
    var existing := if req.mode.UsesIPv6() then Detected(p.kernel, f.visible) else {};
    ghost var t0, run0, k0, tr0 := p.tables, p.running, p.kernel, p.trace;
    var added;
    r, added := AssignAndCreate(p, req, items, existing, actor, names, pool, f);
    ghost var tr1 := p.trace;
    if r.Created? {
      CreationCreatesTables(t0, req, items, existing, actor, names, pool);
      CreationRoutes(t0, req, Flagged(items, existing), names, pool);
      CreationNamesClients(t0, req, Flagged(items, existing), names, pool);
      CreationOnKernel(k0, items, existing);
    } else {
      RemovedWithin(added, f.cleans);
      DeleteAll(p, added, f.cleans);
      if Backed(Moment(run0, k0)) && Bound(t0.outbounds) <= Assigned(k0) {
        forall i | |tr0| <= i < |p.trace|
          ensures Backed(p.trace[i])
        {
          if i < |tr1| {
            assert p.trace[i] == tr1[i];
          } else {
            CreationMomentBacked(t0, run0, k0, req, items, existing, names, pool, p.trace[i]);
          }
        }
      }
    }
  }

  // Tables and kernel after a creation, without a word on how it was drafted.
  ghost predicate CreationOutcome(was: Tables, wasKernel: set<KernelEntry>, now: Tables, kernel: set<KernelEntry>,
                                  req: Request, items: seq<RelayItem>, done: seq<RelayItem>, existing: set<Address>,
                                  actor: string, pool: nat) {
    && TablesCreated(was, now, req, items, done, existing, actor, pool)
    && KernelCreated(wasKernel, kernel, items, existing)
    && (req.mode.PairedMode? || req.mode.DualStackMode? ==>
          |items| == req.upstreams
          && forall k :: 0 <= k < |items| ==> items[k].upstream.server != "" && items[k].upstream.port >= 1)
  }

  // The moments a creation may pass through once its addresses are assigned.
  ghost predicate Expected(m: Moment, t: Tables, running: Option<CoreConfig>, req: Request, items: seq<RelayItem>,
      existing: set<Address>, names: nat -> Names, pool: nat) {
    var created := CreatedTables(t, req, Flagged(items, existing), names, pool);
    || m.running in {None, running, Some(BuildConfig(t))}
    || (created.Success? && m.running.Some? && m.running.value.outbounds == created.value.0.outbounds
        && Addresses(items) <= Assigned(m.kernel))
  }

  // The transaction, and the core's first start when it was not running.
  method CreateAssigned(p: Panel, req: Request, items: seq<RelayItem>, flagged: seq<RelayItem>,
      ghost existing: set<Address>, actor: string, names: nat -> Names, pool: nat, f: Faults) returns (r: Outcome)
    requires flagged == Flagged(items, existing) && Addresses(items) <= Assigned(p.kernel)
    modifies p`tables, p`running, p`trace
    ensures r.NotCreated? ==>
              p.tables == old(p.tables) && p.running in {None, old(p.running), Some(BuildConfig(old(p.tables)))}
    ensures r.NotCreated? && f.switch.restoreStop && f.switch.restoreStart ==>
              p.running == old(p.running) || (old(p.running).Some? && p.running == Some(BuildConfig(old(p.tables))))
    ensures var created := CreatedTables(old(p.tables), req, flagged, names, pool);
            r.Created? ==>
              && created.Success? && r.items == created.value.1
              && p.tables == Logged(created.value.0, actor, pool, |items|)
              && p.running == (if old(p.running.Some?) || r.started then Some(BuildConfig(p.tables)) else None)
    ensures f.begin && f.writes && CreatedTables(old(p.tables), req, flagged, names, pool).Success? ==>
              (r.Created? <==> Switches(f.switch, old(p.running.Some?)))
    ensures old(p.trace) <= p.trace
    ensures forall i :: |old(p.trace)| <= i < |p.trace| ==>
              p.trace[i].kernel == p.kernel
                  && Expected(p.trace[i], old(p.tables), old(p.running), req, items, existing, names, pool)
  {
    var created := CreateInTransaction(p, req, flagged, actor, names, pool, f);
    if created.None? {
      return NotCreated;
    }
    var started := false;
    if p.running.None? {
      started := p.StartCore(BuildConfig(p.tables), f.startsAfter);
    }
    r := Created(created.value, started);
  }

  lemma CreationMomentBacked(t: Tables, running: Option<CoreConfig>, kernel: set<KernelEntry>, req: Request,
      items: seq<RelayItem>, existing: set<Address>, names: nat -> Names, pool: nat, m: Moment)
    requires Tagged(names) && kernel <= m.kernel
    requires Backed(Moment(running, kernel)) && Bound(t.outbounds) <= Assigned(kernel)
    requires Expected(m, t, running, req, items, existing, names, pool)
    ensures Backed(m)
  {
    assert Assigned(kernel) <= Assigned(m.kernel);
    if m.running !in {None, running, Some(BuildConfig(t))} {
      FlaggedKeepsAddresses(items, existing);
      forall a | a in Bound(m.running.value.outbounds)
        ensures a in Assigned(m.kernel)
      {
        CreationBinds(t, req, Flagged(items, existing), names, pool, a);
      }
    }
  }
}
