// Rotation of relay IPv6 addresses: new addresses are added and probed before
// the core is switched over, and the old ones are dropped only after commit.
module RelayRotation {
  import opened RelayItems
  import opened Ipv6Allocation
  import opened RelayPanel

  const DEFAULT_MINUTES := 60
  const MIN_MINUTES := 5
  const MAX_MINUTES := 7 * 24 * 60

  // ------------------------------------------------------------ the plan

  // Which items of a pool a rotation touches: all of them, or the first one
  // with the given inbound tag.
  function FirstTagged(items: seq<RelayItem>, tag: string, from: nat): Option<nat>
    requires from <= |items|
    decreases |items| - from
  {
    if from == |items| then None
    else if items[from].inboundTag == tag then Some(from)
    else FirstTagged(items, tag, from + 1)
  }

  function Selected(items: seq<RelayItem>, tag: string): Result<seq<nat>> {
    if tag == "" then Success(seq(|items|, i => i))
    else match FirstTagged(items, tag, 0)
      case None => Failure("relay refresh link item no longer exists")
      case Some(i) => Success([i])
  }

  function Chosen(items: seq<RelayItem>, indexes: seq<nat>): seq<RelayItem>
    requires forall k :: 0 <= k < |indexes| ==> indexes[k] < |items|
  {
    seq(|indexes|, k requires 0 <= k < |indexes| => items[indexes[k]])
  }

  function Replaced(items: seq<RelayItem>, indexes: seq<nat>, now: seq<RelayItem>): (r: seq<RelayItem>)
    requires |indexes| == |now| && forall k :: 0 <= k < |indexes| ==> indexes[k] < |items|
    ensures |r| == |items|
  {
    if indexes == [] then items
    else
      var n := |indexes| - 1;
      Replaced(items, indexes[..n], now[..n])[indexes[n] := now[n]]
  }

  method SelectItems(items: seq<RelayItem>, tag: string) returns (r: Result<seq<nat>>)
    ensures r == Selected(items, tag)
  {
    var selected: seq<nat> := [];
    if tag == "" {
      for i := 0 to |items|
        invariant selected == seq(i, k => k)
      {
        selected := selected + [i];
      }
      return Success(selected);
    }
    for i := 0 to |items|
      invariant FirstTagged(items, tag, 0) == FirstTagged(items, tag, i)
    {
      if items[i].inboundTag == tag {
        return Success([i]);
      }
    }
    return Failure("relay refresh link item no longer exists");
  }

  lemma SelectedInRange(items: seq<RelayItem>, tag: string)
    ensures Selected(items, tag).Success? ==>
              && (forall k :: 0 <= k < |Selected(items, tag).value| ==> Selected(items, tag).value[k] < |items|)
              && (forall j, k :: 0 <= j < k < |Selected(items, tag).value| ==>
                  Selected(items, tag).value[j] != Selected(items, tag).value[k])
  {
    if tag != "" {
      FirstTaggedInRange(items, tag, 0);
    }
  }

  lemma {:induction false} FirstTaggedInRange(items: seq<RelayItem>, tag: string, from: nat)
    requires from <= |items|
    ensures match FirstTagged(items, tag, from)
            case Some(i) => from <= i < |items| && items[i].inboundTag == tag
                && forall k :: from <= k < i ==> items[k].inboundTag != tag
            case None => forall k :: from <= k < |items| ==> items[k].inboundTag != tag
    decreases |items| - from
  {
    if from < |items| && items[from].inboundTag != tag {
      FirstTaggedInRange(items, tag, from + 1);
    }
  }

  // Exactly the selected items change.
  lemma {:induction false} ReplacedExactly(items: seq<RelayItem>, indexes: seq<nat>, now: seq<RelayItem>, i: nat)
    requires |indexes| == |now| && forall k :: 0 <= k < |indexes| ==> indexes[k] < |items|
    requires forall j, k :: 0 <= j < k < |indexes| ==> indexes[j] != indexes[k]
    requires i < |items|
    ensures i !in indexes ==> Replaced(items, indexes, now)[i] == items[i]
    ensures forall k :: 0 <= k < |indexes| && indexes[k] == i ==> Replaced(items, indexes, now)[i] == now[k]
  {
    if indexes != [] {
      var n := |indexes| - 1;
      ReplacedExactly(items, indexes[..n], now[..n], i);
      assert indexes[n] in indexes;
      if i in indexes[..n] { assert i in indexes; }
    }
  }

  // ------------------------------------------------------------ outbounds

  function IPv6Tag(mode: Mode, item: RelayItem): string {
    if mode.DualStackMode? then item.ipv6OutboundTag else item.outboundTag
  }

  // Pointing one item's IPv6 outbound at its address.
  function Pointed(outbounds: map<string, Outbound>, mode: Mode, item: RelayItem): Result<map<string, Outbound>> {
    var tag := IPv6Tag(mode, item);
    if tag == "" then Failure("relay item has no IPv6 outbound")
    else if tag !in outbounds then Failure("record not found")
    else if outbounds[tag].kind != "direct" then Failure("relay IPv6 outbound is not direct")
    else Success(outbounds[tag := PointedOutbound(outbounds[tag], item)])
  }

  function PointedOutbound(o: Outbound, item: RelayItem): Outbound {
    o.(bind := BindOf(item),
       strategy := if item.appleIDIPv4Only then IPV6_ONLY else o.strategy)
  }

  function RotatedOutbounds(outbounds: map<string, Outbound>, mode: Mode,
      items: seq<RelayItem>): Result<map<string, Outbound>> {
    if items == [] then Success(outbounds)
    else match RotatedOutbounds(outbounds, mode, items[..|items| - 1])
      case Failure(e) => Failure(e)
      case Success(os) => Pointed(os, mode, items[|items| - 1])
  }

  method UpdateRotatedOutbounds(outbounds: map<string, Outbound>, mode: Mode, items: seq<RelayItem>)
      returns (r: Result<map<string, Outbound>>)
    ensures r.Success? <==> RotatedOutbounds(outbounds, mode, items).Success?
    ensures r.Success? ==> r == RotatedOutbounds(outbounds, mode, items)
  {
    var os := outbounds;
    for i := 0 to |items|
      invariant RotatedOutbounds(outbounds, mode, items[..i]) == Success(os)
    {
      assert items[..i + 1][..i] == items[..i];
      var tag := IPv6Tag(mode, items[i]);
      var fails := tag == "" || tag !in os || os[tag].kind != "direct";
      if fails {
        FailurePersists(outbounds, mode, items, i + 1);
        return Failure("relay IPv6 outbound cannot be updated");
      }
      var outbound := os[tag];
      outbound := outbound.(bind := BindOf(items[i]));
      if items[i].appleIDIPv4Only {
        outbound := outbound.(strategy := IPV6_ONLY);
      }
      os := os[tag := outbound];
    }
    assert items[..|items|] == items;
    return Success(os);
  }

  lemma {:induction false} FailurePersists(outbounds: map<string, Outbound>, mode: Mode, items: seq<RelayItem>, n: nat)
    requires n <= |items| && RotatedOutbounds(outbounds, mode, items[..n]).Failure?
    ensures RotatedOutbounds(outbounds, mode, items).Failure?
    decreases |items|
  {
    if n == |items| {
      assert items[..n] == items;
    } else {
      var init := items[..|items| - 1];
      assert init[..n] == items[..n];
      FailurePersists(outbounds, mode, init, n);
    }
  }

  ghost predicate Names(mode: Mode, items: seq<RelayItem>, tag: string) {
    exists i :: 0 <= i < |items| && IPv6Tag(mode, items[i]) == tag
  }

  ghost predicate BindsOneOf(o: Outbound, mode: Mode, items: seq<RelayItem>, tag: string) {
    exists i :: 0 <= i < |items| && IPv6Tag(mode, items[i]) == tag && o.bind == BindOf(items[i])
  }

  // After the update an outbound named by no item is untouched, and one named
  // by an item binds the address of an item.
  lemma {:induction false} PointingIsExact(outbounds: map<string, Outbound>, mode: Mode, items: seq<RelayItem>,
      tag: string)
    requires RotatedOutbounds(outbounds, mode, items).Success?
    ensures var os := RotatedOutbounds(outbounds, mode, items).value;
            && os.Keys == outbounds.Keys
            && (!Names(mode, items, tag) && tag in os ==> os[tag] == outbounds[tag])
            && (Names(mode, items, tag) ==> tag in os && BindsOneOf(os[tag], mode, items, tag))
  {
    if items != [] {
      var init, last := items[..|items| - 1], items[|items| - 1];
      PointingIsExact(outbounds, mode, init, tag);
      if Names(mode, init, tag) {
        var before := RotatedOutbounds(outbounds, mode, init).value;
        var i :| 0 <= i < |init| && IPv6Tag(mode, init[i]) == tag && before[tag].bind == BindOf(init[i]);
        assert items[i] == init[i];
      }
      if Names(mode, items, tag) && IPv6Tag(mode, last) != tag {
        var i :| 0 <= i < |items| && IPv6Tag(mode, items[i]) == tag;
        assert init[i] == items[i];
      }
    }
  }

  // With distinct tags each item's own outbound gets its address, Apple-ID
  // items also the IPv6-only strategy, and nothing else about it changes.
  lemma {:induction false} PointingGivesEachItsAddress(outbounds: map<string, Outbound>, mode: Mode,
      items: seq<RelayItem>, k: nat)
    requires RotatedOutbounds(outbounds, mode, items).Success? && k < |items|
    requires forall i, j :: 0 <= i < j < |items| ==> IPv6Tag(mode, items[i]) != IPv6Tag(mode, items[j])
    ensures var os, tag := RotatedOutbounds(outbounds, mode, items).value, IPv6Tag(mode, items[k]);
            tag in os && tag in outbounds && os[tag] == PointedOutbound(outbounds[tag], items[k])
  {
    var init, last := items[..|items| - 1], items[|items| - 1];
    if k < |init| {
      PointingGivesEachItsAddress(outbounds, mode, init, k);
    } else {
      PointingIsExact(outbounds, mode, init, IPv6Tag(mode, last));
    }
  }

  // ------------------------------------------------------------ the draft

  function RotationInterval(interval: int): Result<int> {
    var minutes := if interval == 0 then DEFAULT_MINUTES else interval;
    if minutes < MIN_MINUTES || minutes > MAX_MINUTES then Failure("rotation interval out of range")
    else Success(minutes)
  }

  datatype Plan = Plan(selected: seq<nat>, was: seq<RelayItem>, now: seq<RelayItem>, items: seq<RelayItem>)

  function PlanRotation(t: Tables, id: nat, tag: string, detected: set<Address>, src: Source): Result<Plan> {
    if id !in t.pools then Failure("record not found")
    else if !t.pools[id].mode.UsesIPv6() then Failure("IPv4 upstream-only relay pools cannot rotate IPv6 addresses")
    else if t.pools[id].items == [] then Failure("relay pool has no IPv6 items")
    else
      var items := t.pools[id].items;
      match Selected(items, tag)
      case Failure(e) => Failure(e)
      case Success(selected) =>
        SelectedInRange(items, tag);
        var was := Chosen(items, selected);
        match RotatedItems(was, 0, detected, src)
        case Failure(e) => Failure(e)
        case Success(now) =>
          RotationMovesEveryItem(was, 0, detected, src);
          Success(Plan(selected, was, now, Replaced(items, selected, now)))
  }

  function StampedLinks(links: map<(nat, string), int>, id: nat, items: seq<RelayItem>, now: int)
      : map<(nat, string), int> {
    map key | key in links ::
      if key.0 == id && exists i :: 0 <= i < |items| && items[i].inboundTag == key.1 then now else links[key]
  }

  // The tables a rotation commits, apart from the change log.
  function Draft(t: Tables, id: nat, tag: string, plan: Plan, now: int): Result<Tables>
    requires id in t.pools
  {
    var pool := t.pools[id];
    var scheduled := pool.rotationEnabled && tag == "";
    match RotatedOutbounds(t.outbounds, pool.mode, plan.now)
    case Failure(e) => Failure(e)
    case Success(outbounds) =>
      if scheduled && RotationInterval(pool.rotationInterval).Failure? then Failure("rotation interval out of range")
      else
        var interval := if scheduled then RotationInterval(pool.rotationInterval).value else pool.rotationInterval;
        Success(t.(outbounds := outbounds,
                   links := StampedLinks(t.links, id, plan.now, now),
                   pools := t.pools[id := pool.(items := plan.items, lastRotatedAt := now, rotationInterval := interval,
                                                nextRotateAt := if scheduled then now + 60 * interval else 0)]))
  }

  // The old items whose addresses this panel had added itself.
  function Retiring(items: seq<RelayItem>): seq<RelayItem> {
    if items == [] then []
    else Retiring(items[..|items| - 1]) + if items[|items| - 1].addedByUs then [items[|items| - 1]] else []
  }

  lemma {:induction false} RetiringMembers(items: seq<RelayItem>, item: RelayItem)
    ensures item in Retiring(items) <==> item in items && item.addedByUs
  {
    if items != [] {
      RetiringMembers(items[..|items| - 1], item);
      assert items == items[..|items| - 1] + [items[|items| - 1]];
    }
  }

  // ------------------------------------------------- make before break

  // How the addresses stand before a rotation: each address the core or the
  // tables bind is assigned, each selected item's address is assigned, and no
  // outbound but the item's own binds it.
  ghost predicate InOrder(t: Tables, running: Option<CoreConfig>, kernel: set<KernelEntry>, mode: Mode,
      was: seq<RelayItem>) {
    && Backed(Moment(running, kernel))
    && Bound(t.outbounds) <= Assigned(kernel)
    && Entries(was) <= kernel
    && (forall i, tag :: 0 <= i < |was| && tag in t.outbounds && t.outbounds[tag].bind == Some(Stored(was[i]))
                         ==> tag == IPv6Tag(mode, was[i]))
  }

  ghost function Stored(item: RelayItem): Address {
    if item.ipv6.Valid? then item.ipv6.addr else seq(16, _ => 0)
  }

  // What the drafted configuration binds is assigned once the new addresses are
  // there, and stays assigned when the retired ones are gone.
  lemma DraftIsBacked(t: Tables, mode: Mode, was: seq<RelayItem>, now: seq<RelayItem>, kernel: set<KernelEntry>,
                      taken: set<KernelEntry>, occupied: set<Address>, src: Source)
    requires RotatedOutbounds(t.outbounds, mode, now).Success?
    requires |was| == |now| && forall i :: 0 <= i < |was| ==> Moved(was[i], now[i], occupied, src)
    requires InOrder(t, None, kernel, mode, was)
    requires Entries(now) !! kernel && taken <= Entries(was)
    ensures Bound(RotatedOutbounds(t.outbounds, mode, now).value) <= Assigned(kernel + Entries(now))
    ensures Bound(RotatedOutbounds(t.outbounds, mode, now).value) <= Assigned(kernel + Entries(now) - taken)
  {
    var os := RotatedOutbounds(t.outbounds, mode, now).value;
    forall a | a in Bound(os)
      ensures a in Assigned(kernel + Entries(now) - taken)
    {
      var tag :| tag in os && os[tag].bind.Some? && a == os[tag].bind.value;
      PointingIsExact(t.outbounds, mode, now, tag);
      if Names(mode, now, tag) {
        var i :| 0 <= i < |now| && IPv6Tag(mode, now[i]) == tag && os[tag].bind == BindOf(now[i]);
        assert Moved(was[i], now[i], occupied, src);
        var e := (now[i].iface, a);
        EntriesMembers(now, e);
        assert e in kernel + Entries(now) - taken;
      } else {
        assert a in Bound(t.outbounds);
        var e: KernelEntry :| e in kernel && e.1 == a;
        forall i | 0 <= i < |was|
          ensures e !in Entry(was[i])
        {
          assert Moved(was[i], now[i], occupied, src);
          assert IPv6Tag(mode, now[i]) == IPv6Tag(mode, was[i]);
        }
        EntriesMembers(was, e);
        assert e in kernel + Entries(now) - taken;
      }
    }
    assert Assigned(kernel + Entries(now) - taken) <= Assigned(kernel + Entries(now));
  }

  // Whether every address is on one interface only.
  ghost predicate SingleHomed(kernel: set<KernelEntry>) {
    forall e, g :: e in kernel && g in kernel && e.1 == g.1 ==> e == g
  }

  // The exact condition for a safe end state: the committed configuration is
  // backed if and only if no outbound outside the rotation still binds one of
  // the addresses that are retired.
  lemma RetirementIsSafeExactlyWhenUnshared(t: Tables, mode: Mode, was: seq<RelayItem>, now: seq<RelayItem>,
      kernel: set<KernelEntry>, occupied: set<Address>, src: Source)
    requires RotatedOutbounds(t.outbounds, mode, now).Success?
    requires |was| == |now| && forall i :: 0 <= i < |was| ==> Moved(was[i], now[i], occupied, src)
    requires Bound(t.outbounds) <= Assigned(kernel) && SingleHomed(kernel + Entries(now))
    requires Entries(now) !! kernel && Entries(was) <= kernel
    ensures Bound(RotatedOutbounds(t.outbounds, mode, now).value)
              <= Assigned(kernel + Entries(now) - Entries(Retiring(was)))
            <==> forall tag, e :: tag in t.outbounds && !Names(mode, now, tag) && e in Entries(Retiring(was)) ==>
              t.outbounds[tag].bind != Some(e.1)
  {
    var os, end := RotatedOutbounds(t.outbounds, mode, now).value, kernel + Entries(now) - Entries(Retiring(was));
    forall e | e in Entries(Retiring(was))
      ensures e in kernel
    {
      EntriesMembers(Retiring(was), e);
      var i :| 0 <= i < |Retiring(was)| && e in Entry(Retiring(was)[i]);
      RetiringMembers(was, Retiring(was)[i]);
      EntriesMembers(was, e);
    }
    if Bound(os) <= Assigned(end) {
      forall tag, e | tag in t.outbounds && !Names(mode, now, tag) && e in Entries(Retiring(was))
        ensures t.outbounds[tag].bind != Some(e.1)
      {
        PointingIsExact(t.outbounds, mode, now, tag);
        if t.outbounds[tag].bind.Some? {
          var a := t.outbounds[tag].bind.value;
          assert a in Bound(os);
          var g: KernelEntry :| g in end && g.1 == a;
        }
      }
    }
    if forall tag, e :: tag in t.outbounds && !Names(mode, now, tag) && e in Entries(Retiring(was)) ==>
        t.outbounds[tag].bind != Some(e.1) {
      forall a | a in Bound(os)
        ensures a in Assigned(end)
      {
        var tag :| tag in os && os[tag].bind.Some? && a == os[tag].bind.value;
        PointingIsExact(t.outbounds, mode, now, tag);
        if Names(mode, now, tag) {
          var i :| 0 <= i < |now| && IPv6Tag(mode, now[i]) == tag && os[tag].bind == BindOf(now[i]);
          assert Moved(was[i], now[i], occupied, src);
          EntriesMembers(now, (now[i].iface, a));
          assert (now[i].iface, a) in end;
        } else {
          assert a in Bound(t.outbounds);
          var e: KernelEntry :| e in kernel && e.1 == a;
          assert e in end;
        }
      }
    }
  }

  // An item on "out" whose address a this panel had added itself.
  function AddedItem(a: Address): RelayItem {
    RelayItem("in", "out", "", "", false, Valid(a), "eth0", 64, true, Upstream("", 0, "", ""), "")
  }

  function SharingOutbounds(a: Address): map<string, Outbound> {
    var own := Outbound("direct", Some(a), IPV6_ONLY, None, "");
    map["out" := own, "other" := own]
  }

  lemma OneItem(item: RelayItem)
    ensures Entries([item]) == Entry(item)
    ensures item.addedByUs ==> Retiring([item]) == [item]
    ensures forall outbounds, mode :: RotatedOutbounds(outbounds, mode, [item]) == Pointed(outbounds, mode, item)
  {
    assert [item][..0] == [];
  }

  // A second outbound sharing the rotated address a loses it.
  lemma SharedAddressIsRetired(a: Address, b: Address)
    requires a != b
    ensures var outbounds, now := RotatedOutbounds(SharingOutbounds(a), IPv6Mode, [AddedItem(b)]), [AddedItem(b)];
            && Bound(SharingOutbounds(a)) <= Assigned({("eth0", a)})
            && outbounds.Success? && a in Bound(outbounds.value)
            && a !in Assigned({("eth0", a)} + Entries(now) - Entries(Retiring([AddedItem(a)])))
  {
    OneItem(AddedItem(a));
    OneItem(AddedItem(b));
    assert ("eth0", a) in {("eth0", a)};
    var os := Pointed(SharingOutbounds(a), IPv6Mode, AddedItem(b)).value;
    assert "other" in os && os["other"].bind == Some(a);
    assert {("eth0", a)} + Entry(AddedItem(b)) - Entry(AddedItem(a)) == {("eth0", b)};
  }

  // ------------------------------------------------------------ the outcome

  // Item i is one the request is about: any item when no tag is given,
  // otherwise the first one with the tag.
  ghost predicate Concerned(items: seq<RelayItem>, tag: string, i: int) {
    && 0 <= i < |items|
    && (tag != "" ==> items[i].inboundTag == tag && forall j :: 0 <= j < i ==> items[j].inboundTag != tag)
  }

  ghost predicate AnyConcerned(items: seq<RelayItem>, tag: string) {
    exists i :: Concerned(items, tag, i)
  }

  // The pool row afterwards: the concerned items have moved, each to a free
  // address of its network, the others are the old ones, and the times are set.
  ghost predicate PoolRotated(was: Pool, now: Pool, tag: string, at: int, occupied: set<Address>, src: Source) {
    && now == was.(items := now.items, rotationInterval := now.rotationInterval, lastRotatedAt := at,
                   nextRotateAt := now.nextRotateAt)
    && ItemsRotated(was.items, now.items, tag, occupied, src)
    && (if was.rotationEnabled && tag == ""
        then && now.rotationInterval == (if was.rotationInterval == 0 then 60 else was.rotationInterval)
             && 5 <= now.rotationInterval <= 7 * 24 * 60
             && now.nextRotateAt == at + 60 * now.rotationInterval
        else now.rotationInterval == was.rotationInterval && now.nextRotateAt == 0)
  }

  ghost predicate ItemsRotated(was: seq<RelayItem>, now: seq<RelayItem>, tag: string, occupied: set<Address>,
                               src: Source) {
    && |now| == |was| && AnyConcerned(was, tag)
    && (forall i :: 0 <= i < |was| ==>
          if Concerned(was, tag, i) then Moved(was[i], now[i], occupied, src) else now[i] == was[i])
    && (tag == "" ==> DistinctAddresses(now))
  }

  // What is handed back: the moved items, and the position of a single one.
  ghost predicate Announced(was: seq<RelayItem>, now: seq<RelayItem>, tag: string, result: Rotated) {
    && (tag == "" ==> result.now == now && result.position == if |now| == 1 then 1 else 0)
    && (tag != "" ==> |result.now| == 1 && 1 <= result.position <= |now| && Concerned(was, tag, result.position - 1)
                      && result.now[0] == now[result.position - 1])
  }

  // The refresh links of the moved items' inbounds carry the time, and no other.
  ghost predicate LinksStamped(was: map<(nat, string), int>, now: map<(nat, string), int>, id: nat,
                               items: seq<RelayItem>, tag: string, at: int) {
    now.Keys == was.Keys && forall key :: key in was ==>
      now[key] == if key.0 == id && ConcernsInbound(items, tag, key.1) then at else was[key]
  }

  ghost predicate ConcernsInbound(items: seq<RelayItem>, tag: string, inbound: string) {
    exists i :: Concerned(items, tag, i) && items[i].inboundTag == inbound
  }

  // The outbounds: those of the moved items send from the new addresses, each
  // from its own item's when items do not share one; all others are as before.
  ghost predicate OutboundsMoved(was: map<string, Outbound>, now: map<string, Outbound>, mode: Mode,
                                 items: seq<RelayItem>, moved: seq<RelayItem>, tag: string)
    requires |moved| == |items|
  {
    && now.Keys == was.Keys
    && (forall o :: o in was && (forall i :: Concerned(items, tag, i) ==> OwnTag(mode, items[i]) != o) ==>
          now[o] == was[o])
    && (forall i :: Concerned(items, tag, i) && OwnsAlone(mode, items, tag, i) ==>
          OwnTag(mode, items[i]) in was
          && SendsFrom(was[OwnTag(mode, items[i])], now[OwnTag(mode, items[i])], moved[i]))
  }

  function OwnTag(mode: Mode, item: RelayItem): string {
    match mode
    case DualStackMode => item.ipv6OutboundTag
    case _ => item.outboundTag
  }

  ghost predicate OwnsAlone(mode: Mode, items: seq<RelayItem>, tag: string, i: int)
    requires 0 <= i < |items|
  {
    forall j :: Concerned(items, tag, j) && OwnTag(mode, items[j]) == OwnTag(mode, items[i]) ==> j == i
  }

  ghost predicate SendsFrom(was: Outbound, now: Outbound, item: RelayItem) {
    && item.ipv6.Valid? && now.bind == Some(item.ipv6.addr)
    && now.strategy == (if item.appleIDIPv4Only then "ipv6_only" else was.strategy)
    && now == was.(bind := now.bind, strategy := now.strategy)
  }

  // Everything a rotation commits to the tables, in their own terms.
  ghost predicate TablesRotated(was: Tables, now: Tables, id: nat, tag: string, actor: string, at: int,
                                occupied: set<Address>, src: Source, result: Rotated) {
    && id in was.pools && id in now.pools
    && now == was.(outbounds := now.outbounds, links := now.links, pools := was.pools[id := now.pools[id]],
                   changes := was.changes + [Change(actor, "rotate", id, |result.now|, tag)])
    && PoolRotated(was.pools[id], now.pools[id], tag, at, occupied, src)
    && Announced(was.pools[id].items, now.pools[id].items, tag, result)
    && LinksStamped(was.links, now.links, id, was.pools[id].items, tag, at)
    && OutboundsMoved(was.outbounds, now.outbounds, was.pools[id].mode, was.pools[id].items, now.pools[id].items, tag)
  }

  // The kernel: the new addresses are there, the moved items' own old ones are
  // gone if their removal works, and nothing else is touched.
  ghost predicate KernelRotated(was: set<KernelEntry>, now: set<KernelEntry>, items: seq<RelayItem>,
                                moved: seq<RelayItem>, tag: string, allRetired: bool)
    requires |moved| == |items|
  {
    && (forall e :: e in now ==> e in was || HeldBy(moved, tag, e, items))
    && (forall e :: e in was && !RetiredOf(items, tag, e) ==> e in now)
    && (forall e :: HeldBy(moved, tag, e, items) && !RetiredOf(items, tag, e) ==> e in now)
    && (allRetired ==> forall e :: RetiredOf(items, tag, e) ==> e !in now)
  }

  ghost predicate HeldBy(moved: seq<RelayItem>, tag: string, e: KernelEntry, items: seq<RelayItem>)
    requires |moved| == |items|
  {
    exists i :: Concerned(items, tag, i) && Occupies(moved[i], e)
  }

  ghost predicate RetiredOf(items: seq<RelayItem>, tag: string, e: KernelEntry) {
    exists i :: Concerned(items, tag, i) && items[i].addedByUs && Occupies(items[i], e)
  }

  lemma SelectedAreConcerned(items: seq<RelayItem>, tag: string)
    requires Selected(items, tag).Success?
    ensures forall i: nat :: i in Selected(items, tag).value <==> Concerned(items, tag, i)
    ensures tag == "" ==> Selected(items, tag).value == seq(|items|, k => k)
    ensures tag != "" ==> |Selected(items, tag).value| == 1
  {
    if tag == "" {
      var all := Selected(items, tag).value;
      forall i: nat
        ensures i in all <==> i < |items|
      {
        if i < |items| { assert all[i] == i; }
      }
    } else {
      FirstTaggedInRange(items, tag, 0);
    }
  }

  // A plan for the items of a pool moves exactly the concerned ones.
  ghost predicate Fits(plan: Plan, items: seq<RelayItem>, tag: string, detected: set<Address>, src: Source) {
    && |plan.selected| == |plan.was| == |plan.now| && |plan.items| == |items|
    && (forall k :: 0 <= k < |plan.selected| ==> Moves(plan, items, tag, detected, src, k))
    && (forall i :: Concerned(items, tag, i) ==> i in plan.selected)
    && (forall i :: 0 <= i < |items| && i !in plan.selected ==> plan.items[i] == items[i])
    && (forall j, k :: 0 <= j < k < |plan.selected| ==> plan.selected[j] != plan.selected[k])
    && DistinctAddresses(plan.now)
    && (tag == "" ==> plan.selected == seq(|items|, k => k))
    && (tag != "" ==> |plan.selected| == 1)
  }

  ghost predicate Moves(plan: Plan, items: seq<RelayItem>, tag: string, detected: set<Address>, src: Source, k: nat)
    requires k < |plan.selected| == |plan.was| == |plan.now| && |plan.items| == |items|
  {
    && Concerned(items, tag, plan.selected[k]) && plan.was[k] == items[plan.selected[k]]
    && plan.now[k] == plan.items[plan.selected[k]] && Moved(plan.was[k], plan.now[k], detected, src)
  }

  lemma PlansFit(t: Tables, id: nat, tag: string, detected: set<Address>, src: Source)
    requires PlanRotation(t, id, tag, detected, src).Success?
    ensures var plan := PlanRotation(t, id, tag, detected, src).value;
            Fits(plan, t.pools[id].items, tag, detected, src) && plan.selected != [] && Sound(plan, detected, src)
  {
    var items := t.pools[id].items;
    var selected := Selected(items, tag).value;
    SelectedInRange(items, tag);
    SelectionMoves(items, selected, detected, src);
    SelectionFits(items, tag, selected, RotatedItems(Chosen(items, selected), 0, detected, src).value, detected, src);
  }

  lemma SelectionMoves(items: seq<RelayItem>, selected: seq<nat>, detected: set<Address>, src: Source)
    requires forall k :: 0 <= k < |selected| ==> selected[k] < |items|
    requires RotatedItems(Chosen(items, selected), 0, detected, src).Success?
    ensures var now := RotatedItems(Chosen(items, selected), 0, detected, src).value;
            && |now| == |selected| && DistinctAddresses(now)
            && (forall k :: 0 <= k < |selected| ==> Moved(items[selected[k]], now[k], detected, src))
            && (forall k :: 0 <= k < |selected| ==> Moved(Chosen(items, selected)[k], now[k], detected, src))
  {
    var was := Chosen(items, selected);
    var now := RotatedItems(was, 0, detected, src).value;
    RotationMovesEveryItem(was, 0, detected, src);
    forall k | 0 <= k < |selected|
      ensures Moved(was[k], now[k], detected, src)
    {
      assert Moved(was[k], now[k - 0], detected, src);
    }
  }

  lemma SelectionFits(items: seq<RelayItem>, tag: string, selected: seq<nat>, now: seq<RelayItem>,
                      detected: set<Address>, src: Source)
    requires Selected(items, tag) == Success(selected) && |now| == |selected| && DistinctAddresses(now)
    requires forall k :: 0 <= k < |selected| ==> selected[k] < |items|
    requires forall j, k :: 0 <= j < k < |selected| ==> selected[j] != selected[k]
    requires forall k :: 0 <= k < |selected| ==> Moved(items[selected[k]], now[k], detected, src)
    ensures var plan := Plan(selected, Chosen(items, selected), now, Replaced(items, selected, now));
            Fits(plan, items, tag, detected, src)
  {
    var plan := Plan(selected, Chosen(items, selected), now, Replaced(items, selected, now));
    SelectedAreConcerned(items, tag);
    forall k | 0 <= k < |selected|
      ensures Moves(plan, items, tag, detected, src, k)
    {
      assert selected[k] in selected;
      ReplacedExactly(items, selected, now, selected[k]);
    }
    forall i | 0 <= i < |items| && i !in selected
      ensures plan.items[i] == items[i]
    {
      ReplacedExactly(items, selected, now, i);
    }
  }

  // Where the plan has a concerned item.
  lemma PlaceOf(plan: Plan, items: seq<RelayItem>, tag: string, detected: set<Address>, src: Source, i: int)
      returns (k: nat)
    requires Fits(plan, items, tag, detected, src) && Concerned(items, tag, i)
    ensures k < |plan.selected| && plan.selected[k] == i && Moves(plan, items, tag, detected, src, k)
  {
    k :| 0 <= k < |plan.selected| && plan.selected[k] == i;
  }

  lemma ItemsFollowPlan(plan: Plan, items: seq<RelayItem>, tag: string, detected: set<Address>, src: Source)
    requires Fits(plan, items, tag, detected, src) && plan.selected != []
    ensures ItemsRotated(items, plan.items, tag, detected, src)
    ensures Announced(items, plan.items, tag, Rotated(plan.now, Position(plan)))
  {
    assert Moves(plan, items, tag, detected, src, 0);
    forall i | 0 <= i < |items|
      ensures if Concerned(items, tag, i) then Moved(items[i], plan.items[i], detected, src)
              else plan.items[i] == items[i]
    {
      if i in plan.selected {
        var k :| 0 <= k < |plan.selected| && plan.selected[k] == i;
        assert Moves(plan, items, tag, detected, src, k);
      }
    }
    if tag == "" {
      forall i | 0 <= i < |items|
        ensures plan.now[i] == plan.items[i]
      {
        assert Moves(plan, items, tag, detected, src, i);
      }
      assert plan.now == plan.items;
    }
  }

  lemma LinksFollowPlan(links: map<(nat, string), int>, id: nat, plan: Plan, items: seq<RelayItem>, tag: string,
                        detected: set<Address>, src: Source, at: int)
    requires Fits(plan, items, tag, detected, src)
    ensures LinksStamped(links, StampedLinks(links, id, plan.now, at), id, items, tag, at)
  {
    forall inbound
      ensures ConcernsInbound(items, tag, inbound)
         <==> exists k :: 0 <= k < |plan.now| && plan.now[k].inboundTag == inbound
    {
      if ConcernsInbound(items, tag, inbound) {
        var i :| Concerned(items, tag, i) && items[i].inboundTag == inbound;
        var k := PlaceOf(plan, items, tag, detected, src, i);
        assert plan.now[k].inboundTag == inbound;
      }
      if k :| 0 <= k < |plan.now| && plan.now[k].inboundTag == inbound {
        assert Moves(plan, items, tag, detected, src, k);
      }
    }
  }

  // An outbound is named by the plan exactly when it is a concerned item's.
  lemma NamesFollowPlan(plan: Plan, items: seq<RelayItem>, tag: string, detected: set<Address>, src: Source,
                        mode: Mode, o: string)
    requires Fits(plan, items, tag, detected, src)
    ensures Names(mode, plan.now, o) <==> exists i :: Concerned(items, tag, i) && OwnTag(mode, items[i]) == o
  {
    if Names(mode, plan.now, o) {
      var k :| 0 <= k < |plan.now| && IPv6Tag(mode, plan.now[k]) == o;
      assert Moves(plan, items, tag, detected, src, k);
    }
    if i :| Concerned(items, tag, i) && OwnTag(mode, items[i]) == o {
      var k := PlaceOf(plan, items, tag, detected, src, i);
      assert IPv6Tag(mode, plan.now[k]) == o;
    }
  }

  lemma OutboundsFollowPlan(outbounds: map<string, Outbound>, plan: Plan, items: seq<RelayItem>, tag: string,
                            detected: set<Address>, src: Source, mode: Mode)
    requires Fits(plan, items, tag, detected, src) && RotatedOutbounds(outbounds, mode, plan.now).Success?
    ensures OutboundsMoved(outbounds, RotatedOutbounds(outbounds, mode, plan.now).value, mode, items, plan.items, tag)
  {
    var os := RotatedOutbounds(outbounds, mode, plan.now).value;
    PointingIsExact(outbounds, mode, plan.now, "");
    forall o | o in outbounds && (forall i :: Concerned(items, tag, i) ==> OwnTag(mode, items[i]) != o)
      ensures os[o] == outbounds[o]
    {
      NamesFollowPlan(plan, items, tag, detected, src, mode, o);
      PointingIsExact(outbounds, mode, plan.now, o);
    }
    forall i | Concerned(items, tag, i) && OwnsAlone(mode, items, tag, i)
      ensures OwnTag(mode, items[i]) in outbounds
      ensures SendsFrom(outbounds[OwnTag(mode, items[i])], os[OwnTag(mode, items[i])], plan.items[i])
    {
      LoneItemIsPointed(outbounds, plan, items, tag, detected, src, mode, i);
    }
  }

  lemma LoneItemIsPointed(outbounds: map<string, Outbound>, plan: Plan, items: seq<RelayItem>, tag: string,
                          detected: set<Address>, src: Source, mode: Mode, i: int)
    requires Fits(plan, items, tag, detected, src) && RotatedOutbounds(outbounds, mode, plan.now).Success?
    requires Concerned(items, tag, i) && OwnsAlone(mode, items, tag, i)
    ensures var os, o := RotatedOutbounds(outbounds, mode, plan.now).value, OwnTag(mode, items[i]);
            o in outbounds && o in os && SendsFrom(outbounds[o], os[o], plan.items[i])
  {
    var k := PlaceOf(plan, items, tag, detected, src, i);
    forall j | 0 <= j < |plan.now| && IPv6Tag(mode, plan.now[j]) == IPv6Tag(mode, plan.now[k])
      ensures j == k
    {
      assert Moves(plan, items, tag, detected, src, j);
      assert plan.selected[j] == i;
    }
    PointingTheOnlyOne(outbounds, mode, plan.now, k);
  }

  // An item that shares its outbound with no other gets it pointed at itself.
  lemma {:induction false} PointingTheOnlyOne(outbounds: map<string, Outbound>, mode: Mode, items: seq<RelayItem>,
                                              k: nat)
    requires RotatedOutbounds(outbounds, mode, items).Success? && k < |items| && items[k].ipv6.Valid?
    requires forall j :: 0 <= j < |items| && IPv6Tag(mode, items[j]) == IPv6Tag(mode, items[k]) ==> j == k
    ensures var os, tag := RotatedOutbounds(outbounds, mode, items).value, IPv6Tag(mode, items[k]);
            tag in outbounds && tag in os && SendsFrom(outbounds[tag], os[tag], items[k])
  {
    var init, last := items[..|items| - 1], items[|items| - 1];
    if k < |init| {
      assert forall j :: 0 <= j < |init| ==> init[j] == items[j];
      PointingTheOnlyOne(outbounds, mode, init, k);
      assert IPv6Tag(mode, last) != IPv6Tag(mode, items[k]);
    } else {
      assert forall j :: 0 <= j < |init| ==> init[j] == items[j];
      PointingIsExact(outbounds, mode, init, IPv6Tag(mode, last));
    }
  }

  function Position(plan: Plan): nat {
    if |plan.selected| == 1 then plan.selected[0] + 1 else 0
  }

  // MAIN: what a rotation that went through has made of the tables.
  lemma RotationRotatesTables(t: Tables, now: Tables, id: nat, tag: string, actor: string, at: int, plan: Plan,
                              detected: set<Address>, src: Source)
    requires id in t.pools && Fits(plan, t.pools[id].items, tag, detected, src) && plan.selected != []
    requires Draft(t, id, tag, plan, at).Success?
    requires now == Committed(Draft(t, id, tag, plan, at).value, id, tag, actor, plan)
    ensures TablesRotated(t, now, id, tag, actor, at, detected, src, Rotated(plan.now, Position(plan)))
  {
    var pool := t.pools[id];
    ItemsFollowPlan(plan, pool.items, tag, detected, src);
    LinksFollowPlan(t.links, id, plan, pool.items, tag, detected, src, at);
    OutboundsFollowPlan(t.outbounds, plan, pool.items, tag, detected, src, pool.mode);
  }

  // And of the kernel.
  lemma RotationRotatesKernel(plan: Plan, items: seq<RelayItem>, tag: string, detected: set<Address>, src: Source,
                              kernel: set<KernelEntry>, f: Faults)
    requires Fits(plan, items, tag, detected, src)
    ensures KernelRotated(kernel, RotatedKernel(kernel, plan, f), items, plan.items, tag, AllRetired(f))
  {
    RemovedWithin(Retiring(plan.was), f.retires);
    forall e
      ensures e in Entries(plan.now) <==> HeldBy(plan.items, tag, e, items)
      ensures e in Entries(Retiring(plan.was)) <==> RetiredOf(items, tag, e)
    {
      NewEntries(plan, items, tag, detected, src, e);
      RetiredEntries(plan, items, tag, detected, src, e);
    }
  }

  // What a rotation asks of the tables: an IPv6 pool with a concerned item, the
  // concerned items rotatable and on direct outbounds, a sensible interval.
  ghost predicate Possible(t: Tables, id: nat, tag: string) {
    && id in t.pools && !t.pools[id].mode.UpstreamMode? && AnyConcerned(t.pools[id].items, tag)
    && (forall i :: Concerned(t.pools[id].items, tag, i) ==>
          Rotatable(t.pools[id].items[i]) && OnDirect(t.outbounds, OwnTag(t.pools[id].mode, t.pools[id].items[i])))
    && (tag == "" && t.pools[id].rotationEnabled && t.pools[id].rotationInterval != 0 ==>
          5 <= t.pools[id].rotationInterval <= 7 * 24 * 60)
  }

  predicate OnDirect(outbounds: map<string, Outbound>, tag: string) {
    tag != "" && tag in outbounds && outbounds[tag].kind == "direct"
  }

  // MAIN: then nothing but the draws can keep a rotation from being planned and
  // drafted.
  lemma PossibleIsPlanned(t: Tables, id: nat, tag: string, detected: set<Address>, src: Source, at: int)
    requires Possible(t, id, tag)
    ensures match PlanRotation(t, id, tag, detected, src)
            case Success(plan) => Draft(t, id, tag, plan, at).Success?
            case Failure(_) => DrawsFail(t.pools[id].items, tag, detected, src)
  {
    var items := t.pools[id].items;
    var selected := PossibleSelects(t, id, tag);
    var was := Chosen(items, selected);
    if RotatedItems(was, 0, detected, src).Failure? {
      var k, taken := OnlyDrawsFail(was, 0, detected, src);
      assert Concerned(items, tag, selected[k]);
    } else {
      SelectionMoves(items, selected, detected, src);
      MovedArePointed(t.outbounds, t.pools[id].mode, was, RotatedItems(was, 0, detected, src).value, detected, src);
    }
  }

  lemma PossibleSelects(t: Tables, id: nat, tag: string) returns (selected: seq<nat>)
    requires Possible(t, id, tag)
    ensures Selected(t.pools[id].items, tag) == Success(selected) && |selected| <= |t.pools[id].items|
    ensures forall k :: 0 <= k < |selected| ==> Concerned(t.pools[id].items, tag, selected[k])
    ensures forall k :: 0 <= k < |selected| ==> Rotatable(Chosen(t.pools[id].items, selected)[k])
    ensures forall k :: 0 <= k < |selected| ==>
              OnDirect(t.outbounds, IPv6Tag(t.pools[id].mode, Chosen(t.pools[id].items, selected)[k]))
  {
    var items := t.pools[id].items;
    var i :| Concerned(items, tag, i);
    if tag != "" {
      FirstTaggedInRange(items, tag, 0);
    }
    selected := Selected(items, tag).value;
    SelectedInRange(items, tag);
    SelectedAreConcerned(items, tag);
    forall k | 0 <= k < |selected|
      ensures Concerned(items, tag, selected[k])
    {
      assert selected[k] in selected;
    }
  }

  lemma MovedArePointed(outbounds: map<string, Outbound>, mode: Mode, was: seq<RelayItem>, now: seq<RelayItem>,
                        detected: set<Address>, src: Source)
    requires |was| == |now| && forall k :: 0 <= k < |was| ==> Moved(was[k], now[k], detected, src)
    requires forall k :: 0 <= k < |was| ==> OnDirect(outbounds, IPv6Tag(mode, was[k]))
    ensures RotatedOutbounds(outbounds, mode, now).Success?
  {
    forall k | 0 <= k < |now|
      ensures OnDirect(outbounds, IPv6Tag(mode, now[k]))
    {
      assert Moved(was[k], now[k], detected, src);
    }
    DirectOnesArePointed(outbounds, mode, now);
  }

  ghost predicate DrawsFail(items: seq<RelayItem>, tag: string, detected: set<Address>, src: Source) {
    exists i, k: nat, taken: set<Address> ::
      && Concerned(items, tag, i) && items[i].ipv6.Valid? && 1 <= items[i].prefix < 128
      && detected <= taken && |taken| < |detected| + |items| && Starves(items[i], k, taken, src)
  }

  lemma {:induction false} DirectOnesArePointed(outbounds: map<string, Outbound>, mode: Mode, items: seq<RelayItem>)
    requires forall k :: 0 <= k < |items| ==> OnDirect(outbounds, IPv6Tag(mode, items[k]))
    ensures RotatedOutbounds(outbounds, mode, items).Success?
    ensures forall tag :: OnDirect(outbounds, tag) ==> OnDirect(RotatedOutbounds(outbounds, mode, items).value, tag)
  {
    if items != [] {
      assert forall k :: 0 <= k < |items| - 1 ==> items[..|items| - 1][k] == items[k];
      DirectOnesArePointed(outbounds, mode, items[..|items| - 1]);
    }
  }

  ghost predicate AllRetired(f: Faults) {
    forall i :: f.retires(i)
  }

  lemma NewEntries(plan: Plan, items: seq<RelayItem>, tag: string, detected: set<Address>, src: Source, e: KernelEntry)
    requires Fits(plan, items, tag, detected, src)
    ensures e in Entries(plan.now) <==> HeldBy(plan.items, tag, e, items)
  {
    EntriesMembers(plan.now, e);
    if e in Entries(plan.now) {
      var k :| 0 <= k < |plan.now| && e in Entry(plan.now[k]);
      assert Moves(plan, items, tag, detected, src, k);
    }
    if HeldBy(plan.items, tag, e, items) {
      var i :| Concerned(items, tag, i) && Occupies(plan.items[i], e);
      var k := PlaceOf(plan, items, tag, detected, src, i);
      assert e in Entry(plan.now[k]);
    }
  }

  lemma RetiredEntries(plan: Plan, items: seq<RelayItem>, tag: string, detected: set<Address>, src: Source,
                       e: KernelEntry)
    requires Fits(plan, items, tag, detected, src)
    ensures e in Entries(Retiring(plan.was)) <==> RetiredOf(items, tag, e)
  {
    var retiring := Retiring(plan.was);
    EntriesMembers(retiring, e);
    if e in Entries(retiring) {
      var j :| 0 <= j < |retiring| && e in Entry(retiring[j]);
      RetiringMembers(plan.was, retiring[j]);
      var k :| 0 <= k < |plan.was| && plan.was[k] == retiring[j];
      assert Moves(plan, items, tag, detected, src, k);
    }
    if RetiredOf(items, tag, e) {
      var i :| Concerned(items, tag, i) && items[i].addedByUs && Occupies(items[i], e);
      var k := PlaceOf(plan, items, tag, detected, src, i);
      RetiringMembers(plan.was, plan.was[k]);
      var j :| 0 <= j < |retiring| && retiring[j] == plan.was[k];
      assert e in Entry(retiring[j]);
    }
  }

  // ------------------------------------------------------------ rotation

  // The outside world during one rotation.
  datatype Faults = Faults(
    permitted: bool,                  // Linux and root
    discovers: bool,                  // the interface listing succeeds
    visible: KernelEntry -> bool,     // what that listing shows
    adds: nat -> bool, ready: bool, egress: bool,
    begin: bool, writes: bool,        // opening the transaction, its statements
    switch: SwitchFaults,
    cleans: nat -> bool, retires: nat -> bool)

  predicate NoFault(f: Faults, wasRunning: bool) {
    f.permitted && f.discovers && f.ready && f.egress && f.begin && f.writes && Switches(f.switch, wasRunning)
  }

  datatype Rotated = Rotated(now: seq<RelayItem>, position: nat)

  // The transaction: draft, switch, commit. Undone before returning on failure.
  method RotateInTransaction(p: Panel, id: nat, tag: string, actor: string, now: int, plan: Plan, f: Faults)
      returns (committed: bool)
    requires id in p.tables.pools
    modifies p`tables, p`running, p`trace, p`coreBusy
    ensures p.coreBusy == old(p.coreBusy)
    ensures committed ==> Draft(old(p.tables), id, tag, plan, now).Success?
    ensures committed ==> p.tables == Committed(Draft(old(p.tables), id, tag, plan, now).value, id, tag, actor, plan)
    ensures committed ==> p.running == if old(p.running.Some?) then Some(BuildConfig(p.tables)) else None
    ensures !committed ==>
              p.tables == old(p.tables) && p.running in {None, old(p.running), Some(BuildConfig(old(p.tables)))}
    ensures !committed && f.switch.restoreStop && f.switch.restoreStart ==>
              p.running == old(p.running) || (old(p.running).Some? && p.running == Some(BuildConfig(old(p.tables))))
    ensures !old(p.coreBusy) && f.begin && f.writes && Draft(old(p.tables), id, tag, plan, now).Success? ==>
              (committed <==> Switches(f.switch, old(p.running.Some?)))
    ensures old(p.trace) <= p.trace
    ensures forall i :: |old(p.trace)| <= i < |p.trace| ==> p.trace[i].kernel == p.kernel
    ensures forall i :: |old(p.trace)| <= i < |p.trace| ==>
              || p.trace[i].running in {None, old(p.running), Some(BuildConfig(old(p.tables)))}
              || (Draft(old(p.tables), id, tag, plan, now).Success? &&
                  p.trace[i].running == Some(BuildConfig(Draft(old(p.tables), id, tag, plan, now).value)))
  {
    if p.coreBusy {
      return false;
    }
    p.coreBusy := true;
    committed := false;
    if f.begin && f.writes {
      var pool := p.tables.pools[id];
      var outbounds := UpdateRotatedOutbounds(p.tables.outbounds, pool.mode, plan.now);
      var scheduled := pool.rotationEnabled && tag == "";
      if outbounds.Success? && (scheduled ==> RotationInterval(pool.rotationInterval).Success?) {
        var nextRotateAt := 0;
        if scheduled {
          pool := pool.(rotationInterval := RotationInterval(pool.rotationInterval).value);
          nextRotateAt := now + 60 * pool.rotationInterval;
        }
        pool := pool.(items := plan.items, lastRotatedAt := now, nextRotateAt := nextRotateAt);
        var draft := p.tables.(outbounds := outbounds.value,
                               links := StampedLinks(p.tables.links, id, plan.now, now),
                               pools := p.tables.pools[id := pool]);
        committed := SwitchAndCommit(p, draft, Change(actor, "rotate", id, |plan.now|, tag), f.switch);
      }
    }
    p.coreBusy := false;
  }

  function Committed(draft: Tables, id: nat, tag: string, actor: string, plan: Plan): Tables {
    draft.(changes := draft.changes + [Change(actor, "rotate", id, |plan.now|, tag)])
  }

  // Tables and core after a rotation that went through.
  ghost predicate SwitchedOver(tables: Tables, running: Option<CoreConfig>, was: Tables, wasRunning: bool,
                               id: nat, tag: string, actor: string, now: int, plan: Plan)
    requires id in was.pools
  {
    && Draft(was, id, tag, plan, now).Success?
    && tables == Committed(Draft(was, id, tag, plan, now).value, id, tag, actor, plan)
    && running == if wasRunning then Some(BuildConfig(tables)) else None
  }

  // Nothing stands in the way of a rotation.
  ghost predicate Unhindered(p: Panel, id: nat, tag: string, plan: Plan, now: int, f: Faults)
    requires id in p.tables.pools
    reads p
  {
    && Draft(p.tables, id, tag, plan, now).Success? && !p.coreBusy && NoFault(f, p.running.Some?)
    && (forall i :: f.adds(i)) && Entries(plan.now) !! p.kernel
  }

  // The kernel after a rotation that went through.
  function RotatedKernel(kernel: set<KernelEntry>, plan: Plan, f: Faults): set<KernelEntry> {
    kernel + Entries(plan.now) - Removed(Retiring(plan.was), f.retires)
  }

  ghost predicate Sound(plan: Plan, occupied: set<Address>, src: Source) {
    && |plan.was| == |plan.now|
    && (forall i :: 0 <= i < |plan.was| ==> Moved(plan.was[i], plan.now[i], occupied, src))
    && DistinctAddresses(plan.now)
  }

  // An address of the batch is not among those added before it.
  lemma NotAddedYet(items: seq<RelayItem>, n: nat)
    requires DistinctAddresses(items) && n < |items|
    ensures Entry(items[n]) !! Entries(items[..n])
  {
    forall e | e in Entry(items[n])
      ensures e !in Entries(items[..n])
    {
      EntriesMembers(items[..n], e);
    }
  }

  // With fresh, distinct addresses only a failing command stops the additions.
  lemma BlockedAddition(plan: Plan, n: nat, kernel: set<KernelEntry>, occupied: set<Address>, src: Source)
    requires Sound(plan, occupied, src) && n < |plan.now|
    ensures plan.now[n].ipv6.Valid? && plan.now[n].iface != "" && 1 <= plan.now[n].prefix <= 128
    ensures Entries(plan.now) !! kernel ==>
              (plan.now[n].iface, plan.now[n].ipv6.addr) !in kernel + Entries(plan.now[..n])
  {
    assert Moved(plan.was[n], plan.now[n], occupied, src);
    NotAddedYet(plan.now, n);
    EntriesMembers(plan.now, (plan.now[n].iface, plan.now[n].ipv6.addr));
  }

  lemma BackedMore(running: Option<CoreConfig>, kernel: set<KernelEntry>, more: set<KernelEntry>)
    requires Backed(Moment(running, kernel)) && kernel <= more
    ensures Backed(Moment(running, more))
  {
    assert Assigned(kernel) <= Assigned(more);
  }

  // While the core is being switched, all the new addresses are there.
  lemma SwitchMomentBacked(t: Tables, running: Option<CoreConfig>, kernel: set<KernelEntry>, mode: Mode, id: nat,
      tag: string, plan: Plan, now: int, occupied: set<Address>, src: Source, m: Moment)
    requires id in t.pools && t.pools[id].mode == mode && Sound(plan, occupied, src)
    requires InOrder(t, running, kernel, mode, plan.was) && Entries(plan.now) !! kernel
    requires m.kernel == kernel + Entries(plan.now)
    requires m.running in {None, running, Some(BuildConfig(t))}
             || (Draft(t, id, tag, plan, now).Success?
                 && m.running == Some(BuildConfig(Draft(t, id, tag, plan, now).value)))
    ensures Backed(m)
  {
    assert Assigned(kernel) <= Assigned(m.kernel);
    if m.running !in {None, running, Some(BuildConfig(t))} {
      DraftIsBacked(t, mode, plan.was, plan.now, kernel, {}, occupied, src);
    }
  }

  // Afterwards either the new configuration runs and only retired addresses go,
  // or an old one runs and only the additions go.
  lemma AfterMomentBacked(t: Tables, running: Option<CoreConfig>, kernel: set<KernelEntry>, mode: Mode, id: nat,
      tag: string, plan: Plan, now: int, f: Faults, occupied: set<Address>, src: Source, committed: bool, m: Moment)
    requires id in t.pools && t.pools[id].mode == mode && Sound(plan, occupied, src)
    requires InOrder(t, running, kernel, mode, plan.was)
    requires if committed
             then Draft(t, id, tag, plan, now).Success?
                 && m.running in {None, Some(BuildConfig(Draft(t, id, tag, plan, now).value))}
                  && Entries(plan.now) !! kernel && RotatedKernel(kernel, plan, f) <= m.kernel
             else m.running in {None, running, Some(BuildConfig(t))} && kernel <= m.kernel
    ensures Backed(m)
  {
    if committed {
      RemovedWithin(Retiring(plan.was), f.retires);
      forall e | e in Entries(Retiring(plan.was))
        ensures e in Entries(plan.was)
      {
        EntriesMembers(Retiring(plan.was), e);
        var i :| 0 <= i < |Retiring(plan.was)| && e in Entry(Retiring(plan.was)[i]);
        RetiringMembers(plan.was, Retiring(plan.was)[i]);
        EntriesMembers(plan.was, e);
      }
      DraftIsBacked(t, mode, plan.was, plan.now, kernel, Removed(Retiring(plan.was), f.retires), occupied, src);
      assert Assigned(RotatedKernel(kernel, plan, f)) <= Assigned(m.kernel);
    } else {
      assert Assigned(kernel) <= Assigned(m.kernel);
    }
  }

  // Adding, waiting, probing and switching.
  method AddAndSwitch(p: Panel, id: nat, tag: string, actor: string, now: int, plan: Plan, f: Faults,
                      ghost occupied: set<Address>, ghost src: Source) returns (added: nat, committed: bool)
    requires id in p.tables.pools && Sound(plan, occupied, src)
    modifies p
    ensures p.coreBusy == old(p.coreBusy)
    ensures added <= |plan.now| && (committed ==> added == |plan.now|)
    ensures p.kernel == old(p.kernel) + Entries(plan.now[..added]) && Entries(plan.now[..added]) !! old(p.kernel)
    ensures !committed ==>
              p.tables == old(p.tables) && p.running in {None, old(p.running), Some(BuildConfig(old(p.tables)))}
    ensures !committed && f.switch.restoreStop && f.switch.restoreStart ==>
              p.running == old(p.running) || (old(p.running).Some? && p.running == Some(BuildConfig(old(p.tables))))
    ensures committed ==>
              SwitchedOver(p.tables, p.running, old(p.tables), old(p.running.Some?), id, tag, actor, now, plan)
    ensures old(Unhindered(p, id, tag, plan, now, f)) ==> committed
    ensures old(p.trace) <= p.trace
    ensures InOrder(old(p.tables), old(p.running), old(p.kernel), old(p.tables).pools[id].mode, plan.was) ==>
              AllBacked(p.trace, |old(p.trace)|)
  {
    ghost var t0, run0, k0, tr0 := p.tables, p.running, p.kernel, p.trace;
    ghost var mode := t0.pools[id].mode;
    added := AddAll(p, plan.now, f.adds);
    ghost var tr1 := p.trace;
    committed := false;
    if added == |plan.now| {
      assert plan.now[..added] == plan.now;
      if f.ready && f.egress {
        committed := RotateInTransaction(p, id, tag, actor, now, plan, f);
      }
    } else {
      BlockedAddition(plan, added, k0, occupied, src);
    }
    if InOrder(t0, run0, k0, mode, plan.was) {
      forall i | |tr0| <= i < |p.trace|
        ensures Backed(p.trace[i])
      {
        if i < |tr1| {
          assert p.trace[i] == tr1[i];
          BackedMore(run0, k0, tr1[i].kernel);
        } else {
          SwitchMomentBacked(t0, run0, k0, mode, id, tag, plan, now, occupied, src, p.trace[i]);
        }
      }
    }
  }

  // The effects of a planned rotation: add, wait, probe, switch, then either
  // clean up the additions or retire the old addresses. The undo steps run in
  // the reverse order of the steps they undo.
  method RotatePlanned(p: Panel, id: nat, tag: string, actor: string, now: int, plan: Plan, f: Faults,
                       ghost occupied: set<Address>, ghost src: Source) returns (committed: bool)
    requires id in p.tables.pools && Sound(plan, occupied, src)
    modifies p
    ensures p.coreBusy == old(p.coreBusy)
    ensures !committed ==> p.tables == old(p.tables)
    ensures !committed && (forall i :: f.cleans(i)) ==> p.kernel == old(p.kernel)
    ensures !committed && f.switch.restoreStop && f.switch.restoreStart ==>
              p.running == old(p.running) || (old(p.running).Some? && p.running == Some(BuildConfig(old(p.tables))))
    ensures committed ==>
              SwitchedOver(p.tables, p.running, old(p.tables), old(p.running.Some?), id, tag, actor, now, plan)
    ensures committed ==> p.kernel == RotatedKernel(old(p.kernel), plan, f)
    ensures old(Unhindered(p, id, tag, plan, now, f)) ==> committed
    ensures old(p.trace) <= p.trace
    ensures InOrder(old(p.tables), old(p.running), old(p.kernel), old(p.tables).pools[id].mode, plan.was) ==>
              AllBacked(p.trace, |old(p.trace)|)
  {
    ghost var t0, run0, k0, tr0 := p.tables, p.running, p.kernel, p.trace;
    ghost var mode := t0.pools[id].mode;
    var added;
    added, committed := AddAndSwitch(p, id, tag, actor, now, plan, f, occupied, src);
    ghost var tr1 := p.trace;
    if committed {
      assert plan.now[..added] == plan.now;
      DeleteAll(p, Retiring(plan.was), f.retires);
    } else {
      DeleteAll(p, plan.now[..added], f.cleans);
      RemovedWithin(plan.now[..added], f.cleans);
    }
    if InOrder(t0, run0, k0, mode, plan.was) {
      forall i | |tr1| <= i < |p.trace|
        ensures Backed(p.trace[i])
      {
        AfterMomentBacked(t0, run0, k0, mode, id, tag, plan, now, f, occupied, src, committed, p.trace[i]);
      }
      StayBacked(tr1, p.trace, |tr0|);
    }
  }

  lemma StayBacked(trace: seq<Moment>, later: seq<Moment>, start: nat)
    requires start <= |trace| && trace <= later && AllBacked(trace, start) && AllBacked(later, |trace|)
    ensures AllBacked(later, start)
  {
    forall i | start <= i < |later|
      ensures Backed(later[i])
    {
      if i < |trace| { assert later[i] == trace[i]; }
    }
  }

  // Tables and kernel after a rotation, without a word on how it was planned.
  ghost predicate RotationOutcome(was: Tables, wasKernel: set<KernelEntry>, now: Tables, kernel: set<KernelEntry>,
                                  id: nat, tag: string, actor: string, at: int, occupied: set<Address>, src: Source,
                                  result: Rotated, allRetired: bool) {
    && TablesRotated(was, now, id, tag, actor, at, occupied, src, result)
    && KernelRotated(wasKernel, kernel, was.pools[id].items, now.pools[id].items, tag, allRetired)
  }

  lemma RotationHasOutcome(t: Tables, wasKernel: set<KernelEntry>, now: Tables, kernel: set<KernelEntry>, id: nat,
                           tag: string, actor: string, at: int, plan: Plan, f: Faults, occupied: set<Address>,
                           src: Source)
    requires id in t.pools && Fits(plan, t.pools[id].items, tag, occupied, src) && plan.selected != []
    requires Draft(t, id, tag, plan, at).Success?
    requires now == Committed(Draft(t, id, tag, plan, at).value, id, tag, actor, plan)
    requires kernel == RotatedKernel(wasKernel, plan, f)
    ensures RotationOutcome(t, wasKernel, now, kernel, id, tag, actor, at, occupied, src,
                            Rotated(plan.now, Position(plan)), AllRetired(f))
  {
    RotationRotatesTables(t, now, id, tag, actor, at, plan, occupied, src);
    RotationRotatesKernel(plan, t.pools[id].items, tag, occupied, src, wasKernel, f);
  }

  // The part of a rotation before any effect: which items, to which addresses.
  method PlanOf(t: Tables, id: nat, tag: string, detected: set<Address>, src: Source) returns (r: Result<Plan>)
    ensures r.Success? <==> PlanRotation(t, id, tag, detected, src).Success?
    ensures r.Success? ==> r == PlanRotation(t, id, tag, detected, src)
    ensures r.Success? ==> Fits(r.value, t.pools[id].items, tag, detected, src) && r.value.selected != []
    ensures r.Success? ==> Sound(r.value, detected, src)
  {
    if id !in t.pools || !t.pools[id].mode.UsesIPv6() || t.pools[id].items == [] {
      return Failure("rotation is not possible");
    }
    var items := t.pools[id].items;
    var selected := SelectItems(items, tag);
    if selected.Failure? {
      return Failure(selected.error);
    }
    SelectedInRange(items, tag);
    var was := Chosen(items, selected.value);
    var prepared := PrepareRotatedItems(was, detected, src);
    if prepared.Failure? {
      return Failure(prepared.error);
    }
    RotationMovesEveryItem(was, 0, detected, src);
    r := Success(Plan(selected.value, was, prepared.value, Replaced(items, selected.value, prepared.value)));
    PlansFit(t, id, tag, detected, src);
  }

  // A planned rotation, told by its outcome.
  method RotateAsPlanned(p: Panel, id: nat, tag: string, actor: string, now: int, plan: Plan, f: Faults,
                         ghost occupied: set<Address>, ghost src: Source) returns (committed: bool)
    requires id in p.tables.pools && Sound(plan, occupied, src)
    requires Fits(plan, p.tables.pools[id].items, tag, occupied, src) && plan.selected != []
    modifies p
    ensures p.coreBusy == old(p.coreBusy)
    ensures !committed ==> p.tables == old(p.tables)
    ensures !committed && (forall i :: f.cleans(i)) ==> p.kernel == old(p.kernel)
    ensures !committed && f.switch.restoreStop && f.switch.restoreStart ==>
              p.running == old(p.running) || (old(p.running).Some? && p.running == Some(BuildConfig(old(p.tables))))
    ensures committed ==>
              SwitchedOver(p.tables, p.running, old(p.tables), old(p.running.Some?), id, tag, actor, now, plan)
    ensures committed ==> p.kernel == RotatedKernel(old(p.kernel), plan, f)
    ensures committed ==>
              RotationOutcome(old(p.tables), old(p.kernel), p.tables, p.kernel, id, tag, actor, now, occupied, src,
                              Rotated(plan.now, Position(plan)), AllRetired(f))
    ensures old(Unhindered(p, id, tag, plan, now, f)) ==> committed
    ensures old(p.trace) <= p.trace
    ensures InOrder(old(p.tables), old(p.running), old(p.kernel), old(p.tables).pools[id].mode, plan.was) ==>
              AllBacked(p.trace, |old(p.trace)|)
  {
    committed := RotatePlanned(p, id, tag, actor, now, plan, f, occupied, src);
    if committed {
      RotationHasOutcome(old(p.tables), old(p.kernel), p.tables, p.kernel, id, tag, actor, now, plan, f, occupied, src);
    }
  }

  // MAIN: one rotation, with every step allowed to fail.
  //  - Failure: the tables are untouched, and when the undo steps work the
  //    kernel is untouched and the core runs what it ran before.
  //  - Success: tables, core and kernel are all the new ones.
  //  - At every moment in between, what the core binds is assigned.
  method RotateRelayItems(p: Panel, id: nat, tag: string, actor: string, now: int, f: Faults, src: Source)
      returns (r: Result<Rotated>)
    modifies p
    ensures p.coreBusy == old(p.coreBusy)
    ensures r.Failure? ==> p.tables == old(p.tables)
    ensures r.Failure? && (forall i :: f.cleans(i)) ==> p.kernel == old(p.kernel)
    ensures r.Failure? && f.switch.restoreStop && f.switch.restoreStart ==>
              p.running == old(p.running) || (old(p.running).Some? && p.running == Some(BuildConfig(old(p.tables))))
    ensures r.Success? ==>
              RotationOutcome(old(p.tables), old(p.kernel), p.tables, p.kernel, id, tag, actor, now,
                              Detected(old(p.kernel), f.visible), src, r.value, AllRetired(f))
    ensures r.Success? && old(p.running).Some? ==>
              p.running == Some(CoreConfig(p.tables.settings, p.tables.inbounds, p.tables.outbounds, p.tables.clients))
    ensures var plan := PlanRotation(old(p.tables), id, tag, Detected(old(p.kernel), f.visible), src);
            r.Success? ==>
              && plan.Success?
              && SwitchedOver(p.tables, p.running, old(p.tables), old(p.running.Some?), id, tag, actor, now, plan.value)
              && p.kernel == RotatedKernel(old(p.kernel), plan.value, f)
              && r.value == Rotated(plan.value.now, Position(plan.value))
    ensures var plan := PlanRotation(old(p.tables), id, tag, Detected(old(p.kernel), f.visible), src);
            plan.Success? && old(Unhindered(p, id, tag, plan.value, now, f)) ==> r.Success?
    ensures old(p.trace) <= p.trace
    ensures var plan := PlanRotation(old(p.tables), id, tag, Detected(old(p.kernel), f.visible), src);
            (plan.Success? ==>
                InOrder(old(p.tables), old(p.running), old(p.kernel), old(p.tables).pools[id].mode, plan.value.was)) ==>
              AllBacked(p.trace, |old(p.trace)|)
  {
    if !f.permitted || !f.discovers {
      return Failure("rotation is not possible");
    }
    var plan := PlanOf(p.tables, id, tag, Detected(p.kernel, f.visible), src);
    if plan.Failure? {
      return Failure(plan.error);
    }
    var committed := RotateAsPlanned(p, id, tag, actor, now, plan.value, f, Detected(p.kernel, f.visible), src);
    if !committed {
      return Failure("rotation was undone");
    }
    return Success(Rotated(plan.value.now, if |plan.value.selected| == 1 then plan.value.selected[0] + 1 else 0));
  }
}
