// The relay route-rule compiler: relay items become an ordered rule list that
// is merged in front of the rules the user wrote.
module RouteRules {
  import opened Collections
  import opened RelayItems

  const RESOLVER_TAG := "relay-paired-local-dns"
  const APPLE_ID_DOMAINS := ["appleid.apple.com", "idmsa.apple.com", "gsa.apple.com"]
  const CAPTCHA_DOMAINS := ["geo.captcha-delivery.com", "captcha-delivery.com", "js.datadome.co", "api-js.datadome.co"]

  datatype Family = V4 | V6

  // What a rule asks of a connection besides its inbound and IP version.
  // `Custom` stands for the conditions of user rules.
  datatype Match = Anything | DomainSuffix(suffixes: seq<string>) | Cidr(family: Family) | Custom(id: nat)

  // A member of the rule list. `NotARule` is a list member that is no object.
  // An absent `ip_version` is 0; `inbounds` is empty when the rule names none.
  datatype Rule =
    | NotARule(id: nat)
    | Rule(inbounds: seq<string>, ipVersion: int, selector: Match, action: Option<string>,
           outbound: Option<string>, server: Option<string>, strategy: string)

  datatype DnsServer = NotAServer(id: nat) | DnsServer(tag: Option<string>, kind: Option<string>, body: nat)

  datatype Config = Config(rules: seq<Rule>, servers: seq<DnsServer>, rest: string)

  // How the source prints an optional field.
  function Text(field: Option<string>): string {
    match field case None => "<nil>" case Some(s) => s
  }

  // ------------------------------------------------------------- targets

  // The three tag maps of a set of items, keyed by inbound tag.
  datatype Targets = Targets(main: map<string, string>, v6: map<string, string>, v4: map<string, string>)

  predicate Eligible(item: RelayItem) {
    item.inboundTag != "" && item.outboundTag != ""
  }

  function AddTarget(t: Targets, item: RelayItem): Targets {
    if !Eligible(item) then t
    else Targets(
      t.main[item.inboundTag := item.outboundTag],
      if item.ipv6OutboundTag != "" then t.v6[item.inboundTag := item.ipv6OutboundTag] else t.v6,
      if item.ipv4OutboundTag != "" then t.v4[item.inboundTag := item.ipv4OutboundTag] else t.v4)
  }

  function TargetsOf(items: seq<RelayItem>): Targets {
    if items == [] then Targets(map[], map[], map[])
    else AddTarget(TargetsOf(items[..|items| - 1]), items[|items| - 1])
  }

  ghost predicate DistinctInbounds(items: seq<RelayItem>) {
    forall i, j :: 0 <= i < j < |items| && items[i].inboundTag != "" ==> items[i].inboundTag != items[j].inboundTag
  }

  predicate SaysOf(t: Targets, item: RelayItem) {
    && item.inboundTag in t.main && t.main[item.inboundTag] == item.outboundTag
    && Lookup(t.v6, item.inboundTag) == item.ipv6OutboundTag
    && Lookup(t.v4, item.inboundTag) == item.ipv4OutboundTag
  }

  ghost predicate HasInbound(items: seq<RelayItem>, tag: string) {
    exists i :: 0 <= i < |items| && Eligible(items[i]) && items[i].inboundTag == tag
  }

  // With distinct inbound tags the maps say exactly what the items say.
  ghost predicate Describes(t: Targets, items: seq<RelayItem>) {
    && (forall i :: 0 <= i < |items| && Eligible(items[i]) ==> SaysOf(t, items[i]))
    && (forall tag :: tag in t.main ==> HasInbound(items, tag))
    && (forall tag :: tag in t.v6 || tag in t.v4 ==> tag in t.main)
  }

  function Lookup(m: map<string, string>, key: string): string {
    if key in m then m[key] else ""
  }

  lemma {:induction false} TargetsDescribeItems(items: seq<RelayItem>)
    requires DistinctInbounds(items)
    ensures Describes(TargetsOf(items), items)
  {
    if items != [] {
      var init, last := items[..|items| - 1], items[|items| - 1];
      TargetsDescribeItems(init);
      DescribesMore(TargetsOf(init), init, last);
      assert items == init + [last];
    }
  }

  lemma DescribesMore(t: Targets, items: seq<RelayItem>, last: RelayItem)
    requires Describes(t, items) && DistinctInbounds(items + [last])
    ensures Describes(AddTarget(t, last), items + [last])
  {
    var all, now := items + [last], AddTarget(t, last);
    forall tag | tag in now.main
      ensures HasInbound(all, tag)
    {
      InboundStays(items, last, tag);
    }
    forall i | 0 <= i < |all| && Eligible(all[i])
      ensures SaysOf(now, all[i])
    {
      if i < |items| {
        assert all[i] == items[i] && all[|items|] == last;
        StillSaysOf(t, items[i], last);
      } else {
        NewInbound(items, last);
        NowSaysOf(t, last);
      }
    }
  }

  lemma StillSaysOf(t: Targets, item: RelayItem, last: RelayItem)
    requires SaysOf(t, item) && item.inboundTag != last.inboundTag
    ensures SaysOf(AddTarget(t, last), item)
  {
  }

  lemma NowSaysOf(t: Targets, last: RelayItem)
    requires Eligible(last) && last.inboundTag !in t.main
    requires forall tag :: tag in t.v6 || tag in t.v4 ==> tag in t.main
    ensures SaysOf(AddTarget(t, last), last)
  {
  }

  lemma NewInbound(items: seq<RelayItem>, last: RelayItem)
    requires DistinctInbounds(items + [last]) && Eligible(last)
    ensures !HasInbound(items, last.inboundTag)
  {
    forall i | 0 <= i < |items|
      ensures items[i].inboundTag != last.inboundTag
    {
      assert (items + [last])[i] == items[i] && (items + [last])[|items|] == last;
    }
  }

  lemma InboundStays(items: seq<RelayItem>, last: RelayItem, tag: string)
    ensures HasInbound(items, tag) ==> HasInbound(items + [last], tag)
    ensures Eligible(last) ==> HasInbound(items + [last], last.inboundTag)
  {
    var all := items + [last];
    if HasInbound(items, tag) {
      var i :| 0 <= i < |items| && Eligible(items[i]) && items[i].inboundTag == tag;
      assert all[i] == items[i];
    }
    assert all[|items|] == last;
  }

  // ------------------------------------------------------------ filtering

  // A rule is claimed by the items when it names one of their inbounds and was
  // generated for it: it routes to one of the tags, resolves through the
  // reserved resolver, or rejects IPv4.
  predicate Claims(t: Targets, tag: string, rule: Rule)
    requires rule.Rule?
  {
    && tag in t.main
    && (|| t.main[tag] == Text(rule.outbound)
        || (Lookup(t.v6, tag) != "" && Lookup(t.v6, tag) == Text(rule.outbound))
        || (Lookup(t.v4, tag) != "" && Lookup(t.v4, tag) == Text(rule.outbound))
        || (Lookup(t.v4, tag) != "" && Text(rule.action) == "resolve" && Text(rule.server) == RESOLVER_TAG)
        || (Text(rule.action) == "reject" && rule.ipVersion == 4))
  }

  predicate Claimed(t: Targets, rule: Rule) {
    rule.Rule? && exists i :: 0 <= i < |rule.inbounds| && Claims(t, rule.inbounds[i], rule)
  }

  function Kept(t: Targets, rules: seq<Rule>): seq<Rule> {
    if rules == [] then []
    else Kept(t, rules[..|rules| - 1]) + if Claimed(t, rules[|rules| - 1]) then [] else [rules[|rules| - 1]]
  }

  // ------------------------------------------------- which rules stay

  // A rule counts as made for an item when it names the item's inbound and
  // routes to one of the item's tags, or resolves through the reserved server
  // for an item with an IPv4 outbound, or rejects IP version 4.
  predicate MadeFor(item: RelayItem, rule: Rule) {
    && rule.Rule? && item.inboundTag != "" && item.outboundTag != "" && item.inboundTag in rule.inbounds
    && (|| Reads(rule.outbound, item.outboundTag)
        || Reads(rule.outbound, item.ipv6OutboundTag)
        || Reads(rule.outbound, item.ipv4OutboundTag)
        || (item.ipv4OutboundTag != "" && rule.action == Some("resolve")
            && rule.server == Some("relay-paired-local-dns"))
        || (rule.action == Some("reject") && rule.ipVersion == 4))
  }

  // The field is this non-empty tag; an absent one is printed.
  predicate Reads(field: Option<string>, tag: string) {
    tag != "" && (field == Some(tag) || (field.None? && tag == "<nil>"))
  }

  predicate MadeForOne(items: seq<RelayItem>, rule: Rule) {
    exists i :: 0 <= i < |items| && MadeFor(items[i], rule)
  }

  // `left` holds the rules that were made for none of the items, in order.
  ghost predicate RulesStay(was: seq<Rule>, left: seq<Rule>, items: seq<RelayItem>) {
    exists at: seq<int> :: StayAt(was, left, items, at)
  }

  ghost predicate StayAt(was: seq<Rule>, left: seq<Rule>, items: seq<RelayItem>, at: seq<int>) {
    PickedFrom(was, left, at) && forall i :: 0 <= i < |was| ==> (i in at <==> !MadeForOne(items, was[i]))
  }

  lemma ClaimsIsMadeFor(t: Targets, item: RelayItem, rule: Rule)
    requires SaysOf(t, item) && Eligible(item) && rule.Rule? && item.inboundTag in rule.inbounds
    ensures Claims(t, item.inboundTag, rule) <==> MadeFor(item, rule)
  {
  }

  lemma ClaimedIsMadeForOne(items: seq<RelayItem>, rule: Rule)
    requires DistinctInbounds(items)
    ensures Claimed(TargetsOf(items), rule) <==> MadeForOne(items, rule)
  {
    var t := TargetsOf(items);
    TargetsDescribeItems(items);
    if Claimed(t, rule) {
      var j :| 0 <= j < |rule.inbounds| && Claims(t, rule.inbounds[j], rule);
      var i :| 0 <= i < |items| && Eligible(items[i]) && items[i].inboundTag == rule.inbounds[j];
      ClaimsIsMadeFor(t, items[i], rule);
    }
    if MadeForOne(items, rule) {
      var i :| 0 <= i < |items| && MadeFor(items[i], rule);
      var j :| 0 <= j < |rule.inbounds| && rule.inbounds[j] == items[i].inboundTag;
      ClaimsIsMadeFor(t, items[i], rule);
    }
  }

  // Of these rules, the claimed ones are those made for an item.
  ghost predicate ClaimsAsMade(t: Targets, rules: seq<Rule>, items: seq<RelayItem>) {
    forall i :: 0 <= i < |rules| ==> (Claimed(t, rules[i]) <==> MadeForOne(items, rules[i]))
  }

  // MAIN: exactly the rules made for an item go; the others stay in order.
  lemma OthersStay(rules: seq<Rule>, items: seq<RelayItem>)
    requires DistinctInbounds(items)
    ensures RulesStay(rules, Kept(TargetsOf(items), rules), items)
  {
    forall i | 0 <= i < |rules|
      ensures Claimed(TargetsOf(items), rules[i]) <==> MadeForOne(items, rules[i])
    {
      ClaimedIsMadeForOne(items, rules[i]);
    }
    UnclaimedStay(TargetsOf(items), rules, items);
  }

  lemma {:induction false} UnclaimedStay(t: Targets, rules: seq<Rule>, items: seq<RelayItem>)
    requires ClaimsAsMade(t, rules, items)
    ensures RulesStay(rules, Kept(t, rules), items)
    decreases |rules|
  {
    if rules == [] {
      NoneStay(items);
    } else {
      var init, last := LastClaim(t, rules, items);
      UnclaimedStay(t, init, items);
      OneMoreKept(t, init, items, last);
    }
  }

  lemma LastClaim(t: Targets, rules: seq<Rule>, items: seq<RelayItem>) returns (init: seq<Rule>, last: Rule)
    requires rules != [] && ClaimsAsMade(t, rules, items)
    ensures rules == init + [last] && ClaimsAsMade(t, init, items) && (Claimed(t, last) <==> MadeForOne(items, last))
  {
    init, last := rules[..|rules| - 1], rules[|rules| - 1];
    assert forall i :: 0 <= i < |init| ==> init[i] == rules[i];
  }

  lemma OneMoreKept(t: Targets, rules: seq<Rule>, items: seq<RelayItem>, last: Rule)
    requires RulesStay(rules, Kept(t, rules), items) && (Claimed(t, last) <==> MadeForOne(items, last))
    ensures RulesStay(rules + [last], Kept(t, rules + [last]), items)
  {
    OneMoreStays(rules, Kept(t, rules), items, last);
    assert (rules + [last])[..|rules|] == rules;
  }

  lemma NoneStay(items: seq<RelayItem>)
    ensures RulesStay([], [], items)
  {
    assert StayAt([], [], items, []);
  }

  lemma OneMoreStays(was: seq<Rule>, left: seq<Rule>, items: seq<RelayItem>, last: Rule)
    requires RulesStay(was, left, items)
    ensures RulesStay(was + [last], left + if MadeForOne(items, last) then [] else [last], items)
  {
    var at :| StayAt(was, left, items, at);
    var keep := !MadeForOne(items, last);
    var more := at + if keep then [|was|] else [];
    PickedMore(was, left, at, last, keep);
    forall i | 0 <= i <= |was|
      ensures i in more <==> !MadeForOne(items, (was + [last])[i])
    {
    }
    assert StayAt(was + [last], left + if keep then [last] else [], items, more);
  }

  // ----------------------------------------------------------- generation

  function RouteTo(inbound: string, m: Match, outbound: string): Rule {
    Rule([inbound], 0, m, Some("route"), Some(outbound), None, "")
  }

  function Resolve(inbound: string, strategy: string): Rule {
    Rule([inbound], 0, Anything, Some("resolve"), None, Some(RESOLVER_TAG), strategy)
  }

  function RejectV4(inbound: string, m: Match): Rule {
    Rule([inbound], 4, m, Some("reject"), None, None, "")
  }

  function ItemRules(item: RelayItem, ipv6Only: bool): seq<Rule> {
    var tag := item.inboundTag;
    (if item.appleIDIPv4Only && item.ipv4OutboundTag != "" && (item.ipv6OutboundTag != "" || item.outboundTag != "")
     then [RouteTo(tag, DomainSuffix(APPLE_ID_DOMAINS), item.ipv4OutboundTag),
           RouteTo(tag, DomainSuffix(CAPTCHA_DOMAINS), item.ipv4OutboundTag)]
     else [])
    + (if item.appleIDIPv4Only && item.ipv4OutboundTag != ""
       then [Resolve(tag, IPV6_ONLY), RejectV4(tag, Cidr(V4)),
             RouteTo(tag, Anything, if item.ipv6OutboundTag == "" then item.outboundTag else item.ipv6OutboundTag)]
       else if item.ipv6OutboundTag != "" && item.ipv4OutboundTag != ""
       then [Resolve(tag, PREFER_IPV6), RouteTo(tag, Anything, item.outboundTag)]
       else if item.ipv4OutboundTag != ""
       then [Resolve(tag, PREFER_IPV6), RouteTo(tag, Cidr(V6), item.outboundTag),
           RouteTo(tag, Cidr(V4), item.ipv4OutboundTag)]
       else (if ipv6Only then [RejectV4(tag, Anything)] else []) + [RouteTo(tag, Anything, item.outboundTag)])
  }

  function Generated(t: Targets, items: seq<RelayItem>, ipv6Only: bool): seq<Rule> {
    if items == [] then []
    else
      var item := items[|items| - 1];
      Generated(t, items[..|items| - 1], ipv6Only) + if item.inboundTag in t.main then ItemRules(item, ipv6Only) else []
  }

  // ------------------------------------------------------------- resolver

  predicate UsesResolver(rule: Rule) {
    rule.Rule? && Text(rule.action) == "resolve" && Text(rule.server) == RESOLVER_TAG
  }

  predicate ResolverRequired(rules: seq<Rule>) {
    exists i :: 0 <= i < |rules| && UsesResolver(rules[i])
  }

  predicate Reserved(server: DnsServer) {
    server.DnsServer? && Text(server.tag) == RESOLVER_TAG
  }

  predicate ForeignResolver(server: DnsServer) {
    Reserved(server) && Text(server.kind) != "local"
  }

  predicate HasResolver(servers: seq<DnsServer>) {
    exists i :: 0 <= i < |servers| && Reserved(servers[i])
  }

  function WithoutReserved(servers: seq<DnsServer>): seq<DnsServer> {
    if servers == [] then []
    else WithoutReserved(servers[..|servers| - 1])
         + if Reserved(servers[|servers| - 1]) then [] else [servers[|servers| - 1]]
  }

  const LOCAL_RESOLVER := DnsServer(Some(RESOLVER_TAG), Some("local"), 0)

  function ResolverServers(servers: seq<DnsServer>, required: bool): Result<seq<DnsServer>> {
    if exists i :: 0 <= i < |servers| && ForeignResolver(servers[i]) then
      Failure("DNS server tag is reserved by paired relays")
    else if !required then Success(WithoutReserved(servers))
    else if HasResolver(servers) then Success(servers)
    else Success(servers + [LOCAL_RESOLVER])
  }

  // The resolver among the servers, told by fields.
  predicate IsResolver(server: DnsServer) {
    server.DnsServer? && server.tag == Some("relay-paired-local-dns")
  }

  predicate ResolvesThere(rule: Rule) {
    rule.Rule? && rule.action == Some("resolve") && rule.server == Some("relay-paired-local-dns")
  }

  // After the update the resolver is there when a rule uses it, at the end if it
  // is new, and gone otherwise; no other server moves.
  ghost predicate ServersFollow(was: seq<DnsServer>, now: seq<DnsServer>, rules: seq<Rule>) {
    if exists i :: 0 <= i < |rules| && ResolvesThere(rules[i]) then
      now == was + if exists i :: 0 <= i < |was| && IsResolver(was[i]) then []
                   else [DnsServer(Some("relay-paired-local-dns"), Some("local"), 0)]
    else
      exists at: seq<int> ::
        PickedFrom(was, now, at) && forall i :: 0 <= i < |was| ==> (i in at <==> !IsResolver(was[i]))
  }

  // It is refused exactly when the reserved tag belongs to another kind of server.
  ghost predicate ServersRefuse(servers: seq<DnsServer>) {
    exists i :: 0 <= i < |servers| && IsResolver(servers[i]) && servers[i].kind != Some("local")
  }

  lemma {:induction false} OtherServersStay(servers: seq<DnsServer>) returns (at: seq<int>)
    ensures PickedFrom(servers, WithoutReserved(servers), at)
    ensures forall i :: 0 <= i < |servers| ==> (i in at <==> !IsResolver(servers[i]))
  {
    if servers == [] {
      at := [];
    } else {
      var init, last := servers[..|servers| - 1], servers[|servers| - 1];
      var before := OtherServersStay(init);
      PickedMore(init, WithoutReserved(init), before, last, !IsResolver(last));
      at := before + if !IsResolver(last) then [|init|] else [];
      assert init + [last] == servers;
      forall i | 0 <= i < |servers|
        ensures i in at <==> !IsResolver(servers[i])
      {
        if i < |init| { assert init[i] == servers[i]; }
      }
    }
  }

  lemma ResolverFollows(servers: seq<DnsServer>, rules: seq<Rule>)
    ensures ResolverServers(servers, ResolverRequired(rules)).Failure? <==> ServersRefuse(servers)
    ensures ResolverServers(servers, ResolverRequired(rules)).Success? ==>
              ServersFollow(servers, ResolverServers(servers, ResolverRequired(rules)).value, rules)
  {
    assert forall i :: 0 <= i < |servers| ==> (ForeignResolver(servers[i])
                                               <==> IsResolver(servers[i]) && servers[i].kind != Some("local"));
    assert forall i :: 0 <= i < |servers| ==> (Reserved(servers[i]) <==> IsResolver(servers[i]));
    assert forall i :: 0 <= i < |rules| ==> (UsesResolver(rules[i]) <==> ResolvesThere(rules[i]));
    var at := OtherServersStay(servers);
    assert servers + [] == servers;
  }

  // What an update makes of a configuration: rules made for the items come
  // first, unless the items are removed, then the rules that stay.
  ghost predicate ConfigUpdated(was: Config, now: Config, items: seq<RelayItem>, remove: bool) {
    && now == was.(rules := now.rules, servers := now.servers)
    && (exists n :: 0 <= n <= |now.rules| && (remove ==> n == 0)
          && (forall i :: 0 <= i < n ==> MadeForOne(items, now.rules[i]))
          && RulesStay(was.rules, now.rules[n..], items))
    && ServersFollow(was.servers, now.servers, now.rules)
  }

  lemma {:induction false} GeneratedIsMade(t: Targets, items: seq<RelayItem>, ipv6Only: bool)
    requires forall i :: 0 <= i < |items| && items[i].inboundTag in t.main ==>
               Eligible(items[i])
    ensures forall i :: 0 <= i < |Generated(t, items, ipv6Only)| ==> MadeForOne(items, Generated(t, items, ipv6Only)[i])
  {
    if items != [] {
      var init, last := items[..|items| - 1], items[|items| - 1];
      GeneratedIsMade(t, init, ipv6Only);
      var before, all := Generated(t, init, ipv6Only), Generated(t, items, ipv6Only);
      forall i | 0 <= i < |all|
        ensures MadeForOne(items, all[i])
      {
        if i < |before| {
          var k :| 0 <= k < |init| && MadeFor(init[k], before[i]);
          assert items[k] == init[k];
        } else {
          ItemRulesAreMade(last, ipv6Only, i - |before|);
        }
      }
    }
  }

  lemma ItemRulesAreMade(item: RelayItem, ipv6Only: bool, i: nat)
    requires Eligible(item) && i < |ItemRules(item, ipv6Only)|
    ensures MadeFor(item, ItemRules(item, ipv6Only)[i])
  {
  }

  // ------------------------------------------------------------ the update

  function UpdatedRules(rules: seq<Rule>, items: seq<RelayItem>, ipv6Only: bool, remove: bool): seq<Rule> {
    var t := TargetsOf(items);
    (if remove then [] else Generated(t, items, ipv6Only)) + Kept(t, rules)
  }

  function Updated(config: Config, items: seq<RelayItem>, ipv6Only: bool, remove: bool): Result<Config> {
    var rules := UpdatedRules(config.rules, items, ipv6Only, remove);
    match ResolverServers(config.servers, ResolverRequired(rules))
    case Failure(e) => Failure(e)
    case Success(servers) => Success(config.(rules := rules, servers := servers))
  }

  // MAIN: the update, told by the fields of rules, servers and items.
  lemma UpdateIsTold(config: Config, items: seq<RelayItem>, ipv6Only: bool, remove: bool)
    ensures Updated(config, items, ipv6Only, remove).Failure? <==> ServersRefuse(config.servers)
    ensures Updated(config, items, ipv6Only, remove).Success? && DistinctInbounds(items) ==>
              ConfigUpdated(config, Updated(config, items, ipv6Only, remove).value, items, remove)
  {
    var rules := UpdatedRules(config.rules, items, ipv6Only, remove);
    ResolverFollows(config.servers, rules);
    if DistinctInbounds(items) {
      var t := TargetsOf(items);
      var front := if remove then [] else Generated(t, items, ipv6Only);
      TargetsDescribeItems(items);
      EligibleTargets(items);
      GeneratedIsMade(t, items, ipv6Only);
      OthersStay(config.rules, items);
      assert rules == front + Kept(t, config.rules) && rules[|front|..] == Kept(t, config.rules);
      assert forall i :: 0 <= i < |front| ==> rules[i] == front[i];
    }
  }

  lemma EligibleTargets(items: seq<RelayItem>)
    requires DistinctInbounds(items)
    ensures forall i :: 0 <= i < |items| && items[i].inboundTag in TargetsOf(items).main ==> Eligible(items[i])
  {
    TargetsDescribeItems(items);
    forall i | 0 <= i < |items| && items[i].inboundTag in TargetsOf(items).main
      ensures Eligible(items[i])
    {
      var j :| 0 <= j < |items| && Eligible(items[j]) && items[j].inboundTag == items[i].inboundTag;
      assert !(i < j) && !(j < i);
    }
  }

  // ------------------------------------------------------------ the loops

  method CollectTargets(items: seq<RelayItem>) returns (t: Targets)
    ensures t == TargetsOf(items)
  {
    var targets: map<string, string>, ipv6Targets: map<string, string>, ipv4Targets: map<string, string> :=
        map[], map[], map[];
    for i := 0 to |items|
      invariant Targets(targets, ipv6Targets, ipv4Targets) == TargetsOf(items[..i])
    {
      var item := items[i];
      assert items[..i + 1][..i] == items[..i];
      if item.inboundTag != "" && item.outboundTag != "" {
        targets := targets[item.inboundTag := item.outboundTag];
        if item.ipv6OutboundTag != "" {
          ipv6Targets := ipv6Targets[item.inboundTag := item.ipv6OutboundTag];
        }
        if item.ipv4OutboundTag != "" {
          ipv4Targets := ipv4Targets[item.inboundTag := item.ipv4OutboundTag];
        }
      }
    }
    assert items[..|items|] == items;
    t := Targets(targets, ipv6Targets, ipv4Targets);
  }

  // The inbounds of a rule that belong to the items.
  method TargetInbounds(rule: Rule, t: Targets) returns (matched: seq<string>)
    requires rule.Rule?
    ensures forall tag :: tag in matched <==> tag in rule.inbounds && tag in t.main
  {
    matched := [];
    for i := 0 to |rule.inbounds|
      invariant forall tag :: tag in matched <==> tag in rule.inbounds[..i] && tag in t.main
    {
      if rule.inbounds[i] in t.main {
        matched := matched + [rule.inbounds[i]];
      }
    }
  }

  // Whether the update drops a rule of the list.
  method DropsRule(rule: Rule, t: Targets) returns (drop: bool)
    ensures drop == Claimed(t, rule)
  {
    if rule.NotARule? {
      return false;
    }
    var matched := TargetInbounds(rule, t);
    if |matched| == 0 {
      assert forall i :: 0 <= i < |rule.inbounds| ==> rule.inbounds[i] !in t.main by {
        forall i | 0 <= i < |rule.inbounds| ensures rule.inbounds[i] !in t.main {
          assert rule.inbounds[i] !in matched;
        }
      }
      return false;
    }
    var outbound := Text(rule.outbound);
    var generated := false;
    for i := 0 to |matched|
      invariant generated || (Text(rule.action) == "reject" && rule.ipVersion == 4)
              <==> (exists k :: 0 <= k < i && Claims(t, matched[k], rule))
                   || (Text(rule.action) == "reject" && rule.ipVersion == 4)
    {
      var tag := matched[i];
      assert tag in matched;
      if t.main[tag] == outbound || (Lookup(t.v6, tag) != "" && Lookup(t.v6, tag) == outbound)
         || (Lookup(t.v4, tag) != "" && Lookup(t.v4, tag) == outbound) {
        generated := true;
      }
      if Lookup(t.v4, tag) != "" && Text(rule.action) == "resolve" && Text(rule.server) == RESOLVER_TAG {
        generated := true;
      }
    }
    var ipv4Reject := Text(rule.action) == "reject" && rule.ipVersion == 4;
    drop := generated || ipv4Reject;
    ClaimedByMatched(t, rule, matched);
  }

  lemma ClaimedByMatched(t: Targets, rule: Rule, matched: seq<string>)
    requires rule.Rule? && |matched| > 0
    requires forall tag :: tag in matched <==> tag in rule.inbounds && tag in t.main
    ensures Claimed(t, rule) <==> exists k :: 0 <= k < |matched| && Claims(t, matched[k], rule)
    ensures Text(rule.action) == "reject" && rule.ipVersion == 4 ==> Claimed(t, rule)
  {
    forall k | 0 <= k < |matched|
      ensures exists i :: 0 <= i < |rule.inbounds| && rule.inbounds[i] == matched[k] && matched[k] in t.main
    {
      assert matched[k] in matched;
    }
    assert matched[0] in matched;
    if Claimed(t, rule) {
      var i :| 0 <= i < |rule.inbounds| && Claims(t, rule.inbounds[i], rule);
      assert rule.inbounds[i] in matched;
    }
  }

  method FilterRules(rules: seq<Rule>, t: Targets) returns (filtered: seq<Rule>)
    ensures filtered == Kept(t, rules)
  {
    filtered := [];
    for i := 0 to |rules|
      invariant filtered == Kept(t, rules[..i])
    {
      assert rules[..i + 1][..i] == rules[..i];
      var drop := DropsRule(rules[i], t);
      if !drop {
        filtered := filtered + [rules[i]];
      }
    }
    assert rules[..|rules|] == rules;
  }

  method GenerateRules(items: seq<RelayItem>, t: Targets, ipv6Only: bool) returns (newRules: seq<Rule>)
    ensures newRules == Generated(t, items, ipv6Only)
  {
    newRules := [];
    for i := 0 to |items|
      invariant newRules == Generated(t, items[..i], ipv6Only)
    {
      assert items[..i + 1][..i] == items[..i];
      var item := items[i];
      if item.inboundTag !in t.main {
        continue;
      }
      ghost var before := newRules;
      var tag := item.inboundTag;
      if item.appleIDIPv4Only && item.ipv4OutboundTag != "" && (item.ipv6OutboundTag != "" || item.outboundTag != "") {
        newRules := newRules + [RouteTo(tag, DomainSuffix(APPLE_ID_DOMAINS), item.ipv4OutboundTag)];
        newRules := newRules + [RouteTo(tag, DomainSuffix(CAPTCHA_DOMAINS), item.ipv4OutboundTag)];
      }
      if item.appleIDIPv4Only && item.ipv4OutboundTag != "" {
        var ipv6Outbound := item.ipv6OutboundTag;
        if ipv6Outbound == "" {
          ipv6Outbound := item.outboundTag;
        }
        newRules := newRules + [Resolve(tag, IPV6_ONLY), RejectV4(tag, Cidr(V4)), RouteTo(tag, Anything, ipv6Outbound)];
        assert newRules == before + ItemRules(item, ipv6Only);
        continue;
      }
      if item.ipv6OutboundTag != "" && item.ipv4OutboundTag != "" {
        newRules := newRules + [Resolve(tag, PREFER_IPV6), RouteTo(tag, Anything, item.outboundTag)];
        assert newRules == before + ItemRules(item, ipv6Only);
        continue;
      }
      if item.ipv4OutboundTag != "" {
        newRules := newRules + [Resolve(tag, PREFER_IPV6), RouteTo(tag, Cidr(V6), item.outboundTag),
                                RouteTo(tag, Cidr(V4), item.ipv4OutboundTag)];
        assert newRules == before + ItemRules(item, ipv6Only);
        continue;
      }
      if ipv6Only {
        newRules := newRules + [RejectV4(tag, Anything)];
      }
      newRules := newRules + [RouteTo(tag, Anything, item.outboundTag)];
      assert newRules == before + ItemRules(item, ipv6Only);
    }
    assert items[..|items|] == items;
  }

  method UpdateResolver(servers: seq<DnsServer>, required: bool) returns (r: Result<seq<DnsServer>>)
    ensures r == ResolverServers(servers, required)
  {
    var filtered: seq<DnsServer> := [];
    var found := false;
    for i := 0 to |servers|
      invariant Scanned(servers[..i], required, filtered, found)
    {
      var server := servers[i];
      ScannedMore(servers[..i], server, required, filtered, found);
      assert servers[..i + 1] == servers[..i] + [server];
      if server.NotAServer? || Text(server.tag) != RESOLVER_TAG {
        filtered := filtered + [server];
        continue;
      }
      if Text(server.kind) != "local" {
        ForeignIsRefused(servers, i, required);
        return Failure("DNS server tag is reserved by paired relays");
      }
      found := true;
      if required {
        filtered := filtered + [server];
      }
    }
    assert servers[..|servers|] == servers;
    if required && !found {
      filtered := filtered + [LOCAL_RESOLVER];
    }
    return Success(filtered);
  }

  // The servers seen so far: none is foreign, `filtered` are those to keep.
  ghost predicate Scanned(seen: seq<DnsServer>, required: bool, filtered: seq<DnsServer>, found: bool) {
    && (forall k :: 0 <= k < |seen| ==> !ForeignResolver(seen[k]))
    && (found <==> HasResolver(seen))
    && filtered == if required then seen else WithoutReserved(seen)
  }

  lemma ScannedMore(seen: seq<DnsServer>, server: DnsServer, required: bool, filtered: seq<DnsServer>, found: bool)
    requires Scanned(seen, required, filtered, found)
    ensures !Reserved(server) ==> Scanned(seen + [server], required, filtered + [server], found)
    ensures Reserved(server) && !ForeignResolver(server) ==>
              Scanned(seen + [server], required, filtered + if required then [server] else [], true)
  {
    var more := seen + [server];
    HasResolverStep(more, |seen|);
    assert more[..|seen|] == seen && more[..|more|] == more;
    assert filtered + [] == filtered;
  }

  lemma ForeignIsRefused(servers: seq<DnsServer>, i: nat, required: bool)
    requires i < |servers| && ForeignResolver(servers[i])
    ensures ResolverServers(servers, required) == Failure("DNS server tag is reserved by paired relays")
  {
  }

  lemma HasResolverStep(servers: seq<DnsServer>, i: nat)
    requires i < |servers|
    ensures HasResolver(servers[..i + 1]) <==> HasResolver(servers[..i]) || Reserved(servers[i])
  {
    if HasResolver(servers[..i]) {
      var k :| 0 <= k < i && Reserved(servers[..i][k]);
      assert servers[..i + 1][k] == servers[..i][k];
    }
    if HasResolver(servers[..i + 1]) {
      var k :| 0 <= k < i + 1 && Reserved(servers[..i + 1][k]);
      if k < i { assert servers[..i][k] == servers[..i + 1][k]; }
    }
    assert servers[..i + 1][i] == servers[i];
  }

  method RequiresResolver(rules: seq<Rule>) returns (required: bool)
    ensures required == ResolverRequired(rules)
  {
    for i := 0 to |rules|
      invariant forall k :: 0 <= k < i ==> !UsesResolver(rules[k])
    {
      if UsesResolver(rules[i]) {
        return true;
      }
    }
    return false;
  }

  // The whole update of the stored configuration.
  method UpdateRouteRules(config: Config, items: seq<RelayItem>, ipv6Only: bool, remove: bool)
      returns (r: Result<Config>)
    ensures r == Updated(config, items, ipv6Only, remove)
    ensures r.Failure? <==> ServersRefuse(config.servers)
    ensures r.Success? && DistinctInbounds(items) ==> ConfigUpdated(config, r.value, items, remove)
  {
    var t := CollectTargets(items);
    var filtered := FilterRules(config.rules, t);
    var rules := filtered;
    if !remove {
      var newRules := GenerateRules(items, t, ipv6Only);
      rules := newRules + filtered;
    } else {
      assert rules == [] + filtered;
    }
    UpdateIsTold(config, items, ipv6Only, remove);
    var required := RequiresResolver(rules);
    var servers := UpdateResolver(config.servers, required);
    if servers.Failure? {
      return Failure(servers.error);
    }
    return Success(config.(rules := rules, servers := servers.value));
  }
}
