// What a compiled rule list does to a connection, and the laws of the update.
module RouteMeaning {
  import opened RelayItems
  import opened RouteRules

  // ----------------------------------------------------------- evaluation

  datatype Destination = Literal4 | Literal6 | Domain(name: string, hasA: bool, hasAAAA: bool)

  datatype Connection = Connection(inbound: string, dest: Destination)

  // The address families a domain has been resolved to so far.
  datatype Resolution = Unresolved | Resolved(v4: bool, v6: bool)

  // What the router knows beyond the rules of this model: suffix matching, the
  // conditions of user rules, and which further actions end the search.
  datatype Env = Env(
    suffix: (string, string) -> bool,
    custom: (nat, Connection, Resolution) -> bool,
    ends: string -> bool)

  datatype Outcome = Dial(outbound: string) | Refused | Unresolvable | Other(action: string) | Unrouted

  predicate HasFamily(dest: Destination, res: Resolution, f: Family) {
    match dest
    case Literal4 => f == V4
    case Literal6 => f == V6
    case Domain(_, _, _) => res.Resolved? && if f == V4 then res.v4 else res.v6
  }

  predicate Listed(name: string, suffixes: seq<string>, env: Env) {
    exists i :: 0 <= i < |suffixes| && env.suffix(name, suffixes[i])
  }

  predicate Matches(rule: Rule, conn: Connection, res: Resolution, env: Env) {
    && rule.Rule?
    && (rule.inbounds == [] || conn.inbound in rule.inbounds)
    && (rule.ipVersion == 0 || (rule.ipVersion == 4 && conn.dest.Literal4?)
        || (rule.ipVersion == 6 && conn.dest.Literal6?))
    && match rule.selector
       case Anything => true
       case DomainSuffix(suffixes) => conn.dest.Domain? && Listed(conn.dest.name, suffixes, env)
       case Cidr(f) => HasFamily(conn.dest, res, f)
       case Custom(id) => env.custom(id, conn, res)
  }

  // First match wins, except that `resolve` only looks the domain up and lets
  // the search go on; a lookup without any address ends the connection.
  function Evaluate(rules: seq<Rule>, conn: Connection, res: Resolution, env: Env): Outcome {
    if rules == [] then Unrouted
    else
      var rule, rest := rules[0], rules[1..];
      if !Matches(rule, conn, res, env) then Evaluate(rest, conn, res, env)
      else match rule.action
        case None => Dial(Text(rule.outbound))
        case Some(action) =>
          if action == "route" then Dial(Text(rule.outbound))
          else if action == "reject" then Refused
          else if action != "resolve" then
            (if env.ends(action) then Other(action) else Evaluate(rest, conn, res, env))
          else if !conn.dest.Domain? then Evaluate(rest, conn, res, env)
          else
            var v4 := conn.dest.hasA && rule.strategy != IPV6_ONLY;
            var v6 := conn.dest.hasAAAA && rule.strategy != IPV4_ONLY;
            if !v4 && !v6 then Unresolvable else Evaluate(rest, conn, Resolved(v4, v6), env)
  }

  function Route(config: Config, conn: Connection, env: Env): Outcome {
    Evaluate(config.rules, conn, Unresolved, env)
  }

  // ------------------------------------------------------ intended egress

  function OwnIPv6Outbound(item: RelayItem): string {
    if item.ipv6OutboundTag == "" then item.outboundTag else item.ipv6OutboundTag
  }

  // The egress a relay item is there to give.
  function Intended(item: RelayItem, ipv6Only: bool, dest: Destination, env: Env): Outcome {
    if item.ipv4OutboundTag == "" then
      // plain IPv6 (or upstream) item
      if ipv6Only && dest.Literal4? then Refused else Dial(item.outboundTag)
    else if item.appleIDIPv4Only then
      // listed domains leave through the item's IPv4 proxy, everything else through IPv6 or not at all
      match dest
      case Literal4 => Refused
      case Literal6 => Dial(OwnIPv6Outbound(item))
      case Domain(name, _, hasAAAA) =>
        if Listed(name, APPLE_ID_DOMAINS + CAPTCHA_DOMAINS, env) then Dial(item.ipv4OutboundTag)
        else if hasAAAA then Dial(OwnIPv6Outbound(item)) else Unresolvable
    else
      // dual-stack items use their fallback outbound; paired ones split by family, IPv6 first
      match dest
      case Literal4 => Dial(if item.ipv6OutboundTag != "" then item.outboundTag else item.ipv4OutboundTag)
      case Literal6 => Dial(item.outboundTag)
      case Domain(_, hasA, hasAAAA) =>
        if hasAAAA then Dial(item.outboundTag)
        else if hasA then Dial(if item.ipv6OutboundTag != "" then item.outboundTag else item.ipv4OutboundTag)
        else Unresolvable
  }

  lemma EvaluateFirst(rule: Rule, rest: seq<Rule>, conn: Connection, res: Resolution, env: Env)
    ensures ([rule] + rest)[0] == rule && ([rule] + rest)[1..] == rest
    ensures !Matches(rule, conn, res, env) ==> Evaluate([rule] + rest, conn, res, env) == Evaluate(rest, conn, res, env)
  {
    assert ([rule] + rest)[1..] == rest;
  }

  lemma ListedAppend(name: string, a: seq<string>, b: seq<string>, env: Env)
    ensures Listed(name, a + b, env) <==> Listed(name, a, env) || Listed(name, b, env)
  {
    if Listed(name, a, env) {
      var i :| 0 <= i < |a| && env.suffix(name, a[i]);
      assert (a + b)[i] == a[i];
    }
    if Listed(name, b, env) {
      var i :| 0 <= i < |b| && env.suffix(name, b[i]);
      assert (a + b)[|a| + i] == b[i];
    }
  }

  lemma AppleItemMeaning(item: RelayItem, ipv6Only: bool, rest: seq<Rule>, conn: Connection, env: Env)
    requires Eligible(item) && conn.inbound == item.inboundTag
    requires item.appleIDIPv4Only && item.ipv4OutboundTag != ""
    ensures Evaluate(ItemRules(item, ipv6Only) + rest, conn, Unresolved, env)
              == Intended(item, ipv6Only, conn.dest, env)
  {
    var rs := ItemRules(item, ipv6Only);
    var tail4, tail3, tail2, tail1 :=
        [rs[4]] + rest, [rs[3]] + ([rs[4]] + rest), [rs[2]] + ([rs[3]] + ([rs[4]] + rest)),
        [rs[1]] + ([rs[2]] + ([rs[3]] + ([rs[4]] + rest)));
    assert rs + rest == [rs[0]] + tail1;
    EvaluateFirst(rs[0], tail1, conn, Unresolved, env);
    EvaluateFirst(rs[1], tail2, conn, Unresolved, env);
    EvaluateFirst(rs[2], tail3, conn, Unresolved, env);
    if conn.dest.Domain? {
      ListedAppend(conn.dest.name, APPLE_ID_DOMAINS, CAPTCHA_DOMAINS, env);
    }
    var res := if conn.dest.Domain? then Resolved(false, conn.dest.hasAAAA) else Unresolved;
    EvaluateFirst(rs[3], tail4, conn, res, env);
    EvaluateFirst(rs[4], rest, conn, res, env);
  }

  lemma PairedItemMeaning(item: RelayItem, ipv6Only: bool, rest: seq<Rule>, conn: Connection, env: Env)
    requires Eligible(item) && conn.inbound == item.inboundTag
    requires !item.appleIDIPv4Only && item.ipv4OutboundTag != ""
    ensures Evaluate(ItemRules(item, ipv6Only) + rest, conn, Unresolved, env)
              == Intended(item, ipv6Only, conn.dest, env)
  {
    var rs := ItemRules(item, ipv6Only);
    var res := if conn.dest.Domain? then Resolved(conn.dest.hasA, conn.dest.hasAAAA) else Unresolved;
    if item.ipv6OutboundTag != "" {
      assert rs + rest == [rs[0]] + ([rs[1]] + rest);
      EvaluateFirst(rs[0], [rs[1]] + rest, conn, Unresolved, env);
      EvaluateFirst(rs[1], rest, conn, res, env);
    } else {
      assert rs + rest == [rs[0]] + ([rs[1]] + ([rs[2]] + rest));
      EvaluateFirst(rs[0], [rs[1]] + ([rs[2]] + rest), conn, Unresolved, env);
      EvaluateFirst(rs[1], [rs[2]] + rest, conn, res, env);
      EvaluateFirst(rs[2], rest, conn, res, env);
    }
  }

  lemma ItemMeaning(item: RelayItem, ipv6Only: bool, rest: seq<Rule>, conn: Connection, env: Env)
    requires Eligible(item) && conn.inbound == item.inboundTag
    ensures Evaluate(ItemRules(item, ipv6Only) + rest, conn, Unresolved, env)
              == Intended(item, ipv6Only, conn.dest, env)
  {
    var rs := ItemRules(item, ipv6Only);
    if item.ipv4OutboundTag == "" {
      if ipv6Only {
        assert rs + rest == [rs[0]] + ([rs[1]] + rest);
        EvaluateFirst(rs[0], [rs[1]] + rest, conn, Unresolved, env);
        EvaluateFirst(rs[1], rest, conn, Unresolved, env);
      } else {
        EvaluateFirst(rs[0], rest, conn, Unresolved, env);
        assert rs == [rs[0]];
      }
    } else if item.appleIDIPv4Only {
      AppleItemMeaning(item, ipv6Only, rest, conn, env);
    } else {
      PairedItemMeaning(item, ipv6Only, rest, conn, env);
    }
  }

  ghost predicate NoneMatch(rules: seq<Rule>, conn: Connection, res: Resolution, env: Env) {
    forall i :: 0 <= i < |rules| ==> !Matches(rules[i], conn, res, env)
  }

  // Rules that name only other inbounds are passed over.
  lemma {:induction false} OthersPassOver(rules: seq<Rule>, rest: seq<Rule>, conn: Connection, res: Resolution,
      env: Env)
    requires NoneMatch(rules, conn, res, env)
    ensures Evaluate(rules + rest, conn, res, env) == Evaluate(rest, conn, res, env)
  {
    if rules == [] {
      assert rules + rest == rest;
    } else {
      assert !Matches(rules[0], conn, res, env);
      OthersPassOver(rules[1..], rest, conn, res, env);
      assert (rules + rest)[1..] == rules[1..] + rest;
    }
  }

  // Every generated rule is bound to the inbound of the item it came from.
  lemma {:induction false} GeneratedInbounds(t: Targets, items: seq<RelayItem>, ipv6Only: bool)
    ensures forall r :: r in Generated(t, items, ipv6Only) ==>
              r.Rule? && exists i :: 0 <= i < |items| && items[i].inboundTag in t.main
                                     && r in ItemRules(items[i], ipv6Only)
                                     && r.inbounds == [items[i].inboundTag]
  {
    if items != [] {
      var init, last := items[..|items| - 1], items[|items| - 1];
      GeneratedInbounds(t, init, ipv6Only);
      forall r | r in Generated(t, items, ipv6Only)
        ensures r.Rule? && exists i :: 0 <= i < |items| && items[i].inboundTag in t.main
                                       && r in ItemRules(items[i], ipv6Only)
                                       && r.inbounds == [items[i].inboundTag]
      {
        if r in Generated(t, init, ipv6Only) {
          var i :| 0 <= i < |init| && init[i].inboundTag in t.main && r in ItemRules(init[i], ipv6Only)
              && r.inbounds == [init[i].inboundTag];
          assert items[i] == init[i];
        } else {
          assert r in ItemRules(last, ipv6Only);
        }
      }
    }
  }

  lemma {:induction false} GeneratedMeaning(t: Targets, items: seq<RelayItem>, ipv6Only: bool, k: nat, rest: seq<Rule>,
      conn: Connection, env: Env)
    requires DistinctInbounds(items) && k < |items| && Eligible(items[k])
    requires forall i :: 0 <= i < |items| ==> (items[i].inboundTag in t.main <==> Eligible(items[i]))
    requires conn.inbound == items[k].inboundTag
    ensures Evaluate(Generated(t, items, ipv6Only) + rest, conn, Unresolved, env)
              == Intended(items[k], ipv6Only, conn.dest, env)
  {
    var init, last := items[..|items| - 1], items[|items| - 1];
    var own := if last.inboundTag in t.main then ItemRules(last, ipv6Only) else [];
    assert Generated(t, items, ipv6Only) + rest == Generated(t, init, ipv6Only) + (own + rest);
    if k < |init| {
      GeneratedMeaning(t, init, ipv6Only, k, own + rest, conn, env);
    } else {
      forall i | 0 <= i < |init| && init[i].inboundTag in t.main
        ensures init[i].inboundTag != conn.inbound
      {
        assert items[i] == init[i];
      }
      GeneratedForOthers(t, init, ipv6Only, conn, Unresolved, env);
      OthersPassOver(Generated(t, init, ipv6Only), own + rest, conn, Unresolved, env);
      ItemMeaning(last, ipv6Only, rest, conn, env);
    }
  }

  // MAIN: after adding a pool, each of its items gives its intended egress,
  // whatever rules were in the list before.
  lemma AddedPoolMeaning(config: Config, items: seq<RelayItem>, ipv6Only: bool, k: nat, conn: Connection, env: Env)
    requires DistinctInbounds(items) && k < |items| && Eligible(items[k])
    requires Updated(config, items, ipv6Only, false).Success?
    requires conn.inbound == items[k].inboundTag
    ensures Route(Updated(config, items, ipv6Only, false).value, conn, env)
              == Intended(items[k], ipv6Only, conn.dest, env)
  {
    TargetsDescribeItems(items);
    var t := TargetsOf(items);
    forall i | 0 <= i < |items|
      ensures items[i].inboundTag in t.main <==> Eligible(items[i])
    {
      if items[i].inboundTag in t.main {
        var j :| 0 <= j < |items| && Eligible(items[j]) && items[j].inboundTag == items[i].inboundTag;
        assert i == j;
      }
    }
    GeneratedMeaning(t, items, ipv6Only, k, Kept(t, config.rules), conn, env);
  }

  // ------------------------------------------------------------ isolation

  lemma {:induction false} KeptAppend(t: Targets, a: seq<Rule>, b: seq<Rule>)
    ensures Kept(t, a + b) == Kept(t, a) + Kept(t, b)
  {
    if b == [] {
      assert a + b == a;
    } else {
      KeptAppend(t, a, b[..|b| - 1]);
      assert (a + b)[..|a + b| - 1] == a + b[..|b| - 1];
    }
  }

  lemma KeptOne(t: Targets, rule: Rule)
    ensures Kept(t, [rule]) == if Claimed(t, rule) then [] else [rule]
  {
    assert [rule][..0] == [];
  }

  lemma KeptFirst(t: Targets, rule: Rule, rest: seq<Rule>)
    ensures Kept(t, [rule] + rest) == (if Claimed(t, rule) then Kept(t, rest) else [rule] + Kept(t, rest))
  {
    KeptAppend(t, [rule], rest);
    KeptOne(t, rule);
    assert [] + Kept(t, rest) == Kept(t, rest);
  }

  // What lists evaluate to behind a common first rule.
  lemma EvaluateBehind(rule: Rule, a: seq<Rule>, b: seq<Rule>, conn: Connection, res: Resolution, env: Env)
    requires forall s: Resolution :: Evaluate(a, conn, s, env) == Evaluate(b, conn, s, env)
    ensures Evaluate([rule] + a, conn, res, env) == Evaluate([rule] + b, conn, res, env)
  {
    EvaluateFirst(rule, a, conn, res, env);
    EvaluateFirst(rule, b, conn, res, env);
  }

  lemma {:induction false} KeptEvaluation(t: Targets, rules: seq<Rule>, conn: Connection, res: Resolution, env: Env)
    requires forall r :: r in rules && Claimed(t, r) ==> conn.inbound !in r.inbounds
    ensures Evaluate(Kept(t, rules), conn, res, env) == Evaluate(rules, conn, res, env)
  {
    if rules != [] {
      var rule, rest := rules[0], rules[1..];
      assert rules == [rule] + rest;
      forall s: Resolution
        ensures Evaluate(Kept(t, rest), conn, s, env) == Evaluate(rest, conn, s, env)
      {
        KeptEvaluation(t, rest, conn, s, env);
      }
      KeptFirst(t, rule, rest);
      if Claimed(t, rule) {
        EvaluateFirst(rule, rest, conn, res, env);
      } else {
        EvaluateBehind(rule, Kept(t, rest), rest, conn, res, env);
      }
    }
  }

  lemma GeneratedForOthers(t: Targets, items: seq<RelayItem>, ipv6Only: bool, conn: Connection, res: Resolution,
      env: Env)
    requires forall i :: 0 <= i < |items| && items[i].inboundTag in t.main ==> items[i].inboundTag != conn.inbound
    ensures NoneMatch(Generated(t, items, ipv6Only), conn, res, env)
  {
    var added := Generated(t, items, ipv6Only);
    GeneratedInbounds(t, items, ipv6Only);
    forall i | 0 <= i < |added|
      ensures !Matches(added[i], conn, res, env)
    {
      assert added[i] in added;
    }
  }

  lemma UpdateForOthers(t: Targets, rules: seq<Rule>, added: seq<Rule>, conn: Connection, res: Resolution, env: Env)
    requires NoneMatch(added, conn, res, env)
    requires forall r :: r in rules && Claimed(t, r) ==> conn.inbound !in r.inbounds
    ensures Evaluate(added + Kept(t, rules), conn, res, env) == Evaluate(rules, conn, res, env)
  {
    KeptEvaluation(t, rules, conn, res, env);
    OthersPassOver(added, Kept(t, rules), conn, res, env);
  }

  lemma UpdatedRulesOf(config: Config, items: seq<RelayItem>, ipv6Only: bool, remove: bool)
    requires Updated(config, items, ipv6Only, remove).Success?
    ensures Updated(config, items, ipv6Only, remove).value.rules == UpdatedRules(config.rules, items, ipv6Only, remove)
  {
  }

  // The inbound is none of the pool's, and no rule of the pool names it too.
  ghost predicate Unrelated(rules: seq<Rule>, items: seq<RelayItem>, inbound: string) {
    && (forall i :: 0 <= i < |items| ==> items[i].inboundTag != inbound)
    && (forall r :: r in rules && Claimed(TargetsOf(items), r) ==> inbound !in r.inbounds)
  }

  lemma UpdatedRulesForOthers(rules: seq<Rule>, items: seq<RelayItem>, ipv6Only: bool, remove: bool, conn: Connection,
      env: Env)
    requires Unrelated(rules, items, conn.inbound)
    ensures Evaluate(UpdatedRules(rules, items, ipv6Only, remove), conn, Unresolved, env)
              == Evaluate(rules, conn, Unresolved, env)
  {
    var t := TargetsOf(items);
    if remove {
      UpdateForOthers(t, rules, [], conn, Unresolved, env);
    } else {
      GeneratedForOthers(t, items, ipv6Only, conn, Unresolved, env);
      UpdateForOthers(t, rules, Generated(t, items, ipv6Only), conn, Unresolved, env);
    }
  }

  // MAIN: adding or removing a pool changes nothing for an inbound that is not
  // the pool's own, as long as no rule the update drops names that inbound too.
  lemma ForeignInboundsUnaffected(config: Config, items: seq<RelayItem>, ipv6Only: bool, remove: bool, conn: Connection,
      env: Env)
    requires Updated(config, items, ipv6Only, remove).Success?
    requires Unrelated(config.rules, items, conn.inbound)
    ensures Route(Updated(config, items, ipv6Only, remove).value, conn, env) == Route(config, conn, env)
  {
    UpdatedRulesOf(config, items, ipv6Only, remove);
    UpdatedRulesForOthers(config.rules, items, ipv6Only, remove, conn, env);
  }

  // -------------------------------------------- undo and idempotence

  lemma {:induction false} KeptIsUnclaimed(t: Targets, rules: seq<Rule>)
    ensures forall r :: r in Kept(t, rules) ==> r in rules && !Claimed(t, r)
    ensures (forall r :: r in rules ==> !Claimed(t, r)) ==> Kept(t, rules) == rules
  {
    if rules != [] {
      KeptIsUnclaimed(t, rules[..|rules| - 1]);
    }
  }

  lemma KeptTwice(t: Targets, rules: seq<Rule>)
    ensures Kept(t, Kept(t, rules)) == Kept(t, rules)
  {
    KeptIsUnclaimed(t, rules);
    KeptIsUnclaimed(t, Kept(t, rules));
  }

  lemma {:induction false} AllClaimedLeavesNothing(t: Targets, rules: seq<Rule>)
    requires forall r :: r in rules ==> Claimed(t, r)
    ensures Kept(t, rules) == []
  {
    if rules != [] {
      assert rules[|rules| - 1] in rules;
      AllClaimedLeavesNothing(t, rules[..|rules| - 1]);
    }
  }

  // The marks by which a compiled rule can be recognised later.
  ghost predicate Recognisable(item: RelayItem, rule: Rule) {
    && rule.Rule? && rule.inbounds == [item.inboundTag]
    && (|| rule.outbound == Some(item.outboundTag)
        || (item.ipv6OutboundTag != "" && rule.outbound == Some(item.ipv6OutboundTag))
        || (item.ipv4OutboundTag != "" && rule.outbound == Some(item.ipv4OutboundTag))
        || (item.ipv4OutboundTag != "" && UsesResolver(rule))
        || (rule.action == Some("reject") && rule.ipVersion == 4))
  }

  lemma ItemRulesAreRecognisable(item: RelayItem, ipv6Only: bool)
    ensures forall i :: 0 <= i < |ItemRules(item, ipv6Only)| ==> Recognisable(item, ItemRules(item, ipv6Only)[i])
  {
  }

  // Whatever the compiler writes for an item, a later update of the same items recognises.
  lemma ItemRulesAreClaimed(t: Targets, item: RelayItem, ipv6Only: bool, rule: Rule)
    requires item.inboundTag in t.main && t.main[item.inboundTag] == item.outboundTag
    requires Lookup(t.v6, item.inboundTag) == item.ipv6OutboundTag
              && Lookup(t.v4, item.inboundTag) == item.ipv4OutboundTag
    requires rule in ItemRules(item, ipv6Only)
    ensures Claimed(t, rule)
  {
    ItemRulesAreRecognisable(item, ipv6Only);
    assert Recognisable(item, rule);
    assert Claims(t, rule.inbounds[0], rule);
  }

  lemma GeneratedIsClaimed(items: seq<RelayItem>, ipv6Only: bool, rule: Rule)
    requires DistinctInbounds(items) && rule in Generated(TargetsOf(items), items, ipv6Only)
    ensures Claimed(TargetsOf(items), rule)
  {
    var t := TargetsOf(items);
    TargetsDescribeItems(items);
    GeneratedInbounds(t, items, ipv6Only);
    var i :| 0 <= i < |items| && items[i].inboundTag in t.main && rule in ItemRules(items[i], ipv6Only);
    var j :| 0 <= j < |items| && Eligible(items[j]) && items[j].inboundTag == items[i].inboundTag;
    assert i == j;
    ItemRulesAreClaimed(t, items[i], ipv6Only, rule);
  }

  lemma UpdateTwice(rules: seq<Rule>, items: seq<RelayItem>, ipv6Only: bool)
    requires DistinctInbounds(items)
    ensures Kept(TargetsOf(items), UpdatedRules(rules, items, ipv6Only, false)) == Kept(TargetsOf(items), rules)
  {
    var t := TargetsOf(items);
    var added, kept := Generated(t, items, ipv6Only), Kept(t, rules);
    forall r | r in added
      ensures Claimed(t, r)
    {
      GeneratedIsClaimed(items, ipv6Only, r);
    }
    AllClaimedLeavesNothing(t, added);
    KeptAppend(t, added, kept);
    KeptTwice(t, rules);
    assert [] + kept == kept;
  }

  ghost predicate ResolverConsistent(config: Config) {
    HasResolver(config.servers) <==> ResolverRequired(config.rules)
  }

  lemma {:induction false} WithoutReservedMembers(servers: seq<DnsServer>, s: DnsServer)
    ensures s in WithoutReserved(servers) <==> s in servers && !Reserved(s)
  {
    if servers != [] {
      var init, last := servers[..|servers| - 1], servers[|servers| - 1];
      WithoutReservedMembers(init, s);
      assert servers == init + [last];
    }
  }

  lemma {:induction false} WithoutReservedShorter(servers: seq<DnsServer>)
    ensures |WithoutReserved(servers)| <= |servers|
    ensures forall s :: s in servers && Reserved(s) ==> |WithoutReserved(servers)| < |servers|
    ensures (forall s :: s in servers ==> !Reserved(s)) ==> WithoutReserved(servers) == servers
  {
    if servers != [] {
      var init, last := servers[..|servers| - 1], servers[|servers| - 1];
      WithoutReservedShorter(init);
      assert servers == init + [last];
    }
  }

  lemma WithoutReservedHasNone(servers: seq<DnsServer>)
    ensures !HasResolver(WithoutReserved(servers))
    ensures !HasResolver(servers) ==> WithoutReserved(servers) == servers
    ensures HasResolver(servers) ==> |WithoutReserved(servers)| < |servers|
    ensures |WithoutReserved(servers)| <= |servers|
    ensures forall s :: s in WithoutReserved(servers) ==> s in servers
  {
    WithoutReservedShorter(servers);
    forall s
      ensures s in WithoutReserved(servers) <==> s in servers && !Reserved(s)
    {
      WithoutReservedMembers(servers, s);
    }
    forall i | 0 <= i < |WithoutReserved(servers)|
      ensures !Reserved(WithoutReserved(servers)[i])
    {
      assert WithoutReserved(servers)[i] in WithoutReserved(servers);
    }
    if HasResolver(servers) {
      var i :| 0 <= i < |servers| && Reserved(servers[i]);
      assert servers[i] in servers;
    }
  }

  ghost predicate HasForeign(servers: seq<DnsServer>) {
    exists i :: 0 <= i < |servers| && ForeignResolver(servers[i])
  }

  // The update fails exactly when the reserved tag belongs to some other kind
  // of server, and after a success the resolver is there exactly when used.
  lemma ResolverFollowsRules(config: Config, items: seq<RelayItem>, ipv6Only: bool, remove: bool)
    ensures Updated(config, items, ipv6Only, remove).Failure? <==> HasForeign(config.servers)
    ensures Updated(config, items, ipv6Only, remove).Success? ==>
              ResolverConsistent(Updated(config, items, ipv6Only, remove).value)
  {
    var servers := config.servers;
    WithoutReservedHasNone(servers);
    assert (servers + [LOCAL_RESOLVER])[|servers|] == LOCAL_RESOLVER;
    assert Reserved(LOCAL_RESOLVER);
  }

  lemma ResolverSettles(servers: seq<DnsServer>, required: bool)
    requires ResolverServers(servers, required).Success?
    ensures ResolverServers(ResolverServers(servers, required).value, required) == ResolverServers(servers, required)
  {
    var once := ResolverServers(servers, required).value;
    WithoutReservedHasNone(servers);
    WithoutReservedHasNone(WithoutReserved(servers));
    forall i | 0 <= i < |once|
      ensures !ForeignResolver(once[i])
    {
      assert once[i] in once;
    }
    assert HasResolver(servers + [LOCAL_RESOLVER]) by {
      assert Reserved((servers + [LOCAL_RESOLVER])[|servers|]);
    }
  }

  // MAIN: adding the same pool twice is adding it once.
  lemma AddingTwiceIsAddingOnce(config: Config, items: seq<RelayItem>, ipv6Only: bool)
    requires DistinctInbounds(items) && Updated(config, items, ipv6Only, false).Success?
    ensures Updated(Updated(config, items, ipv6Only, false).value, items, ipv6Only, false)
              == Updated(config, items, ipv6Only, false)
  {
    UpdateTwice(config.rules, items, ipv6Only);
    ResolverSettles(config.servers, ResolverRequired(UpdatedRules(config.rules, items, ipv6Only, false)));
  }

  // MAIN: removal undoes addition on the rule list exactly when the pool
  // claimed no rule of the list beforehand.
  lemma RemovalUndoesAddition(config: Config, items: seq<RelayItem>, ipv6Only: bool)
    requires DistinctInbounds(items) && Updated(config, items, ipv6Only, false).Success?
    ensures var added := Updated(config, items, ipv6Only, false).value;
            && Updated(added, items, false, true).Success?
            && (Updated(added, items, false, true).value.rules == config.rules
                <==> forall r :: r in config.rules ==> !Claimed(TargetsOf(items), r))
  {
    var t := TargetsOf(items);
    var added := Updated(config, items, ipv6Only, false).value;
    UpdateTwice(config.rules, items, ipv6Only);
    ResolverSettles(config.servers, ResolverRequired(added.rules));
    ResolverFollowsRules(added, items, false, true);
    KeptIsUnclaimed(t, config.rules);
    assert [] + Kept(t, config.rules) == Kept(t, config.rules);
  }

  // With the rules untouched, the whole configuration comes back exactly when
  // the resolver was present just when used before the addition.
  lemma RemovalRestoresConfiguration(config: Config, items: seq<RelayItem>, ipv6Only: bool)
    requires DistinctInbounds(items) && Updated(config, items, ipv6Only, false).Success?
    requires forall r :: r in config.rules ==> !Claimed(TargetsOf(items), r)
    ensures Updated(Updated(config, items, ipv6Only, false).value, items, false, true) == Success(config)
            <==> ResolverConsistent(config)
  {
    var added := Updated(config, items, ipv6Only, false).value;
    RemovalUndoesAddition(config, items, ipv6Only);
    var removed := Updated(added, items, false, true).value;
    ResolverFollowsRules(added, items, false, true);
    WithoutReservedHasNone(config.servers);
    WithoutReservedHasNone(added.servers);
    WithoutReservedAppend(config.servers);
    if ResolverRequired(config.rules) {
      ResolverKept(config.rules, items, ipv6Only);
    }
  }

  // One eligible item without IPv4 outbound, and a user rule for its inbound.
  const PLAIN_ITEM :=
    RelayItem("in", "out", "", "", false, NoAddress, "", 0, false, Upstream("", 0, "", ""), "")
  const USER_REJECT := Rule(["in"], 4, Anything, Some("reject"), None, None, "")

  // A user rule that looks like one of the pool's does not come back.
  lemma RemovalLosesUserRule()
    ensures var config := Config([USER_REJECT], [], "");
            && Updated(config, [PLAIN_ITEM], false, false).Success?
            && var removed := Updated(Updated(config, [PLAIN_ITEM], false, false).value, [PLAIN_ITEM], false, true);
               removed.Success? && removed.value.rules != [USER_REJECT]
  {
    var config := Config([USER_REJECT], [], "");
    ResolverFollowsRules(config, [PLAIN_ITEM], false, false);
    RemovalUndoesAddition(config, [PLAIN_ITEM], false);
    PlainItemTargets();
    assert Claims(TargetsOf([PLAIN_ITEM]), USER_REJECT.inbounds[0], USER_REJECT);
    assert USER_REJECT in config.rules;
  }

  // A user's rejecting rule for the inbound without an IP version is not
  // mistaken for one of the pool's: it survives addition and removal.
  const AD_BLOCK := Rule(["in"], 0, Custom(7), Some("reject"), None, None, "")

  lemma AdBlockSurvives()
    ensures var added := Updated(Config([AD_BLOCK], [], ""), [PLAIN_ITEM], false, false);
            && added.Success? && AD_BLOCK in added.value.rules
            && Updated(added.value, [PLAIN_ITEM], false, true) == Success(Config([AD_BLOCK], [], ""))
  {
    var config := Config([AD_BLOCK], [], "");
    ResolverFollowsRules(config, [PLAIN_ITEM], false, false);
    ClaimedIsMadeForOne([PLAIN_ITEM], AD_BLOCK);
    RemovalRestoresConfiguration(config, [PLAIN_ITEM], false);
    KeptOne(TargetsOf([PLAIN_ITEM]), AD_BLOCK);
    assert !ResolverRequired(config.rules) && !HasResolver(config.servers);
  }

  // A resolver present but unused before the addition does not come back.
  lemma RemovalDropsUnusedResolver()
    ensures var config := Config([], [LOCAL_RESOLVER], "");
            && Updated(config, [PLAIN_ITEM], false, false).Success?
            && Updated(Updated(config, [PLAIN_ITEM], false, false).value, [PLAIN_ITEM], false, true) != Success(config)
  {
    var config := Config([], [LOCAL_RESOLVER], "");
    ResolverFollowsRules(config, [PLAIN_ITEM], false, false);
    RemovalRestoresConfiguration(config, [PLAIN_ITEM], false);
    assert Reserved(config.servers[0]);
  }

  lemma PlainItemTargets()
    ensures TargetsOf([PLAIN_ITEM]).main == map["in" := "out"]
  {
    assert [PLAIN_ITEM][..0] == [];
  }

  lemma WithoutReservedAppend(servers: seq<DnsServer>)
    ensures WithoutReserved(servers + [LOCAL_RESOLVER]) == WithoutReserved(servers)
  {
    assert (servers + [LOCAL_RESOLVER])[..|servers|] == servers;
  }

  lemma ResolverKept(rules: seq<Rule>, items: seq<RelayItem>, ipv6Only: bool)
    requires ResolverRequired(rules) && forall r :: r in rules ==> !Claimed(TargetsOf(items), r)
    ensures ResolverRequired(UpdatedRules(rules, items, ipv6Only, false))
  {
    var t := TargetsOf(items);
    KeptIsUnclaimed(t, rules);
    RequiredBehind(Generated(t, items, ipv6Only), rules);
  }

  lemma RequiredBehind(front: seq<Rule>, rules: seq<Rule>)
    requires ResolverRequired(rules)
    ensures ResolverRequired(front + rules)
  {
    var i :| 0 <= i < |rules| && UsesResolver(rules[i]);
    assert (front + rules)[|front| + i] == rules[i];
  }

  // -------------------------------------------------------------- runs

  datatype Call = Call(items: seq<RelayItem>, ipv6Only: bool, remove: bool)

  // A failed update is rolled back with its transaction.
  function AfterCall(config: Config, call: Call): Config {
    match Updated(config, call.items, call.ipv6Only, call.remove)
    case Success(next) => next
    case Failure(_) => config
  }

  function AfterCalls(config: Config, calls: seq<Call>): Config {
    if calls == [] then config else AfterCall(AfterCalls(config, calls[..|calls| - 1]), calls[|calls| - 1])
  }

  lemma NoForeignAfterUpdate(servers: seq<DnsServer>, required: bool)
    requires ResolverServers(servers, required).Success? && !HasForeign(servers)
    ensures !HasForeign(ResolverServers(servers, required).value)
  {
    WithoutReservedHasNone(servers);
    var next := ResolverServers(servers, required).value;
    forall i | 0 <= i < |next|
      ensures !ForeignResolver(next[i])
    {
      assert next[i] in next;
    }
  }

  lemma ResolverConsistentAfterCall(config: Config, call: Call)
    ensures HasForeign(config.servers) ==> AfterCall(config, call) == config
    ensures !HasForeign(config.servers) ==>
              ResolverConsistent(AfterCall(config, call)) && !HasForeign(AfterCall(config, call).servers)
  {
    ResolverFollowsRules(config, call.items, call.ipv6Only, call.remove);
    if !HasForeign(config.servers) {
      NoForeignAfterUpdate(config.servers,
          ResolverRequired(UpdatedRules(config.rules, call.items, call.ipv6Only, call.remove)));
    }
  }

  // MAIN: over any sequence of updates, either all of them fail and change
  // nothing, or after every one of them the resolver is present just when used.
  lemma {:induction false} ResolverConsistentOverRuns(config: Config, calls: seq<Call>)
    ensures HasForeign(config.servers) ==> AfterCalls(config, calls) == config
    ensures !HasForeign(config.servers) && calls != [] ==> ResolverConsistent(AfterCalls(config, calls))
    ensures !HasForeign(config.servers) ==> !HasForeign(AfterCalls(config, calls).servers)
  {
    if calls != [] {
      var init, last := calls[..|calls| - 1], calls[|calls| - 1];
      ResolverConsistentOverRuns(config, init);
      ResolverConsistentAfterCall(AfterCalls(config, init), last);
    }
  }
}
