// Ports and tags for inbounds added in bulk.
module QuickAdd {
  import opened Collections
  import opened RelayItems
  import Decimal

  const MAX_PORT := 65535

  predicate IsPort(p: int) {
    1 <= p <= MAX_PORT
  }

  ghost function AllPorts(): set<int> {
    set p | 0 <= p <= MAX_PORT && IsPort(p)
  }

  // The port d places after c, wrapping around after the last one.
  function Later(c: int, d: nat): int {
    (c - 1 + d) % MAX_PORT + 1
  }

  // p is the first port from c on that is not used.
  ghost predicate FirstFree(used: set<int>, c: int, p: int) {
    exists d: nat :: d < MAX_PORT && p == Later(c, d) && p !in used && forall e: nat :: e < d ==> Later(c, e) in used
  }

  lemma LaterReachesAll(c: int, p: int)
    requires 1 <= c <= MAX_PORT && 1 <= p <= MAX_PORT
    ensures exists d: nat :: d < MAX_PORT && Later(c, d) == p
  {
    var d := if p >= c then p - c else p - c + MAX_PORT;
    assert Later(c, d) == p;
  }

  // Each port is the first free one from its predecessor's successor on.
  ghost predicate InOrder(inUse: set<int>, start: int, ports: seq<int>) {
    ports != [] ==>
      var init := ports[..|ports| - 1];
      InOrder(inUse, start, init) && FirstFree(inUse + SetOf(init), Candidate(start, init), ports[|ports| - 1])
  }

  // Where the search goes on after the ports so far.
  ghost function Candidate(start: int, ports: seq<int>): int {
    if ports == [] then start else Later(ports[|ports| - 1], 1)
  }

  ghost predicate Unused(inUse: set<int>, ports: seq<int>) {
    && (forall i :: 0 <= i < |ports| ==> IsPort(ports[i]) && ports[i] !in inUse)
    && (forall i, j :: 0 <= i < j < |ports| ==> ports[i] != ports[j])
  }

  lemma OneMorePort(inUse: set<int>, start: int, ports: seq<int>, next: int)
    requires Unused(inUse, ports) && IsPort(next) && next !in inUse + SetOf(ports)
    ensures Unused(inUse, ports + [next]) && SetOf(ports + [next]) == SetOf(ports) + {next}
    ensures Candidate(start, ports + [next]) == if next + 1 > MAX_PORT then 1 else next + 1
  {
    forall i | 0 <= i < |ports|
      ensures ports[i] != next
    {
      assert ports[i] in SetOf(ports);
    }
  }

  lemma OneMoreInOrder(inUse: set<int>, start: int, ports: seq<int>, next: int)
    requires InOrder(inUse, start, ports) && FirstFree(inUse + SetOf(ports), Candidate(start, ports), next)
    ensures InOrder(inUse, start, ports + [next])
  {
    var more := ports + [next];
    assert more[..|more| - 1] == ports && more[|more| - 1] == next;
  }

  // Too few ports are free exactly when the search runs out.
  lemma RunningOut(inUse: set<int>, ports: seq<int>)
    requires Unused(inUse, ports)
    ensures |ports| <= |AllPorts() - inUse|
    ensures AllPorts() <= inUse + SetOf(ports) ==> |ports| == |AllPorts() - inUse|
  {
    DistinctSize(ports);
    SubsetSize(SetOf(ports), AllPorts() - inUse);
    if AllPorts() <= inUse + SetOf(ports) {
      SubsetSize(AllPorts() - inUse, SetOf(ports));
    }
  }

  method NextPort(ghost inUse: set<int>, ghost start: int, ghost ports: seq<int>, usedPorts: set<int>, candidate: int)
      returns (next: Option<int>)
    requires Unused(inUse, ports) && InOrder(inUse, start, ports) && usedPorts == inUse + SetOf(ports)
    requires IsPort(candidate) && candidate == Candidate(start, ports)
    ensures next.None? ==> |ports| == |AllPorts() - inUse|
    ensures next.Some? ==>
              IsPort(next.value) && Unused(inUse, ports + [next.value]) && InOrder(inUse, start, ports + [next.value])
    ensures next.Some? ==> SetOf(ports + [next.value]) == SetOf(ports) + {next.value}
    ensures next.Some? ==>
              Candidate(start, ports + [next.value]) == if next.value + 1 > MAX_PORT then 1 else next.value + 1
  {
    next := NextFree(usedPorts, candidate);
    if next.None? {
      RunningOut(inUse, ports);
    } else {
      OneMorePort(inUse, start, ports, next.value);
      OneMoreInOrder(inUse, start, ports, next.value);
    }
  }

  // MAIN: the ports are in range, pairwise distinct and unused, each the first
  // free one after its predecessor; it fails exactly when too few are free.
  method AllocatePorts(inUse: set<int>, start: int, count: nat) returns (r: Result<seq<int>>)
    requires 1 <= start <= MAX_PORT
    ensures r.Success? <==> |AllPorts() - inUse| >= count
    ensures r.Success? ==> |r.value| == count && Unused(inUse, r.value) && InOrder(inUse, start, r.value)
  {
    var usedPorts := inUse;
    var ports: seq<int> := [];
    var candidate := start;
    while |ports| < count
      invariant |ports| <= count && 1 <= candidate <= MAX_PORT && candidate == Candidate(start, ports)
      invariant usedPorts == inUse + SetOf(ports)
      invariant Unused(inUse, ports) && InOrder(inUse, start, ports)
    {
      var next := NextPort(inUse, start, ports, usedPorts, candidate);
      if next.None? {
        return Failure("no available ports for quick add");
      }
      usedPorts := usedPorts + {next.value};
      ports := ports + [next.value];
      candidate := next.value + 1;
      if candidate > MAX_PORT {
        candidate := 1;
      }
    }
    RunningOut(inUse, ports);
    r := Success(ports);
  }

  method NextFree(used: set<int>, start: int) returns (r: Option<int>)
    requires 1 <= start <= MAX_PORT
    ensures r.None? <==> AllPorts() <= used
    ensures r.Some? ==> IsPort(r.value) && r.value !in used && FirstFree(used, start, r.value)
  {
    var candidate, attempts := start, 0;
    while candidate in used && attempts < MAX_PORT
      invariant 0 <= attempts <= MAX_PORT && candidate == Later(start, attempts)
      invariant forall e: nat :: e < attempts ==> Later(start, e) in used
    {
      candidate := candidate + 1;
      if candidate > MAX_PORT {
        candidate := 1;
      }
      attempts := attempts + 1;
    }
    if attempts >= MAX_PORT {
      forall p | p in AllPorts()
        ensures p in used
      {
        LaterReachesAll(start, p);
      }
      return None;
    }
    r := Some(candidate);
  }

  // ------------------------------------------------------------------- tags

  function Copy(initial: string, n: nat): string {
    if n == 0 then initial else initial + "-copy" + Decimal.Print(n)
  }

  function Initial(base: string, count: nat, index: nat): string {
    if count > 1 then base + "-" + Decimal.Print(index + 1) else base
  }

  lemma CopiesDiffer(initial: string, m: nat, n: nat)
    requires m != n
    ensures Copy(initial, m) != Copy(initial, n)
  {
    if m == 0 || n == 0 {
      assert |Copy(initial, 0)| == |initial|;
    } else if Copy(initial, m) == Copy(initial, n) {
      var k := |initial + "-copy"|;
      assert Copy(initial, m)[k..] == Decimal.Print(m) && Copy(initial, n)[k..] == Decimal.Print(n);
      Decimal.PrintInjective(m, n);
    }
  }

  // tag is the first unused copy.
  ghost predicate FirstUnused(used: set<string>, initial: string, tag: string) {
    exists n: nat :: tag == Copy(initial, n) && tag !in used && forall m: nat :: m < n ==> Copy(initial, m) in used
  }

  // MAIN: the search for an unused copy ends, since every tag tried is another
  // used one; it finds the first unused copy.
  method FreeTag(used: set<string>, initial: string) returns (tag: string)
    ensures tag !in used && FirstUnused(used, initial, tag)
  {
    tag := initial;
    var copyIndex := 1;
    ghost var tried: set<string> := {};
    while tag in used
      invariant copyIndex >= 1 && tag == Copy(initial, copyIndex - 1)
      invariant tried == Copies(initial, copyIndex - 1) && tried <= used
      decreases |used - tried|
    {
      NewCopy(used, initial, copyIndex - 1);
      tried := tried + {tag};
      tag := initial + "-copy" + Decimal.Print(copyIndex);
      copyIndex := copyIndex + 1;
    }
    forall m: nat | m < copyIndex - 1
      ensures Copy(initial, m) in used
    {
      assert Copy(initial, m) in Copies(initial, copyIndex - 1);
    }
  }

  // The first n copies.
  ghost function Copies(initial: string, n: nat): set<string> {
    set m: nat | m < n :: Copy(initial, m)
  }

  lemma NewCopy(used: set<string>, initial: string, n: nat)
    requires Copy(initial, n) in used
    ensures Copies(initial, n + 1) == Copies(initial, n) + {Copy(initial, n)}
    ensures |used - Copies(initial, n + 1)| < |used - Copies(initial, n)|
  {
    forall m: nat | m < n
      ensures Copy(initial, m) != Copy(initial, n)
    {
      CopiesDiffer(initial, m, n);
    }
    assert used - Copies(initial, n + 1) == (used - Copies(initial, n)) - {Copy(initial, n)};
  }

  // Each tag is the first unused copy of its initial tag.
  ghost predicate TagsInOrder(inUse: set<string>, baseTag: string, count: nat, tags: seq<string>) {
    tags != [] ==>
      var init := tags[..|tags| - 1];
      TagsInOrder(inUse, baseTag, count, init)
      && FirstUnused(inUse + SetOf(init), Initial(baseTag, count, |init|), tags[|tags| - 1])
  }

  lemma OneMoreTag(inUse: set<string>, baseTag: string, count: nat, tags: seq<string>, tag: string)
    requires TagsInOrder(inUse, baseTag, count, tags)
              && FirstUnused(inUse + SetOf(tags), Initial(baseTag, count, |tags|), tag)
    ensures TagsInOrder(inUse, baseTag, count, tags + [tag])
    ensures SetOf(tags + [tag]) == SetOf(tags) + {tag} && tag !in tags
  {
    assert (tags + [tag])[..|tags|] == tags;
    assert tag !in SetOf(tags);
  }

  method AllocateTags(inUse: set<string>, baseTag: string, count: nat) returns (tags: seq<string>)
    ensures |tags| == count
    ensures forall i :: 0 <= i < count ==> tags[i] !in inUse
    ensures forall i, j :: 0 <= i < j < count ==> tags[i] != tags[j]
    ensures TagsInOrder(inUse, baseTag, count, tags)
  {
    tags := [];
    var usedTags := inUse;
    for index := 0 to count
      invariant |tags| == index && usedTags == inUse + SetOf(tags)
      invariant forall i :: 0 <= i < index ==> tags[i] !in inUse
      invariant forall i, j :: 0 <= i < j < index ==> tags[i] != tags[j]
      invariant TagsInOrder(inUse, baseTag, count, tags)
    {
      var initial := baseTag;
      if count > 1 {
        initial := baseTag + "-" + Decimal.Print(index + 1);
      }
      var tag := FreeTag(usedTags, initial);
      OneMoreTag(inUse, baseTag, count, tags, tag);
      usedTags := usedTags + {tag};
      tags := tags + [tag];
    }
  }

  // The base the tags are made from.
  function BaseTag(baseTag: string, protocol: string, ports: seq<int>): string
    requires |ports| > 0 && ports[0] >= 0
  {
    if baseTag == "" then protocol + "-" + Decimal.Print(ports[0]) else baseTag
  }

  // The whole allocation; an empty base tag is made from the first port.
  method AllocateRemoteQuickAdd(usedPorts: set<int>, usedTags: set<string>, start: int, count: nat, baseTag: string,
      protocol: string)
      returns (r: Result<(seq<int>, seq<string>)>)
    requires 1 <= start <= MAX_PORT && count >= 1
    ensures r.Success? <==> |AllPorts() - usedPorts| >= count
    ensures r.Success? ==> |r.value.0| == |r.value.1| == count
    ensures r.Success? ==> Unused(usedPorts, r.value.0) && InOrder(usedPorts, start, r.value.0)
    ensures r.Success? ==> forall i :: 0 <= i < count ==> r.value.1[i] !in usedTags
    ensures r.Success? ==> forall i, j :: 0 <= i < j < count ==> r.value.1[i] != r.value.1[j]
    ensures r.Success? ==> TagsInOrder(usedTags, BaseTag(baseTag, protocol, r.value.0), count, r.value.1)
  {
    var ports := AllocatePorts(usedPorts, start, count);
    if ports.Failure? {
      return Failure(ports.error);
    }
    var base := baseTag;
    if base == "" {
      base := protocol + "-" + Decimal.Print(ports.value[0]);
    }
    var tags := AllocateTags(usedTags, base, count);
    r := Success((ports.value, tags));
  }
}
