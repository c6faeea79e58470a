// Allocation of relay IPv6 addresses: random host bits under a fixed prefix.
module Ipv6Allocation {
  import opened Collections
  import opened RelayItems

  const ROTATION_ATTEMPTS := 4096
  const MAX_RELAY_ITEMS := 500

  // ---------------------------------------------------------------- bits

  // The byte 1 << (7 - k).
  function Mask(k: nat): bv8
    requires k < 8
  {
    if k == 0 then 0x80 else if k == 1 then 0x40 else if k == 2 then 0x20 else if k == 3 then 0x10
    else if k == 4 then 0x08 else if k == 5 then 0x04 else if k == 6 then 0x02 else 0x01
  }

  predicate ByteBit(b: bv8, k: nat)
    requires k < 8
  {
    b & Mask(k) != 0
  }

  function WithByteBit(b: bv8, k: nat, on: bool): bv8
    requires k < 8
  {
    if on then b | Mask(k) else b & !Mask(k)
  }

  lemma ByteBitAfterWrite(b: bv8, j: nat, on: bool, k: nat)
    requires j < 8 && k < 8
    ensures ByteBit(WithByteBit(b, j, on), k) == if j == k then on else ByteBit(b, k)
  {
  }

  lemma BitsDetermineByte(b: bv8, c: bv8)
    requires forall k: nat | k < 8 :: ByteBit(b, k) == ByteBit(c, k)
    ensures b == c
  {
    assert ByteBit(b, 0) == ByteBit(c, 0) && ByteBit(b, 1) == ByteBit(c, 1);
    assert ByteBit(b, 2) == ByteBit(c, 2) && ByteBit(b, 3) == ByteBit(c, 3);
    assert ByteBit(b, 4) == ByteBit(c, 4) && ByteBit(b, 5) == ByteBit(c, 5);
    assert ByteBit(b, 6) == ByteBit(c, 6) && ByteBit(b, 7) == ByteBit(c, 7);
  }

  // Bit i of an address, counted from the most significant one.
  predicate Bit(a: Address, i: nat)
    requires i < 128
  {
    ByteBit(a[i / 8], i % 8)
  }

  function WithBit(a: Address, i: nat, on: bool): Address
    requires i < 128
  {
    a[i / 8 := WithByteBit(a[i / 8], i % 8, on)]
  }

  lemma BitAfterWrite(a: Address, i: nat, on: bool, k: nat)
    requires i < 128 && k < 128
    ensures Bit(WithBit(a, i, on), k) == if i == k then on else Bit(a, k)
  {
    if i / 8 == k / 8 {
      ByteBitAfterWrite(a[i / 8], i % 8, on, k % 8);
    }
  }

  lemma BitsDetermineAddress(a: Address, b: Address)
    requires forall i: nat | i < 128 :: Bit(a, i) == Bit(b, i)
    ensures a == b
  {
    forall j: nat | j < 16
      ensures a[j] == b[j]
    {
      forall k: nat | k < 8
        ensures ByteBit(a[j], k) == ByteBit(b[j], k)
      {
        assert Bit(a, 8 * j + k) == Bit(b, 8 * j + k);
      }
      BitsDetermineByte(a[j], b[j]);
    }
  }

  // Two addresses lie in the same network of `prefix` bits.
  ghost predicate SamePrefix(a: Address, b: Address, prefix: nat) {
    forall i: nat | i < prefix && i < 128 :: Bit(a, i) == Bit(b, i)
  }

  // The address that keeps `base` before bit `from` and takes `random` from there on.
  function Splice(base: Address, from: nat, random: Address): Address
    decreases 128 - from
  {
    if from >= 128 then base else Splice(WithBit(base, from, Bit(random, from)), from + 1, random)
  }

  lemma {:induction false} SpliceBits(base: Address, from: nat, random: Address, k: nat)
    requires k < 128
    ensures Bit(Splice(base, from, random), k) == Bit(if k < from then base else random, k)
    decreases 128 - from
  {
    if from < 128 {
      SpliceBits(WithBit(base, from, Bit(random, from)), from + 1, random, k);
      BitAfterWrite(base, from, Bit(random, from), k);
    }
  }

  // A spliced address stays in the network of `base`, and every address of
  // that network is reached by some draw: the address itself.
  lemma SpliceCoversPrefix(base: Address, prefix: nat, random: Address)
    ensures SamePrefix(Splice(base, prefix, random), base, prefix)
    ensures SamePrefix(random, base, prefix) ==> Splice(base, prefix, random) == random
  {
    var r := Splice(base, prefix, random);
    forall k: nat | k < 128
      ensures Bit(r, k) == Bit(if k < prefix then base else random, k)
    {
      SpliceBits(base, prefix, random, k);
    }
    if SamePrefix(random, base, prefix) {
      BitsDetermineAddress(r, random);
    }
  }

  // The draw of one address: every host bit is overwritten in place by the
  // corresponding bit of sixteen random bytes.
  method RandomRelayIPv6(base: Address, prefix: nat, random: Address) returns (r: Address)
    ensures r == Splice(base, prefix, random)
  {
    var masked := new bv8[16](i requires 0 <= i < 16 => base[i]);
    ghost var drawn := base;
    assert masked[..] == base;
    var bit := prefix;
    while bit < 128
      invariant prefix <= bit
      invariant masked[..] == drawn
      invariant Splice(drawn, bit, random) == Splice(base, prefix, random)
    {
      var byteIndex, mask := bit / 8, Mask(bit % 8);
      if random[byteIndex] & mask != 0 {
        masked[byteIndex] := masked[byteIndex] | mask;
      } else {
        masked[byteIndex] := masked[byteIndex] & !mask;
      }
      drawn := WithBit(drawn, bit, Bit(random, bit));
      bit := bit + 1;
    }
    r := masked[..];
  }

  // ------------------------------------------------------------ counting

  function Pow2(n: nat): (p: nat)
    ensures p >= 1
  {
    if n == 0 then 1 else 2 * Pow2(n - 1)
  }

  lemma {:induction false} Pow2Grows(m: nat, n: nat)
    requires m <= n
    ensures Pow2(m) <= Pow2(n)
    decreases n
  {
    if m < n {
      Pow2Grows(m, n - 1);
    }
  }

  // All addresses of the network of `base` with `prefix` bits.
  ghost function Network(base: Address, prefix: nat): set<Address>
    requires prefix <= 128
    decreases 128 - prefix
  {
    if prefix == 128 then {base}
    else Network(WithBit(base, prefix, false), prefix + 1) + Network(WithBit(base, prefix, true), prefix + 1)
  }

  lemma {:induction false} NetworkMembers(base: Address, prefix: nat, a: Address)
    requires prefix <= 128
    ensures a in Network(base, prefix) <==> SamePrefix(a, base, prefix)
    decreases 128 - prefix, 1
  {
    if prefix == 128 {
      if SamePrefix(a, base, prefix) {
        BitsDetermineAddress(a, base);
      }
    } else {
      NetworkHalf(base, prefix, false, a);
      NetworkHalf(base, prefix, true, a);
    }
  }

  lemma {:induction false} NetworkHalf(base: Address, prefix: nat, on: bool, a: Address)
    requires prefix < 128
    ensures a in Network(WithBit(base, prefix, on), prefix + 1)
            <==> SamePrefix(a, base, prefix) && Bit(a, prefix) == on
    decreases 128 - prefix, 0
  {
    NetworkMembers(WithBit(base, prefix, on), prefix + 1, a);
    HalfPrefix(base, prefix, on, a);
  }

  // The network with the next bit set to `on` is that half of the network.
  lemma HalfPrefix(base: Address, prefix: nat, on: bool, a: Address)
    requires prefix < 128
    ensures SamePrefix(a, WithBit(base, prefix, on), prefix + 1)
       <==> SamePrefix(a, base, prefix) && Bit(a, prefix) == on
  {
    var half := WithBit(base, prefix, on);
    forall i: nat | i <= prefix
      ensures Bit(half, i) == if i == prefix then on else Bit(base, i)
    {
      BitAfterWrite(base, prefix, on, i);
    }
    if SamePrefix(a, half, prefix + 1) {
      forall i: nat | i < prefix
        ensures Bit(a, i) == Bit(base, i)
      {
        assert Bit(a, i) == Bit(half, i);
      }
      assert Bit(a, prefix) == Bit(half, prefix);
    }
  }

  lemma {:induction false} NetworkSize(base: Address, prefix: nat)
    requires prefix <= 128
    ensures |Network(base, prefix)| == Pow2(128 - prefix)
    decreases 128 - prefix
  {
    if prefix < 128 {
      var off, on :=
          Network(WithBit(base, prefix, false), prefix + 1), Network(WithBit(base, prefix, true), prefix + 1);
      NetworkSize(WithBit(base, prefix, false), prefix + 1);
      NetworkSize(WithBit(base, prefix, true), prefix + 1);
      forall a | a in off
        ensures a !in on
      {
        NetworkHalf(base, prefix, false, a);
        NetworkHalf(base, prefix, true, a);
      }
      assert off !! on;
    }
  }

  // The acceptance test of an explicitly given base: the network must hold
  // `count` addresses besides one. Networks of 63 host bits or more always pass.
  predicate PrefixHolds(prefix: int, count: int)
    requires prefix <= 128
  {
    var hostBits := 128 - prefix;
    !(hostBits == 0 || (hostBits < 63 && count > Pow2(hostBits) - 1))
  }

  lemma CountFits(prefix: int, count: int)
    requires 0 <= prefix <= 128 && PrefixHolds(prefix, count) && count <= MAX_RELAY_ITEMS
    ensures count < Pow2(128 - prefix)
  {
    if 128 - prefix >= 63 {
      assert Pow2(9) == 512;
      Pow2Grows(9, 63);
      Pow2Grows(63, 128 - prefix);
    }
  }

  lemma NetworkNotTaken(base: Address, prefix: nat, used: set<Address>)
    requires prefix <= 128 && |used| + 1 < Pow2(128 - prefix)
    ensures exists c :: c in Network(base, prefix) && c !in used && c != base
  {
    var taken := used + {base};
    NetworkSize(base, prefix);
    assert |taken| <= |used| + 1;
    if Network(base, prefix) <= taken {
      SubsetSize(Network(base, prefix), taken);
    }
    var c :| c in Network(base, prefix) && c !in taken;
  }

  // While fewer than `count` addresses are taken, some draw gives an address
  // that is neither taken nor the base itself.
  lemma FreeCandidateExists(base: Address, prefix: nat, used: set<Address>, count: nat)
    requires prefix <= 128 && PrefixHolds(prefix, count)
    requires |used| < count <= MAX_RELAY_ITEMS
    ensures exists draw: Address :: Splice(base, prefix, draw) !in used && Splice(base, prefix, draw) != base
  {
    CountFits(prefix, count);
    NetworkNotTaken(base, prefix, used);
    var c :| c in Network(base, prefix) && c !in used && c != base;
    NetworkMembers(base, prefix, c);
    SpliceCoversPrefix(base, prefix, c);
    assert Splice(base, prefix, c) == c;
  }

  // ------------------------------------------------------------ rotation

  // The network address: `a` with every host bit cleared.
  function Masked(a: Address, prefix: nat): Address {
    Splice(a, prefix, seq(16, _ => 0))
  }

  datatype Pick = DrawFailed | Exhausted | Picked(addr: Address)

  // Where an address comes from: `draw(i, k)` is the k-th sixteen bytes the
  // random source gives for item i, or None when the source fails; `isGlobal`
  // is the address library's global-unicast test.
  datatype Source = Source(draw: (nat, nat) -> Option<Address>, isGlobal: Address -> bool)

  // The first of at most 4096 draws that is acceptable in place of `was`.
  function PickReplacement(was: Address, prefix: nat, occupied: set<Address>, src: Source, index: nat,
      attempt: nat): (p: Pick)
    decreases ROTATION_ATTEMPTS - attempt, was
  {
    if attempt >= ROTATION_ATTEMPTS then Exhausted
    else match src.draw(index, attempt)
      case None => DrawFailed
      case Some(d) =>
        var base := Masked(was, prefix);
        var c := Splice(base, prefix, d);
        if c == was || c == base || c in occupied || !src.isGlobal(c)
        then PickReplacement(was, prefix, occupied, src, index, attempt + 1)
        else Picked(c)
  }

  // An address that may take the place of `was`.
  predicate Suits(c: Address, was: Address, prefix: nat, occupied: set<Address>, src: Source) {
    c != was && c != Masked(was, prefix) && c !in occupied && src.isGlobal(c)
  }

  function Candidate(was: Address, prefix: nat, draw: Address): Address {
    Splice(Masked(was, prefix), prefix, draw)
  }

  // Draws from..to were all made, and none suited.
  ghost predicate NoneSuits(was: Address, prefix: nat, occupied: set<Address>, src: Source, index: nat, from: nat,
      to: nat) {
    forall k :: from <= k < to ==>
      src.draw(index, k).Some? && !Suits(Candidate(was, prefix, src.draw(index, k).value), was, prefix, occupied, src)
  }

  // The pick is the first draw that suits, and it lies in the old prefix; the
  // search ends without one only when no draw suits or a draw fails.
  lemma {:induction false} PickedIsFree(was: Address, prefix: nat, occupied: set<Address>, src: Source, index: nat,
      attempt: nat)
    ensures match PickReplacement(was, prefix, occupied, src, index, attempt)
            case Picked(c) => SamePrefix(c, was, prefix) && c != was && c != Masked(was, prefix)
                              && c !in occupied && src.isGlobal(c)
                              && exists k :: attempt <= k < ROTATION_ATTEMPTS && src.draw(index, k).Some?
                                   && c == Candidate(was, prefix, src.draw(index, k).value)
                                   && NoneSuits(was, prefix, occupied, src, index, attempt, k)
            case Exhausted => NoneSuits(was, prefix, occupied, src, index, attempt, ROTATION_ATTEMPTS)
            case DrawFailed => exists k :: attempt <= k < ROTATION_ATTEMPTS && src.draw(index, k).None?
                                 && NoneSuits(was, prefix, occupied, src, index, attempt, k)
    decreases ROTATION_ATTEMPTS - attempt, was
  {
    if attempt < ROTATION_ATTEMPTS {
      if src.draw(index, attempt).None? {
        assert NoneSuits(was, prefix, occupied, src, index, attempt, attempt);
      } else {
        var c := Candidate(was, prefix, src.draw(index, attempt).value);
        SpliceCoversPrefix(was, prefix, seq(16, _ => 0));
        SpliceCoversPrefix(Masked(was, prefix), prefix, src.draw(index, attempt).value);
        if Suits(c, was, prefix, occupied, src) {
          assert NoneSuits(was, prefix, occupied, src, index, attempt, attempt);
        } else {
          PickedIsFree(was, prefix, occupied, src, index, attempt + 1);
          LaterPick(was, prefix, occupied, src, index, attempt);
        }
      }
    }
  }

  // One unsuitable draw in front changes nothing about what comes after it.
  lemma LaterPick(was: Address, prefix: nat, occupied: set<Address>, src: Source, index: nat, attempt: nat)
    requires src.draw(index, attempt).Some?
    requires !Suits(Candidate(was, prefix, src.draw(index, attempt).value), was, prefix, occupied, src)
    ensures forall k :: k > attempt && NoneSuits(was, prefix, occupied, src, index, attempt + 1, k)
                        ==> NoneSuits(was, prefix, occupied, src, index, attempt, k)
  {
  }

  predicate Rotatable(item: RelayItem) {
    item.ipv6.Valid? && item.iface != "" && 1 <= item.prefix < 128
  }

  function Prepend<T>(done: seq<T>, r: Result<seq<T>>): Result<seq<T>> {
    match r case Failure(e) => Failure(e) case Success(rest) => Success(done + rest)
  }

  lemma PrependNothing<T>(r: Result<seq<T>>)
    ensures Prepend([], r) == r
  {
    if r.Success? {
      assert [] + r.value == r.value;
    }
  }

  lemma PrependStep<T>(done: seq<T>, x: T, r: Result<seq<T>>)
    ensures Prepend(done, Prepend([x], r)) == Prepend(done + [x], r)
  {
    if r.Success? {
      assert done + ([x] + r.value) == done + [x] + r.value;
    }
  }

  // What rotating the items from position `index` on gives when the addresses
  // in `occupied` are taken.
  function RotatedItems(items: seq<RelayItem>, index: nat, occupied: set<Address>,
      src: Source): (r: Result<seq<RelayItem>>)
    requires index <= |items|
    decreases |items| - index
  {
    if index == |items| then Success([])
    else
      var item := items[index];
      if !item.ipv6.Valid? then Failure("invalid IPv6 address")
      else if !Rotatable(item) then Failure("IPv6 prefix cannot rotate")
      else match PickReplacement(item.ipv6.addr, item.prefix, occupied, src, index, 0)
        case DrawFailed => Failure("random source failed")
        case Exhausted => Failure("unable to allocate a new IPv6 address")
        case Picked(c) =>
          Prepend([item.(ipv6 := Valid(c), addedByUs := true)], RotatedItems(items, index + 1, occupied + {c}, src))
  }

  // `now` is `was` moved to a free address of the same network, and nothing else.
  ghost predicate Moved(was: RelayItem, now: RelayItem, occupied: set<Address>, src: Source) {
    && Rotatable(was) && now.ipv6.Valid?
    && now == was.(ipv6 := now.ipv6, addedByUs := true)
    && SamePrefix(now.ipv6.addr, was.ipv6.addr, was.prefix)
    && now.ipv6.addr != was.ipv6.addr
    && now.ipv6.addr != Masked(was.ipv6.addr, was.prefix)
    && now.ipv6.addr !in occupied
    && src.isGlobal(now.ipv6.addr)
  }

  ghost predicate DistinctAddresses(items: seq<RelayItem>) {
    forall i, j :: 0 <= i < j < |items| ==> items[i].ipv6 != items[j].ipv6
  }

  ghost predicate DistinctFrom(text: AddressText, items: seq<RelayItem>) {
    forall k :: 0 <= k < |items| ==> items[k].ipv6 != text
  }

  // Rotation moves every item, to pairwise distinct free addresses.
  lemma {:induction false} RotationMovesEveryItem(items: seq<RelayItem>, index: nat, occupied: set<Address>,
      src: Source)
    requires index <= |items|
    requires RotatedItems(items, index, occupied, src).Success?
    ensures var now := RotatedItems(items, index, occupied, src).value;
            && |now| == |items| - index
            && (forall i :: index <= i < |items| ==> Moved(items[i], now[i - index], occupied, src))
            && DistinctAddresses(now)
    decreases |items| - index
  {
    if index < |items| {
      var item := items[index];
      PickedIsFree(item.ipv6.addr, item.prefix, occupied, src, index, 0);
      var c := PickReplacement(item.ipv6.addr, item.prefix, occupied, src, index, 0).addr;
      RotationMovesEveryItem(items, index + 1, occupied + {c}, src);
      var rest := RotatedItems(items, index + 1, occupied + {c}, src).value;
      RestStaysMoved(items, index, occupied, c, src, rest);
      var first := item.(ipv6 := Valid(c), addedByUs := true);
      assert Moved(item, first, occupied, src);
      AllMoved(items, index, occupied, src, first, rest);
    }
  }

  lemma AllMoved(items: seq<RelayItem>, index: nat, occupied: set<Address>, src: Source, first: RelayItem,
      rest: seq<RelayItem>)
    requires index < |items| && |rest| == |items| - index - 1
    requires Moved(items[index], first, occupied, src) && DistinctFrom(first.ipv6, rest) && DistinctAddresses(rest)
    requires forall i :: index < i < |items| ==> Moved(items[i], rest[i - index - 1], occupied, src)
    ensures forall i :: index <= i < |items| ==> Moved(items[i], ([first] + rest)[i - index], occupied, src)
    ensures DistinctAddresses([first] + rest)
  {
  }

  // What was moved clear of `occupied` and c is moved clear of `occupied`.
  lemma RestStaysMoved(items: seq<RelayItem>, index: nat, occupied: set<Address>, c: Address, src: Source,
      rest: seq<RelayItem>)
    requires index < |items| && |rest| == |items| - index - 1
    requires forall i :: index < i < |items| ==> Moved(items[i], rest[i - (index + 1)], occupied + {c}, src)
    ensures forall i :: index < i < |items| ==> Moved(items[i], rest[i - index - 1], occupied, src)
    ensures DistinctFrom(Valid(c), rest)
  {
    forall i | index < i < |items|
      ensures Moved(items[i], rest[i - index - 1], occupied, src)
    {
      assert Moved(items[i], rest[i - (index + 1)], occupied + {c}, src);
    }
    forall k | 0 <= k < |rest|
      ensures rest[k].ipv6 != Valid(c)
    {
      assert Moved(items[index + 1 + k], rest[index + 1 + k - (index + 1)], occupied + {c}, src);
    }
  }

  // Item i gets nothing: a draw for it fails, or none of its draws suits while
  // the addresses in `taken` are occupied.
  ghost predicate Starves(item: RelayItem, i: nat, taken: set<Address>, src: Source)
    requires item.ipv6.Valid? && 1 <= item.prefix < 128
  {
    || (exists k :: 0 <= k < ROTATION_ATTEMPTS && src.draw(i, k).None?)
    || NoneSuits(item.ipv6.addr, item.prefix, taken, src, i, 0, ROTATION_ATTEMPTS)
  }

  // A selection of rotatable items fails only when the draws let one down.
  lemma {:induction false} OnlyDrawsFail(items: seq<RelayItem>, index: nat, occupied: set<Address>, src: Source)
      returns (i: nat, taken: set<Address>)
    requires index <= |items| && forall k :: 0 <= k < |items| ==> Rotatable(items[k])
    requires RotatedItems(items, index, occupied, src).Failure?
    ensures index <= i < |items| && occupied <= taken && |taken| <= |occupied| + i - index
    ensures Rotatable(items[i]) && Starves(items[i], i, taken, src)
    decreases |items| - index
  {
    var item := items[index];
    PickedIsFree(item.ipv6.addr, item.prefix, occupied, src, index, 0);
    var pick := PickReplacement(item.ipv6.addr, item.prefix, occupied, src, index, 0);
    if pick.Picked? {
      i, taken := OnlyDrawsFail(items, index + 1, occupied + {pick.addr}, src);
    } else {
      i, taken := index, occupied;
    }
  }

  // The loop over at most 4096 draws for one item.
  method FindReplacement(was: Address, prefix: nat, occupied: set<Address>, src: Source, index: nat) returns (p: Pick)
    ensures p == PickReplacement(was, prefix, occupied, src, index, 0)
  {
    var base := RandomRelayIPv6(was, prefix, seq(16, _ => 0));
    var attempt := 0;
    while attempt < ROTATION_ATTEMPTS
      invariant 0 <= attempt <= ROTATION_ATTEMPTS
      invariant PickReplacement(was, prefix, occupied, src, index, 0)
                == PickReplacement(was, prefix, occupied, src, index, attempt)
    {
      var random := src.draw(index, attempt);
      if random.None? {
        return DrawFailed;
      }
      var candidate := RandomRelayIPv6(base, prefix, random.value);
      if candidate == was || candidate == base || candidate in occupied || !src.isGlobal(candidate) {
        attempt := attempt + 1;
        continue;
      }
      return Picked(candidate);
    }
    return Exhausted;
  }

  // The allocation loop of a rotation.
  method PrepareRotatedItems(items: seq<RelayItem>, detected: set<Address>, src: Source)
      returns (r: Result<seq<RelayItem>>)
    ensures r == RotatedItems(items, 0, detected, src)
  {
    var rotated, occupied := [], detected;
    var index := 0;
    PrependNothing(RotatedItems(items, 0, detected, src));
    while index < |items|
      invariant 0 <= index <= |items|
      invariant RotatedItems(items, 0, detected, src) == Prepend(rotated, RotatedItems(items, index, occupied, src))
    {
      var item := items[index];
      if !item.ipv6.Valid? {
        return Failure("invalid IPv6 address");
      }
      if item.iface == "" || item.prefix < 1 || item.prefix >= 128 {
        return Failure("IPv6 prefix cannot rotate");
      }
      var pick := FindReplacement(item.ipv6.addr, item.prefix, occupied, src, index);
      if pick.DrawFailed? {
        return Failure("random source failed");
      }
      if pick.Exhausted? {
        return Failure("unable to allocate a new IPv6 address");
      }
      var moved := item.(ipv6 := Valid(pick.addr), addedByUs := true);
      PrependStep(rotated, moved, RotatedItems(items, index + 1, occupied + {pick.addr}, src));
      rotated := rotated + [moved];
      occupied := occupied + {pick.addr};
      index := index + 1;
    }
    assert rotated + [] == rotated;
    return Success(rotated);
  }

  // ------------------------------------------------------------ creation

  // A requested address after parsing: its prefix length goes with it.
  datatype Listed = Unparsable | Listed(addr: Address, prefix: int)

  datatype Fill =
    | Filled(addresses: seq<Address>)
    | Filling(addresses: seq<Address>)   // every given draw is used up
    | Rejected(error: string)

  // The base of an explicitly addressed pool: public, with room for `count`.
  function ExplicitBase(ip: Address, parsedPrefix: int, requestedPrefix: int, count: int,
                        isGlobal: Address -> bool, isPrivate: Address -> bool): (r: Result<(Address, int)>)
    ensures r.Success? ==> r.value.0 == ip && 1 <= r.value.1 < 128 && PrefixHolds(r.value.1, count)
    ensures r.Success? ==> isGlobal(ip) && !isPrivate(ip)
  {
    var prefix := if requestedPrefix > 0 then requestedPrefix else parsedPrefix;
    if prefix < 1 || prefix > 128 || !isGlobal(ip) || isPrivate(ip) then
      Failure("base IPv6 must be a public global-unicast address")
    else if !PrefixHolds(prefix, count) then
      Failure("IPv6 prefix does not contain enough addresses for this pool")
    else Success((ip, prefix))
  }

  // MAIN: an explicit base is accepted exactly when it is public and its
  // network has host bits and an address besides those asked for; networks of
  // 63 host bits or more are taken to have.
  lemma ExplicitBaseIsExact(ip: Address, parsedPrefix: int, requestedPrefix: int, count: int,
                            isGlobal: Address -> bool, isPrivate: Address -> bool)
    ensures ExplicitBase(ip, parsedPrefix, requestedPrefix, count, isGlobal, isPrivate).Success?
       <==> var prefix := if requestedPrefix > 0 then requestedPrefix else parsedPrefix;
            && isGlobal(ip) && !isPrivate(ip) && 1 <= prefix < 128
            && (prefix <= 65 || |Network(ip, prefix)| > count)
  {
    var prefix := if requestedPrefix > 0 then requestedPrefix else parsedPrefix;
    if 1 <= prefix < 128 {
      NetworkSize(ip, prefix);
    }
  }

  predicate SamePrefixTest(a: Address, b: Address, prefix: nat) {
    Masked(a, prefix) == Masked(b, prefix)
  }

  // Comparing masked addresses decides whether two addresses share a network.
  lemma MaskedDecidesPrefix(a: Address, b: Address, prefix: nat)
    ensures SamePrefixTest(a, b, prefix) <==> SamePrefix(a, b, prefix)
  {
    var zero: Address := seq(16, _ => 0);
    var m, n := Masked(a, prefix), Masked(b, prefix);
    forall k: nat | k < 128
      ensures Bit(m, k) == Bit(if k < prefix then a else zero, k)
      ensures Bit(n, k) == Bit(if k < prefix then b else zero, k)
    {
      SpliceBits(a, prefix, zero, k);
      SpliceBits(b, prefix, zero, k);
    }
    if SamePrefix(a, b, prefix) {
      BitsDetermineAddress(m, n);
    }
    if m == n {
      forall k: nat | k < prefix && k < 128
        ensures Bit(a, k) == Bit(b, k)
      {
        assert Bit(m, k) == Bit(n, k);
      }
    }
  }

  ghost predicate InPool(addresses: seq<Address>, listed: seq<Listed>, base: Address, prefix: nat, src: Source) {
    && AllDifferent(addresses)
    && |listed| <= |addresses|
    && (forall i :: 0 <= i < |listed| ==> listed[i].Listed? && addresses[i] == listed[i].addr)
    && (forall i :: 0 <= i < |addresses| ==> SamePrefix(addresses[i], base, prefix) && src.isGlobal(addresses[i]))
    && (forall i :: |listed| <= i < |addresses| ==> addresses[i] != base)
  }

  // The requested addresses the pool accepts: parsed, public, inside the
  // selected network and free of duplicates.
  ghost predicate ListAccepted(listed: seq<Listed>, base: Address, prefix: nat, count: nat, src: Source,
      isPrivate: Address -> bool) {
    && |listed| <= count
    && (forall i :: 0 <= i < |listed| ==> listed[i].Listed? && Admitted(listed[i], base, prefix, src, isPrivate))
    && (forall i, j :: 0 <= i < j < |listed| ==> listed[i].addr != listed[j].addr)
  }

  ghost function ListedAddresses(listed: seq<Listed>): seq<Address>
    requires forall i :: 0 <= i < |listed| ==> listed[i].Listed?
  {
    seq(|listed|, i requires 0 <= i < |listed| => listed[i].addr)
  }

  ghost predicate Admitted(l: Listed, base: Address, prefix: nat, src: Source, isPrivate: Address -> bool)
    requires l.Listed?
  {
    l.prefix == prefix && src.isGlobal(l.addr) && !isPrivate(l.addr) && SamePrefix(l.addr, base, prefix)
  }

  // Filling up from the random source: draws that repeat an address, hit the
  // base or are not global are passed over.
  function Drawn(addresses: seq<Address>, base: Address, prefix: nat, count: nat, src: Source, turn: nat,
      turns: nat): (r: Fill)
    requires turn <= turns
    decreases turns - turn, base
  {
    if |addresses| >= count then Filled(addresses)
    else if turn == turns then Filling(addresses)
    else match src.draw(0, turn)
      case None => Rejected("random source failed")
      case Some(random) =>
        var ip := Splice(base, prefix, random);
        Drawn(if ip in addresses || ip == base || !src.isGlobal(ip) then addresses else addresses + [ip],
              base, prefix, count, src, turn + 1, turns)
  }

  // Every draw counts: an unfinished pool has all that could be taken, and what
  // a pool has beyond the requested addresses was drawn.
  lemma {:induction false} EveryDrawCounts(addresses: seq<Address>, base: Address, prefix: nat, count: nat,
                                           src: Source, turn: nat, turns: nat)
    requires turn <= turns
    ensures var r := Drawn(addresses, base, prefix, count, src, turn, turns);
            && (r.Filling? ==> addresses <= r.addresses && DrawsTaken(r.addresses, base, prefix, src, turn, turns))
            && (r.Filled? ==>
                  && addresses <= r.addresses
                  && forall a :: a in r.addresses ==> a in addresses || IsDrawn(a, base, prefix, src, turns))
    decreases turns - turn
  {
    if |addresses| < count && turn < turns && src.draw(0, turn).Some? {
      var ip := Splice(base, prefix, src.draw(0, turn).value);
      var more := if ip in addresses || ip == base || !src.isGlobal(ip) then addresses else addresses + [ip];
      EveryDrawCounts(more, base, prefix, count, src, turn + 1, turns);
      assert ip in more ==> IsDrawn(ip, base, prefix, src, turns);
    }
  }

  ghost predicate DrawsTaken(addresses: seq<Address>, base: Address, prefix: nat, src: Source, from: nat, to: nat) {
    forall k :: from <= k < to ==>
      src.draw(0, k).Some? && (var c := Splice(base, prefix, src.draw(0, k).value);
                               c in addresses || c == base || !src.isGlobal(c))
  }

  ghost predicate IsDrawn(a: Address, base: Address, prefix: nat, src: Source, turns: nat) {
    exists k: nat :: k < turns && src.draw(0, k).Some? && a == Splice(base, prefix, src.draw(0, k).value)
  }

  // The requested addresses, checked one after the other.
  method AdmitListed(listed: seq<Listed>, base: Address, prefix: nat, count: nat,
                     src: Source, isPrivate: Address -> bool) returns (r: Result<seq<Address>>)
    ensures r.Success? <==> ListAccepted(listed, base, prefix, count, src, isPrivate)
    ensures r.Success? ==> |r.value| == |listed| && forall i :: 0 <= i < |listed| ==> r.value[i] == listed[i].addr
  {
    if |listed| > count {
      return Failure("IPv6 address list is too long");
    }
    var addresses: seq<Address> := [];
    var i := 0;
    while i < |listed|
      invariant 0 <= i == |addresses| <= |listed|
      invariant forall k :: 0 <= k < i ==> listed[k].Listed? && addresses[k] == listed[k].addr
      invariant forall k :: 0 <= k < i ==> Admitted(listed[k], base, prefix, src, isPrivate)
      invariant forall j, k :: 0 <= j < k < i ==> listed[j].addr != listed[k].addr
    {
      if listed[i].Unparsable? {
        return Failure("invalid IPv6 address");
      }
      var ip := listed[i].addr;
      MaskedDecidesPrefix(ip, base, prefix);
      if listed[i].prefix != prefix || !src.isGlobal(ip) || isPrivate(ip) || !SamePrefixTest(ip, base, prefix) {
        return Failure("IPv6 address is outside the selected public prefix");
      }
      if ip in addresses {
        return Failure("duplicate IPv6 address");
      }
      addresses := addresses + [ip];
      i := i + 1;
    }
    return Success(addresses);
  }

  // Address selection for a new pool. The loop over the random source has no
  // bound of its own; `turns` is how many draws it has been given so far. Each
  // state it can be in has either finished or still has a free candidate.
  method FillAddresses(listed: seq<Listed>, base: Address, prefix: nat, count: nat,
                       src: Source, isPrivate: Address -> bool, turns: nat) returns (r: Fill)
    requires 1 <= prefix <= 128
    ensures ListAccepted(listed, base, prefix, count, src, isPrivate) ==>
              r == Drawn(ListedAddresses(listed), base, prefix, count, src, 0, turns)
    ensures !ListAccepted(listed, base, prefix, count, src, isPrivate) ==> r.Rejected?
    ensures r.Filled? ==> |r.addresses| == count && InPool(r.addresses, listed, base, prefix, src)
    ensures r.Filling? ==> |r.addresses| < count && InPool(r.addresses, listed, base, prefix, src)
    ensures r.Filling? && count <= MAX_RELAY_ITEMS && PrefixHolds(prefix, count) ==>
              FreeDrawExists(r.addresses, base, prefix, src)
  {
    var admitted := AdmitListed(listed, base, prefix, count, src, isPrivate);
    if admitted.Failure? {
      return Rejected(admitted.error);
    }
    var addresses := admitted.value;
    assert addresses == ListedAddresses(listed);
    var turn := 0;
    while |addresses| < count
      invariant |addresses| <= count && turn <= turns
      invariant InPool(addresses, listed, base, prefix, src)
      invariant Drawn(admitted.value, base, prefix, count, src, 0, turns)
                == Drawn(addresses, base, prefix, count, src, turn, turns)
      decreases turns - turn
    {
      if turn == turns {
        FreeDrawAtEveryTurn(addresses, base, prefix, count, src);
        return Filling(addresses);
      }
      var random := src.draw(0, turn);
      turn := turn + 1;
      if random.None? {
        return Rejected("random source failed");
      }
      var ip := RandomRelayIPv6(base, prefix, random.value);
      if ip in addresses || ip == base || !src.isGlobal(ip) {
        continue;
      }
      SpliceCoversPrefix(base, prefix, random.value);
      addresses := addresses + [ip];
    }
    return Filled(addresses);
  }

  // A draw that would be taken: new, not the base, and global if the network is.
  ghost predicate FreeDrawExists(addresses: seq<Address>, base: Address, prefix: nat, src: Source) {
    exists draw: Address ::
      && Splice(base, prefix, draw) !in addresses && Splice(base, prefix, draw) != base
      && (GlobalNetwork(base, prefix, src) ==> src.isGlobal(Splice(base, prefix, draw)))
  }

  ghost predicate GlobalNetwork(base: Address, prefix: nat, src: Source) {
    forall a :: SamePrefix(a, base, prefix) ==> src.isGlobal(a)
  }

  lemma FreeDrawAtEveryTurn(addresses: seq<Address>, base: Address, prefix: nat, count: nat, src: Source)
    requires AllDifferent(addresses) && |addresses| < count && prefix <= 128
    ensures count <= MAX_RELAY_ITEMS && PrefixHolds(prefix, count) ==> FreeDrawExists(addresses, base, prefix, src)
  {
    if count <= MAX_RELAY_ITEMS && PrefixHolds(prefix, count) {
      DistinctSize(addresses);
      FreeCandidateExists(base, prefix, SetOf(addresses), count);
      var draw: Address :| Splice(base, prefix, draw) !in SetOf(addresses) && Splice(base, prefix, draw) != base;
      SpliceCoversPrefix(base, prefix, draw);
      assert Splice(base, prefix, draw) !in addresses;
    }
  }
}
