// Checking that every new IPv6 address reaches the Internet, with a pool of
// workers that share a queue and stop at the first failure.
module EgressCheck {
  import opened RelayItems

  const WORKERS := 8

  // `Failing` has seen its probe fail and is about to report it.
  datatype Worker = Idle | Probing(address: Address) | Failing(address: Address) | Done

  ghost function AddressesOf(items: seq<RelayItem>): set<Address> {
    set i | 0 <= i < |items| && items[i].ipv6.Valid? :: items[i].ipv6.addr
  }

  // The distinct addresses of the items; items without one are skipped.
  method CollectAddresses(items: seq<RelayItem>) returns (r: Result<seq<Address>>)
    ensures r.Failure? <==> exists i :: 0 <= i < |items| && items[i].ipv6.BadAddress?
    ensures r.Success? ==> (forall a :: a in r.value <==> a in AddressesOf(items))
    ensures r.Success? ==> forall i, j :: 0 <= i < j < |r.value| ==> r.value[i] != r.value[j]
  {
    var addresses: seq<Address> := [];
    var seen: set<Address> := {};
    for i := 0 to |items|
      invariant forall j :: 0 <= j < i ==> !items[j].ipv6.BadAddress?
      invariant forall a :: a in addresses <==> a in seen
      invariant seen == AddressesOf(items[..i])
      invariant forall j, k :: 0 <= j < k < |addresses| ==> addresses[j] != addresses[k]
    {
      match items[i].ipv6
      case NoAddress =>
        assert AddressesOf(items[..i + 1]) == AddressesOf(items[..i]);
      case BadAddress =>
        return Failure("invalid relay IPv6 address");
      case Valid(address) =>
        assert items[..i + 1][i].ipv6.addr == address;
        assert AddressesOf(items[..i + 1]) == AddressesOf(items[..i]) + {address};
        if address !in seen {
          seen := seen + {address};
          addresses := addresses + [address];
        }
    }
    assert items[..|items|] == items;
    r := Success(addresses);
  }

  function Rank(w: Worker): nat {
    match w
    case Done => 0
    case Idle => 1
    case Failing(_) => 2
    case Probing(_) => 3
  }

  function Ranks(workers: seq<Worker>): nat {
    if workers == [] then 0 else Ranks(workers[..|workers| - 1]) + Rank(workers[|workers| - 1])
  }

  lemma {:induction false} RanksUpdate(workers: seq<Worker>, i: nat, w: Worker)
    requires i < |workers|
    ensures Ranks(workers[i := w]) == Ranks(workers) - Rank(workers[i]) + Rank(w)
  {
    var n := |workers| - 1;
    if i < n {
      assert workers[i := w][..n] == workers[..n][i := w];
      RanksUpdate(workers[..n], i, w);
    } else {
      assert workers[i := w][..n] == workers[..n];
    }
  }

  class Pool {
    const addresses: seq<Address>
    const reaches: Address -> bool             // whether a probe left alone succeeds
    var jobs: seq<Address>                     // the closed queue
    var workers: seq<Worker>
    var cancelled: bool
    var failed: Option<Address>
    ghost var checked: set<Address>

    ghost predicate Busy(a: Address)
      reads this
    {
      a in jobs || Probing(a) in workers || Failing(a) in workers
    }

    // Until the first report nothing is cancelled, every address is queued, in
    // work or checked, and whoever fails has a genuine failure.
    ghost predicate Valid()
      reads this
    {
      && (forall a :: a in jobs ==> a in addresses)
      && (forall w :: w in workers && (w.Probing? || w.Failing?) ==> w.address in addresses)
      && (cancelled <==> failed.Some?)
      && (failed.Some? ==> failed.value in addresses && !reaches(failed.value))
      && (forall a :: a in checked ==> reaches(a))
      && (!cancelled ==>
            && (forall a :: a in addresses ==> Busy(a) || a in checked)
            && (forall w :: w in workers && w.Failing? ==> !reaches(w.address))
            && (Done in workers ==> jobs == []))
    }

    ghost function Measure(): nat
      reads this
    {
      4 * |jobs| + Ranks(workers)
    }

    constructor (addresses: seq<Address>, reaches: Address -> bool)
      ensures Valid() && this.addresses == addresses && this.reaches == reaches && failed == None
      ensures |workers| == if |addresses| < WORKERS then |addresses| else WORKERS
      ensures forall w :: w in workers ==> w == Idle
    {
      this.addresses, this.reaches, jobs := addresses, reaches, addresses;
      workers := seq(if |addresses| < WORKERS then |addresses| else WORKERS, i => Idle);
      cancelled, failed, checked := false, None, {};
    }

    // ---- the steps of worker i

    method Take(i: nat)
      requires Valid() && i < |workers| && workers[i].Idle? && jobs != []
      modifies this`jobs, this`workers
      ensures Valid() && Measure() < old(Measure())
      ensures workers == old(workers)[i := Probing(old(jobs)[0])] && jobs == old(jobs)[1..]
    {
      RanksUpdate(workers, i, Probing(jobs[0]));
      ghost var was, queue := workers, jobs;
      workers := workers[i := Probing(jobs[0])];
      jobs := jobs[1..];
      assert workers[i] in workers;
      Moved(was, workers, i);
      assert forall a :: a in queue ==> a == queue[0] || a in jobs;
    }

    method Leave(i: nat)
      requires Valid() && i < |workers| && workers[i].Idle? && (jobs == [] || cancelled)
      modifies this`workers
      ensures Valid() && Measure() < old(Measure())
      ensures workers == old(workers)[i := Done]
    {
      RanksUpdate(workers, i, Done);
      ghost var was := workers;
      workers := workers[i := Done];
      Moved(was, workers, i);
    }

    // The probe returns. Once cancelled, a failure may be due to that alone.
    method Return(i: nat, ok: bool)
      requires Valid() && i < |workers| && workers[i].Probing?
      requires if cancelled then ok ==> reaches(workers[i].address) else ok == reaches(workers[i].address)
      modifies this`workers, this`checked
      ensures Valid() && Measure() < old(Measure())
      ensures workers == old(workers)[i := if ok then Idle else Failing(old(workers)[i].address)]
      ensures checked == old(checked) + if ok then {old(workers)[i].address} else {}
    {
      var address := workers[i].address;
      ghost var was := workers;
      assert workers[i] in workers;
      var next := if ok then Idle else Failing(address);
      RanksUpdate(workers, i, next);
      workers := workers[i := next];
      if ok {
        checked := checked + {address};
      }
      assert workers[i] == next;
      assert next in workers;
      Moved(was, workers, i);
    }

    // Only the first report counts; it cancels the others.
    method Report(i: nat)
      requires Valid() && i < |workers| && workers[i].Failing?
      modifies this`workers, this`cancelled, this`failed
      ensures Valid() && Measure() < old(Measure())
      ensures workers == old(workers)[i := Done] && cancelled
      ensures failed == if old(failed).Some? then old(failed) else Some(old(workers)[i].address)
    {
      assert workers[i] in workers;
      if failed.None? {
        failed := Some(workers[i].address);
        cancelled := true;
      }
      RanksUpdate(workers, i, Done);
      ghost var was := workers;
      workers := workers[i := Done];
      Moved(was, workers, i);
    }

    // MAIN: in every schedule the workers finish, and then there is no failure
    // exactly when every address is reachable; a reported address never is.
    method Run() returns (result: Option<Address>)
      requires Valid() && (addresses != [] ==> workers != [])
      modifies this
      ensures Valid() && result == failed
      ensures result.None? <==> forall a :: a in addresses ==> reaches(a)
      ensures result.Some? ==> result.value in addresses && !reaches(result.value)
    {
      while exists i :: 0 <= i < |workers| && !workers[i].Done?
        invariant Valid() && (addresses != [] ==> workers != [])
        decreases Measure()
      {
        var i :| 0 <= i < |workers| && !workers[i].Done?;
        match workers[i]
        case Idle =>
          if {
            case jobs != [] => Take(i);
            case jobs == [] || cancelled => Leave(i);
          }
        case Probing(address) =>
          if {
            case reaches(address) => Return(i, true);
            case !reaches(address) || cancelled => Return(i, false);
          }
        case Failing(_) => Report(i);
      }
      result := failed;
      if failed.None? {
        forall a | a in addresses
          ensures reaches(a)
        {
          assert workers[0] == Done && workers[0] in workers;
          assert forall w :: w in workers ==> w == Done;
          assert a in checked;
        }
      }
    }
  }

  // Replacing one worker leaves the others.
  lemma Moved(was: seq<Worker>, now: seq<Worker>, i: nat)
    requires i < |was| && |now| == |was| && now == was[i := now[i]]
    ensures forall w :: w in was && w != was[i] ==> w in now
    ensures forall w :: w in now ==> w in was || w == now[i]
  {
    forall w | w in was && w != was[i]
      ensures w in now
    {
      var j :| 0 <= j < |was| && was[j] == w;
      assert now[j] == w;
    }
  }

  // The whole check.
  method ValidateRelayIPv6Egress(items: seq<RelayItem>, reaches: Address -> bool)
      returns (r: Result<bool>, failed: Option<Address>)
    ensures r.Success? <==> (forall i :: 0 <= i < |items| ==> !items[i].ipv6.BadAddress?)
                            && forall i :: 0 <= i < |items| && items[i].ipv6.Valid? ==> reaches(items[i].ipv6.addr)
    ensures failed.Some? ==> r.Failure? && failed.value in AddressesOf(items) && !reaches(failed.value)
  {
    failed := None;
    var addresses := CollectAddresses(items);
    if addresses.Failure? {
      return Failure(addresses.error), None;
    }
    assert forall i :: 0 <= i < |items| && items[i].ipv6.Valid? ==> items[i].ipv6.addr in addresses.value;
    if addresses.value == [] {
      return Success(true), None;
    }
    var pool := new Pool(addresses.value, reaches);
    failed := pool.Run();
    if failed.Some? {
      return Failure("IPv6 egress check failed"), failed;
    }
    r := Success(true);
  }
}
