// The search for a run of consecutive free listen ports.
module PortRange {
  import opened RelayItems

  const MAX_PORT := 65535

  predicate RangeFree(used: set<int>, start: int, count: int) {
    forall port :: start <= port < start + count ==> port !in used
  }

  predicate RangeRequested(preferredStart: int, count: int) {
    1 <= preferredStart <= MAX_PORT && 1 <= count <= MAX_PORT - preferredStart + 1
  }

  // The plain search: try every start in turn.
  function FirstFit(used: set<int>, start: int, count: int): (r: Option<int>)
    requires count >= 1
    decreases MAX_PORT + 1 - start, used
  {
    if start > MAX_PORT - count + 1 then None
    else if RangeFree(used, start, count) then Some(start)
    else FirstFit(used, start + 1, count)
  }

  // It finds the least start whose whole range is free, and fails only when
  // there is none.
  lemma {:induction false} FirstFitIsLeast(used: set<int>, start: int, count: int)
    requires count >= 1
    ensures match FirstFit(used, start, count)
            case Some(s) => start <= s && s + count - 1 <= MAX_PORT && RangeFree(used, s, count)
                            && forall t :: start <= t < s ==> !RangeFree(used, t, count)
            case None => forall t :: start <= t && t + count - 1 <= MAX_PORT ==> !RangeFree(used, t, count)
    decreases MAX_PORT + 1 - start
  {
    if start <= MAX_PORT - count + 1 && !RangeFree(used, start, count) {
      FirstFitIsLeast(used, start + 1, count);
    }
  }

  // Starts whose range contains a used port may all be skipped at once.
  lemma {:induction false} SkipConflict(used: set<int>, start: int, count: int, conflict: int)
    requires count >= 1 && start <= conflict < start + count && conflict in used
    requires start <= MAX_PORT - count + 1
    ensures FirstFit(used, start, count) == FirstFit(used, conflict + 1, count)
    decreases conflict - start
  {
    assert !RangeFree(used, start, count);
    if start < conflict {
      if start + 1 <= MAX_PORT - count + 1 {
        SkipConflict(used, start + 1, count, conflict);
      }
    }
  }

  // The search as run: on a conflict it goes on right behind the used port.
  method NextRelayPortRange(used: set<int>, preferredStart: int, count: int) returns (r: Result<int>)
    ensures !RangeRequested(preferredStart, count) ==> r == Failure("relay port range is invalid")
    ensures RangeRequested(preferredStart, count) ==>
              r == match FirstFit(used, preferredStart, count)
                   case Some(s) => Success(s)
                   case None => Failure("no continuous relay port range is available")
  {
    if preferredStart < 1 || preferredStart > MAX_PORT || count < 1 || count > MAX_PORT - preferredStart + 1 {
      return Failure("relay port range is invalid");
    }
    var lastStart := MAX_PORT - count + 1;
    var start := preferredStart;
    while start <= lastStart
      invariant preferredStart <= start
      invariant FirstFit(used, preferredStart, count) == FirstFit(used, start, count)
      decreases MAX_PORT + 1 - start
    {
      var conflict := 0;
      var port := start;
      while port < start + count && conflict == 0
        invariant start <= port <= start + count
        invariant conflict == 0 ==> RangeFree(used, start, port - start)
        invariant conflict != 0 ==> start <= conflict < start + count && conflict in used
        decreases start + count - port, if conflict == 0 then 1 else 0
      {
        if port in used {
          conflict := port;
        } else {
          port := port + 1;
        }
      }
      if conflict == 0 {
        return Success(start);
      }
      SkipConflict(used, start, count, conflict);
      start := conflict + 1;
    }
    return Failure("no continuous relay port range is available");
  }
}
