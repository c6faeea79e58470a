// Latency probes of agent sessions: one ping at a time, answered, timed out,
// or given up when the session ends. Every method is one locked step; the
// steps may come in any order.
module LatencyProbe {
  import opened Collections
  import opened RelayItems

  datatype Ping = Ping(session: nat, started: int)

  datatype Sample = Sample(ms: int, ok: bool)

  const TIMEOUT := 5000
  const HISTORY := 120

  function Appended(samples: seq<Sample>, sample: Sample): seq<Sample> {
    Newest(samples + [sample], HISTORY)
  }

  // The samples of one session's node.
  class Probes {
    var pings: map<nat, Ping>                  // the entries of all sessions' ping maps, by id
    var nextPing: nat
    var samples: map<nat, seq<Sample>>         // by session
    ghost var settled: set<nat>                // pings that are over

    function SamplesOf(session: nat): seq<Sample>
      reads this
    {
      if session in samples then samples[session] else []
    }

    // MAIN: at most one ping is outstanding in a session, and a ping is
    // outstanding or over, never both.
    ghost predicate Valid()
      reads this
    {
      && (forall p, q :: p in pings && q in pings && pings[p].session == pings[q].session ==> p == q)
      && (forall p :: p in pings ==> p < nextPing && p !in settled)
      && (forall p :: p in settled ==> p < nextPing)
    }

    constructor ()
      ensures Valid() && pings == map[] && settled == {}
    {
      pings, nextPing, samples := map[], 0, map[];
      settled := {};
    }

    method AppendLatency(session: nat, sample: Sample)
      modifies this`samples
      ensures SamplesOf(session) == Appended(old(SamplesOf(session)), sample)
      ensures forall s :: s != session ==> SamplesOf(s) == old(SamplesOf(s))
    {
      var all := SamplesOf(session) + [sample];
      if |all| > HISTORY {
        all := all[|all| - HISTORY..];
      }
      samples := samples[session := all];
    }

    method Settle(id: nat)
      requires Valid() && id in pings
      modifies this`pings, this`settled
      ensures Valid() && pings == old(pings) - {id} && settled == old(settled) + {id} && id !in old(settled)
    {
      pings := pings - {id};
      settled := settled + {id};
    }

    ghost predicate Fresh(session: nat, now: int)
      reads this
    {
      exists p :: p in pings && pings[p].session == session && now - pings[p].started < TIMEOUT
    }

    // Gives up pings that are too old, then sends a new one unless one is
    // still outstanding.
    method Probe(session: nat, now: int) returns (sent: Option<nat>)
      requires Valid()
      modifies this
      ensures Valid()
      ensures sent.None? <==> old(Fresh(session, now))
      ensures sent.None? ==> pings == old(pings)
      ensures sent.Some? ==>
                sent.value == old(nextPing) && sent.value in pings && pings[sent.value] == Ping(session, now)
      ensures sent.Some? ==> forall p ::
                p in pings <==> p == sent.value || (p in old(pings) && old(pings)[p].session != session)
      ensures forall p :: p in pings && p in old(pings) ==> pings[p] == old(pings)[p]
    {
      var mine := set p | p in pings && pings[p].session == session;
      var todo := mine;
      while todo != {}
        invariant todo <= mine && Valid() && nextPing == old(nextPing)
        invariant forall p ::
                    p in pings <==> p in old(pings) && (p in mine - todo ==> now - old(pings)[p].started < TIMEOUT)
        invariant forall p :: p in pings ==> pings[p] == old(pings)[p]
        decreases |todo|
      {
        var id :| id in todo;
        todo := todo - {id};
        if now - pings[id].started >= TIMEOUT {
          Settle(id);
          AppendLatency(session, Sample(0, false));
        }
      }
      if p :| p in pings && pings[p].session == session {
        return None;
      }
      var id := nextPing;
      nextPing := nextPing + 1;
      pings := pings[id := Ping(session, now)];
      sent := Some(id);
    }

    // MAIN: a pong counts only while its ping is outstanding in the session it
    // came for, hence at most once.
    method HandlePong(session: nat, id: nat, elapsed: int) returns (counted: bool)
      requires Valid()
      modifies this`pings, this`settled, this`samples
      ensures Valid()
      ensures counted <==> id in old(pings) && old(pings)[id].session == session
      ensures counted ==> id !in old(settled) && id in settled && pings == old(pings) - {id}
      ensures counted ==>
                SamplesOf(session)
                == Appended(old(SamplesOf(session)), Sample(if elapsed < 0 then 0 else elapsed, true))
      ensures !counted ==> pings == old(pings) && samples == old(samples) && settled == old(settled)
    {
      counted := id in pings && pings[id].session == session;
      if counted {
        Settle(id);
        AppendLatency(session, Sample(if elapsed < 0 then 0 else elapsed, true));
      }
    }

    // The write of a ping failed. A pong, a timeout or a disconnect may have
    // come first, and the failure is counted even then.
    method WriteFails(session: nat, id: nat)
      requires Valid()
      modifies this`pings, this`settled, this`samples
      ensures Valid() && pings == old(pings) - {id}
      ensures SamplesOf(session) == Appended(old(SamplesOf(session)), Sample(0, false))
    {
      if id in pings {
        Settle(id);
      } else {
        assert pings - {id} == pings;
      }
      AppendLatency(session, Sample(0, false));
    }

    // A session that ends gives up its pings, each with a failed sample.
    method FailPings(session: nat)
      requires Valid()
      modifies this`pings, this`settled, this`samples
      ensures Valid()
      ensures forall p :: p in pings <==> p in old(pings) && old(pings)[p].session != session
      ensures SamplesOf(session) == if exists p :: p in old(pings) && old(pings)[p].session == session
                                    then Appended(old(SamplesOf(session)), Sample(0, false))
                                    else old(SamplesOf(session))
    {
      var mine := set p | p in pings && pings[p].session == session;
      var count := |mine|;
      if p :| p in mine {
        assert mine == {p};
      } else {
        assert mine == {};
      }
      pings := pings - mine;
      settled := settled + mine;
      for i := 0 to count
        modifies this`samples
        invariant SamplesOf(session) == if i == 0 then old(SamplesOf(session))
                  else Appended(old(SamplesOf(session)), Sample(0, false))
      {
        AppendLatency(session, Sample(0, false));
      }
    }
  }
}
