// The command hub: commands sent to agents, their results, timeouts,
// disconnects and session replacement. Every method of the hub is one step
// that runs under a lock or on one channel; any order of steps may happen.
module CommandHub {
  import opened Collections
  import opened RelayItems

  datatype Value = Value(id: nat, ok: bool, output: string, error: string)

  // How far the goroutine that dispatched a command has come.
  datatype Phase =
    | Registered                 // in the pending map, not sent
    | SendFailing                // the write failed and the entry is gone
    | SendFailed
    | Waiting                    // sent, waiting for the result or the timer
    | Received(value: Value)
    | Expired                    // the timer fired
    | Removed                    // and the entry is gone
    | Finished                   // logged

  // A dispatched command with its one-value channel; `closes` counts how often
  // the channel was closed.
  datatype Call = Call(session: nat, node: nat, kind: string, phase: Phase, buffer: Option<Value>, closes: nat)
  {
    predicate Sendable() { !phase.SendFailing? && !phase.SendFailed? }
    predicate Open() { phase.Registered? || phase.Waiting? }
  }

  // A goroutine handling one result message.
  datatype Handler = Found(session: nat, value: Value) | Holding(value: Value) | Closing(id: nat) | Gone

  datatype Entry = Entry(id: nat, kind: string, ok: bool, output: string, error: string)

  datatype Logged = Logged(node: nat, entry: Entry)

  const HISTORY := 50
  const MAX_OUTPUT := 16 * 1024
  const TIMED_OUT := "command timed out"

  // Who is responsible for a command's channel: its pending entry, the handler
  // that is to send or to close, or nobody any more.
  datatype Place = Pending | Hand(h: nat) | Closer(h: nat) | Nowhere

  // The channel is open and empty while the entry is pending or the value is
  // still to be sent, and open until its closer is done. Nobody waiting is
  // left without a value. Only a failed send breaks this.
  ghost predicate CallOk(c: nat, call: Call, place: Place) {
    && (call.buffer.Some? ==> call.buffer.value.id == c)
    && (call.phase.Received? ==> call.phase.value.id == c)
    && (place.Pending? ==> call.Open() || call.phase.Expired?)
    && (call.Sendable() ==>
          match place
          case Pending => call.closes == 0 && call.buffer == None
          case Hand(_) => call.closes == 0 && call.buffer == None && !call.phase.Received?
          case Closer(_) => call.closes == 0 && (call.Open() ==> call.buffer.Some?)
          case Nowhere => call.closes <= 1 && (call.Open() ==> call.buffer.Some?))
  }

  ghost predicate CallsOk(calls: seq<Call>, place: seq<Place>) {
    |place| == |calls| && forall c :: 0 <= c < |calls| ==> CallOk(c, calls[c], place[c])
  }

  ghost predicate PendingOk(calls: seq<Call>, place: seq<Place>, pending: set<nat>, sessions: nat)
    requires |place| == |calls|
  {
    && (forall c :: c in pending ==> c < |calls| && place[c].Pending?)
    && (forall c :: 0 <= c < |calls| ==> calls[c].session < sessions && (place[c].Pending? ==> c in pending))
  }

  // At most one handler sends to a channel, and the same one closes it.
  ghost predicate HandlersOk(place: seq<Place>, handlers: seq<Handler>, sessions: nat) {
    && (forall h :: 0 <= h < |handlers| && handlers[h].Found? ==> handlers[h].session < sessions)
    && (forall h :: 0 <= h < |handlers| && handlers[h].Holding? ==>
        handlers[h].value.id < |place| && place[handlers[h].value.id] == Hand(h))
    && (forall h :: 0 <= h < |handlers| && handlers[h].Closing? ==>
        handlers[h].id < |place| && place[handlers[h].id] == Closer(h))
    && (forall c :: 0 <= c < |place| && place[c].Hand? ==>
        place[c].h < |handlers| && handlers[place[c].h].Holding? && handlers[place[c].h].value.id == c)
    && (forall c :: 0 <= c < |place| && place[c].Closer? ==>
        place[c].h < |handlers| && handlers[place[c].h] == Closing(c))
  }

  // Only commands past waiting have an answer, under their own id.
  ghost predicate AnswersOk(calls: seq<Call>, answers: map<nat, Value>) {
    && (forall c :: c in answers ==>
        c < |calls| && answers[c].id == c && (calls[c].phase == Received(answers[c]) || calls[c].phase.Finished?))
    && (forall c :: 0 <= c < |calls| && calls[c].phase.Received? ==> c in answers)
  }

  // ---------------------------------------------------------------- the log

  function EntriesOf(history: seq<Logged>, node: nat): seq<Entry> {
    if history == [] then []
    else EntriesOf(history[..|history| - 1], node)
         + if history[|history| - 1].node == node then [history[|history| - 1].entry] else []
  }

  function Capped(output: string): string {
    if |output| > MAX_OUTPUT then output[..MAX_OUTPUT] + "\n...[truncated]" else output
  }

  // The entry of a command: its answer, or the timeout.
  function EntryFor(c: nat, call: Call, answers: map<nat, Value>): Entry {
    if c in answers then Entry(c, call.kind, answers[c].ok, Capped(answers[c].output), answers[c].error)
    else Entry(c, call.kind, false, "", TIMED_OUT)
  }

  // Finished commands and logged entries correspond one to one: `loggedAt`
  // gives each finished command its entry, which is its answer or its timeout.
  ghost predicate LoggedOnce(calls: seq<Call>, answers: map<nat, Value>, loggedAt: map<nat, nat>,
      history: seq<Logged>) {
    && (forall c :: c in loggedAt ==> c < |calls|)
    && (forall c :: 0 <= c < |calls| ==> (c in loggedAt <==> calls[c].phase.Finished?))
    && (forall i :: 0 <= i < |history| ==> history[i].entry.id in loggedAt && loggedAt[history[i].entry.id] == i)
    && (forall c :: c in loggedAt ==>
        loggedAt[c] < |history| && history[loggedAt[c]] == Logged(calls[c].node, EntryFor(c, calls[c], answers)))
  }

  class CommandLog {
    var logs: map<nat, seq<Entry>>
    ghost var history: seq<Logged>         // everything ever logged

    // Each node's log is its newest entries.
    ghost predicate Valid()
      reads this
    {
      forall n :: (if n in logs then logs[n] else []) == Newest(EntriesOf(history, n), HISTORY)
    }

    constructor ()
      ensures Valid() && history == []
    {
      logs, history := map[], [];
    }

    method Append(node: nat, entry: Entry)
      requires Valid()
      modifies this
      ensures Valid() && history == old(history) + [Logged(node, entry)]
    {
      NewestAfter(history, Logged(node, entry));
      var entries := (if node in logs then logs[node] else []) + [entry];
      if |entries| > HISTORY {
        entries := entries[|entries| - HISTORY..];
      }
      logs := logs[node := entries];
      history := history + [Logged(node, entry)];
    }
  }

  // One more entry changes one node's newest entries.
  lemma NewestAfter(history: seq<Logged>, logged: Logged)
    ensures forall n ::
              Newest(EntriesOf(history + [logged], n), HISTORY)
              == if n == logged.node then Newest(Newest(EntriesOf(history, n), HISTORY) + [logged.entry], HISTORY)
                  else Newest(EntriesOf(history, n), HISTORY)
  {
    assert (history + [logged])[..|history|] == history;
    forall n
      ensures EntriesOf(history + [logged], n)
                == if n == logged.node then EntriesOf(history, n) + [logged.entry] else EntriesOf(history, n)
    {
    }
    NewestOfNewest(EntriesOf(history, logged.node), logged.entry, HISTORY);
  }

  lemma LogKept(calls: seq<Call>, answers: map<nat, Value>, loggedAt: map<nat, nat>, history: seq<Logged>, c: nat,
      call: Call, value: Value)
    requires LoggedOnce(calls, answers, loggedAt, history)
    requires c < |calls| && !calls[c].phase.Finished? && !call.phase.Finished?
    ensures LoggedOnce(calls[c := call], answers[c := value], loggedAt, history)
  {
    forall d | d in loggedAt
      ensures EntryFor(d, calls[d], answers) == EntryFor(d, calls[c := call][d], answers[c := value])
    {
    }
  }

  lemma LogGrows(calls: seq<Call>, answers: map<nat, Value>, loggedAt: map<nat, nat>, history: seq<Logged>, c: nat,
      call: Call)
    requires LoggedOnce(calls, answers, loggedAt, history)
    requires c < |calls| && !calls[c].phase.Finished? && call == calls[c].(phase := Finished)
    ensures c !in loggedAt
    ensures LoggedOnce(calls[c := call], answers, loggedAt[c := |history|],
              history + [Logged(call.node, EntryFor(c, call, answers))])
  {
    forall d | d in loggedAt
      ensures EntryFor(d, calls[d], answers) == EntryFor(d, calls[c := call][d], answers)
    {
    }
  }

  // Handler h takes the next step with command c.
  lemma HandlerMoves(place: seq<Place>, handlers: seq<Handler>, sessions: nat, h: nat, c: nat, handler: Handler,
      now: Place)
    requires HandlersOk(place, handlers, sessions) && h < |handlers| && c < |place|
    requires match handlers[h]
             case Found(_, value) => place[c].Pending? && handler.Holding? && handler.value.id == c && now == Hand(h)
             case Holding(value) => value.id == c && handler == Closing(c) && now == Closer(h)
             case Closing(id) => id == c && handler == Gone && now == Nowhere
             case Gone => false
    ensures HandlersOk(place[c := now], handlers[h := handler], sessions)
  {
    var p, hs := place[c := now], handlers[h := handler];
    forall g | 0 <= g < |hs| && g != h
      ensures hs[g].Holding? ==> hs[g].value.id < |p| && p[hs[g].value.id] == Hand(g)
      ensures hs[g].Closing? ==> hs[g].id < |p| && p[hs[g].id] == Closer(g)
    {
      assert hs[g] == handlers[g];
    }
    forall d | 0 <= d < |p| && d != c
      ensures p[d].Hand? ==> p[d].h < |hs| && hs[p[d].h].Holding? && hs[p[d].h].value.id == d
      ensures p[d].Closer? ==> p[d].h < |hs| && hs[p[d].h] == Closing(d)
    {
      assert p[d] == place[d];
    }
  }

  // No handler is affected when a pending entry goes.
  lemma EntryGone(place: seq<Place>, handlers: seq<Handler>, sessions: nat, c: nat)
    requires HandlersOk(place, handlers, sessions) && c < |place| && place[c].Pending?
    ensures HandlersOk(place[c := Nowhere], handlers, sessions)
  {
  }

  function Buffered(call: Call, value: Value): Call {
    call.(buffer := if call.buffer.None? then Some(value) else call.buffer)
  }

  lemma SendKeepsCalls(calls: seq<Call>, place: seq<Place>, pending: set<nat>, sessions: nat, h: nat, value: Value)
    requires CallsOk(calls, place) && PendingOk(calls, place, pending, sessions)
    requires value.id < |calls| && place[value.id] == Hand(h)
    ensures CallsOk(calls[value.id := Buffered(calls[value.id], value)], place[value.id := Closer(h)])
    ensures PendingOk(calls[value.id := Buffered(calls[value.id], value)], place[value.id := Closer(h)], pending,
              sessions)
  {
  }

  lemma ClosingKeepsCalls(calls: seq<Call>, place: seq<Place>, pending: set<nat>, sessions: nat, c: nat)
    requires CallsOk(calls, place) && PendingOk(calls, place, pending, sessions) && c < |calls| && place[c].Closer?
    ensures CallsOk(calls[c := calls[c].(closes := calls[c].closes + 1)], place[c := Nowhere])
    ensures PendingOk(calls[c := calls[c].(closes := calls[c].closes + 1)], place[c := Nowhere], pending, sessions)
  {
  }

  // A change of a channel that leaves the phase alone.
  lemma PhasesKeepLog(calls: seq<Call>, answers: map<nat, Value>, loggedAt: map<nat, nat>, history: seq<Logged>, c: nat,
      call: Call)
    requires c < |calls| && AnswersOk(calls, answers) && LoggedOnce(calls, answers, loggedAt, history)
    requires call == calls[c].(buffer := call.buffer, closes := call.closes)
    ensures AnswersOk(calls[c := call], answers)
    ensures LoggedOnce(calls[c := call], answers, loggedAt, history)
  {
    var now := calls[c := call];
    forall d | 0 <= d < |calls|
      ensures now[d].phase == calls[d].phase && now[d].node == calls[d].node
      ensures EntryFor(d, calls[d], answers) == EntryFor(d, now[d], answers)
    {
    }
  }

  lemma AnswerKeepsCalls(calls: seq<Call>, place: seq<Place>, pending: set<nat>, sessions: nat, c: nat, value: Value)
    requires CallsOk(calls, place) && PendingOk(calls, place, pending, sessions) && c in pending && value.id == c
    ensures CallsOk(calls[c := Answered(calls[c], value)], place[c := Nowhere])
    ensures PendingOk(calls[c := Answered(calls[c], value)], place[c := Nowhere], pending - {c}, sessions)
  {
  }

  // The pending entry of c goes, if it is still there, and c moves on to a
  // phase that no longer waits.
  function Dropped(place: seq<Place>, c: nat): seq<Place>
    requires c < |place|
  {
    if place[c].Pending? then place[c := Nowhere] else place
  }

  lemma LeavingKeeps(calls: seq<Call>, place: seq<Place>, pending: set<nat>, handlers: seq<Handler>, sessions: nat,
      c: nat, phase: Phase)
    requires CallsOk(calls, place) && PendingOk(calls, place, pending, sessions)
              && HandlersOk(place, handlers, sessions)
    requires c < |calls|
              && ((calls[c].phase.Expired? && phase.Removed?) || (calls[c].phase.Registered? && phase.SendFailing?))
    ensures CallsOk(calls[c := calls[c].(phase := phase)], Dropped(place, c))
    ensures PendingOk(calls[c := calls[c].(phase := phase)], Dropped(place, c), pending - {c}, sessions)
    ensures HandlersOk(Dropped(place, c), handlers, sessions)
  {
    if place[c].Pending? {
      EntryGone(place, handlers, sessions, c);
    }
  }

  lemma LeavingKeepsLog(calls: seq<Call>, answers: map<nat, Value>, loggedAt: map<nat, nat>, history: seq<Logged>,
      c: nat, phase: Phase)
    requires AnswersOk(calls, answers) && LoggedOnce(calls, answers, loggedAt, history)
    requires c < |calls|
              && ((calls[c].phase.Expired? && phase.Removed?) || (calls[c].phase.Registered? && phase.SendFailing?))
    ensures AnswersOk(calls[c := calls[c].(phase := phase)], answers)
    ensures LoggedOnce(calls[c := calls[c].(phase := phase)], answers, loggedAt, history)
  {
    var now := calls[c := calls[c].(phase := phase)];
    forall d | d in loggedAt
      ensures EntryFor(d, calls[d], answers) == EntryFor(d, now[d], answers)
    {
    }
  }

  lemma FinishKeeps(calls: seq<Call>, place: seq<Place>, pending: set<nat>, sessions: nat, answers: map<nat, Value>,
      c: nat)
    requires CallsOk(calls, place) && PendingOk(calls, place, pending, sessions) && AnswersOk(calls, answers)
              && c < |calls| && (calls[c].phase.Received? || calls[c].phase.Removed?)
    ensures CallsOk(calls[c := calls[c].(phase := Finished)], place)
    ensures PendingOk(calls[c := calls[c].(phase := Finished)], place, pending, sessions)
    ensures AnswersOk(calls[c := calls[c].(phase := Finished)], answers)
  {
  }

  // ------------------------------------------------- results on their way

  // A result for the waiting command c is on its way: it is in the channel, or
  // a handler is about to send it, or one has found the pending entry.
  ghost predicate Coming(calls: seq<Call>, handlers: seq<Handler>, pending: set<nat>, c: nat) {
    && c < |calls| && calls[c].phase.Waiting?
    && (calls[c].buffer.Some? || HeldFor(handlers, c) || (c in pending && FoundFor(handlers, c, calls[c].session)))
  }

  predicate HeldFor(handlers: seq<Handler>, c: nat) {
    exists h :: 0 <= h < |handlers| && handlers[h].Holding? && handlers[h].value.id == c
  }

  predicate FoundFor(handlers: seq<Handler>, c: nat, session: nat) {
    exists h :: 0 <= h < |handlers| && handlers[h].Found? && handlers[h].value.id == c && handlers[h].session == session
  }

  // Every value in a channel, in a handler's hands or received was heard.
  ghost predicate HeardIn(calls: seq<Call>, handlers: seq<Handler>, answers: map<nat, Value>, heard: iset<Value>) {
    && (forall c :: 0 <= c < |calls| ==>
          && (calls[c].buffer.Some? ==> calls[c].buffer.value in heard)
          && (calls[c].phase.Received? ==> calls[c].phase.value in heard))
    && (forall h :: 0 <= h < |handlers| && (handlers[h].Found? || handlers[h].Holding?) ==> handlers[h].value in heard)
    && (forall c :: c in answers ==> answers[c] in heard)
  }

  // What a step lets the hub hear: a result an agent sent, or the word that
  // fails a session's commands.
  ghost function Hears(step: Step): iset<Value> {
    match step
    case Message(value) => iset{value}
    case Fail(_, message) => iset v: Value | !v.ok && v.output == "" && v.error == message
    case _ => iset{}
  }

  ghost function HearsAll(steps: seq<Step>): iset<Value> {
    iset i, v: Value | 0 <= i < |steps| && v in Hears(steps[i]) :: v
  }

  predicate Advances(step: Step, c: nat) {
    step.Advance? && step.c == c
  }

  predicate AdvancesIn(steps: seq<Step>, c: nat) {
    exists i :: 0 <= i < |steps| && Advances(steps[i], c)
  }

  lemma AdvancesOneMore(steps: seq<Step>, n: nat)
    requires n < |steps|
    ensures forall c :: AdvancesIn(steps[..n + 1], c) <==> AdvancesIn(steps[..n], c) || Advances(steps[n], c)
  {
    forall c
      ensures AdvancesIn(steps[..n + 1], c) <==> AdvancesIn(steps[..n], c) || Advances(steps[n], c)
    {
      if AdvancesIn(steps[..n], c) {
        var i :| 0 <= i < n && Advances(steps[..n][i], c);
        assert Advances(steps[..n + 1][i], c);
      }
      if AdvancesIn(steps[..n + 1], c) {
        var i :| 0 <= i < n + 1 && Advances(steps[..n + 1][i], c);
        if i < n { assert Advances(steps[..n][i], c); }
      }
      assert steps[..n + 1][n] == steps[n];
    }
  }

  // A handler that takes the next step keeps results on their way.
  lemma HandlingKeepsComing(calls: seq<Call>, now: seq<Call>, handlers: seq<Handler>, later: seq<Handler>,
                            pending: set<nat>, left: set<nat>, h: nat, c: nat)
    requires Coming(calls, handlers, pending, c) && |now| == |calls| && h < |handlers| && |later| == |handlers|
    requires forall g :: 0 <= g < |handlers| && g != h ==> later[g] == handlers[g]
    requires now[c].phase == calls[c].phase && now[c].session == calls[c].session
    requires calls[c].buffer.Some? ==> now[c].buffer.Some?
    requires handlers[h].Found? && handlers[h].value.id == c && handlers[h].session == calls[c].session && c in pending
             ==> later[h].Holding? && later[h].value.id == c
    requires handlers[h].Holding? && handlers[h].value.id == c ==> now[c].buffer.Some?
    requires c in pending ==> c in left || HeldFor(later, c)
    ensures Coming(now, later, left, c)
  {
    if HeldFor(handlers, c) {
      var g :| 0 <= g < |handlers| && handlers[g].Holding? && handlers[g].value.id == c;
      if g != h { assert later[g] == handlers[g]; }
    } else if !calls[c].buffer.Some? {
      var g :| 0 <= g < |handlers| && handlers[g].Found? && handlers[g].value.id == c
               && handlers[g].session == calls[c].session;
      if g != h { assert later[g] == handlers[g]; }
    }
  }

  lemma ReceivedIsHeard(calls: seq<Call>, now: seq<Call>, handlers: seq<Handler>, answers: map<nat, Value>,
                        more: map<nat, Value>, c: nat, heard: iset<Value>)
    requires HeardIn(calls, handlers, answers, heard) && c < |calls| && calls[c].buffer.Some?
    requires c in more && calls[c].buffer.value == more[c] && more.Keys == answers.Keys + {c}
    requires forall d :: d in answers ==> d in more && more[d] == answers[d]
    requires now == calls[c := calls[c].(phase := Received(more[c]), buffer := None)]
    ensures HeardIn(now, handlers, more, heard)
  {
    forall d | d in more
      ensures more[d] in heard
    {
      if d in answers { assert more[d] == answers[d]; }
    }
  }

  class Hub {
    var sessions: map<nat, nat>            // node to its registered session
    var nodeOf: seq<nat>                   // session to node
    var pending: set<nat>                  // the commands in their sessions' pending maps
    var calls: seq<Call>
    var handlers: seq<Handler>
    const log: CommandLog
    ghost var place: seq<Place>
    ghost var answers: map<nat, Value>     // what each dispatcher received
    ghost var loggedAt: map<nat, nat>      // where each outcome was logged

    ghost predicate SessionsOk()
      reads this
    {
      forall n :: n in sessions ==> sessions[n] < |nodeOf| && nodeOf[sessions[n]] == n
    }

    ghost predicate Valid()
      reads this, log
    {
      && SessionsOk()
      && CallsOk(calls, place)
      && PendingOk(calls, place, pending, |nodeOf|)
      && HandlersOk(place, handlers, |nodeOf|)
      && AnswersOk(calls, answers)
      && LoggedOnce(calls, answers, loggedAt, log.history)
    }

    constructor ()
      ensures Valid() && fresh(log) && log.Valid() && calls == [] && sessions == map[]
    {
      sessions, nodeOf, pending, calls, handlers := map[], [], {}, [], [];
      log := new CommandLog();
      place, answers, loggedAt := [], map[], map[];
    }

    // ------------------------------------------------------------- sessions

    method RegisterSession(node: nat) returns (session: nat)
      requires Valid()
      modifies this`sessions, this`nodeOf
      ensures Valid() && session == |old(nodeOf)|
      ensures sessions == old(sessions)[node := session] && nodeOf == old(nodeOf) + [node]
    {
      session := |nodeOf|;
      nodeOf := nodeOf + [node];
      sessions := sessions[node := session];
    }

    // MAIN: a session that was replaced never takes its successor away.
    method UnregisterSession(session: nat)
      requires Valid() && session < |nodeOf|
      modifies this`sessions
      ensures Valid()
      ensures session !in old(sessions).Values ==> sessions == old(sessions)
      ensures session in old(sessions).Values ==>
                sessions == old(sessions) - {nodeOf[session]} && session !in sessions.Values
    {
      var node := nodeOf[session];
      if node in sessions && sessions[node] == session {
        sessions := sessions - {node};
      }
    }

    ghost function PendingOf(session: nat): set<nat>
      reads this
    {
      set c | c in pending && c < |calls| && calls[c].session == session
    }

    // The disconnect message goes to every pending command of the session.
    method FailPending(session: nat, message: string)
      requires Valid()
      modifies this`calls, this`pending, this`place
      ensures Valid() && |calls| == |old(calls)| && pending == old(pending) - old(PendingOf(session))
      ensures forall c :: 0 <= c < |calls| ==>
                calls[c] == if c in old(PendingOf(session)) then Answered(old(calls)[c], Value(c, false, "", message))
                    else old(calls)[c]
    {
      var todo := set c | c in pending && calls[c].session == session;
      ghost var all := todo;
      assert all == PendingOf(session);
      while todo != {}
        invariant Valid() && |calls| == |old(calls)| && todo <= all && pending == old(pending) - (all - todo)
        invariant forall c :: 0 <= c < |calls| ==>
                    calls[c] == if c in all - todo then Answered(old(calls)[c], Value(c, false, "", message))
                        else old(calls)[c]
        decreases |todo|
      {
        var c :| c in todo;
        todo := todo - {c};
        FailOne(c, message);
      }
    }

    method FailOne(c: nat, message: string)
      requires Valid() && c in pending
      modifies this`calls, this`pending, this`place
      ensures Valid() && c < |old(calls)| && pending == old(pending) - {c}
      ensures calls == old(calls)[c := Answered(old(calls)[c], Value(c, false, "", message))]
    {
      AnswerKeepsCalls(calls, place, pending, |nodeOf|, c, Value(c, false, "", message));
      PhasesKeepLog(calls, answers, loggedAt, log.history, c, Answered(calls[c], Value(c, false, "", message)));
      EntryGone(place, handlers, |nodeOf|, c);
      calls := calls[c := Buffered(calls[c], Value(c, false, "", message))];
      calls := calls[c := calls[c].(closes := calls[c].closes + 1)];
      assert calls == old(calls)[c := Answered(old(calls)[c], Value(c, false, "", message))];
      pending, place := pending - {c}, place[c := Nowhere];
    }

    // ------------------------------------------------------------ dispatching

    method RegisterCommand(session: nat, kind: string) returns (id: nat)
      requires Valid() && session < |nodeOf|
      modifies this`calls, this`pending, this`place
      ensures Valid() && id == |old(calls)|
      ensures calls == old(calls) + [Call(session, nodeOf[session], kind, Registered, None, 0)]
      ensures pending == old(pending) + {id}
    {
      id := |calls|;
      calls := calls + [Call(session, nodeOf[session], kind, Registered, None, 0)];
      pending := pending + {id};
      place := place + [Pending];
    }

    method SendSucceeds(c: nat)
      requires Valid() && c < |calls| && calls[c].phase.Registered?
      modifies this`calls
      ensures Valid() && calls == old(calls)[c := old(calls)[c].(phase := Waiting)]
    {
      calls := calls[c := calls[c].(phase := Waiting)];
    }

    method SendFails(c: nat)
      requires Valid() && c < |calls| && calls[c].phase.Registered?
      modifies this`calls, this`pending, this`place
      ensures Valid() && calls == old(calls)[c := old(calls)[c].(phase := SendFailing)]
      ensures pending == old(pending) - {c}
    {
      LeavingKeeps(calls, place, pending, handlers, |nodeOf|, c, SendFailing);
      LeavingKeepsLog(calls, answers, loggedAt, log.history, c, SendFailing);
      pending := pending - {c};
      place := Dropped(place, c);
      calls := calls[c := calls[c].(phase := SendFailing)];
    }

    // Closes the channel without looking who else may have it.
    method CloseAfterFailure(c: nat)
      requires Valid() && c < |calls| && calls[c].phase.SendFailing?
      modifies this`calls
      ensures Valid()
                && calls == old(calls)[c := old(calls)[c].(phase := SendFailed, closes := old(calls)[c].closes + 1)]
    {
      calls := calls[c := calls[c].(phase := SendFailed, closes := calls[c].closes + 1)];
    }

    // MAIN: a dispatcher receives at most one value, its own. A closed channel
    // always has a value, so it never receives an empty one.
    method Receive(c: nat)
      requires Valid() && c < |calls| && calls[c].phase.Waiting? && (calls[c].buffer.Some? || calls[c].closes > 0)
      modifies this`calls, this`answers
      ensures Valid() && c !in old(answers) && answers.Keys == old(answers).Keys + {c} && answers[c].id == c
      ensures old(calls)[c].buffer == Some(answers[c])
      ensures forall d :: d in old(answers) ==> answers[d] == old(answers)[d]
      ensures calls == old(calls)[c := old(calls)[c].(phase := Received(answers[c]), buffer := None)]
    {
      assert calls[c].buffer.Some?;
      var value := calls[c].buffer.value;
      LogKept(calls, answers, loggedAt, log.history, c, calls[c].(phase := Received(value), buffer := None), value);
      calls := calls[c := calls[c].(phase := Received(value), buffer := None)];
      answers := answers[c := value];
    }

    method LogResult(c: nat)
      requires Valid() && log.Valid() && c < |calls| && calls[c].phase.Received?
      modifies this`calls, this`loggedAt, log
      ensures Valid() && log.Valid()
      ensures calls == old(calls)[c := old(calls)[c].(phase := Finished)] && c !in old(loggedAt)
      ensures c in answers && log.history == old(log.history) + [Logged(calls[c].node, EntryFor(c, calls[c], answers))]
    {
      var value := calls[c].phase.value;
      Finish(c, Entry(c, calls[c].kind, value.ok, Capped(value.output), value.error));
    }

    method Finish(c: nat, entry: Entry)
      requires Valid() && log.Valid() && c < |calls| && (calls[c].phase.Received? || calls[c].phase.Removed?)
      requires entry == EntryFor(c, calls[c], answers)
      modifies this`calls, this`loggedAt, log
      ensures Valid() && log.Valid()
      ensures calls == old(calls)[c := old(calls)[c].(phase := Finished)] && c !in old(loggedAt)
      ensures log.history == old(log.history) + [Logged(calls[c].node, entry)]
    {
      FinishKeeps(calls, place, pending, |nodeOf|, answers, c);
      LogGrows(calls, answers, loggedAt, log.history, c, calls[c].(phase := Finished));
      ghost var at := |log.history|;
      log.Append(calls[c].node, entry);
      calls, loggedAt := calls[c := calls[c].(phase := Finished)], loggedAt[c := at];
    }

    method TimerFires(c: nat)
      requires Valid() && c < |calls| && calls[c].phase.Waiting?
      modifies this`calls
      ensures Valid() && calls == old(calls)[c := old(calls)[c].(phase := Expired)]
    {
      calls := calls[c := calls[c].(phase := Expired)];
    }

    method RemoveExpired(c: nat)
      requires Valid() && c < |calls| && calls[c].phase.Expired?
      modifies this`calls, this`pending, this`place
      ensures Valid() && calls == old(calls)[c := old(calls)[c].(phase := Removed)]
      ensures pending == old(pending) - {c}
    {
      LeavingKeeps(calls, place, pending, handlers, |nodeOf|, c, Removed);
      LeavingKeepsLog(calls, answers, loggedAt, log.history, c, Removed);
      pending := pending - {c};
      place := Dropped(place, c);
      calls := calls[c := calls[c].(phase := Removed)];
    }

    method LogTimeout(c: nat)
      requires Valid() && log.Valid() && c < |calls| && calls[c].phase.Removed?
      modifies this`calls, this`loggedAt, log
      ensures Valid() && log.Valid()
      ensures calls == old(calls)[c := old(calls)[c].(phase := Finished)] && c !in old(loggedAt)
      ensures c !in answers
      ensures log.history
                == old(log.history) + [Logged(calls[c].node, Entry(c, calls[c].kind, false, "", TIMED_OUT))]
    {
      Finish(c, Entry(c, calls[c].kind, false, "", TIMED_OUT));
    }

    // ----------------------------------------------------------------- results

    // Looks for a registered session with the command pending; results nobody
    // waits for are dropped.
    method FindTarget(value: Value) returns (found: bool)
      requires Valid()
      modifies this`handlers
      ensures Valid()
      ensures found <==> exists n :: n in sessions && value.id in PendingOf(sessions[n])
      ensures !found ==> handlers == old(handlers)
      ensures found ==>
                value.id in pending
                && handlers == old(handlers) + [Found(calls[value.id].session, value)]
                && calls[value.id].session in sessions.Values
    {
      var todo := sessions.Keys;
      while todo != {}
        invariant todo <= sessions.Keys
        invariant forall n :: n in sessions && n !in todo ==> value.id !in PendingOf(sessions[n])
        decreases |todo|
      {
        var node :| node in todo;
        todo := todo - {node};
        if value.id in pending && calls[value.id].session == sessions[node] {
          assert value.id in PendingOf(sessions[node]);
          handlers := handlers + [Found(sessions[node], value)];
          return true;
        }
      }
      found := false;
    }

    // Removing the entry decides who sends; whoever comes later finds nothing.
    method TakePending(h: nat)
      requires Valid() && h < |handlers| && handlers[h].Found?
      modifies this`handlers, this`pending, this`place
      ensures Valid()
      ensures var s, value := old(handlers)[h].session, old(handlers)[h].value;
              if value.id in old(PendingOf(s))
              then handlers == old(handlers)[h := Holding(value)] && pending == old(pending) - {value.id}
              else handlers == old(handlers)[h := Gone] && pending == old(pending)
    {
      var s, value := handlers[h].session, handlers[h].value;
      if value.id in pending && calls[value.id].session == s {
        Take(h);
      } else {
        handlers := handlers[h := Gone];
      }
    }

    method Take(h: nat)
      requires Valid() && h < |handlers| && handlers[h].Found? && handlers[h].value.id in pending
      modifies this`handlers, this`pending, this`place
      ensures Valid()
      ensures var value := old(handlers)[h].value;
                handlers == old(handlers)[h := Holding(value)] && pending == old(pending) - {value.id}
    {
      var value := handlers[h].value;
      HandlerMoves(place, handlers, |nodeOf|, h, value.id, Holding(value), Hand(h));
      pending := pending - {value.id};
      place := place[value.id := Hand(h)];
      handlers := handlers[h := Holding(value)];
    }

    // Sends without waiting; a value that comes after the timer is read by nobody.
    method Deliver(h: nat)
      requires Valid() && h < |handlers| && handlers[h].Holding?
      modifies this`handlers, this`calls, this`place
      ensures Valid() && handlers == old(handlers)[h := Closing(old(handlers)[h].value.id)]
      ensures var value := old(handlers)[h].value;
              calls == old(calls)[value.id := Buffered(old(calls)[value.id], value)]
      ensures var value := old(handlers)[h].value;
              value.id < |calls| && calls[value.id].buffer
              == if old(calls)[value.id].buffer.None? then Some(value) else old(calls)[value.id].buffer
      ensures pending == old(pending)
    {
      var value := handlers[h].value;
      SendKeepsCalls(calls, place, pending, |nodeOf|, h, value);
      PhasesKeepLog(calls, answers, loggedAt, log.history, value.id, Buffered(calls[value.id], value));
      HandlerMoves(place, handlers, |nodeOf|, h, value.id, Closing(value.id), Closer(h));
      calls := calls[value.id := Buffered(calls[value.id], value)];
      place := place[value.id := Closer(h)];
      handlers := handlers[h := Closing(value.id)];
    }

    method Close(h: nat)
      requires Valid() && h < |handlers| && handlers[h].Closing?
      modifies this`handlers, this`calls, this`place
      ensures Valid() && handlers == old(handlers)[h := Gone]
      ensures var c := old(handlers)[h].id;
              calls == old(calls)[c := old(calls)[c].(closes := old(calls)[c].closes + 1)]
    {
      var c := handlers[h].id;
      ClosingKeepsCalls(calls, place, pending, |nodeOf|, c);
      PhasesKeepLog(calls, answers, loggedAt, log.history, c, calls[c].(closes := calls[c].closes + 1));
      HandlerMoves(place, handlers, |nodeOf|, h, c, Gone, Nowhere);
      calls, place, handlers :=
        calls[c := calls[c].(closes := calls[c].closes + 1)], place[c := Nowhere], handlers[h := Gone];
    }

    // ---------------------------------------------------------- any schedule

    // The end of a dispatch: the result if it is ready and chosen, otherwise
    // the timer. Either way one outcome is logged.
    method AwaitOutcome(c: nat, timerFirst: bool)
      requires Valid() && log.Valid() && c < |calls| && calls[c].phase.Waiting?
      modifies this`calls, this`pending, this`place, this`answers, this`loggedAt, log
      ensures Valid() && log.Valid() && c < |calls| && calls[c].phase.Finished?
      ensures |log.history| == |old(log.history)| + 1 && log.history[..|old(log.history)|] == old(log.history)
      ensures log.history[|old(log.history)|] == Logged(calls[c].node, EntryFor(c, calls[c], answers))
      ensures c in answers <==> !timerFirst && old(calls)[c].buffer.Some?
      ensures c in answers ==> old(calls)[c].buffer == Some(answers[c])
    {
      if calls[c].buffer.Some? && !timerFirst {
        Receive(c);
        LogResult(c);
      } else {
        TimerFires(c);
        RemoveExpired(c);
        LogTimeout(c);
      }
    }

    // MAIN: no step of anybody else loses a result on its way, and the hub
    // answers with nothing it did not hear.
    method Perform(step: Step, ghost heard: iset<Value>)
      requires Valid() && log.Valid() && HeardIn(calls, handlers, answers, heard)
      modifies this, log
      ensures Valid() && log.Valid()
      ensures HeardIn(calls, handlers, answers, heard + Hears(step))
      ensures forall c :: Coming(old(calls), old(handlers), old(pending), c) && !Advances(step, c) ==>
                Coming(calls, handlers, pending, c)
      ensures step.Message? && Waits(old(calls), old(pending), old(sessions), step.value.id) ==>
                Coming(calls, handlers, pending, step.value.id)
      ensures step.Handle? && step.h < |old(handlers)| ==>
                |handlers| == |old(handlers)| && Moves(old(handlers)[step.h], handlers[step.h])
      ensures step.Advance? && step.choice && step.c < |old(calls)| && old(calls)[step.c].phase.Waiting?
                && old(calls)[step.c].buffer.Some? ==>
                step.c < |calls| && calls[step.c].phase == Received(old(calls)[step.c].buffer.value)
    {
      match step
      case Connect(node) => var s := RegisterSession(node);
      case Disconnect(s) => if s < |nodeOf| { UnregisterSession(s); }
      case Fail(s, message) => FailSession(s, message, heard);
      case Dispatch(s, kind) => if s < |nodeOf| { DispatchTo(s, kind, heard); }
      case Message(value) => Hear(value, heard);
      case Advance(c, choice) => if c < |calls| { AdvanceCall(c, choice, heard); }
      case Handle(h) => if h < |handlers| { AdvanceHandler(h, heard); }
    }

    // A result comes in.
    method Hear(value: Value, ghost heard: iset<Value>)
      requires Valid() && HeardIn(calls, handlers, answers, heard)
      modifies this`handlers
      ensures Valid() && HeardIn(calls, handlers, answers, heard + iset{value})
      ensures forall c :: Coming(calls, old(handlers), pending, c) ==> Coming(calls, handlers, pending, c)
      ensures Waits(calls, pending, sessions, value.id) ==> Coming(calls, handlers, pending, value.id)
    {
      var found := FindTarget(value);
      if found {
        assert handlers[|old(handlers)|] == Found(calls[value.id].session, value);
      }
      forall c | Coming(calls, old(handlers), pending, c)
        ensures Coming(calls, handlers, pending, c)
      {
        assert old(handlers) <= handlers;
      }
      if Waits(calls, pending, sessions, value.id) {
        var n :| n in sessions && sessions[n] == calls[value.id].session;
        assert value.id in PendingOf(sessions[n]);
      }
    }

    method FailSession(session: nat, message: string, ghost heard: iset<Value>)
      requires Valid() && HeardIn(calls, handlers, answers, heard)
      modifies this`calls, this`pending, this`place
      ensures Valid() && HeardIn(calls, handlers, answers, heard + Hears(Fail(session, message)))
      ensures forall c :: Coming(old(calls), handlers, old(pending), c) ==> Coming(calls, handlers, pending, c)
    {
      FailPending(session, message);
    }

    method DispatchTo(session: nat, kind: string, ghost heard: iset<Value>)
      requires Valid() && session < |nodeOf| && HeardIn(calls, handlers, answers, heard)
      modifies this`calls, this`pending, this`place
      ensures Valid() && HeardIn(calls, handlers, answers, heard)
      ensures forall c :: Coming(old(calls), handlers, old(pending), c) ==> Coming(calls, handlers, pending, c)
    {
      var c := RegisterCommand(session, kind);
    }

    // The next step of a handler.
    method AdvanceHandler(h: nat, ghost heard: iset<Value>)
      requires Valid() && h < |handlers| && HeardIn(calls, handlers, answers, heard)
      modifies this`handlers, this`calls, this`pending, this`place
      ensures Valid() && HeardIn(calls, handlers, answers, heard)
      ensures forall c :: Coming(old(calls), old(handlers), old(pending), c) ==> Coming(calls, handlers, pending, c)
      ensures |handlers| == |old(handlers)| && Moves(old(handlers)[h], handlers[h])
    {
      match handlers[h]
      case Found(_, _) => TakeOn(h, heard);
      case Holding(_) => DeliverOn(h, heard);
      case Closing(_) => CloseOn(h, heard);
      case Gone =>
    }

    method TakeOn(h: nat, ghost heard: iset<Value>)
      requires Valid() && h < |handlers| && handlers[h].Found? && HeardIn(calls, handlers, answers, heard)
      modifies this`handlers, this`pending, this`place
      ensures Valid() && HeardIn(calls, handlers, answers, heard)
      ensures forall c :: Coming(calls, old(handlers), old(pending), c) ==> Coming(calls, handlers, pending, c)
      ensures |handlers| == |old(handlers)| && Moves(old(handlers)[h], handlers[h])
    {
      TakePending(h);
      forall c | Coming(calls, old(handlers), old(pending), c)
        ensures Coming(calls, handlers, pending, c)
      {
        HandlingKeepsComing(calls, calls, old(handlers), handlers, old(pending), pending, h, c);
      }
    }

    method DeliverOn(h: nat, ghost heard: iset<Value>)
      requires Valid() && h < |handlers| && handlers[h].Holding? && HeardIn(calls, handlers, answers, heard)
      modifies this`handlers, this`calls, this`place
      ensures Valid() && HeardIn(calls, handlers, answers, heard)
      ensures forall c :: Coming(old(calls), old(handlers), pending, c) ==> Coming(calls, handlers, pending, c)
      ensures |handlers| == |old(handlers)| && Moves(old(handlers)[h], handlers[h])
    {
      Deliver(h);
      forall c | Coming(old(calls), old(handlers), pending, c)
        ensures Coming(calls, handlers, pending, c)
      {
        HandlingKeepsComing(old(calls), calls, old(handlers), handlers, pending, pending, h, c);
      }
    }

    method CloseOn(h: nat, ghost heard: iset<Value>)
      requires Valid() && h < |handlers| && handlers[h].Closing? && HeardIn(calls, handlers, answers, heard)
      modifies this`handlers, this`calls, this`place
      ensures Valid() && HeardIn(calls, handlers, answers, heard)
      ensures forall c :: Coming(old(calls), old(handlers), pending, c) ==> Coming(calls, handlers, pending, c)
      ensures |handlers| == |old(handlers)| && Moves(old(handlers)[h], handlers[h])
    {
      Close(h);
      forall c | Coming(old(calls), old(handlers), pending, c)
        ensures Coming(calls, handlers, pending, c)
      {
        HandlingKeepsComing(old(calls), calls, old(handlers), handlers, pending, pending, h, c);
      }
    }

    // The next step of a dispatcher; `choice` picks where it has one.
    method AdvanceCall(c: nat, choice: bool, ghost heard: iset<Value>)
      requires Valid() && log.Valid() && c < |calls| && HeardIn(calls, handlers, answers, heard)
      modifies this`calls, this`pending, this`place, this`answers, this`loggedAt, log
      ensures Valid() && log.Valid() && |calls| == |old(calls)|
      ensures old(log.history) <= log.history
      ensures HeardIn(calls, handlers, answers, heard)
      ensures forall d :: 0 <= d < |calls| && d != c ==>
                calls[d] == old(calls)[d] && (d in pending <==> d in old(pending))
      ensures choice && old(calls)[c].phase.Waiting? && old(calls)[c].buffer.Some? ==>
                calls[c].phase == Received(old(calls)[c].buffer.value)
    {
      match calls[c].phase
      case Registered => Send(c, choice);
      case SendFailing => CloseAfterFailure(c);
      case Waiting => StopWaiting(c, choice, heard);
      case Received(_) => LogResult(c);
      case Expired => RemoveExpired(c);
      case Removed => LogTimeout(c);
      case SendFailed =>
      case Finished =>
    }

    method Send(c: nat, works: bool)
      requires Valid() && c < |calls| && calls[c].phase.Registered?
      modifies this`calls, this`pending, this`place
      ensures Valid() && pending == old(pending) - if works then {} else {c}
      ensures calls == old(calls)[c := old(calls)[c].(phase := if works then Waiting else SendFailing)]
    {
      if works {
        SendSucceeds(c);
      } else {
        SendFails(c);
      }
    }

    method StopWaiting(c: nat, choice: bool, ghost heard: iset<Value>)
      requires Valid() && c < |calls| && calls[c].phase.Waiting? && HeardIn(calls, handlers, answers, heard)
      modifies this`calls, this`answers
      ensures Valid() && |calls| == |old(calls)| && HeardIn(calls, handlers, answers, heard)
      ensures forall d :: 0 <= d < |calls| && d != c ==> calls[d] == old(calls)[d]
      ensures choice && old(calls)[c].buffer.Some? ==> calls[c].phase == Received(old(calls)[c].buffer.value)
    {
      if choice && calls[c].buffer.Some? {
        Receive(c);
        ReceivedIsHeard(old(calls), calls, handlers, old(answers), answers, c, heard);
      } else if !choice {
        TimerFires(c);
      }
    }

    // MAIN: whoever has a result on its way can have it: its handlers get it
    // into the channel, and the dispatcher logs it as the answer.
    method Settle(c: nat)
      requires Valid() && log.Valid() && Coming(calls, handlers, pending, c)
      modifies this`handlers, this`calls, this`pending, this`place, this`answers, this`loggedAt, log
      ensures Valid() && log.Valid() && c < |calls| && calls[c].phase.Finished?
      ensures c in answers && |log.history| == |old(log.history)| + 1
      ensures log.history[|old(log.history)|] == Logged(calls[c].node, EntryFor(c, calls[c], answers))
      ensures old(calls)[c].buffer.Some? ==> answers[c] == old(calls)[c].buffer.value
    {
      if calls[c].buffer.None? {
        BringValue(c);
      }
      AwaitOutcome(c, false);
    }

    method BringValue(c: nat)
      requires Valid() && Coming(calls, handlers, pending, c) && calls[c].buffer.None?
      modifies this`handlers, this`calls, this`pending, this`place
      ensures Valid() && c < |calls| && calls[c].phase.Waiting? && calls[c].buffer.Some?
      ensures calls[c].node == old(calls)[c].node
    {
      if !HeldFor(handlers, c) {
        var h :| 0 <= h < |handlers| && handlers[h].Found? && handlers[h].value.id == c
                 && handlers[h].session == calls[c].session;
        TakePending(h);
        assert handlers[h].Holding?;
      }
      var h :| 0 <= h < |handlers| && handlers[h].Holding? && handlers[h].value.id == c;
      Deliver(h);
    }

    // MAIN: after any steps in any order, every finished command has exactly
    // one logged outcome and no other command has any; each is the answer the
    // dispatcher received under its own id, or the timeout. Answers were heard
    // from agents or when a session failed, and no result on its way is lost.
    method Run(steps: seq<Step>, ghost heard: iset<Value>)
      requires Valid() && log.Valid() && HeardIn(calls, handlers, answers, heard)
      modifies this, log
      ensures Valid() && log.Valid()
      ensures forall c :: c in answers ==> answers[c] in heard + HearsAll(steps)
      ensures forall c :: Coming(old(calls), old(handlers), old(pending), c) && !AdvancesIn(steps, c) ==>
                Coming(calls, handlers, pending, c)
      ensures forall i :: 0 <= i < |log.history| ==>
                log.history[i].entry.id < |calls|
                && Tells(log.history[i], log.history[i].entry.id, calls[log.history[i].entry.id], answers)
      ensures forall i, j :: 0 <= i < j < |log.history| ==> log.history[i].entry.id != log.history[j].entry.id
      ensures forall c :: 0 <= c < |calls| ==>
                (calls[c].phase.Finished? <==> exists i :: 0 <= i < |log.history| && log.history[i].entry.id == c)
      ensures forall i :: 0 <= i < |log.history| ==>
                log.history[i].entry.id < |calls|
                && log.history[i].entry == EntryFor(log.history[i].entry.id, calls[log.history[i].entry.id], answers)
      ensures forall c :: c in answers ==> answers[c].id == c
    {
      for n := 0 to |steps|
        invariant Valid() && log.Valid() && HeardIn(calls, handlers, answers, heard + HearsAll(steps[..n]))
        invariant forall c :: Coming(old(calls), old(handlers), old(pending), c) && !AdvancesIn(steps[..n], c) ==>
                    Coming(calls, handlers, pending, c)
      {
        HearsOneMore(steps, n);
        AdvancesOneMore(steps, n);
        assert heard + HearsAll(steps[..n]) + Hears(steps[n]) == heard + HearsAll(steps[..n + 1]);
        Perform(steps[n], heard + HearsAll(steps[..n]));
      }
      assert steps[..|steps|] == steps;
      forall c | 0 <= c < |calls| && calls[c].phase.Finished?
        ensures exists i :: 0 <= i < |log.history| && log.history[i].entry.id == c
      {
        assert log.history[loggedAt[c]].entry.id == c;
      }
    }
  }

  datatype Step =
    | Connect(node: nat)
    | Disconnect(session: nat)
    | Fail(session: nat, message: string)
    | Dispatch(session: nat, kind: string)
    | Message(value: Value)
    | Advance(c: nat, choice: bool)
    | Handle(h: nat)

  lemma HearsOneMore(steps: seq<Step>, n: nat)
    requires n < |steps|
    ensures HearsAll(steps[..n + 1]) == HearsAll(steps[..n]) + Hears(steps[n])
  {
    forall v
      ensures v in HearsAll(steps[..n + 1]) <==> v in HearsAll(steps[..n]) || v in Hears(steps[n])
    {
      if v in HearsAll(steps[..n]) {
        var i :| 0 <= i < n && v in Hears(steps[..n][i]);
        assert v in Hears(steps[..n + 1][i]);
      }
      if v in HearsAll(steps[..n + 1]) {
        var i :| 0 <= i < n + 1 && v in Hears(steps[..n + 1][i]);
        if i < n { assert v in Hears(steps[..n][i]); }
      }
      assert steps[..n + 1][n] == steps[n];
    }
  }

  // The next state of a handler that takes a step.
  predicate Moves(was: Handler, now: Handler) {
    match was
    case Found(_, value) => now == Holding(value) || now == Gone
    case Holding(value) => now == Closing(value.id)
    case Closing(_) => now == Gone
    case Gone => now == Gone
  }

  // A waiting command whose session is registered and has it pending.
  ghost predicate Waits(calls: seq<Call>, pending: set<nat>, sessions: map<nat, nat>, c: nat) {
    c < |calls| && calls[c].phase.Waiting? && c in pending && calls[c].session in sessions.Values
  }

  // The log entry tells the answer, its output cut at 16 KiB, or the timeout.
  ghost predicate Tells(logged: Logged, c: nat, call: Call, answers: map<nat, Value>) {
    var e := logged.entry;
    && e.id == c && e.kind == call.kind && logged.node == call.node
    && (c in answers ==>
          && e.ok == answers[c].ok && e.error == answers[c].error
          && e.output == if |answers[c].output| <= 16384 then answers[c].output
                         else answers[c].output[..16384] + "\n...[truncated]")
    && (c !in answers ==> !e.ok && e.output == "" && e.error == "command timed out")
  }

  function Answered(call: Call, value: Value): Call {
    call.(buffer := Some(value), closes := call.closes + 1)
  }
}
