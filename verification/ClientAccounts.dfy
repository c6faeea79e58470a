// Client accounts: periodic resets, depletion and the global traffic reset.
module ClientAccounts {
  import opened Collections
  import opened InboundUsers
  import opened ClientSaves

  // A client row with the columns that resets and depletion read and write.
  datatype Account = Account(
    client: Client, up: int, down: int, volume: int, expiry: int,
    delayStart: bool, autoReset: bool, resetDays: int, nextReset: int,
    totalUp: int, totalDown: int)

  const DAY := 86400

  function ClientsOf(accounts: map<nat, Account>): map<nat, Client> {
    map k | k in accounts :: accounts[k].client
  }

  // ------------------------------------------------------------- conditions

  predicate Starts(a: Account, periodic: bool) {
    a.client.enable && a.delayStart && a.autoReset == periodic && a.up + a.down > 0
  }

  predicate Due(a: Account, dt: int) {
    !a.delayStart && a.autoReset && a.nextReset < dt
  }

  predicate Exhausted(a: Account, dt: int) {
    a.client.enable && ((a.volume > 0 && a.up + a.down > a.volume) || (a.expiry > 0 && a.expiry < dt))
  }

  predicate Unreset(a: Account) {
    a.up + a.down > 0 || !a.client.enable
  }

  // ----------------------------------------------------------- what they do

  function Emptied(a: Account): Account {
    a.(client := a.client.(enable := true), totalUp := a.totalUp + a.up, totalDown := a.totalDown + a.down, up := 0,
        down := 0)
  }

  // The three groups of a reset do not overlap.
  function Reset(a: Account, dt: int): Account {
    if Starts(a, false) then a.(expiry := dt + a.resetDays * DAY, delayStart := false)
    else if Starts(a, true) then a.(nextReset := dt + a.resetDays * DAY, delayStart := false)
    else if Due(a, dt) then Emptied(a).(nextReset := dt + a.resetDays * DAY)
    else a
  }

  function Disabled(a: Account): Account {
    a.(client := a.client.(enable := false))
  }

  function Depleted(a: Account, dt: int): Account {
    if Exhausted(Reset(a, dt), dt) then Disabled(Reset(a, dt)) else Reset(a, dt)
  }

  function ResetRows(rows: map<nat, Account>, dt: int): map<nat, Account> {
    map k | k in rows :: Reset(rows[k], dt)
  }

  function DepletedRows(rows: map<nat, Account>, dt: int): map<nat, Account> {
    map k | k in rows :: Depleted(rows[k], dt)
  }

  // -------------------------------------------------- the columns afterwards

  // A reset, column by column. A delayed client that was used starts: its time
  // is counted from now, or its first period. A period that is over starts
  // anew, its usage moved to the totals. Every other row stays.
  ghost predicate ResetAt(was: Account, now: Account, dt: int) {
    if was.client.enable && was.delayStart && was.up + was.down > 0 then
      && !now.delayStart
      && now.expiry == (if was.autoReset then was.expiry else dt + 86400 * was.resetDays)
      && now.nextReset == (if was.autoReset then dt + 86400 * was.resetDays else was.nextReset)
      && now == was.(delayStart := now.delayStart, expiry := now.expiry, nextReset := now.nextReset)
    else if !was.delayStart && was.autoReset && was.nextReset < dt then
      && now.nextReset == dt + 86400 * was.resetDays
      && now.totalUp == was.totalUp + was.up && now.totalDown == was.totalDown + was.down
      && now.up == now.down == 0 && now.client == was.client.(enable := true)
      && now == was.(client := now.client, nextReset := now.nextReset, up := now.up, down := now.down,
                     totalUp := now.totalUp, totalDown := now.totalDown)
    else now == was
  }

  // Over its volume, or past its time.
  predicate Over(a: Account, dt: int) {
    (0 < a.volume < a.up + a.down) || 0 < a.expiry < dt
  }

  // A depletion, column by column: the reset, then those over are cut off.
  ghost predicate DepletedAt(was: Account, now: Account, dt: int) {
    var cut := Over(now, dt);
    && (cut ==> !now.client.enable)
    && exists enable :: ResetAt(was, now.(client := now.client.(enable := enable)), dt)
                        && now.client.enable == (enable && !cut)
  }

  ghost predicate RowsResetAt(was: map<nat, Account>, now: map<nat, Account>, dt: int) {
    now.Keys == was.Keys && forall k :: k in was ==> ResetAt(was[k], now[k], dt)
  }

  ghost predicate RowsDepletedAt(was: map<nat, Account>, now: map<nat, Account>, dt: int) {
    now.Keys == was.Keys && forall k :: k in was ==> DepletedAt(was[k], now[k], dt)
  }

  // A client that is turned on by a reset or off by the depletion.
  predicate Turned(was: Account, now: Account, dt: int) {
    var due := !was.delayStart && was.autoReset && was.nextReset < dt;
    (due && !was.client.enable) || ((due || was.client.enable) && Over(now, dt))
  }

  ghost predicate TurnedIn(was: map<nat, Account>, now: map<nat, Account>, dt: int, inbound: nat) {
    exists k :: k in was && k in now && inbound in was[k].client.inbounds && Turned(was[k], now[k], dt)
  }

  // The inbounds returned are those of the clients turned on or off.
  lemma ReturnedAreTurned(rows: map<nat, Account>, dt: int)
    ensures forall i :: i in Reenabled(rows, dt) + Cut(ResetRows(rows, dt), dt)
                   <==> TurnedIn(rows, DepletedRows(rows, dt), dt, i)
  {
    var middle, now := ResetRows(rows, dt), DepletedRows(rows, dt);
    forall k | k in rows
      ensures Turned(rows[k], now[k], dt) <==> (Due(rows[k], dt) && !rows[k].client.enable) || Exhausted(middle[k], dt)
      ensures middle[k].client.inbounds == rows[k].client.inbounds
    {
    }
    forall i
      ensures i in Reenabled(rows, dt) + Cut(middle, dt) <==> TurnedIn(rows, now, dt, i)
    {
      if i in Reenabled(rows, dt) {
        var k :| k in Off(rows, DueIds(rows, dt)) && k in rows && i in rows[k].client.inbounds;
        assert Turned(rows[k], now[k], dt);
      }
      if i in Cut(middle, dt) {
        var k :| k in middle && Exhausted(middle[k], dt) && i in middle[k].client.inbounds;
        assert Turned(rows[k], now[k], dt);
      }
      if TurnedIn(rows, now, dt, i) {
        var k :| k in rows && k in now && i in rows[k].client.inbounds && Turned(rows[k], now[k], dt);
        if Due(rows[k], dt) && !rows[k].client.enable {
          assert k in Off(rows, DueIds(rows, dt));
        } else {
          assert k in (set j | j in middle && Exhausted(middle[j], dt));
        }
      }
    }
  }

  lemma ResetIsAt(a: Account, dt: int)
    ensures ResetAt(a, Reset(a, dt), dt) && DepletedAt(a, Depleted(a, dt), dt)
  {
    var middle, now := Reset(a, dt), Depleted(a, dt);
    assert now.(client := now.client.(enable := middle.client.enable)) == middle;
  }

  lemma RowsAreAt(rows: map<nat, Account>, dt: int)
    ensures RowsResetAt(rows, ResetRows(rows, dt), dt) && RowsDepletedAt(rows, DepletedRows(rows, dt), dt)
  {
    forall k | k in rows
      ensures ResetAt(rows[k], ResetRows(rows, dt)[k], dt) && DepletedAt(rows[k], DepletedRows(rows, dt)[k], dt)
    {
      ResetIsAt(rows[k], dt);
    }
  }

  // The inbounds listed by the clients `ks`.
  ghost function InboundsOf(rows: map<nat, Account>, ks: set<nat>): set<nat> {
    set k, i | k in ks && k in rows && i in rows[k].client.inbounds :: i
  }

  lemma InboundsOfOneMore(rows: map<nat, Account>, ks: set<nat>, k: nat)
    requires k in rows
    ensures InboundsOf(rows, ks + {k}) == InboundsOf(rows, ks) + SetOf(rows[k].client.inbounds)
  {
    assert InboundsOf(rows, ks + {k}) >= InboundsOf(rows, ks);
    assert InboundsOf(rows, ks + {k}) >= SetOf(rows[k].client.inbounds);
    assert InboundsOf(rows, ks + {k}) <= InboundsOf(rows, ks) + SetOf(rows[k].client.inbounds);
  }

  function DueIds(rows: map<nat, Account>, dt: int): set<nat> {
    set k | k in rows && Due(rows[k], dt)
  }

  ghost function ResetOf(rows: map<nat, Account>, ks: set<nat>, dt: int): map<nat, Account> {
    map k | k in ks && k in rows :: Reset(rows[k], dt)
  }

  lemma ResetOneMore(rows: map<nat, Account>, ks: set<nat>, k: nat, dt: int)
    requires k in rows
    ensures ResetOf(rows, ks + {k}, dt) == ResetOf(rows, ks, dt)[k := Reset(rows[k], dt)]
  {
  }

  ghost function Off(rows: map<nat, Account>, ks: set<nat>): set<nat> {
    set k | k in ks && k in rows && !rows[k].client.enable
  }

  lemma OffOneMore(rows: map<nat, Account>, ks: set<nat>, k: nat)
    requires k in rows
    ensures InboundsOf(rows, Off(rows, ks + {k}))
         == InboundsOf(rows, Off(rows, ks)) + if rows[k].client.enable then {} else SetOf(rows[k].client.inbounds)
  {
    if rows[k].client.enable {
      assert Off(rows, ks + {k}) == Off(rows, ks);
    } else {
      assert Off(rows, ks + {k}) == Off(rows, ks) + {k};
      InboundsOfOneMore(rows, Off(rows, ks), k);
    }
  }

  // The inbounds of clients that a reset enables again, and of clients
  // disabled after it.
  ghost function Reenabled(rows: map<nat, Account>, dt: int): set<nat> {
    InboundsOf(rows, Off(rows, DueIds(rows, dt)))
  }

  ghost function Cut(rows: map<nat, Account>, dt: int): set<nat> {
    InboundsOf(rows, set k | k in rows && Exhausted(rows[k], dt))
  }

  class ClientTable {
    var rows: map<nat, Account>

    // The first use of a client whose time only starts then.
    method StartClients(tx: map<nat, Account>, dt: int, periodic: bool) returns (started: map<nat, Account>)
      ensures started == map k | k in tx && Starts(tx[k], periodic) :: Reset(tx[k], dt)
    {
      started := map[];
      var group := set k | k in tx && Starts(tx[k], periodic);
      var todo := group;
      while todo != {}
        invariant todo <= group
        invariant started == map k | k in group - todo :: Reset(tx[k], dt)
        decreases |todo|
      {
        var k :| k in todo;
        todo := todo - {k};
        var a := tx[k].(delayStart := false);
        if periodic {
          a := a.(nextReset := dt + a.resetDays * DAY);
        } else {
          a := a.(expiry := dt + a.resetDays * DAY);
        }
        started := started[k := a];
      }
    }

    // One round of the loop: the client is emptied, and enabled again.
    method ResetDueClient(client: Account, dt: int, ids: seq<nat>) returns (a: Account, inboundIds: seq<nat>)
      requires Due(client, dt)
      ensures a == Reset(client, dt)
      ensures SetOf(inboundIds) == SetOf(ids) + if client.client.enable then {} else SetOf(client.client.inbounds)
    {
      a, inboundIds := client, ids;
      a := a.(nextReset := dt + a.resetDays * DAY, totalUp := a.totalUp + a.up, totalDown := a.totalDown + a.down);
      a := a.(up := 0, down := 0);
      if !a.client.enable {
        a := a.(client := a.client.(enable := true));
        inboundIds := UnionUintArray(inboundIds, a.client.inbounds);
      }
    }

    method ResetDueClients(tx: map<nat, Account>, dt: int) returns (reset: map<nat, Account>, inboundIds: seq<nat>)
      ensures reset == ResetOf(tx, DueIds(tx, dt), dt)
      ensures SetOf(inboundIds) == Reenabled(tx, dt)
    {
      reset, inboundIds := map[], [];
      var todo := DueIds(tx, dt);
      ghost var ready: set<nat> := {};
      while todo != {}
        invariant ready + todo == DueIds(tx, dt)
        invariant reset == ResetOf(tx, ready, dt)
        invariant SetOf(inboundIds) == InboundsOf(tx, Off(tx, ready))
        decreases |todo|
      {
        var k :| k in todo;
        todo := todo - {k};
        OffOneMore(tx, ready, k);
        ResetOneMore(tx, ready, k, dt);
        ready := ready + {k};
        var a;
        a, inboundIds := ResetDueClient(tx[k], dt, inboundIds);
        reset := reset[k := a];
      }
      assert ready == DueIds(tx, dt);
    }

    method ResetClients(tx: map<nat, Account>, dt: int) returns (updated: map<nat, Account>, inboundIds: seq<nat>)
      ensures updated == ResetRows(tx, dt) && RowsResetAt(tx, updated, dt)
      ensures SetOf(inboundIds) == Reenabled(tx, dt)
    {
      var delayed := StartClients(tx, dt, false);
      var periodic := StartClients(tx, dt, true);
      var reset;
      reset, inboundIds := ResetDueClients(tx, dt);
      updated := tx + delayed + periodic + reset;
      GroupsAreReset(tx, delayed, periodic, reset, dt);
      RowsAreAt(tx, dt);
    }

    // The inbounds of the clients about to be disabled join the list.
    method AddInboundsOf(tx: map<nat, Account>, clients: set<nat>, ids: seq<nat>) returns (inboundIds: seq<nat>)
      requires clients <= tx.Keys
      ensures SetOf(inboundIds) == SetOf(ids) + InboundsOf(tx, clients)
    {
      inboundIds := ids;
      var todo := clients;
      ghost var seen: set<nat> := {};
      while todo != {}
        invariant seen + todo == clients
        invariant SetOf(inboundIds) == SetOf(ids) + InboundsOf(tx, seen)
        decreases |todo|
      {
        var k :| k in todo;
        todo := todo - {k};
        InboundsOfOneMore(tx, seen, k);
        seen := seen + {k};
        inboundIds := UnionUintArray(inboundIds, tx[k].client.inbounds);
      }
      assert seen == clients;
    }

    // MAIN: resets, then disables. `works` and `commits` say whether the
    // statements and the commit work; a failed commit goes unnoticed.
    method DepleteClients(dt: int, works: bool, commits: bool) returns (ok: bool, inboundIds: seq<nat>)
      modifies this
      ensures ok <==> works
      ensures rows == if works && commits then DepletedRows(old(rows), dt) else old(rows)
      ensures works && commits ==> RowsDepletedAt(old(rows), rows, dt)
      ensures works && commits ==> forall k :: k in rows && rows[k].client.enable ==>
                && (rows[k].volume <= 0 || rows[k].up + rows[k].down <= rows[k].volume)
                && (rows[k].expiry <= 0 || dt <= rows[k].expiry)
      ensures ok ==> SetOf(inboundIds) == Reenabled(old(rows), dt) + Cut(ResetRows(old(rows), dt), dt)
      ensures works && commits ==> forall i :: i in inboundIds <==> TurnedIn(old(rows), rows, dt, i)
    {
      RowsAreAt(rows, dt);
      var tx;
      tx, inboundIds := ResetClients(rows, dt);
      if !works {
        return false, [];
      }
      var clients := set k | k in tx && Exhausted(tx[k], dt);
      inboundIds := AddInboundsOf(tx, clients, inboundIds);
      if clients != {} {
        tx := map k | k in tx :: if Exhausted(tx[k], dt) then Disabled(tx[k]) else tx[k];
      } else {
        assert forall k :: k in tx ==> k !in clients;
      }
      DisablingIsLast(rows, tx, dt);
      ReturnedAreTurned(rows, dt);
      assert forall i :: i in inboundIds <==> i in SetOf(inboundIds);
      if commits {
        rows := tx;
      }
      ok := true;
    }

    // Usage so far moves into the all-time figures, and everybody is enabled:
    // no client keeps current traffic, none loses any from its total.
    method ResetAllClientsTraffic(works: bool)
      modifies this
      ensures !works ==> rows == old(rows)
      ensures rows.Keys == old(rows).Keys
      ensures works ==> forall k :: k in rows ==> rows[k].client.enable && rows[k].up + rows[k].down <= 0
      ensures forall k :: k in rows ==> SameTotals(old(rows)[k], rows[k]) && SameBesides(old(rows)[k], rows[k])
      ensures works ==> forall k :: k in rows && Unreset(old(rows)[k]) ==> rows[k].up == rows[k].down == 0
      ensures forall k :: k in rows && !Unreset(old(rows)[k]) ==> rows[k] == old(rows)[k]
    {
      if works {
        rows := map k | k in rows :: if Unreset(rows[k]) then Emptied(rows[k]) else rows[k];
      }
    }
  }

  // The three groups together make the reset rows.
  lemma GroupsAreReset(tx: map<nat, Account>, delayed: map<nat, Account>, periodic: map<nat, Account>,
                       reset: map<nat, Account>, dt: int)
    requires delayed == map k | k in tx && Starts(tx[k], false) :: Reset(tx[k], dt)
    requires periodic == map k | k in tx && Starts(tx[k], true) :: Reset(tx[k], dt)
    requires reset == ResetOf(tx, DueIds(tx, dt), dt)
    ensures tx + delayed + periodic + reset == ResetRows(tx, dt)
  {
  }

  predicate SameTotals(was: Account, now: Account) {
    now.totalUp + now.up == was.totalUp + was.up && now.totalDown + now.down == was.totalDown + was.down
  }

  // Only the traffic columns and the state may differ.
  predicate SameBesides(was: Account, now: Account) {
    && now.client == was.client.(enable := now.client.enable)
    && now == was.(client := now.client, up := now.up, down := now.down, totalUp := now.totalUp,
        totalDown := now.totalDown)
  }

  // These clauses leave one result: the emptied rows.
  lemma ResetAllIsEmptying(was: Account, now: Account)
    requires SameTotals(was, now) && SameBesides(was, now) && now.client.enable
    requires Unreset(was) ==> now.up == now.down == 0
    requires !Unreset(was) ==> now == was
    ensures now == if Unreset(was) then Emptied(was) else was
  {
  }

  lemma DisablingIsLast(rows: map<nat, Account>, tx: map<nat, Account>, dt: int)
    requires tx.Keys == rows.Keys
    requires forall k :: k in rows ==>
              tx[k] == if Exhausted(Reset(rows[k], dt), dt) then Disabled(Reset(rows[k], dt)) else Reset(rows[k], dt)
    ensures tx == DepletedRows(rows, dt)
  {
  }

  // -------------------------------------------------------------- the results

  // MAIN: after a depletion nobody enabled is over volume or past expiry, and
  // nobody is disabled without being so.
  lemma DepletionIsComplete(rows: map<nat, Account>, dt: int, k: nat)
    requires k in rows
    ensures !Exhausted(DepletedRows(rows, dt)[k], dt)
    ensures var a := DepletedRows(rows, dt)[k];
            a.client.enable ==>
              (a.volume <= 0 || a.up + a.down <= a.volume) && (a.expiry <= 0 || dt <= a.expiry)
    ensures DepletedRows(rows, dt)[k].client.enable
       <==> (rows[k].client.enable || Due(rows[k], dt)) && !Exhausted(ResetRows(rows, dt)[k], dt)
    ensures rows[k].client.enable && !Starts(rows[k], false) && !Due(rows[k], dt)
        ==> (DepletedRows(rows, dt)[k].client.enable <==> !Exhausted(rows[k], dt))
  {
  }

  // MAIN: every inbound not returned shows the same users as before, so
  // restarting the returned ones brings the core to the rebuilt state.
  lemma DepletionReportsChanges(t: Tables, rows: map<nat, Account>, dt: int)
    requires UniqueTags(t.rows) && t.clients == ClientsOf(rows)
    ensures var now := t.(clients := ClientsOf(DepletedRows(rows, dt)));
            var ids := Reenabled(rows, dt) + Cut(ResetRows(rows, dt), dt);
            Unaffected(t, now, ids) && Restarted(Build(t), now, ids) == Build(now)
  {
    var now := t.(clients := ClientsOf(DepletedRows(rows, dt)));
    var ids := Reenabled(rows, dt) + Cut(ResetRows(rows, dt), dt);
    forall id | id in t.rows && id !in ids
      ensures UsersOf(t, id) == UsersOf(now, id)
    {
      forall k
        ensures PartIn(t.clients, k, id) == PartIn(now.clients, k, id)
      {
        if k in rows {
          DepletionPart(rows, dt, k, id);
        }
      }
      PartsDecideUsers(t.clients, now.clients, id, t.rows[id]);
    }
    RestartIsExact(t, now, ids);
  }

  lemma DepletionPart(rows: map<nat, Account>, dt: int, k: nat, id: nat)
    requires k in rows && id !in Reenabled(rows, dt) + Cut(ResetRows(rows, dt), dt)
    ensures Part(rows[k].client, id) == Part(DepletedRows(rows, dt)[k].client, id)
  {
    var middle := ResetRows(rows, dt);
    if id in rows[k].client.inbounds {
      assert middle[k].client.inbounds == rows[k].client.inbounds;
      assert !(Due(rows[k], dt) && !rows[k].client.enable);
      assert !Exhausted(middle[k], dt);
    }
  }
}
