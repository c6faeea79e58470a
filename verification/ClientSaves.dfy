// Client saves: what they write, and which inbounds they report as changed.
module ClientSaves {
  import opened Collections
  import opened RelayItems
  import opened InboundUsers

  const CANONICAL := "canonical"

  // Entries carry the id the request names; 0 asks for a new one.
  datatype Entry = Entry(id: nat, client: Client)

  datatype ClientChange =
    | New(entry: Entry)
    | Edit(entry: Entry)
    | AddBulk(entries: seq<Entry>)
    | EditBulk(entries: seq<Entry>)
    | DelBulk(ids: seq<nat>)
    | Del(id: nat)

  // ------------------------------------------------------- list arithmetic

  // The union of two id lists, without repetition, in some order.
  method UnionUintArray(a: seq<nat>, b: seq<nat>) returns (res: seq<nat>)
    ensures SetOf(res) == SetOf(a) + SetOf(b)
    ensures forall i, j :: 0 <= i < j < |res| ==> res[i] != res[j]
  {
    var m: set<nat> := {};
    for i := 0 to |a|
      invariant m == SetOf(a[..i])
    {
      SetOfGrows(a[..i], a[i]);
      assert a[..i + 1] == a[..i] + [a[i]];
      m := m + {a[i]};
    }
    for i := 0 to |b|
      invariant m == SetOf(a) + SetOf(b[..i])
    {
      SetOfGrows(b[..i], b[i]);
      assert b[..i + 1] == b[..i] + [b[i]];
      m := m + {b[i]};
    }
    assert a[..|a|] == a && b[..|b|] == b;
    res := Keys(m);
  }

  method Keys(m: set<nat>) returns (res: seq<nat>)
    ensures SetOf(res) == m
    ensures forall i, j :: 0 <= i < j < |res| ==> res[i] != res[j]
  {
    res := [];
    var rest := m;
    while rest != {}
      invariant SetOf(res) + rest == m && SetOf(res) !! rest
      invariant forall i, j :: 0 <= i < j < |res| ==> res[i] != res[j]
      decreases |rest|
    {
      var k :| k in rest;
      assert forall i :: 0 <= i < |res| ==> res[i] in SetOf(res);
      SetOfGrows(res, k);
      res := res + [k];
      rest := rest - {k};
    }
  }

  // The elements in one list but not in the other.
  method DiffUintArray(a: seq<nat>, b: seq<nat>) returns (different: seq<nat>)
    ensures SetOf(different) == (SetOf(a) - SetOf(b)) + (SetOf(b) - SetOf(a))
  {
    different := [];
    var known := SetOf(a);
    for i := 0 to |b|
      invariant SetOf(different) == SetOf(b[..i]) - SetOf(a)
    {
      ghost var before := SetOf(different);
      if b[i] !in known {
        different := different + [b[i]];
        assert SetOf(different) == before + {b[i]};
      }
      assert SetOf(b[..i + 1]) == SetOf(b[..i]) + {b[i]};
    }
    assert b[..|b|] == b;
    known := SetOf(b);
    for i := 0 to |a|
      invariant SetOf(different) == (SetOf(b) - SetOf(a)) + (SetOf(a[..i]) - SetOf(b))
    {
      ghost var before := SetOf(different);
      if a[i] !in known {
        different := different + [a[i]];
        assert SetOf(different) == before + {a[i]};
      }
      assert SetOf(a[..i + 1]) == SetOf(a[..i]) + {a[i]};
    }
    assert a[..|a|] == a;
  }

  // ------------------------------------------------------------ what is saved

  function SetConfigIdentity(c: Client): (d: Client)
    ensures Labelled(d) && d.enable == c.enable && d.name == c.name && d.inbounds == c.inbounds
  {
    if c.name == "" || c.credentials == map[] then c
    else c.(credentials := map p | p in c.credentials :: Relabelled(c.credentials[p], c.name), spelling := CANONICAL)
  }

  // Bulk edits leave the credentials out; they are taken from the stored row.
  function Filled(stored: Client, c: Client): Client {
    c.(credentials := stored.credentials, spelling := stored.spelling)
  }

  // A save by primary key: update or insert.
  function Put(t: Tables, id: nat, c: Client): Tables {
    if id == 0 then t.(clients := t.clients[t.nextClient := c], nextClient := t.nextClient + 1)
    else t.(clients := t.clients[id := c], nextClient := if id < t.nextClient then t.nextClient else id + 1)
  }

  function PutAll(t: Tables, entries: seq<Entry>): (r: Tables)
    ensures r.rows == t.rows && r.nextRow == t.nextRow && r.changes == t.changes && r.nextClient >= t.nextClient
  {
    if entries == [] then t
    else var last := entries[|entries| - 1];
         Put(PutAll(t, entries[..|entries| - 1]), last.id, last.client)
  }

  function Written(t: Tables, change: ClientChange): seq<Entry>
    requires Accepted(t, change)
  {
    match change
    case New(e) => [Entry(e.id, SetConfigIdentity(e.client))]
    case Edit(e) => [Entry(e.id, SetConfigIdentity(e.client))]
    case AddBulk(entries) => seq(|entries|,
        i requires 0 <= i < |entries| => Entry(entries[i].id, SetConfigIdentity(entries[i].client)))
    case EditBulk(entries) => seq(|entries|, i requires 0 <= i < |entries| =>
      Entry(entries[i].id, SetConfigIdentity(Filled(t.clients[entries[i].id], entries[i].client))))
    case _ => []
  }

  function Erased(t: Tables, ids: set<nat>): Tables {
    t.(clients := t.clients - ids)
  }

  // Edits and deletions of clients that do not exist are refused.
  predicate Accepted(t: Tables, change: ClientChange) {
    match change
    case New(_) => true
    case AddBulk(_) => true
    case Edit(e) => e.id in t.clients
    case EditBulk(entries) => forall i :: 0 <= i < |entries| ==> entries[i].id in t.clients
    case DelBulk(ids) => forall i :: 0 <= i < |ids| ==> ids[i] in t.clients
    case Del(id) => id in t.clients
  }

  function Saved(t: Tables, change: ClientChange): (r: Tables)
    requires Accepted(t, change)
    ensures r.rows == t.rows && r.nextRow == t.nextRow && r.changes == t.changes
  {
    match change
    case DelBulk(ids) => Erased(t, SetOf(ids))
    case Del(id) => Erased(t, {id})
    case _ => PutAll(t, Written(t, change))
  }

  // The inbounds whose users may change when `c` replaces `stored`.
  function Changed(stored: Client, c: Client): set<nat> {
    if stored.credentials != c.credentials || stored.spelling != c.spelling || stored.name != c.name
        || stored.enable != c.enable
    then SetOf(stored.inbounds) + SetOf(c.inbounds)
    else (SetOf(stored.inbounds) - SetOf(c.inbounds)) + (SetOf(c.inbounds) - SetOf(stored.inbounds))
  }

  ghost function Reported(t: Tables, change: ClientChange): set<nat>
    requires Accepted(t, change)
  {
    match change
    case New(e) => SetOf(e.client.inbounds)
    case Edit(e) => Changed(t.clients[e.id], SetConfigIdentity(e.client))
    case AddBulk(entries) => set i, j | 0 <= i < |entries| && j in entries[i].client.inbounds :: j
    case EditBulk(entries) =>
      set i, j | 0 <= i < |entries|
          && j in Changed(t.clients[entries[i].id], Filled(t.clients[entries[i].id], entries[i].client)) :: j
    case DelBulk(ids) => set i, j | 0 <= i < |ids| && j in t.clients[ids[i]].inbounds :: j
    case Del(id) => SetOf(t.clients[id].inbounds)
  }

  // ---------------------------------------------------------------- the save

  method FindInboundsChanges(t: Tables, id: nat, c: Client, fillOmitted: bool) returns (r: Option<seq<nat>>, d: Client)
    ensures r.Some? <==> id in t.clients
    ensures r.Some? ==>
              d == (if fillOmitted then Filled(t.clients[id], c) else c) && SetOf(r.value) == Changed(t.clients[id], d)
  {
    d := c;
    if id !in t.clients {
      return None, d;
    }
    var stored := t.clients[id];
    if fillOmitted {
      d := d.(credentials := stored.credentials, spelling := stored.spelling);
    }
    var ids;
    if stored.credentials != d.credentials || stored.spelling != d.spelling || stored.name != d.name
        || stored.enable != d.enable {
      ids := UnionUintArray(stored.inbounds, d.inbounds);
    } else {
      ids := DiffUintArray(stored.inbounds, d.inbounds);
    }
    r := Some(ids);
  }

  // The three bulk actions: each collects the inbounds it reports in a loop.
  method SaveAddBulk(tx: Tables, entries: seq<Entry>) returns (now: Tables, inboundIds: seq<nat>)
    ensures now == Saved(tx, AddBulk(entries)) && SetOf(inboundIds) == Reported(tx, AddBulk(entries))
  {
    var clients: seq<Entry> := [];
    inboundIds := [];
    for i := 0 to |entries|
      invariant clients == Written(tx, AddBulk(entries))[..i]
      invariant SetOf(inboundIds) == Reported(tx, AddBulk(entries[..i]))
    {
      clients := clients + [Entry(entries[i].id, SetConfigIdentity(entries[i].client))];
      inboundIds := UnionUintArray(inboundIds, entries[i].client.inbounds);
      ReportedGrows(tx, AddBulk(entries), i);
    }
    assert entries[..|entries|] == entries && clients == Written(tx, AddBulk(entries));
    now := PutAll(tx, clients);
  }

  method SaveEditBulk(tx: Tables, entries: seq<Entry>) returns (r: Option<Tables>, inboundIds: seq<nat>)
    ensures r.Some? <==> Accepted(tx, EditBulk(entries))
    ensures r.Some? ==> r.value == Saved(tx, EditBulk(entries)) && SetOf(inboundIds) == Reported(tx, EditBulk(entries))
  {
    var clients: seq<Entry> := [];
    inboundIds := [];
    for i := 0 to |entries|
      invariant Accepted(tx, EditBulk(entries[..i]))
      invariant clients == Written(tx, EditBulk(entries[..i]))
      invariant SetOf(inboundIds) == Reported(tx, EditBulk(entries[..i]))
    {
      var changes, client := FindInboundsChanges(tx, entries[i].id, entries[i].client, true);
      if changes.None? {
        return None, inboundIds;
      }
      client := SetConfigIdentity(client);
      clients := clients + [Entry(entries[i].id, client)];
      if |changes.value| > 0 {
        inboundIds := UnionUintArray(inboundIds, changes.value);
      } else {
        assert SetOf(changes.value) == {};
      }
      ReportedGrows(tx, EditBulk(entries), i);
      assert clients == Written(tx, EditBulk(entries[..i + 1]));
    }
    assert entries[..|entries|] == entries;
    r := Some(PutAll(tx, clients));
  }

  method SaveDelBulk(tx: Tables, ids: seq<nat>) returns (r: Option<Tables>, inboundIds: seq<nat>)
    ensures r.Some? <==> Accepted(tx, DelBulk(ids))
    ensures r.Some? ==> r.value == Saved(tx, DelBulk(ids)) && SetOf(inboundIds) == Reported(tx, DelBulk(ids))
  {
    inboundIds := [];
    for i := 0 to |ids|
      invariant Accepted(tx, DelBulk(ids[..i]))
      invariant SetOf(inboundIds) == Reported(tx, DelBulk(ids[..i]))
    {
      if ids[i] !in tx.clients {
        return None, inboundIds;
      }
      inboundIds := UnionUintArray(inboundIds, tx.clients[ids[i]].inbounds);
      ReportedGrows(tx, DelBulk(ids), i);
    }
    assert ids[..|ids|] == ids;
    r := Some(tx.(clients := tx.clients - SetOf(ids)));
  }

  // `works` stands for the reads, links and writes that may fail.
  method Save(tx: Tables, change: ClientChange, works: bool) returns (r: Option<Tables>, inboundIds: seq<nat>)
    ensures r.Some? <==> works && Accepted(tx, change)
    ensures r.Some? ==> r.value == Saved(tx, change) && SetOf(inboundIds) == Reported(tx, change)
    ensures r.Some? ==> ClientsSaved(tx, r.value, change) && r.value == tx.(clients := r.value.clients,
                                                                           nextClient := r.value.nextClient)
  {
    r, inboundIds := None, [];
    if Accepted(tx, change) {
      SaveIsAsked(tx, change);
    }
    match change {
      case New(entry) =>
        var client := SetConfigIdentity(entry.client);
        inboundIds := client.inbounds;
        PutOne(tx, Entry(entry.id, client));
        r := Some(Put(tx, entry.id, client));
      case Edit(entry) =>
        var client := SetConfigIdentity(entry.client);
        var changes, same := FindInboundsChanges(tx, entry.id, client, false);
        if changes.Some? {
          inboundIds := changes.value;
          PutOne(tx, Entry(entry.id, client));
          r := Some(Put(tx, entry.id, client));
        }
      case AddBulk(entries) =>
        var now;
        now, inboundIds := SaveAddBulk(tx, entries);
        r := Some(now);
      case EditBulk(entries) => r, inboundIds := SaveEditBulk(tx, entries);
      case DelBulk(ids) => r, inboundIds := SaveDelBulk(tx, ids);
      case Del(id) =>
        if id in tx.clients {
          inboundIds := tx.clients[id].inbounds;
          r := Some(tx.(clients := tx.clients - {id}));
        }
    }
    if !works {
      r := None;
    }
  }

  lemma PutOne(t: Tables, e: Entry)
    ensures PutAll(t, [e]) == Put(t, e.id, e.client)
  {
    assert [e][..0] == [];
  }

  // ----------------------------------------------------- what a save has done

  // The stored client is the requested one, its credentials under its own name.
  ghost predicate StoredAs(c: Client, now: Client) {
    && now.enable == c.enable && now.name == c.name && now.inbounds == c.inbounds && now.other == c.other
    && now.credentials.Keys == c.credentials.Keys
    && (forall p :: p in c.credentials ==> Relabels(c.credentials[p], now.credentials[p], c.name))
    && now.spelling == if c.name == "" || c.credentials == map[] then c.spelling else CANONICAL
  }

  ghost predicate Relabels(was: Credential, now: Credential, name: string) {
    && now.rest == was.rest
    && match was.owner
       case Unowned => now.owner == Unowned
       case Name(text) => now.owner == Name(if name == "" then text else name)
       case Username(text) => now.owner == Username(if name == "" then text else name)
  }

  // The entries were stored one after the other under `ids`, a later one in
  // place of an earlier one with the same id; nobody else changed.
  ghost predicate StoredUnder(was: Tables, now: Tables, wanted: seq<Entry>, ids: seq<nat>) {
    && |ids| == |wanted|
    && IdsGiven(was.nextClient, wanted, ids)
    && LastStored(now.clients, wanted, ids)
    && Untouched(was.clients, now.clients, ids)
  }

  ghost predicate IdsGiven(next: nat, wanted: seq<Entry>, ids: seq<nat>)
    requires |ids| == |wanted|
  {
    forall i :: 0 <= i < |ids| ==> IdGiven(next, wanted, ids, i)
  }

  ghost predicate LastStored(now: map<nat, Client>, wanted: seq<Entry>, ids: seq<nat>)
    requires |ids| == |wanted|
  {
    forall i :: 0 <= i < |ids| && IsLast(ids, i) ==> Holds(now, ids[i], wanted[i].client)
  }

  ghost predicate IsLast(ids: seq<nat>, i: int)
    requires 0 <= i < |ids|
  {
    forall j :: i < j < |ids| ==> ids[j] != ids[i]
  }

  ghost predicate Holds(now: map<nat, Client>, id: nat, c: Client) {
    id in now && StoredAs(c, now[id])
  }

  ghost predicate Untouched(was: map<nat, Client>, now: map<nat, Client>, ids: seq<nat>) {
    && (forall k :: k !in ids ==> (k in now <==> k in was))
    && (forall k :: k !in ids && k in was && k in now ==> now[k] == was[k])
  }

  // The id the request names, or else the next one not used so far.
  ghost predicate IdGiven(next: nat, wanted: seq<Entry>, ids: seq<nat>, i: nat)
    requires i < |ids| == |wanted|
  {
    if wanted[i].id != 0 then ids[i] == wanted[i].id
    else && ids[i] >= next && (forall j :: 0 <= j < i ==> ids[j] < ids[i])
         && (ids[i] == next || exists j :: 0 <= j < i && ids[i] == ids[j] + 1)
  }

  // Bulk edits ask for the stored credentials.
  function WithStored(t: Tables, e: Entry): Entry
    requires e.id in t.clients
  {
    Entry(e.id, e.client.(credentials := t.clients[e.id].credentials, spelling := t.clients[e.id].spelling))
  }

  ghost predicate Wanted(t: Tables, change: ClientChange, wanted: seq<Entry>) {
    match change
    case New(e) => wanted == [e]
    case Edit(e) => wanted == [e] && e.id in t.clients
    case AddBulk(entries) => wanted == entries
    case EditBulk(entries) =>
      |wanted| == |entries| && forall i :: 0 <= i < |entries| ==>
        entries[i].id in t.clients && wanted[i] == WithStored(t, entries[i])
    case _ => false
  }

  // The table of clients after a save.
  ghost predicate ClientsSaved(was: Tables, now: Tables, change: ClientChange) {
    match change
    case Del(id) => id in was.clients && Removes(was.clients, now.clients, {id})
    case DelBulk(ids) => SetOf(ids) <= was.clients.Keys && Removes(was.clients, now.clients, SetOf(ids))
    case _ => exists wanted, ids :: Wanted(was, change, wanted) && StoredUnder(was, now, wanted, ids)
  }

  ghost predicate Removes(was: map<nat, Client>, now: map<nat, Client>, ids: set<nat>) {
    && (forall k :: k in now <==> k in was && k !in ids)
    && (forall k :: k in now ==> now[k] == was[k])
  }

  // The next id is the first one, or follows one that was given.
  ghost predicate Follows(first: nat, next: nat, ids: seq<nat>) {
    && (forall i :: 0 <= i < |ids| ==> ids[i] < next)
    && (next == first || (first <= next && exists j :: 0 <= j < |ids| && next == ids[j] + 1))
  }

  ghost predicate AsAsked(wanted: seq<Entry>, written: seq<Entry>) {
    |wanted| == |written| && forall i :: 0 <= i < |wanted| ==> EntryAsAsked(wanted[i], written[i])
  }

  ghost predicate EntryAsAsked(wanted: Entry, written: Entry) {
    written.id == wanted.id && StoredAs(wanted.client, written.client)
  }

  lemma AsAskedSoFar(wanted: seq<Entry>, written: seq<Entry>, n: nat)
    requires AsAsked(wanted, written) && n <= |wanted|
    ensures AsAsked(wanted[..n], written[..n])
  {
  }

  lemma PutAllStep(t: Tables, entries: seq<Entry>)
    requires entries != []
    ensures var mid, last := PutAll(t, entries[..|entries| - 1]), entries[|entries| - 1];
            var id := if last.id == 0 then mid.nextClient else last.id;
            && PutAll(t, entries).clients == mid.clients[id := last.client]
            && PutAll(t, entries).nextClient == if id < mid.nextClient then mid.nextClient else id + 1
  {
  }

  lemma {:induction false} PutAllStores(t: Tables, wanted: seq<Entry>, written: seq<Entry>) returns (ids: seq<nat>)
    requires AsAsked(wanted, written)
    ensures StoredUnder(t, PutAll(t, written), wanted, ids)
    ensures Follows(t.nextClient, PutAll(t, written).nextClient, ids)
  {
    if wanted == [] {
      ids := [];
    } else {
      var n := |wanted| - 1;
      AsAskedSoFar(wanted, written, n);
      var before := PutAllStores(t, wanted[..n], written[..n]);
      PutAllStep(t, written);
      assert EntryAsAsked(wanted[n], written[n]);
      var mid := PutAll(t, written[..n]);
      var id := if wanted[n].id == 0 then mid.nextClient else wanted[n].id;
      ids := before + [id];
      OneMoreEntry(t, mid, PutAll(t, written), wanted, before, id, written[n].client);
    }
  }

  lemma OneMoreEntry(t: Tables, mid: Tables, now: Tables, wanted: seq<Entry>, ids: seq<nat>, id: nat, c: Client)
    requires |wanted| == |ids| + 1 && StoredUnder(t, mid, wanted[..|ids|], ids)
    requires Follows(t.nextClient, mid.nextClient, ids) && StoredAs(wanted[|ids|].client, c)
    requires id == if wanted[|ids|].id == 0 then mid.nextClient else wanted[|ids|].id
    requires now.clients == mid.clients[id := c]
    requires now.nextClient == if id < mid.nextClient then mid.nextClient else id + 1
    ensures StoredUnder(t, now, wanted, ids + [id]) && Follows(t.nextClient, now.nextClient, ids + [id])
  {
    OneMoreId(t.nextClient, mid.nextClient, wanted, ids, id);
    OneMoreStored(mid.clients, wanted, ids, id, c);
    OneMoreTouched(t.clients, mid.clients, ids, id, c);
    NextFollows(t.nextClient, mid.nextClient, ids, id);
  }

  lemma OneMoreId(first: nat, next: nat, wanted: seq<Entry>, ids: seq<nat>, id: nat)
    requires |wanted| == |ids| + 1 && IdsGiven(first, wanted[..|ids|], ids) && Follows(first, next, ids)
    requires id == if wanted[|ids|].id == 0 then next else wanted[|ids|].id
    ensures IdsGiven(first, wanted, ids + [id])
  {
    var all := ids + [id];
    forall i | 0 <= i < |all|
      ensures IdGiven(first, wanted, all, i)
    {
      if i < |ids| {
        assert IdGiven(first, wanted[..|ids|], ids, i);
        if wanted[i].id == 0 && ids[i] != first {
          var j :| 0 <= j < i && ids[i] == ids[j] + 1;
          assert all[j] == ids[j];
        }
      } else if wanted[i].id == 0 && id != first {
        var j :| 0 <= j < |ids| && id == ids[j] + 1;
        assert all[j] == ids[j];
      }
    }
  }

  lemma OneMoreStored(mid: map<nat, Client>, wanted: seq<Entry>, ids: seq<nat>, id: nat, c: Client)
    requires |wanted| == |ids| + 1 && LastStored(mid, wanted[..|ids|], ids) && StoredAs(wanted[|ids|].client, c)
    ensures LastStored(mid[id := c], wanted, ids + [id])
  {
    var all, now := ids + [id], mid[id := c];
    forall i | 0 <= i < |all| && IsLast(all, i)
      ensures Holds(now, all[i], wanted[i].client)
    {
      if i < |ids| {
        assert all[i] == ids[i] && all[|ids|] == id;
        assert IsLast(ids, i) by {
          assert forall j :: i < j < |ids| ==> all[j] == ids[j];
        }
        assert Holds(mid, ids[i], wanted[..|ids|][i].client);
      }
    }
  }

  lemma OneMoreTouched(was: map<nat, Client>, mid: map<nat, Client>, ids: seq<nat>, id: nat, c: Client)
    requires Untouched(was, mid, ids)
    ensures Untouched(was, mid[id := c], ids + [id])
  {
  }

  lemma NextFollows(first: nat, next: nat, ids: seq<nat>, id: nat)
    requires Follows(first, next, ids)
    ensures Follows(first, if id < next then next else id + 1, ids + [id])
  {
    var all := ids + [id];
    assert all[|ids|] == id;
    if id < next && next != first {
      var j :| 0 <= j < |ids| && next == ids[j] + 1;
      assert all[j] == ids[j];
    }
  }

  lemma IdentityIsStored(c: Client)
    ensures StoredAs(c, SetConfigIdentity(c))
  {
  }

  function Asked(t: Tables, change: ClientChange): seq<Entry>
    requires Accepted(t, change)
  {
    match change
    case New(e) => [e]
    case Edit(e) => [e]
    case AddBulk(entries) => entries
    case EditBulk(entries) => seq(|entries|, i requires 0 <= i < |entries| => WithStored(t, entries[i]))
    case _ => []
  }

  lemma WrittenAsAsked(t: Tables, change: ClientChange)
    requires Accepted(t, change) && !change.Del? && !change.DelBulk?
    ensures Wanted(t, change, Asked(t, change)) && |Written(t, change)| == |Asked(t, change)|
    ensures forall i :: 0 <= i < |Asked(t, change)| ==>
              Written(t, change)[i].id == Asked(t, change)[i].id
              && Written(t, change)[i].client == SetConfigIdentity(Asked(t, change)[i].client)
  {
  }

  // MAIN: every save does to the table of clients what the request asks.
  lemma SaveIsAsked(t: Tables, change: ClientChange)
    requires Accepted(t, change)
    ensures ClientsSaved(t, Saved(t, change), change)
  {
    if !change.Del? && !change.DelBulk? {
      var wanted, written := Asked(t, change), Written(t, change);
      WrittenAsAsked(t, change);
      forall i | 0 <= i < |wanted|
        ensures EntryAsAsked(wanted[i], written[i])
      {
        IdentityIsStored(wanted[i].client);
      }
      var ids := PutAllStores(t, wanted, written);
      assert Saved(t, change) == PutAll(t, written);
    }
  }

  // Only the clients matter.
  lemma SavedClientsOnly(was: Tables, now: Tables, other: Tables, change: ClientChange)
    requires ClientsSaved(was, now, change) && other.clients == now.clients
    ensures ClientsSaved(was, other, change)
  {
    if !change.Del? && !change.DelBulk? {
      var wanted, ids :| Wanted(was, change, wanted) && StoredUnder(was, now, wanted, ids);
      assert StoredUnder(was, other, wanted, ids);
    }
  }

  // A bulk change reports one more entry's inbounds.
  lemma ReportedGrows(t: Tables, change: ClientChange, i: nat)
    requires change.AddBulk? || change.EditBulk? || change.DelBulk?
    requires i < if change.DelBulk? then |change.ids| else |change.entries|
    requires Accepted(t, FirstOf(change, i + 1))
    ensures Accepted(t, FirstOf(change, i))
    ensures Reported(t, FirstOf(change, i + 1)) == Reported(t, FirstOf(change, i)) + Adds(t, change, i)
  {
    var more, fewer := FirstOf(change, i + 1), FirstOf(change, i);
    if change.DelBulk? {
      assert forall j :: 0 <= j < i ==> more.ids[j] == fewer.ids[j];
      assert Accepted(t, fewer);
    } else {
      assert forall j :: 0 <= j < i ==> more.entries[j] == fewer.entries[j];
      assert Accepted(t, fewer);
    }
    assert Reported(t, more) <= Reported(t, fewer) + Adds(t, change, i);
    assert Reported(t, fewer) + Adds(t, change, i) <= Reported(t, more);
  }

  function FirstOf(change: ClientChange, i: nat): ClientChange
    requires change.AddBulk? || change.EditBulk? || change.DelBulk?
    requires i <= if change.DelBulk? then |change.ids| else |change.entries|
  {
    match change
    case AddBulk(entries) => AddBulk(entries[..i])
    case EditBulk(entries) => EditBulk(entries[..i])
    case DelBulk(ids) => DelBulk(ids[..i])
  }

  ghost function Adds(t: Tables, change: ClientChange, i: nat): set<nat>
    requires change.AddBulk? || change.EditBulk? || change.DelBulk?
    requires i < if change.DelBulk? then |change.ids| else |change.entries|
    requires Accepted(t, FirstOf(change, i + 1))
  {
    match change
    case AddBulk(entries) => SetOf(entries[i].client.inbounds)
    case EditBulk(entries) =>
      assert entries[..i + 1][i].id in t.clients;
      Changed(t.clients[entries[i].id], Filled(t.clients[entries[i].id], entries[i].client))
    case DelBulk(ids) =>
      assert ids[..i + 1][i] in t.clients;
      SetOf(t.clients[ids[i]].inbounds)
  }
}
