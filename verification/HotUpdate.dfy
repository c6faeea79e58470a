// Which inbounds a client save must report: exactly when the reported ones
// are enough for the running core to follow the tables.
module HotUpdate {
  import opened Collections
  import opened InboundUsers
  import opened ClientSaves

  ghost predicate ClientIdsValid(t: Tables) {
    0 < t.nextClient && forall k :: k in t.clients ==> 0 < k < t.nextClient
  }

  ghost predicate Named(entries: seq<Entry>, k: nat) {
    exists e :: e in entries && e.id == k
  }

  // ------------------------------------------------- what a batch leaves behind

  // If every entry's part is the one `want` has under its id, then afterwards
  // the named clients have those parts and the others their old ones.
  lemma {:induction false} PutAllParts(t: Tables, entries: seq<Entry>, id: nat, want: map<nat, Client>)
    requires ClientIdsValid(t) && 0 !in want
    requires forall e :: e in entries ==> Part(e.client, id) == PartIn(want, e.id, id)
    ensures ClientIdsValid(PutAll(t, entries))
    ensures forall k :: PartIn(PutAll(t, entries).clients, k, id)
                     == if k != 0 && Named(entries, k) then PartIn(want, k, id) else PartIn(t.clients, k, id)
  {
    if entries != [] {
      var init, last := entries[..|entries| - 1], entries[|entries| - 1];
      PutAllParts(t, init, id, want);
      assert last in entries;
      forall k
        ensures Named(entries, k) <==> Named(init, k) || last.id == k
      {
        NamedStep(entries, k);
      }
    }
  }

  lemma NamedStep(entries: seq<Entry>, k: nat)
    requires entries != []
    ensures Named(entries, k) <==> Named(entries[..|entries| - 1], k) || entries[|entries| - 1].id == k
  {
    var init, last := entries[..|entries| - 1], entries[|entries| - 1];
    assert entries == init + [last];
    if Named(init, k) {
      var e :| e in init && e.id == k;
      assert e in entries;
    }
    if last.id == k {
      assert last in entries;
    }
  }

  // ------------------------------------------------------------ the condition

  // The stored clients a change writes.
  ghost predicate Writes(change: ClientChange, k: nat) {
    match change
    case New(e) => e.id == k
    case Edit(e) => e.id == k
    case AddBulk(entries) => Named(entries, k)
    case EditBulk(entries) => Named(entries, k)
    case _ => false
  }

  function Renamed(c: Credential, name: string): Credential {
    if name == "" then c else Relabelled(c, name)
  }

  // Client k is shown in inbound `id` the same way before and after, although
  // the inbound is not reported: a new client that takes over the id k drops
  // out of the inbound, so k must not have been shown; a bulk edit relabels the
  // stored credentials, so that must make no difference.
  ghost predicate ShownTheSame(t: Tables, change: ClientChange, id: nat, k: nat)
    requires id in t.rows && k in t.clients
  {
    var row := t.rows[id];
    Offers(t.clients, k, row) ==>
      match change
      case New(_) => false
      case AddBulk(_) => false
      case EditBulk(_) =>
        var c := t.clients[k].credentials[Protocol(row)];
        Shown(row, c) == Shown(row, Renamed(c, t.clients[k].name))
      case _ => true
  }

  ghost predicate KeepsUnreported(t: Tables, change: ClientChange)
    requires Accepted(t, change)
  {
    forall id, k ::
      && id in t.rows && t.rows[id].SingBox() && id !in Reported(t, change)
      && k in t.clients && Writes(change, k) && id in t.clients[k].inbounds
      ==> ShownTheSame(t, change, id, k)
  }

  // MAIN: over every action and list of clients, the reported inbounds are
  // enough exactly under this condition on the request and the stored rows.
  lemma ReportIsExact(t: Tables, change: ClientChange)
    requires ClientIdsValid(t) && Accepted(t, change)
    ensures Unaffected(t, Saved(t, change), Reported(t, change)) <==> KeepsUnreported(t, change)
  {
    forall id | id in t.rows && t.rows[id].SingBox() && id !in Reported(t, change)
      ensures UsersOf(t, id) == UsersOf(Saved(t, change), id)
         <==> forall k :: k in t.clients && Writes(change, k) && id in t.clients[k].inbounds ==>
             ShownTheSame(t, change, id, k)
    {
      ReportIsExactAt(t, change, id);
    }
  }

  lemma ReportIsExactAt(t: Tables, change: ClientChange, id: nat)
    requires ClientIdsValid(t) && Accepted(t, change) && id in t.rows && id !in Reported(t, change)
    ensures UsersOf(t, id) == UsersOf(Saved(t, change), id)
       <==> forall k :: k in t.clients && Writes(change, k) && id in t.clients[k].inbounds ==>
           ShownTheSame(t, change, id, k)
  {
    match change
    case DelBulk(ids) => RemovalsAreReported(t, change, id);
    case Del(_) => RemovalsAreReported(t, change, id);
    case Edit(_) => EditIsReported(t, change, id);
    case EditBulk(_) => BulkEditIsExactAt(t, change, id);
    case _ => TakingOverIsExactAt(t, change, id);
  }

  lemma RemovalsAreReported(t: Tables, change: ClientChange, id: nat)
    requires Accepted(t, change) && (change.Del? || change.DelBulk?) && id in t.rows && id !in Reported(t, change)
    ensures UsersOf(t, id) == UsersOf(Saved(t, change), id)
  {
    var ids := if change.Del? then {change.id} else SetOf(change.ids);
    forall k
      ensures PartIn(t.clients, k, id) == PartIn(Saved(t, change).clients, k, id)
    {
      if k in ids {
        assert k in t.clients && id !in t.clients[k].inbounds;
      }
    }
    PartsDecideUsers(t.clients, Saved(t, change).clients, id, t.rows[id]);
  }

  lemma EditIsReported(t: Tables, change: ClientChange, id: nat)
    requires ClientIdsValid(t) && Accepted(t, change) && change.Edit? && id in t.rows && id !in Reported(t, change)
    ensures UsersOf(t, id) == UsersOf(Saved(t, change), id)
  {
    PutOne(t, Written(t, change)[0]);
    assert Written(t, change) == [Written(t, change)[0]];
    PartsDecideUsers(t.clients, Saved(t, change).clients, id, t.rows[id]);
  }

  lemma TakingOverIsExactAt(t: Tables, change: ClientChange, id: nat)
    requires ClientIdsValid(t) && (change.New? || change.AddBulk?) && id in t.rows && id !in Reported(t, change)
    ensures UsersOf(t, id) == UsersOf(Saved(t, change), id)
       <==> forall k :: k in t.clients && Writes(change, k) && id in t.clients[k].inbounds ==>
           !Offers(t.clients, k, t.rows[id])
  {
    var now, row := Saved(t, change).clients, t.rows[id];
    forall e | e in Written(t, change)
      ensures Part(e.client, id) == PartIn(map[], e.id, id)
    {
      if change.AddBulk? {
        var i :| 0 <= i < |change.entries| && e == Written(t, change)[i];
        assert id !in change.entries[i].client.inbounds;
      }
    }
    PutAllParts(t, Written(t, change), id, map[]);
    forall k
      ensures Named(Written(t, change), k) <==> Writes(change, k)
    {
      WrittenNames(t, change, k);
    }
    UsersAgree(t.clients, now, id, row);
    forall k
      ensures ShownPart(row, PartIn(t.clients, k, id)) == ShownPart(row, PartIn(now, k, id))
         <==> (k in t.clients && Writes(change, k) && id in t.clients[k].inbounds ==> !Offers(t.clients, k, row))
    {
      if k in t.clients && Writes(change, k) && id in t.clients[k].inbounds {
        assert PartIn(now, k, id) == map[];
      }
    }
  }

  // The stored clients, each labelled with its own name.
  function Relabelling(clients: map<nat, Client>): map<nat, Client> {
    map k | k in clients :: SetConfigIdentity(clients[k])
  }

  lemma BulkEditIsExactAt(t: Tables, change: ClientChange, id: nat)
    requires ClientIdsValid(t) && Accepted(t, change) && change.EditBulk? && id in t.rows && id !in Reported(t, change)
    ensures UsersOf(t, id) == UsersOf(Saved(t, change), id)
       <==> forall k :: k in t.clients && Writes(change, k) && id in t.clients[k].inbounds ==>
           ShownTheSame(t, change, id, k)
  {
    var now, row := Saved(t, change).clients, t.rows[id];
    forall e | e in Written(t, change)
      ensures Part(e.client, id) == PartIn(Relabelling(t.clients), e.id, id)
    {
      var i :| 0 <= i < |change.entries| && e == Written(t, change)[i];
      var stored := t.clients[change.entries[i].id];
      assert id !in Changed(stored, Filled(stored, change.entries[i].client));
    }
    PutAllParts(t, Written(t, change), id, Relabelling(t.clients));
    forall k
      ensures Named(Written(t, change), k) <==> Writes(change, k)
    {
      WrittenNames(t, change, k);
    }
    UsersAgree(t.clients, now, id, row);
    forall k
      ensures ShownPart(row, PartIn(t.clients, k, id)) == ShownPart(row, PartIn(now, k, id))
         <==> (k in t.clients && Writes(change, k) && id in t.clients[k].inbounds ==> ShownTheSame(t, change, id, k))
    {
      if k in t.clients && Writes(change, k) && id in t.clients[k].inbounds {
        RelabelledPart(t, change, id, k);
      }
    }
  }

  lemma RelabelledPart(t: Tables, change: ClientChange, id: nat, k: nat)
    requires id in t.rows && k in t.clients && id in t.clients[k].inbounds && change.EditBulk?
    ensures ShownPart(t.rows[id], PartIn(t.clients, k, id))
              == ShownPart(t.rows[id], PartIn(Relabelling(t.clients), k, id))
       <==> ShownTheSame(t, change, id, k)
  {
  }

  lemma WrittenNames(t: Tables, change: ClientChange, k: nat)
    requires Accepted(t, change) && !change.Del? && !change.DelBulk?
    ensures Named(Written(t, change), k) <==> Writes(change, k)
  {
    var written := Written(t, change);
    if change.New? || change.Edit? {
      assert written[0] in written;
    } else {
      if Named(written, k) {
        var i :| 0 <= i < |written| && written[i].id == k;
        assert change.entries[i] in change.entries;
      }
      if Writes(change, k) {
        var i :| 0 <= i < |change.entries| && change.entries[i].id == k;
        assert written[i] in written;
      }
    }
  }

  // ------------------------------------------------------ action by action

  // New clients may take over stored ids exactly when no stored one was shown
  // in an unreported inbound it listed.
  lemma TakingOverIsExact(t: Tables, change: ClientChange)
    requires ClientIdsValid(t) && (change.New? || change.AddBulk?)
    ensures Unaffected(t, Saved(t, change), Reported(t, change))
       <==> forall id, k ::
              && id in t.rows && t.rows[id].SingBox() && id !in Reported(t, change)
              && k in t.clients && Writes(change, k) && id in t.clients[k].inbounds
              ==> !Offers(t.clients, k, t.rows[id])
  {
    forall id | id in t.rows && t.rows[id].SingBox() && id !in Reported(t, change)
      ensures UsersOf(t, id) == UsersOf(Saved(t, change), id)
         <==> forall k :: k in t.clients && Writes(change, k) && id in t.clients[k].inbounds ==>
             !Offers(t.clients, k, t.rows[id])
    {
      TakingOverIsExactAt(t, change, id);
    }
  }

  // A bulk edit may meet credentials that do not carry their client's name
  // exactly when relabelling them shows no difference in the unreported inbounds.
  lemma BulkEditIsExact(t: Tables, entries: seq<Entry>)
    requires ClientIdsValid(t) && Accepted(t, EditBulk(entries))
    ensures Unaffected(t, Saved(t, EditBulk(entries)), Reported(t, EditBulk(entries)))
       <==> forall id, k ::
              && id in t.rows && t.rows[id].SingBox() && id !in Reported(t, EditBulk(entries))
              && k in t.clients && Named(entries, k) && id in t.clients[k].inbounds && Offers(t.clients, k, t.rows[id])
              ==> var c := t.clients[k].credentials[Protocol(t.rows[id])];
                  Shown(t.rows[id], c) == Shown(t.rows[id], Renamed(c, t.clients[k].name))
  {
    var change := EditBulk(entries);
    ReportIsExact(t, change);
    forall id, k | id in t.rows && k in t.clients
      ensures Writes(change, k) <==> Named(entries, k)
    {
    }
  }

  // New clients do not reuse the id of a stored one.
  ghost predicate FreshIds(t: Tables, change: ClientChange) {
    change.New? || change.AddBulk? ==> forall k :: k in t.clients ==> !Writes(change, k)
  }

  // MAIN: with fresh ids and labelled credentials every inbound whose users
  // change is reported.
  lemma ReportCoversChanges(t: Tables, change: ClientChange)
    requires ClientIdsValid(t) && Accepted(t, change) && FreshIds(t, change)
    requires change.EditBulk? ==> AllLabelled(t.clients)
    ensures KeepsUnreported(t, change) && Unaffected(t, Saved(t, change), Reported(t, change))
  {
    ReportIsExact(t, change);
  }

  // Every save leaves its clients labelled.
  lemma SavedStaysLabelled(t: Tables, change: ClientChange)
    requires Accepted(t, change) && AllLabelled(t.clients)
    ensures AllLabelled(Saved(t, change).clients)
  {
    if !change.Del? && !change.DelBulk? {
      PutAllStaysLabelled(t, Written(t, change));
    }
  }

  lemma {:induction false} PutAllStaysLabelled(t: Tables, entries: seq<Entry>)
    requires AllLabelled(t.clients) && forall e :: e in entries ==> Labelled(e.client)
    ensures AllLabelled(PutAll(t, entries).clients)
  {
    if entries != [] {
      PutAllStaysLabelled(t, entries[..|entries| - 1]);
      assert entries[|entries| - 1] in entries;
    }
  }
}
