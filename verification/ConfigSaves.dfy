// The save: patch the running core, write the tables, commit; or roll back
// and rebuild the core from the tables.
module ConfigSaves {
  import opened Collections
  import opened RelayItems
  import opened InboundUsers
  import ClientSaves
  import opened HotUpdate
  import opened InboundSaves

  datatype Change = Clients(clients: ClientSaves.ClientChange) | Inbounds(inbound: InboundChange)

  // Which steps work: taking one inbound out or adding it by id, the reads and
  // writes of the save itself, the change record, the commit, and the core.
  datatype Faults = Faults(
    removes: nat -> bool, adds: nat -> bool, writes: bool, records: bool, commits: bool,
    stops: bool, starts: bool, skipCore: bool)
  {
    ghost predicate PatchWorks() {
      writes && forall i :: removes(i) && adds(i)
    }

    ghost predicate NoneBeforeCommit() {
      PatchWorks() && records && commits
    }
  }

  predicate Acceptable(t: Tables, change: Change) {
    match change
    case Clients(c) => ClientSaves.Accepted(t, c)
    case Inbounds(c) => Allowed(t, c)
  }

  ghost function Applied(t: Tables, change: Change): Tables
    requires Acceptable(t, change)
  {
    match change
    case Clients(c) => ClientSaves.Saved(t, c)
    case Inbounds(c) => Stored(t, c)
  }

  // When patching is as good as rebuilding: a condition on the request and
  // the stored rows, to be checked before the save.
  ghost predicate Covered(t: Tables, change: Change)
    requires Acceptable(t, change)
  {
    match change
    case Clients(c) => KeepsUnreported(t, c)
    case Inbounds(c) => KeepsStep(t, c)
  }

  // What patching makes of the build.
  ghost function PatchedBuild(t: Tables, change: Change): map<string, Live>
    requires Acceptable(t, change)
  {
    match change
    case Clients(c) => Restarted(Build(t), ClientSaves.Saved(t, c), ClientSaves.Reported(t, c))
    case Inbounds(c) => Patched(Build(t), t, c)
  }

  // MAIN: for client and inbound saves alike, the patched core equals the
  // rebuilt one exactly when the change is covered.
  lemma PatchedBuildIsExact(t: Tables, change: Change)
    requires Consistent(t) && Acceptable(t, change)
    ensures Consistent(Applied(t, change))
    ensures PatchedBuild(t, change) == Build(Applied(t, change)) <==> Covered(t, change)
  {
    match change
    case Clients(c) =>
      SavedIsConsistent(t, c);
      ReportIsExact(t, c);
      RestartIsExact(t, ClientSaves.Saved(t, c), ClientSaves.Reported(t, c));
    case Inbounds(c) =>
      StoredElsewhere(t, c);
      PatchIsExact(t, c);
  }

  // New clients and inbounds get new ids, nobody is served by an id that was
  // never given out, stored credentials carry their client's name, and every
  // inbound has a tag: then patching always is.
  lemma OrdinarySavesAreCovered(t: Tables, change: Change)
    requires Consistent(t) && Acceptable(t, change) && AllLabelled(t.clients)
    requires change.Clients? ==> FreshIds(t, change.clients)
    requires change.Inbounds? && change.inbound.NewInbound? ==> change.inbound.id == 0
    requires forall k, i :: k in t.clients && i in t.clients[k].inbounds ==> i < t.nextRow
    requires forall i :: i in t.rows ==> t.rows[i].tag != ""
    ensures Covered(t, change)
  {
    match change
    case Clients(c) => ReportCoversChanges(t, c);
    case Inbounds(_) =>
  }

  // What a save has done to the tables, in their own terms.
  ghost predicate SavedAs(was: Tables, now: Tables, change: Change) {
    match change
    case Clients(c) => now.rows == was.rows && now.nextRow == was.nextRow && ClientSaves.ClientsSaved(was, now, c)
    case Inbounds(c) => RowSaved(was, now, c)
  }

  lemma AppliedIsSaved(t: Tables, change: Change, changes: nat)
    requires Acceptable(t, change)
    ensures SavedAs(t, Applied(t, change).(changes := changes), change)
  {
    match change
    case Clients(c) =>
      ClientSaves.SaveIsAsked(t, c);
      ClientSaves.SavedClientsOnly(t, ClientSaves.Saved(t, c), Applied(t, change).(changes := changes), c);
    case Inbounds(c) =>
      RowIsSaved(t, c);
      if c.DelInbound? {
        var id :| id in t.rows && t.rows[id].tag == c.tag && RowErased(t, Stored(t, c), id);
        assert RowErased(t, Applied(t, change).(changes := changes), id);
      }
  }

  // Which requests are refused: edits and deletions of what is not there,
  // except for edits that move to the other core, and tags another row has.
  ghost predicate Refused(t: Tables, change: Change) {
    match change
    case Clients(New(_)) => false
    case Clients(AddBulk(_)) => false
    case Clients(Edit(e)) => e.id !in t.clients
    case Clients(EditBulk(entries)) => exists e :: e in entries && e.id !in t.clients
    case Clients(DelBulk(ids)) => exists id :: id in ids && id !in t.clients
    case Clients(Del(id)) => id !in t.clients
    case Inbounds(NewInbound(id, row, _)) => TagTaken(t, if id == 0 then t.nextRow else id, row.tag)
    case Inbounds(EditInbound(id, row)) =>
      (id !in t.rows && ForSingBox(row)) || TagTaken(t, if id == 0 then t.nextRow else id, row.tag)
    case Inbounds(DelInbound(tag)) => forall id :: id in t.rows ==> t.rows[id].tag != tag
  }

  ghost predicate TagTaken(t: Tables, id: nat, tag: string) {
    exists i :: i in t.rows && i != id && t.rows[i].tag == tag
  }

  lemma AcceptableExactly(t: Tables, change: Change)
    ensures Acceptable(t, change) <==> !Refused(t, change)
  {
    match change
    case Clients(EditBulk(entries)) =>
      assert forall i :: 0 <= i < |entries| ==> entries[i] in entries;
    case Clients(DelBulk(ids)) =>
      assert forall i :: 0 <= i < |ids| ==> ids[i] in ids;
    case _ =>
  }

  lemma AppliedStaysLabelled(t: Tables, change: Change)
    requires Acceptable(t, change) && AllLabelled(t.clients)
    ensures AllLabelled(Applied(t, change).clients)
  {
    match change
    case Clients(c) => SavedStaysLabelled(t, c);
    case Inbounds(_) =>
  }

  // ------------------------------------------------- saves that are not covered

  const SOCKS_ROW := Row("in", "socks", "", 0, "", false, "")
  const ANN := Client(true, "ann", map["socks" := Credential(Username("ann"), "")], ClientSaves.CANONICAL, [1], "")
  const ANNA := ANN.(name := "anna")           // stored credentials carry another name

  // Client 1 is served in inbound 1.
  function Serving(client: Client): Tables {
    Tables(map[1 := SOCKS_ROW], 2, map[1 := client], 2, 0)
  }

  // A request naming the stored client 1 as new, without its inbound: the old
  // user stays in the running inbound.
  lemma TakeoverIsMissed() returns (change: Change)
    ensures change == Clients(ClientSaves.New(ClientSaves.Entry(1, ANN.(inbounds := []))))
    ensures 1 in Serving(ANN).clients && Consistent(Serving(ANN)) && Acceptable(Serving(ANN), change)
    ensures PatchedBuild(Serving(ANN), change) != Build(Applied(Serving(ANN), change))
  {
    var t := Serving(ANN);
    change := Clients(ClientSaves.New(ClientSaves.Entry(1, ANN.(inbounds := []))));
    PatchedBuildIsExact(t, change);
    assert 1 in t.rows && Offers(t.clients, 1, t.rows[1]) && !ShownTheSame(t, change.clients, 1, 1);
  }

  // A bulk edit that changes nothing about a client whose stored credentials
  // carry another name: they are relabelled, but the inbound is not restarted.
  lemma UnlabelledBulkEditIsMissed() returns (change: Change)
    ensures change == Clients(ClientSaves.EditBulk([ClientSaves.Entry(1, ANNA)]))
    ensures !Labelled(ANNA) && Consistent(Serving(ANNA)) && Acceptable(Serving(ANNA), change)
    ensures PatchedBuild(Serving(ANNA), change) != Build(Applied(Serving(ANNA), change))
  {
    var t, e := Serving(ANNA), ClientSaves.Entry(1, ANNA);
    change := Clients(ClientSaves.EditBulk([e]));
    assert ANNA.credentials["socks"] != Relabelled(ANNA.credentials["socks"], "anna");
    PatchedBuildIsExact(t, change);
    assert [e][0] == e && e in [e];
    assert ClientSaves.Changed(ANNA, ClientSaves.Filled(ANNA, ANNA)) == {};
    assert 1 in t.rows && Offers(t.clients, 1, t.rows[1]) && !ShownTheSame(t, change.clients, 1, 1);
  }

  // A new inbound that is about to get the id 1, which client 1 already lists:
  // the patched core does not serve the client, the next rebuild does.
  lemma StaleIdIsMissed() returns (t: Tables, change: Change)
    ensures t == Tables(map[], 1, map[1 := ANN], 2, 0) && t.nextRow in ANN.inbounds
    ensures change == Inbounds(NewInbound(0, SOCKS_ROW, {}))
    ensures Consistent(t) && Acceptable(t, change)
    ensures PatchedBuild(t, change) != Build(Applied(t, change))
  {
    t := Tables(map[], 1, map[1 := ANN], 2, 0);
    change := Inbounds(NewInbound(0, SOCKS_ROW, {}));
    PatchedBuildIsExact(t, change);
    assert 1 in t.clients && Offers(t.clients, 1, SOCKS_ROW);
  }

  // Deleting the served client: covered, but not what the old tables build. If
  // the save fails afterwards while the core is busy, the patch stays behind.
  lemma BlockedRestoreIsMissed() returns (change: Change)
    ensures change == Clients(ClientSaves.Del(1))
    ensures Consistent(Serving(ANN)) && Acceptable(Serving(ANN), change) && Covered(Serving(ANN), change)
    ensures PatchedBuild(Serving(ANN), change) != Build(Serving(ANN))
  {
    var t := Serving(ANN);
    change := Clients(ClientSaves.Del(1));
    var u := Applied(t, change);
    assert 1 in UsersOf(t, 1) && 1 !in UsersOf(u, 1);
    PatchedBuildIsExact(t, change);
    BuildsDiffer(t, u, 1);
  }

  lemma BuildsDiffer(t: Tables, u: Tables, id: nat)
    requires UniqueTags(t.rows) && u.rows == t.rows && id in t.rows && t.rows[id].SingBox()
              && UsersOf(t, id) != UsersOf(u, id)
    ensures Build(t) != Build(u)
  {
    BuildAt(t, t.rows.Keys, id);
    BuildAt(u, u.rows.Keys, id);
  }

  lemma SavedIsConsistent(t: Tables, change: ClientSaves.ClientChange)
    requires Consistent(t) && ClientSaves.Accepted(t, change)
    ensures Consistent(ClientSaves.Saved(t, change))
  {
    if !(change.DelBulk? || change.Del?) {
      PutAllIsConsistent(t, ClientSaves.Written(t, change));
    }
  }

  lemma {:induction false} PutAllIsConsistent(t: Tables, entries: seq<ClientSaves.Entry>)
    requires Consistent(t)
    ensures Consistent(ClientSaves.PutAll(t, entries))
  {
    if entries != [] {
      PutAllIsConsistent(t, entries[..|entries| - 1]);
    }
  }

  lemma UnknownIdsDoNotCount(t: Tables, ids: set<nat>)
    requires UniqueTags(t.rows)
    ensures BuildOf(t, set id | id in t.rows && id in ids) == BuildOf(t, ids)
  {
    var known := set id | id in t.rows && id in ids;
    assert TagsOf(t.rows, known) == TagsOf(t.rows, ids);
    forall tag | tag in TagsOf(t.rows, ids)
      ensures BuildOf(t, known)[tag] == BuildOf(t, ids)[tag]
    {
      BuildAt(t, known, IdOf(t.rows, ids, tag));
    }
  }

  lemma NothingRestarted(running: map<string, Live>, t: Tables)
    ensures Restarted(running, t, {}) == running
  {
    assert TagsOf(t.rows, {}) == {};
  }

  lemma ChangesAreNotBuilt(t: Tables, changes: nat)
    ensures Build(t.(changes := changes)) == Build(t)
  {
  }

  class Server {
    var tables: Tables
    var running: Option<map<string, Live>>
    var coreBusy: bool

    ghost predicate InSync()
      reads this
    {
      running.Some? ==> running.value == Build(tables)
    }

    // Takes one inbound out of the core, if it is there, and adds it again.
    method RestartInbound(tx: Tables, id: nat, f: Faults) returns (ok: bool)
      requires running.Some? && id in tx.rows
      modifies this`running
      ensures running.Some?
      ensures ok ==>
                running.value
                == if tx.rows[id].SingBox() then old(running).value[tx.rows[id].tag := LiveOf(tx, id)]
                   else old(running).value
      ensures ok <== f.removes(id) && f.adds(id)
    {
      if tx.rows[id].SingBox() {
        ghost var before := running.value;
        running := Some(running.value - {tx.rows[id].tag});
        if !f.removes(id) || !f.adds(id) {
          return false;
        }
        running := Some(running.value[tx.rows[id].tag := LiveOf(tx, id)]);
        assert running.value == before[tx.rows[id].tag := LiveOf(tx, id)];
      }
      ok := true;
    }

    method RestartInbounds(tx: Tables, ids: set<nat>, f: Faults) returns (ok: bool)
      requires UniqueTags(tx.rows)
      modifies this`running
      ensures running.Some? <==> old(running).Some?
      ensures ok && running.Some? ==> running.value == Restarted(old(running).value, tx, ids)
      ensures f.PatchWorks() ==> ok
    {
      if running.None? {
        return true;
      }
      ghost var start, ready: set<nat> := running.value, {};
      var todo := set id | id in tx.rows && id in ids;
      ghost var all := todo;
      NothingRestarted(start, tx);
      while todo != {}
        invariant todo <= tx.rows.Keys && ready + todo == all
        invariant running == Some(Restarted(start, tx, ready))
        decreases |todo|
      {
        var id :| id in todo;
        todo := todo - {id};
        RestartedGrows(start, tx, ready, id);
        ok := RestartInbound(tx, id, f);
        if !ok {
          return;
        }
        ready := ready + {id};
      }
      UnknownIdsDoNotCount(tx, ids);
      ok := true;
    }

    // The core is patched before the tables are written; a tag another row has
    // is noticed only then.
    method SaveInbound(tx: Tables, change: InboundChange, f: Faults) returns (r: Option<Tables>)
      requires Consistent(tx) && Found(tx, change)
      modifies this`running
      ensures running.Some? <==> old(running).Some?
      ensures r.Some? ==> Allowed(tx, change) && r.value == Stored(tx, change)
      ensures r.Some? && running.Some? ==> running.value == Patched(old(running).value, tx, change)
      ensures f.PatchWorks() && Allowed(tx, change) ==> r.Some?
    {
      r := None;
      match change
      case DelInbound(tag) =>
        var id :| id in tx.rows && tx.rows[id].tag == tag;
        if running.Some? && tx.rows[id].SingBox() {
          running := Some(running.value - {tag});
          if !f.removes(id) { return; }
        }
        var clients := UpdateClientsOnInboundDelete(tx.clients, id);
        if !f.writes { return; }
        r := Some(tx.(clients := clients, rows := tx.rows - {id}));
      case NewInbound(id, row, init) =>
        if running.Some? && row.SingBox() {
          if !f.adds(id) { return; }
          running := Some(running.value[row.tag := Live(row, Users(tx.clients, row, init))]);
        }
        if !f.writes || !TagFree(tx.rows, TargetId(tx, id), row.tag) { return; }
        var clients := UpdateClientsOnInboundAdd(tx.clients, init, TargetId(tx, id));
        r := Some(PutRow(tx, id, row).(clients := clients));
      case EditInbound(id, row) =>
        var oldTag, oldSingBox := "", true;
        if id in tx.rows {
          oldTag, oldSingBox := tx.rows[id].tag, tx.rows[id].SingBox();
        }
        if running.Some? {
          if oldSingBox {
            running := Some(running.value - {oldTag});
            if !f.removes(id) { return; }
          }
          if row.SingBox() {
            if !f.adds(id) { return; }
            running := Some(running.value[row.tag := Live(row, Users(tx.clients, row, Listing(tx.clients, id)))]);
          }
        }
        if !f.writes || !TagFree(tx.rows, TargetId(tx, id), row.tag) { return; }
        r := Some(PutRow(tx, id, row));
    }

    // Stops the core and starts it from the tables.
    method RestartSingBoxCore(f: Faults)
      requires UniqueTags(tables.rows)
      modifies this`running
      ensures coreBusy ==> running == old(running)
      ensures !coreBusy && f.stops && f.starts ==> running == Some(Build(tables))
      ensures !coreBusy ==> InSync()
    {
      if coreBusy { return; }
      running := None;
      if !f.stops { return; }
      var config := GetAllConfig(tables);
      if !f.starts { return; }
      running := Some(config);
    }

    method StartCore(f: Faults)
      requires UniqueTags(tables.rows) && running.None?
      modifies this`running
      ensures InSync() && (!coreBusy && f.starts ==> running.Some?)
    {
      if coreBusy || !f.starts { return; }
      var config := GetAllConfig(tables);
      running := Some(config);
    }

    method Recover(f: Faults)
      requires UniqueTags(tables.rows)
      modifies this`running
      ensures coreBusy ==> running == old(running)
      ensures !coreBusy ==> InSync()
      ensures !coreBusy && f.stops && f.starts ==> (running.Some? <==> old(running).Some?)
    {
      if running.Some? {
        RestartSingBoxCore(f);
      }
    }

    method PatchForClients(tx: Tables, change: ClientSaves.ClientChange, f: Faults) returns (r: Option<Tables>)
      requires Consistent(tx) && (running.Some? ==> running.value == Build(tx))
      modifies this`running
      ensures running.Some? <==> old(running).Some?
      ensures r.Some? ==>
                Acceptable(tx, Clients(change)) && r.value == Applied(tx, Clients(change)) && Consistent(r.value)
      ensures r.Some? && running.Some? ==> running.value == PatchedBuild(tx, Clients(change))
      ensures f.PatchWorks() && Acceptable(tx, Clients(change)) ==> r.Some?
    {
      var saved, inboundIds := ClientSaves.Save(tx, change, f.writes);
      if saved.None? {
        return None;
      }
      SavedIsConsistent(tx, change);
      ghost var reported := ClientSaves.Reported(tx, change);
      if |inboundIds| > 0 {
        var ok := RestartInbounds(saved.value, SetOf(inboundIds), f);
        if !ok {
          return None;
        }
      } else {
        assert reported == {};
        NothingRestarted(Build(tx), saved.value);
      }
      assert running.Some? ==> running.value == Restarted(Build(tx), saved.value, reported);
      r := saved;
    }

    method PatchForInbound(tx: Tables, change: InboundChange, f: Faults) returns (r: Option<Tables>)
      requires Consistent(tx) && (running.Some? ==> running.value == Build(tx))
      modifies this`running
      ensures running.Some? <==> old(running).Some?
      ensures r.Some? ==>
                Acceptable(tx, Inbounds(change)) && r.value == Applied(tx, Inbounds(change)) && Consistent(r.value)
      ensures r.Some? && running.Some? ==> running.value == PatchedBuild(tx, Inbounds(change))
      ensures f.PatchWorks() && Acceptable(tx, Inbounds(change)) ==> r.Some?
    {
      if !Found(tx, change) {
        return None;
      }
      r := SaveInbound(tx, change, f);
      if r.Some? {
        StoredElsewhere(tx, change);
      }
    }

    // Records the change, commits, and starts a core that is down.
    method Commit(applied: Tables, f: Faults)
      requires Consistent(applied)
      modifies this`tables, this`running
      ensures tables == applied.(changes := old(tables).changes + 1) && Consistent(tables)
      ensures old(running).Some? ==> running == old(running) && (InSync() <==> running.value == Build(applied))
      ensures old(running).None? ==> InSync() && (f.skipCore ==> running.None?)
    {
      ChangesAreNotBuilt(applied, tables.changes + 1);
      tables := applied.(changes := tables.changes + 1);
      if running.None? && !f.skipCore {
        StartCore(f);
      }
    }

    // The part of a save before the change record: rows written, core patched.
    method Patch(tx: Tables, change: Change, f: Faults) returns (r: Option<Tables>)
      requires Consistent(tx) && (running.Some? ==> running.value == Build(tx))
      modifies this`running
      ensures running.Some? <==> old(running).Some?
      ensures r.Some? ==> Acceptable(tx, change) && r.value == Applied(tx, change) && Consistent(r.value)
      ensures r.Some? && running.Some? ==> running.value == PatchedBuild(tx, change)
      ensures r.Some? && running.Some? ==> (running.value == Build(r.value) <==> Covered(tx, change))
      ensures r.Some? && AllLabelled(tx.clients) ==> AllLabelled(r.value.clients)
      ensures f.PatchWorks() && Acceptable(tx, change) ==> r.Some?
    {
      match change {
        case Clients(c) => r := PatchForClients(tx, c, f);
        case Inbounds(c) => r := PatchForInbound(tx, c, f);
      }
      if r.Some? {
        PatchedBuildIsExact(tx, change);
        if AllLabelled(tx.clients) {
          AppliedStaysLabelled(tx, change);
        }
      }
    }

    method CommitTold(applied: Tables, ghost change: Change, f: Faults)
      requires Consistent(applied) && Acceptable(tables, change) && applied == Applied(tables, change)
      modifies this`tables, this`running
      ensures tables == applied.(changes := old(tables).changes + 1) && Consistent(tables)
      ensures SavedAs(old(tables), tables, change)
      ensures old(running).Some? ==> running == old(running) && (InSync() <==> running.value == Build(applied))
      ensures old(running).None? ==> InSync() && (f.skipCore ==> running.None?)
      ensures running.Some? && InSync() ==> ServesExactly(tables, running.value)
    {
      AppliedIsSaved(tables, change, tables.changes + 1);
      Commit(applied, f);
      BuildServesExactly(tables);
    }

    // MAIN: a save is all or nothing in the tables. After a commit the core
    // equals a rebuild exactly when the change is covered; after a rollback it
    // equals a rebuild of the old tables. Only when another core operation
    // keeps the restore from running may a patch stay behind.
    method SaveLocked(change: Change, f: Faults) returns (committed: bool)
      requires Consistent(tables) && InSync()
      modifies this`tables, this`running
      ensures Consistent(tables)
      ensures !committed ==> tables == old(tables)
      ensures committed ==> Acceptable(old(tables), change)
                            && tables == Applied(old(tables), change).(changes := old(tables).changes + 1)
      ensures f.NoneBeforeCommit() && Acceptable(old(tables), change) ==> committed
      ensures committed ==> !Refused(old(tables), change) && SavedAs(old(tables), tables, change)
      ensures f.NoneBeforeCommit() && !Refused(old(tables), change) ==> committed
      ensures committed && running.Some? && (old(running).Some? ==> Covered(old(tables), change)) ==>
                ServesExactly(tables, running.value)
      ensures committed && old(running).Some? ==> running.Some? && (InSync() <==> Covered(old(tables), change))
      ensures committed && old(running).None? ==> InSync()
      ensures committed && old(running).None? && f.skipCore ==> running.None?
      ensures AllLabelled(old(tables).clients) ==> AllLabelled(tables.clients)
      ensures !committed && !coreBusy ==> InSync()
      ensures f.PatchWorks() && Acceptable(old(tables), change) && !committed && coreBusy && old(running).Some? ==>
                running == Some(PatchedBuild(old(tables), change))
      ensures !committed && !coreBusy && f.stops && f.starts ==> (running.Some? <==> old(running).Some?)
    {
      committed := false;
      AcceptableExactly(tables, change);
      var tx := Patch(tables, change, f);
      if tx.None? || !f.records || !f.commits {
        Recover(f);
        return;
      }
      CommitTold(tx.value, change, f);
      committed := true;
    }
  }
}
