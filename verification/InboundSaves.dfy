// Inbound saves: what they write, what they do to the running inbounds, and
// when the two agree.
module InboundSaves {
  import opened Collections
  import opened InboundUsers

  // `init` holds the clients a new inbound starts with; an id of 0 asks for a
  // new one.
  datatype InboundChange =
    | NewInbound(id: nat, row: Row, init: set<nat>)
    | EditInbound(id: nat, row: Row)
    | DelInbound(tag: string)

  function TargetId(t: Tables, id: nat): nat {
    if id == 0 then t.nextRow else id
  }

  predicate TagFree(rows: map<nat, Row>, id: nat, tag: string) {
    forall i :: i in rows && i != id ==> rows[i].tag != tag
  }

  // Edits and deletions look the stored row up, except edits that move to the
  // other core.
  predicate Found(t: Tables, change: InboundChange) {
    match change
    case NewInbound(_, _, _) => true
    case EditInbound(id, row) => id in t.rows || !row.SingBox()
    case DelInbound(tag) => exists id :: id in t.rows && t.rows[id].tag == tag
  }

  // Tags are unique.
  predicate Allowed(t: Tables, change: InboundChange) {
    Found(t, change) && (change.DelInbound? || TagFree(t.rows, TargetId(t, change.id), change.row.tag))
  }

  // ------------------------------------------------------------- the tables

  function PutRow(t: Tables, id: nat, row: Row): Tables {
    t.(rows := t.rows[TargetId(t, id) := row],
       nextRow := if TargetId(t, id) < t.nextRow then t.nextRow else TargetId(t, id) + 1)
  }

  function Joined(clients: map<nat, Client>, init: set<nat>, id: nat): map<nat, Client> {
    map k | k in clients ::
      if k in init then clients[k].(inbounds := clients[k].inbounds + [id]) else clients[k]
  }

  function Dropped(ids: seq<nat>, id: nat): (r: seq<nat>)
    ensures forall i :: i in r <==> i in ids && i != id
  {
    if ids == [] then []
    else Dropped(ids[..|ids| - 1], id) + if ids[|ids| - 1] == id then [] else [ids[|ids| - 1]]
  }

  function Left(clients: map<nat, Client>, id: nat): map<nat, Client> {
    map k | k in clients :: clients[k].(inbounds := Dropped(clients[k].inbounds, id))
  }

  ghost function RowWith(t: Tables, tag: string): (id: nat)
    requires exists id :: id in t.rows && t.rows[id].tag == tag
    ensures id in t.rows && t.rows[id].tag == tag
  {
    var id :| id in t.rows && t.rows[id].tag == tag;
    id
  }

  ghost function Stored(t: Tables, change: InboundChange): Tables
    requires Allowed(t, change)
  {
    match change
    case NewInbound(id, row, init) =>
      var u := PutRow(t, id, row);
      u.(clients := Joined(t.clients, init, TargetId(t, id)))
    case EditInbound(id, row) => PutRow(t, id, row)
    case DelInbound(tag) =>
      var id := RowWith(t, tag);
      t.(clients := Left(t.clients, id), rows := t.rows - {id})
  }

  // ----------------------------------------------------- what a save has done

  // The tables after a save: the row is written or gone, under the id the
  // request names or the next one; selected clients list a new inbound last,
  // and a deleted one leaves every list.
  ghost predicate RowSaved(was: Tables, now: Tables, change: InboundChange) {
    match change
    case NewInbound(id, row, init) =>
      var target := if id == 0 then was.nextRow else id;
      && now.rows == was.rows[target := row] && now.clients.Keys == was.clients.Keys
      && (forall k :: k in was.clients ==>
            now.clients[k] == if k in init then was.clients[k].(inbounds := was.clients[k].inbounds + [target])
                              else was.clients[k])
    case EditInbound(id, row) =>
      now.rows == was.rows[(if id == 0 then was.nextRow else id) := row] && now.clients == was.clients
    case DelInbound(tag) =>
      exists id :: id in was.rows && was.rows[id].tag == tag && RowErased(was, now, id)
  }

  ghost predicate RowErased(was: Tables, now: Tables, id: nat) {
    && now.rows == was.rows - {id} && now.clients.Keys == was.clients.Keys
    && (forall k :: k in was.clients ==>
          && now.clients[k] == was.clients[k].(inbounds := now.clients[k].inbounds)
          && LeavesList(was.clients[k].inbounds, now.clients[k].inbounds, id))
  }

  ghost predicate LeavesList(was: seq<nat>, now: seq<nat>, id: nat) {
    exists at: seq<int> :: LeavesListAt(was, now, id, at)
  }

  ghost predicate LeavesListAt(was: seq<nat>, now: seq<nat>, id: nat, at: seq<int>) {
    PickedFrom(was, now, at) && forall i :: 0 <= i < |was| ==> (i in at <==> was[i] != id)
  }

  lemma {:induction false} DroppedLeavesList(ids: seq<nat>, id: nat)
    ensures LeavesList(ids, Dropped(ids, id), id)
  {
    if ids == [] {
      assert LeavesListAt(ids, [], id, []);
    } else {
      var init := ids[..|ids| - 1];
      DroppedLeavesList(init, id);
      OneMoreInList(init, Dropped(init, id), id, ids[|ids| - 1]);
      assert init + [ids[|ids| - 1]] == ids;
    }
  }

  lemma OneMoreInList(was: seq<nat>, left: seq<nat>, id: nat, last: nat)
    requires LeavesList(was, left, id)
    ensures LeavesList(was + [last], left + if last == id then [] else [last], id)
  {
    var at :| LeavesListAt(was, left, id, at);
    var more := at + if last != id then [|was|] else [];
    PickedMore(was, left, at, last, last != id);
    assert forall i :: 0 <= i <= |was| ==> (i in more <==> (was + [last])[i] != id);
    assert LeavesListAt(was + [last], left + if last == id then [] else [last], id, more);
  }

  lemma RowIsSaved(t: Tables, change: InboundChange)
    requires Allowed(t, change)
    ensures RowSaved(t, Stored(t, change), change)
  {
    if change.DelInbound? {
      forall k | k in t.clients
        ensures LeavesList(t.clients[k].inbounds, Stored(t, change).clients[k].inbounds, RowWith(t, change.tag))
      {
        DroppedLeavesList(t.clients[k].inbounds, RowWith(t, change.tag));
      }
      assert RowErased(t, Stored(t, change), RowWith(t, change.tag));
    }
  }

  // Each selected client gets the inbound appended to its list.
  method UpdateClientsOnInboundAdd(clients: map<nat, Client>, init: set<nat>, id: nat)
      returns (updated: map<nat, Client>)
    ensures updated == Joined(clients, init, id)
  {
    updated := clients;
    var selected := set k | k in clients && k in init;
    var todo := selected;
    while todo != {}
      invariant todo <= selected
      invariant updated == Joined(clients, selected - todo, id)
      decreases |todo|
    {
      var k :| k in todo;
      updated := updated[k := clients[k].(inbounds := clients[k].inbounds + [id])];
      todo := todo - {k};
    }
    assert Joined(clients, selected, id) == Joined(clients, init, id);
  }

  // Each client listing the inbound has it filtered out of its list.
  method UpdateClientsOnInboundDelete(clients: map<nat, Client>, id: nat) returns (updated: map<nat, Client>)
    ensures updated == Left(clients, id)
  {
    updated := clients;
    var listing := Listing(clients, id);
    var todo := listing;
    while todo != {}
      invariant todo <= listing
      invariant updated == map k | k in clients ::
                  if k in listing - todo then clients[k].(inbounds := Dropped(clients[k].inbounds, id)) else clients[k]
      decreases |todo|
    {
      var k :| k in todo;
      var ids: seq<nat> := [];
      for i := 0 to |clients[k].inbounds|
        invariant ids == Dropped(clients[k].inbounds[..i], id)
      {
        assert clients[k].inbounds[..i + 1][..i] == clients[k].inbounds[..i];
        if clients[k].inbounds[i] != id {
          ids := ids + [clients[k].inbounds[i]];
        }
      }
      assert clients[k].inbounds[..|clients[k].inbounds|] == clients[k].inbounds;
      updated := updated[k := clients[k].(inbounds := ids)];
      todo := todo - {k};
    }
    forall k | k in clients && k !in listing
      ensures clients[k].(inbounds := Dropped(clients[k].inbounds, id)) == clients[k]
    {
      DroppedSame(clients[k].inbounds, id);
    }
  }

  lemma {:induction false} DroppedSame(ids: seq<nat>, id: nat)
    requires id !in ids
    ensures Dropped(ids, id) == ids
  {
    if ids != [] {
      DroppedSame(ids[..|ids| - 1], id);
    }
  }

  // ----------------------------------------------------- the running inbounds

  // The old inbound goes, the new one comes with the users chosen for it.
  function Patched(running: map<string, Live>, t: Tables, change: InboundChange): map<string, Live> {
    match change
    case NewInbound(_, row, init) =>
      if row.SingBox() then running[row.tag := Live(row, Users(t.clients, row, init))] else running
    case EditInbound(id, row) =>
      var left :=
        if id !in t.rows then running - {""}
        else if t.rows[id].SingBox() then running - {t.rows[id].tag}
        else running;
      if row.SingBox() then left[row.tag := Live(row, Users(t.clients, row, Listing(t.clients, id)))] else left
    case DelInbound(tag) =>
      if exists id :: id in t.rows && t.rows[id].tag == tag && !t.rows[id].SingBox() then running else running - {tag}
  }

  // A new inbound must not take over a stored id while the old inbound keeps
  // running under its own tag, and nobody outside `init` may be served by an
  // id that is only now given out. An edit may meet an unknown id only when no
  // inbound runs under the empty tag.
  ghost predicate KeepsStep(t: Tables, change: InboundChange) {
    match change
    case NewInbound(id, row, init) =>
      var target := TargetId(t, id);
      && (target in t.rows && t.rows[target].SingBox() ==> row.SingBox() && row.tag == t.rows[target].tag)
      && (row.SingBox() ==>
            forall k :: k in t.clients && k !in init && target in t.clients[k].inbounds ==> !Offers(t.clients, k, row))
    case EditInbound(id, row) => id in t.rows || "" !in TagsOf(t.rows, t.rows.Keys)
    case DelInbound(_) => true
  }

  // One row changed: the build loses the old inbound and gains the new one.
  ghost function Rebuilt(built: map<string, Live>, t: Tables, u: Tables, id: nat): map<string, Live> {
    var left := if id in t.rows && t.rows[id].SingBox() then built - {t.rows[id].tag} else built;
    if id in u.rows && u.rows[id].SingBox() then left[u.rows[id].tag := LiveOf(u, id)] else left
  }

  lemma BuildAfter(t: Tables, u: Tables, id: nat)
    requires UniqueTags(t.rows) && UniqueTags(u.rows)
    requires t.rows - {id} == u.rows - {id}
    requires forall i :: i in t.rows && i != id ==> i in u.rows && UsersOf(t, i) == UsersOf(u, i)
    ensures Build(u) == Rebuilt(Build(t), t, u, id)
  {
    forall i | i in u.rows && u.rows[i].SingBox()
      ensures u.rows[i].tag in Build(u) && Build(u)[u.rows[i].tag] == LiveOf(u, i)
      ensures u.rows[i].tag in Rebuilt(Build(t), t, u, id) && Rebuilt(Build(t), t, u, id)[u.rows[i].tag] == LiveOf(u, i)
    {
      BuildAt(u, u.rows.Keys, i);
      if i != id {
        assert i in (u.rows - {id}) && i in (t.rows - {id});
        BuildAt(t, t.rows.Keys, i);
      }
    }
    forall tag | tag in Rebuilt(Build(t), t, u, id)
      ensures tag in Build(u)
    {
      if !(id in u.rows && u.rows[id].SingBox() && tag == u.rows[id].tag) {
        var i := IdOf(t.rows, t.rows.Keys, tag);
        assert i != id;
        assert i in (t.rows - {id}) && i in (u.rows - {id});
      }
    }
    forall tag | tag in Build(u)
      ensures tag in Rebuilt(Build(t), t, u, id) && Rebuilt(Build(t), t, u, id)[tag] == Build(u)[tag]
    {
      var i := IdOf(u.rows, u.rows.Keys, tag);
    }
  }

  ghost function ChangedRow(t: Tables, change: InboundChange): nat
    requires Allowed(t, change)
  {
    match change
    case DelInbound(tag) => RowWith(t, tag)
    case NewInbound(id, _, _) => TargetId(t, id)
    case EditInbound(id, _) => TargetId(t, id)
  }

  lemma StoredElsewhere(t: Tables, change: InboundChange)
    requires Consistent(t) && Allowed(t, change)
    ensures Consistent(Stored(t, change))
    ensures t.rows - {ChangedRow(t, change)} == Stored(t, change).rows - {ChangedRow(t, change)}
    ensures forall i :: i in t.rows && i != ChangedRow(t, change)
              ==> i in Stored(t, change).rows && UsersOf(t, i) == UsersOf(Stored(t, change), i)
  {
    var u, id := Stored(t, change), ChangedRow(t, change);
    forall i | i in t.rows && i != id
      ensures i in u.rows && UsersOf(t, i) == UsersOf(u, i)
    {
      assert forall k :: PartIn(t.clients, k, i) == PartIn(u.clients, k, i);
      PartsDecideUsers(t.clients, u.clients, i, t.rows[i]);
    }
  }

  lemma NewUsers(t: Tables, id: nat, row: Row, init: set<nat>)
    requires Allowed(t, NewInbound(id, row, init)) && row.SingBox()
    ensures UsersOf(Stored(t, NewInbound(id, row, init)), TargetId(t, id)) == Users(t.clients, row, init)
       <==> forall k :: k in t.clients && k !in init && TargetId(t, id) in t.clients[k].inbounds ==>
           !Offers(t.clients, k, row)
  {
    var target := TargetId(t, id);
    var u := Stored(t, NewInbound(id, row, init));
    var shown, wanted := Users(t.clients, row, init), UsersOf(u, target);
    forall k
      ensures k in wanted
              <==> k in t.clients && (k in init || target in t.clients[k].inbounds) && Offers(t.clients, k, row)
      ensures k in wanted && k in shown ==> wanted[k] == shown[k]
    {
      assert Offers(u.clients, k, row) == Offers(t.clients, k, row);
    }
    if forall k :: k in t.clients && k !in init && target in t.clients[k].inbounds ==> !Offers(t.clients, k, row) {
      assert wanted == shown;
    } else {
      var k :| k in t.clients && k !in init && target in t.clients[k].inbounds && Offers(t.clients, k, row);
      assert k in wanted && k !in shown;
    }
  }

  lemma NewPatchIsExact(t: Tables, change: InboundChange)
    requires Consistent(t) && Allowed(t, change) && change.NewInbound?
    ensures Patched(Build(t), t, change) == Rebuilt(Build(t), t, Stored(t, change), TargetId(t, change.id))
            <==> KeepsStep(t, change)
  {
    var row, target, u := change.row, TargetId(t, change.id), Stored(t, change);
    var patched, built := Patched(Build(t), t, change), Rebuilt(Build(t), t, u, target);
    if target in t.rows && t.rows[target].SingBox() {
      BuildAt(t, t.rows.Keys, target);
      if !(row.SingBox() && row.tag == t.rows[target].tag) {
        assert t.rows[target].tag in patched && t.rows[target].tag !in built;
        return;
      }
    }
    if row.SingBox() {
      NewUsers(t, change.id, row, change.init);
      assert patched[row.tag] == Live(row, Users(t.clients, row, change.init));
      assert built[row.tag] == LiveOf(u, target);
      if Users(t.clients, row, change.init) == UsersOf(u, target) {
        assert patched == built;
      }
    }
  }

  lemma EditPatchIsExact(t: Tables, change: InboundChange)
    requires Consistent(t) && Allowed(t, change) && change.EditInbound?
    ensures Patched(Build(t), t, change) == Rebuilt(Build(t), t, Stored(t, change), TargetId(t, change.id))
            <==> KeepsStep(t, change)
  {
    var u := Stored(t, change);
    if change.id !in t.rows {
      assert TargetId(t, change.id) !in t.rows;
      if "" !in TagsOf(t.rows, t.rows.Keys) {
        assert Build(t) - {""} == Build(t);
      }
    }
  }

  // MAIN: patching for a changed row equals rebuilding from the changed tables
  // exactly under KeepsStep.
  lemma PatchIsExact(t: Tables, change: InboundChange)
    requires Consistent(t) && Allowed(t, change)
    ensures Patched(Build(t), t, change) == Build(Stored(t, change)) <==> KeepsStep(t, change)
  {
    var u, id := Stored(t, change), ChangedRow(t, change);
    StoredElsewhere(t, change);
    BuildAfter(t, u, id);
    match change
    case NewInbound(_, row, init) => NewPatchIsExact(t, change);
    case EditInbound(_, row) => EditPatchIsExact(t, change);
    case DelInbound(tag) =>
      if !t.rows[id].SingBox() {
        assert tag !in Build(t);
      }
  }
}
