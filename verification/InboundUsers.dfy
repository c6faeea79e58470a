// The tables behind the inbounds, and the inbound map a full rebuild of the
// core makes from them.
module InboundUsers {
  import opened RelayItems

  datatype Owner = Unowned | Name(text: string) | Username(text: string)

  // A client's entry for one protocol; `rest` stands for its other fields.
  datatype Credential = Credential(owner: Owner, rest: string)

  // `spelling` tells apart different texts of the same credentials.
  datatype Client = Client(
    enable: bool, name: string,
    credentials: map<string, Credential>, spelling: string,
    inbounds: seq<nat>, other: string)

  // `body` is what the row renders to, apart from the fields user selection reads.
  datatype Row = Row(
    tag: string, kind: string, core: string,
    version: int, cipher: string, tls: bool, body: string)
  {
    predicate SingBox() { core == "" || core == "sing-box" }
  }

  // An inbound as the core runs it; no users and `null` users are the same.
  datatype Live = Live(row: Row, users: map<nat, Credential>)

  // nextRow and nextClient are the ids the database would hand out.
  datatype Tables = Tables(
    rows: map<nat, Row>, nextRow: nat,
    clients: map<nat, Client>, nextClient: nat,
    changes: nat)

  const USER_KINDS := {
    "mixed", "socks", "http", "shadowsocks", "vmess", "trojan", "naive",
    "hysteria", "shadowtls", "tuic", "hysteria2", "vless", "anytls" }

  const VISION := "xtls-rprx-vision"

  ghost predicate UniqueTags(rows: map<nat, Row>) {
    forall i, j :: i in rows && j in rows && rows[i].tag == rows[j].tag ==> i == j
  }

  // Relabelling every credential with the client's name changes nothing.
  ghost predicate Labelled(c: Client) {
    c.name == "" || forall p :: p in c.credentials ==> Relabelled(c.credentials[p], c.name) == c.credentials[p]
  }

  ghost predicate AllLabelled(clients: map<nat, Client>) {
    forall k :: k in clients ==> Labelled(clients[k])
  }

  function Relabelled(c: Credential, name: string): Credential {
    match c.owner
    case Unowned => c
    case Name(_) => c.(owner := Name(name))
    case Username(_) => c.(owner := Username(name))
  }

  ghost predicate Consistent(t: Tables) {
    && UniqueTags(t.rows)
    && (forall i :: i in t.rows ==> 0 < i < t.nextRow)
    && (forall k :: k in t.clients ==> 0 < k < t.nextClient)
    && 0 < t.nextRow && 0 < t.nextClient
  }

  // --------------------------------------------------------- who is served

  predicate HasUsers(row: Row) {
    row.kind in USER_KINDS && !(row.kind == "shadowtls" && row.version < 3)
  }

  function Protocol(row: Row): string {
    if row.kind == "shadowsocks" && row.cipher == "2022-blake3-aes-128-gcm" then "shadowsocks16" else row.kind
  }

  // Removes every occurrence, left to right.
  function Without(s: string, word: string): string
    requires word != ""
  {
    if |s| < |word| then s
    else if s[..|word|] == word then Without(s[|word|..], word)
    else [s[0]] + Without(s[1..], word)
  }

  function WithoutVision(c: Credential): Credential {
    Credential(
      match c.owner
      case Unowned => Unowned
      case Name(text) => Name(Without(text, VISION))
      case Username(text) => Username(Without(text, VISION)),
      Without(c.rest, VISION))
  }

  function Shown(row: Row, c: Credential): Credential {
    if row.kind == "vless" && !row.tls then WithoutVision(c) else c
  }

  predicate Offers(clients: map<nat, Client>, k: nat, row: Row) {
    k in clients && clients[k].enable && HasUsers(row) && Protocol(row) in clients[k].credentials
  }

  // The users a row gets from a choice of clients.
  function Users(clients: map<nat, Client>, row: Row, chosen: set<nat>): map<nat, Credential> {
    map k | k in clients && k in chosen && Offers(clients, k, row) :: Shown(row, clients[k].credentials[Protocol(row)])
  }

  function Listing(clients: map<nat, Client>, id: nat): set<nat> {
    set k | k in clients && id in clients[k].inbounds
  }

  function UsersOf(t: Tables, id: nat): map<nat, Credential>
    requires id in t.rows
  {
    Users(t.clients, t.rows[id], Listing(t.clients, id))
  }

  function LiveOf(t: Tables, id: nat): Live
    requires id in t.rows
  {
    Live(t.rows[id], UsersOf(t, id))
  }

  // The tags the sing-box rows among `ids` run under, and the row under a tag.
  ghost function TagsOf(rows: map<nat, Row>, ids: set<nat>): set<string> {
    set id | id in ids && id in rows && rows[id].SingBox() :: rows[id].tag
  }

  ghost function IdOf(rows: map<nat, Row>, ids: set<nat>, tag: string): (id: nat)
    requires tag in TagsOf(rows, ids)
    ensures id in ids && id in rows && rows[id].SingBox() && rows[id].tag == tag
  {
    var id :| id in ids && id in rows && rows[id].SingBox() && rows[id].tag == tag;
    id
  }

  ghost function BuildOf(t: Tables, ids: set<nat>): map<string, Live> {
    map tag | tag in TagsOf(t.rows, ids) :: LiveOf(t, IdOf(t.rows, ids, tag))
  }

  // The reference: every sing-box row under its tag, with its users.
  ghost function Build(t: Tables): map<string, Live> {
    BuildOf(t, t.rows.Keys)
  }

  lemma BuildAt(t: Tables, ids: set<nat>, id: nat)
    requires UniqueTags(t.rows) && id in ids && id in t.rows && t.rows[id].SingBox()
    ensures t.rows[id].tag in BuildOf(t, ids) && BuildOf(t, ids)[t.rows[id].tag] == LiveOf(t, id)
  {
    assert t.rows[id].tag in TagsOf(t.rows, ids);
  }

  lemma BuildGrows(t: Tables, ids: set<nat>, id: nat)
    requires UniqueTags(t.rows) && id in t.rows
    ensures BuildOf(t, ids + {id}) ==
            if t.rows[id].SingBox() then BuildOf(t, ids)[t.rows[id].tag := LiveOf(t, id)] else BuildOf(t, ids)
  {
    var small, large := BuildOf(t, ids), BuildOf(t, ids + {id});
    var tag := t.rows[id].tag;
    if t.rows[id].SingBox() {
      BuildAt(t, ids + {id}, id);
    }
    forall other | other in large && !(t.rows[id].SingBox() && other == tag)
      ensures other in small && small[other] == large[other]
    {
      BuildAt(t, ids, IdOf(t.rows, ids + {id}, other));
    }
    forall other | other in small
      ensures other in large
    {
      BuildAt(t, ids + {id}, IdOf(t.rows, ids, other));
    }
  }

  // ------------------------------------------------- a build, told by its rows

  // One inbound for every sing-box row, under the row's tag, serving the
  // enabled clients that list the row and have credentials for it.
  ghost predicate ServesExactly(t: Tables, inbounds: map<string, Live>) {
    && (forall tag :: tag in inbounds ==> exists id :: id in t.rows && t.rows[id].tag == tag && ForSingBox(t.rows[id]))
    && (forall id :: id in t.rows && ForSingBox(t.rows[id]) ==>
          t.rows[id].tag in inbounds && RunsRow(t, id, inbounds[t.rows[id].tag]))
  }

  predicate ForSingBox(row: Row) {
    row.core == "" || row.core == "sing-box"
  }

  ghost predicate RunsRow(t: Tables, id: nat, live: Live)
    requires id in t.rows
  {
    && live.row == t.rows[id]
    && (forall k :: k in live.users <==> k in t.clients && Served(t.clients[k], id, t.rows[id]))
    && (forall k :: k in live.users && k in t.clients && Served(t.clients[k], id, t.rows[id]) ==>
          SeenAs(t.rows[id], t.clients[k].credentials[KeyOf(t.rows[id])], live.users[k]))
  }

  // The key of a row's credentials: its kind, except for one shadowsocks method.
  function KeyOf(row: Row): string {
    match (row.kind, row.cipher)
    case ("shadowsocks", "2022-blake3-aes-128-gcm") => "shadowsocks16"
    case _ => row.kind
  }

  predicate Served(c: Client, id: nat, row: Row) {
    && c.enable && id in c.inbounds && KeyOf(row) in c.credentials
    && row.kind in ["mixed", "socks", "http", "shadowsocks", "vmess", "trojan", "naive", "hysteria", "shadowtls",
                    "tuic", "hysteria2", "vless", "anytls"]
    && (row.kind == "shadowtls" ==> row.version >= 3)
  }

  // Credentials are shown as stored, only VLESS rows without TLS lose the flow.
  predicate SeenAs(row: Row, stored: Credential, shown: Credential) {
    if row.kind == "vless" && !row.tls then
      && shown.rest == Without(stored.rest, "xtls-rprx-vision")
      && match stored.owner
         case Unowned => shown.owner == Unowned
         case Name(text) => shown.owner == Name(Without(text, "xtls-rprx-vision"))
         case Username(text) => shown.owner == Username(Without(text, "xtls-rprx-vision"))
    else shown == stored
  }

  predicate OccursAt(s: string, word: string, i: nat) {
    i + |word| <= |s| && s[i..i + |word|] == word
  }

  lemma WithoutStarts(s: string, word: string)
    requires word != ""
    ensures OccursAt(s, word, 0) ==> Without(s, word) == Without(s[|word|..], word)
    ensures !OccursAt(s, word, 0) && |s| >= |word| ==> Without(s, word) == [s[0]] + Without(s[1..], word)
    ensures |s| < |word| ==> Without(s, word) == s
  {
    assert |s| >= |word| ==> s[0..|word|] == s[..|word|];
  }

  // Removing a word takes out its first occurrence and goes on behind it, and
  // leaves a text without occurrences alone.
  lemma {:induction false} FirstOccurrenceGoes(s: string, word: string, i: nat)
    requires word != "" && OccursAt(s, word, i) && forall j :: 0 <= j < i ==> !OccursAt(s, word, j)
    ensures Without(s, word) == s[..i] + Without(s[i + |word|..], word)
    decreases i
  {
    var rest := Without(s[i + |word|..], word);
    if i == 0 {
      WithoutStarts(s, word);
    } else {
      OccursBehind(s, word, i);
      FirstOccurrenceGoes(s[1..], word, i - 1);
      TailWithout(s, word, i);
      FirstCharacterFirst(s, word, s[1..][..i - 1] + rest);
      FirstCharacter(s, i, rest);
    }
  }

  lemma TailWithout(s: string, word: string, i: nat)
    requires 0 < i && i + |word| <= |s| && word != ""
    ensures Without(s[1..][i - 1 + |word|..], word) == Without(s[i + |word|..], word)
  {
    assert s[1..][i - 1 + |word|..] == s[i + |word|..];
  }

  lemma FirstCharacterFirst(s: string, word: string, r: string)
    requires word != "" && |s| >= |word| && !OccursAt(s, word, 0) && Without(s[1..], word) == r
    ensures Without(s, word) == [s[0]] + r
  {
    WithoutStarts(s, word);
  }

  lemma FirstCharacter(s: string, i: nat, rest: string)
    requires 0 < i <= |s|
    ensures s[..i] + rest == [s[0]] + (s[1..][..i - 1] + rest)
  {
    assert s[..i] == [s[0]] + s[1..][..i - 1];
  }

  lemma OccursBehind(s: string, word: string, i: nat)
    requires 0 < i < |s| && OccursAt(s, word, i) && forall j :: 0 <= j < i ==> !OccursAt(s, word, j)
    ensures OccursAt(s[1..], word, i - 1) && forall j :: 0 <= j < i - 1 ==> !OccursAt(s[1..], word, j)
    ensures !OccursAt(s, word, 0)
  {
    OccurrencesBehind(s, word);
    forall j | 0 <= j < i - 1
      ensures !OccursAt(s[1..], word, j)
    {
      assert !OccursAt(s, word, j + 1);
    }
  }

  lemma {:induction false} NoOccurrenceStays(s: string, word: string)
    requires word != "" && forall j :: 0 <= j <= |s| ==> !OccursAt(s, word, j)
    ensures Without(s, word) == s
    decreases |s|
  {
    WithoutStarts(s, word);
    if |s| >= |word| {
      assert !OccursAt(s, word, 0);
      OccurrencesBehind(s, word);
      NoOccurrenceStays(s[1..], word);
    }
  }

  lemma OccurrencesBehind(s: string, word: string)
    requires s != ""
    ensures forall i: nat :: i < |s| ==> (OccursAt(s[1..], word, i) <==> OccursAt(s, word, i + 1))
  {
    forall i: nat | i < |s|
      ensures OccursAt(s[1..], word, i) <==> OccursAt(s, word, i + 1)
    {
      if i + 1 + |word| <= |s| {
        assert s[1..][i..i + |word|] == s[i + 1..i + 1 + |word|];
      }
    }
  }

  lemma LiveRunsRow(t: Tables, id: nat)
    requires id in t.rows
    ensures RunsRow(t, id, LiveOf(t, id))
  {
    var row, users := t.rows[id], UsersOf(t, id);
    assert KeyOf(row) == Protocol(row);
    forall k | k in t.clients
      ensures Served(t.clients[k], id, row) <==> k in users
      ensures k in users ==> SeenAs(row, t.clients[k].credentials[KeyOf(row)], users[k])
    {
    }
  }

  // MAIN: the rebuild serves exactly whom the tables say.
  lemma BuildServesExactly(t: Tables)
    requires UniqueTags(t.rows)
    ensures ServesExactly(t, Build(t))
  {
    forall id | id in t.rows && ForSingBox(t.rows[id])
      ensures t.rows[id].tag in Build(t) && RunsRow(t, id, Build(t)[t.rows[id].tag])
    {
      BuildAt(t, t.rows.Keys, id);
      LiveRunsRow(t, id);
    }
    forall tag | tag in Build(t)
      ensures exists id :: id in t.rows && t.rows[id].tag == tag && ForSingBox(t.rows[id])
    {
      var id := IdOf(t.rows, t.rows.Keys, tag);
    }
  }

  // Building row by row, in whatever order the rows come.
  method GetAllConfig(t: Tables) returns (inbounds: map<string, Live>)
    requires UniqueTags(t.rows)
    ensures inbounds == Build(t) && ServesExactly(t, inbounds)
  {
    BuildServesExactly(t);
    inbounds := map[];
    var todo := t.rows.Keys;
    ghost var ready: set<nat> := {};
    while todo != {}
      invariant ready + todo == t.rows.Keys
      invariant inbounds == BuildOf(t, ready)
      decreases |todo|
    {
      var id :| id in todo;
      todo := todo - {id};
      BuildGrows(t, ready, id);
      ready := ready + {id};
      if t.rows[id].SingBox() {
        inbounds := inbounds[t.rows[id].tag := LiveOf(t, id)];
      }
    }
    assert ready == t.rows.Keys;
  }

  // What a client contributes to an inbound: its credentials, if it is enabled
  // and lists the inbound.
  function Part(c: Client, id: nat): map<string, Credential> {
    if c.enable && id in c.inbounds then c.credentials else map[]
  }

  function PartIn(clients: map<nat, Client>, k: nat, id: nat): map<string, Credential> {
    if k in clients then Part(clients[k], id) else map[]
  }

  // What a row shows of a part.
  function ShownPart(row: Row, part: map<string, Credential>): Option<Credential> {
    if HasUsers(row) && Protocol(row) in part then Some(Shown(row, part[Protocol(row)])) else None
  }

  // A row has the same users exactly when it shows the same of every part.
  lemma UsersAgree(was: map<nat, Client>, now: map<nat, Client>, id: nat, row: Row)
    ensures Users(was, row, Listing(was, id)) == Users(now, row, Listing(now, id))
       <==> forall k :: ShownPart(row, PartIn(was, k, id)) == ShownPart(row, PartIn(now, k, id))
  {
    var a, b := Users(was, row, Listing(was, id)), Users(now, row, Listing(now, id));
    forall k
      ensures ShownPart(row, PartIn(was, k, id)) == if k in a then Some(a[k]) else None
      ensures ShownPart(row, PartIn(now, k, id)) == if k in b then Some(b[k]) else None
    {
    }
    if forall k :: ShownPart(row, PartIn(was, k, id)) == ShownPart(row, PartIn(now, k, id)) {
      forall k
        ensures k in a <==> k in b
        ensures k in a ==> a[k] == b[k]
      {
        assert ShownPart(row, PartIn(was, k, id)) == ShownPart(row, PartIn(now, k, id));
      }
    }
  }

  // Users depend on the clients' parts only.
  lemma PartsDecideUsers(was: map<nat, Client>, now: map<nat, Client>, id: nat, row: Row)
    requires forall k :: PartIn(was, k, id) == PartIn(now, k, id)
    ensures Users(was, row, Listing(was, id)) == Users(now, row, Listing(now, id))
  {
    UsersAgree(was, now, id, row);
  }

  // ------------------------------------------------- patching inbound by inbound

  // A running map after the sing-box rows among `ids` were taken out and
  // added again with their users.
  ghost function Restarted(running: map<string, Live>, t: Tables, ids: set<nat>): map<string, Live> {
    running + BuildOf(t, ids)
  }

  lemma RestartedGrows(running: map<string, Live>, t: Tables, ids: set<nat>, id: nat)
    requires UniqueTags(t.rows) && id in t.rows
    ensures Restarted(running, t, ids + {id}) ==
            if t.rows[id].SingBox() then Restarted(running, t, ids)[t.rows[id].tag := LiveOf(t, id)]
                else Restarted(running, t, ids)
  {
    BuildGrows(t, ids, id);
  }

  ghost predicate Unaffected(was: Tables, now: Tables, ids: set<nat>)
    requires now.rows == was.rows
  {
    forall id :: id in now.rows && now.rows[id].SingBox() && id !in ids ==> UsersOf(was, id) == UsersOf(now, id)
  }

  // MAIN: patching the inbounds `ids` turns the old build into the new one
  // exactly when no other inbound's users changed.
  lemma RestartIsExact(was: Tables, now: Tables, ids: set<nat>)
    requires UniqueTags(was.rows) && now.rows == was.rows
    ensures Restarted(Build(was), now, ids) == Build(now) <==> Unaffected(was, now, ids)
  {
    var patched, built := Restarted(Build(was), now, ids), Build(now);
    SameTags(was, now, ids);
    if Unaffected(was, now, ids) {
      forall tag | tag in built
        ensures patched[tag] == built[tag]
      {
        RestartedAt(was, now, ids, IdOf(now.rows, now.rows.Keys, tag));
      }
      assert patched == built;
    } else {
      var id :| id in now.rows && now.rows[id].SingBox() && id !in ids && UsersOf(was, id) != UsersOf(now, id);
      RestartedAt(was, now, ids, id);
    }
  }

  lemma SameTags(was: Tables, now: Tables, ids: set<nat>)
    requires now.rows == was.rows
    ensures Restarted(Build(was), now, ids).Keys == Build(now).Keys
  {
    assert TagsOf(now.rows, ids) <= TagsOf(now.rows, now.rows.Keys);
  }

  lemma RestartedAt(was: Tables, now: Tables, ids: set<nat>, id: nat)
    requires UniqueTags(was.rows) && now.rows == was.rows && id in now.rows && now.rows[id].SingBox()
    ensures var tag := now.rows[id].tag;
            && tag in Restarted(Build(was), now, ids) && tag in Build(now) && Build(now)[tag] == LiveOf(now, id)
            && Restarted(Build(was), now, ids)[tag] == if id in ids then LiveOf(now, id) else LiveOf(was, id)
  {
    BuildAt(now, now.rows.Keys, id);
    BuildAt(was, was.rows.Keys, id);
    if id in ids {
      BuildAt(now, ids, id);
    } else {
      assert now.rows[id].tag !in TagsOf(now.rows, ids);
    }
  }
}
