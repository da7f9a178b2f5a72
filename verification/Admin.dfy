/** cmd/linuxctl/mcpd_admin.go: create, delete and update of mcpd users, as edits
    of the two documents users.yaml and mcp-sudo.yaml. */
module Admin {
  import opened Text
  import opened YamlEdit

  /** The root nodes of users.yaml and mcp-sudo.yaml. */
  datatype Docs = Docs(users: Yaml, sudo: Yaml)

  /** A token as it is stored, and when the entry was made. */
  datatype Secret = Secret(salt: string, hash: string, createdAt: string)

  datatype Command =
    | Create(username: string, isRoot: bool, secret: Secret, grants: seq<string>)
    | Delete(username: string)
    | Update(username: string, secret: Secret)

  // ----- what the documents hold -----

  function Users(d: Docs): seq<Yaml> {
    match GetIn(Content(d.users), "users")
    case None => []
    case Some(list) => Content(list)
  }

  function NameOf(entry: Yaml): Option<string> {
    match GetIn(Content(entry), "username")
    case None => None
    case Some(u) => Some(ValueText(u))
  }

  /** The first entry with this name, from the i-th on. */
  function FindUser(entries: seq<Yaml>, username: string, i: nat): Option<nat>
    requires i <= |entries|
    decreases |entries| - i
  {
    if i == |entries| then None
    else if NameOf(entries[i]) == Some(username) then Some(i)
    else FindUser(entries, username, i + 1)
  }

  /** What mcp-sudo.yaml grants a user. */
  function GrantsOf(d: Docs, username: string): Option<Yaml> {
    match GetIn(Content(d.sudo), "users")
    case None => None
    case Some(m) => GetIn(Content(m), username)
  }

  // ----- what each command makes of them -----

  function NewEntry(username: string, s: Secret): Yaml {
    Mapping(SetIn(SetIn(SetIn(SetIn([], "username", Scalar(username)), "token_salt", Scalar(s.salt)),
                        "token_hash", Scalar(s.hash)), "created_at", Scalar(s.createdAt)))
  }

  function Rotated(entry: seq<Yaml>, s: Secret): seq<Yaml> {
    var c := SetIn(SetIn(DeleteIn(entry, "token"), "token_salt", Scalar(s.salt)), "token_hash", Scalar(s.hash));
    var dated := if GetIn(c, "created_at").None? then SetIn(c, "created_at", Scalar(s.createdAt)) else c;
    DeleteIn(DeleteIn(dated, "pinned_uid"), "os_uid")
  }

  const GRANTED := Mapping([Scalar("allowed"), Scalar("true")])

  /** The tools map of a fresh grant block, after the first `n` grants. */
  function ToolMap(grants: seq<string>, n: nat): seq<Yaml>
    requires n <= |grants|
  {
    if n == 0 then [] else SetIn(ToolMap(grants, n - 1), grants[n - 1], GRANTED)
  }

  function FreshBlock(grants: seq<string>): Yaml {
    Mapping(SetIn([], "privileged",
                  Mapping(SetIn(SetIn([], "tools", Mapping(ToolMap(grants, |grants|))), "resources", Mapping([])))))
  }

  function WithUsers(d: Docs, entries: seq<Yaml>): Docs {
    d.(users := Mapping(SetIn(Content(d.users), "users", Sequence(entries))))
  }

  function WithSudoUsers(d: Docs, m: seq<Yaml>): Docs {
    d.(sudo := Mapping(SetIn(Content(d.sudo), "users", Mapping(m))))
  }

  function SudoUsers(d: Docs): seq<Yaml> {
    match GetIn(Content(d.sudo), "users")
    case None => []
    case Some(m) => Content(m)
  }

  /** Some entry has this name. */
  ghost predicate IsUser(d: Docs, name: string) {
    exists i :: 0 <= i < |Users(d)| && NameOf(Users(d)[i]) == Some(name)
  }

  predicate Succeeds(c: Command, d: Docs) {
    match c
    case Create(name, isRoot, _, _) => name != "" && !isRoot && FindUser(Users(d), name, 0).None?
    case Delete(name) => name != "" && FindUser(Users(d), name, 0).Some?
    case Update(name, _) => name != "" && FindUser(Users(d), name, 0).Some?
  }

  function Done(c: Command, d: Docs): Docs {
    if !Succeeds(c, d) then d
    else
      match c
      case Create(name, _, secret, grants) =>
        WithSudoUsers(WithUsers(d, Users(d) + [NewEntry(name, secret)]), SetIn(SudoUsers(d), name, FreshBlock(grants)))
      case Delete(name) =>
        var i := FindUser(Users(d), name, 0).value;
        var d' := if i < |Users(d)| then WithUsers(d, Users(d)[..i] + Users(d)[i + 1..]) else d;
        if GetIn(Content(d.sudo), "users").None? then d' else WithSudoUsers(d', DeleteIn(SudoUsers(d), name))
      case Update(name, secret) =>
        var i := FindUser(Users(d), name, 0).value;
        if i < |Users(d)| then WithUsers(d, Users(d)[i := Mapping(Rotated(Content(Users(d)[i]), secret))]) else d
  }

  // ----- documents of the expected shape -----

  ghost predicate GoodEntry(entry: Yaml) {
    entry.Mapping? && Unique(entry.pairs) && NameOf(entry).Some?
  }

  ghost predicate UniqueNames(entries: seq<Yaml>) {
    forall i, j :: 0 <= i < j < |entries| ==> NameOf(entries[i]) != NameOf(entries[j])
  }

  ghost predicate Good(d: Docs) {
    && d.users.Mapping? && Unique(d.users.pairs) && d.sudo.Mapping? && Unique(d.sudo.pairs)
    && (match GetIn(d.users.pairs, "users") case None => true case Some(list) => list.Sequence?)
    && (match GetIn(d.sudo.pairs, "users") case None => true case Some(m) => m.Mapping? && Unique(m.pairs))
    && (forall i :: 0 <= i < |Users(d)| ==> GoodEntry(Users(d)[i]))
    && UniqueNames(Users(d))
  }

  // ----- the commands -----

  class Files {
    var docs: Docs

    constructor (docs: Docs)
      ensures this.docs == docs
    {
      this.docs := docs;
    }

    /** mcpdCreateUser; the token and its salt and hash come from outside. */
    method CreateUser(username: string, isRoot: bool, secret: Secret, grants: seq<string>) returns (ok: bool)
      modifies this
      ensures ok <==> username != "" && !isRoot && !IsUser(old(docs), username)
      ensures docs == Done(Create(username, isRoot, secret, grants), old(docs))
    {
      IsUserIs(docs, username);
      if username == "" || isRoot {
        return false;
      }
      var root := new Node(Content(docs.users));
      var list := root.MapGet("users");
      var entries := if list.None? then [] else Content(list.value);
      var found := FindEntry(entries, username);
      if found.Some? {
        return false;
      }
      var entry := new Node([]);
      entry.MapSet("username", Scalar(username));
      entry.MapSet("token_salt", Scalar(secret.salt));
      entry.MapSet("token_hash", Scalar(secret.hash));
      entry.MapSet("created_at", Scalar(secret.createdAt));
      root.MapSet("users", Sequence(entries + [Mapping(entry.content)]));
      var sudoRoot := new Node(Content(docs.sudo));
      var users := sudoRoot.MapGet("users");
      var usersMap := new Node(if users.None? then [] else Content(users.value));
      var block := Fresh(grants);
      usersMap.MapSet(username, block);
      sudoRoot.MapSet("users", Mapping(usersMap.content));
      docs := Docs(Mapping(root.content), Mapping(sudoRoot.content));
      return true;
    }

    /** mcpdDeleteUser. */
    method DeleteUser(username: string) returns (ok: bool)
      modifies this
      ensures ok <==> username != "" && IsUser(old(docs), username)
      ensures docs == Done(Delete(username), old(docs))
    {
      IsUserIs(docs, username);
      if username == "" {
        return false;
      }
      var root := new Node(Content(docs.users));
      var list := root.MapGet("users");
      var entries := if list.None? then [] else Content(list.value);
      var found := FindEntry(entries, username);
      if found.None? {
        return false;
      }
      var i := found.value;
      root.MapSet("users", Sequence(entries[..i] + entries[i + 1..]));
      var sudoRoot := new Node(Content(docs.sudo));
      var users := sudoRoot.MapGet("users");
      if users.Some? {
        var usersMap := new Node(Content(users.value));
        var removed := usersMap.MapDelete(username);
        sudoRoot.MapSet("users", Mapping(usersMap.content));
        docs := Docs(Mapping(root.content), Mapping(sudoRoot.content));
      } else {
        docs := docs.(users := Mapping(root.content));
      }
      return true;
    }

    /** mcpdUpdateUser. */
    method UpdateUser(username: string, secret: Secret) returns (ok: bool)
      modifies this
      ensures ok <==> username != "" && IsUser(old(docs), username)
      ensures docs == Done(Update(username, secret), old(docs))
    {
      IsUserIs(docs, username);
      if username == "" {
        return false;
      }
      var root := new Node(Content(docs.users));
      var list := root.MapGet("users");
      var entries := if list.None? then [] else Content(list.value);
      var found := FindEntry(entries, username);
      if found.None? {
        return false;
      }
      var i := found.value;
      var entry := new Node(Content(entries[i]));
      var legacy := entry.MapDelete("token");
      entry.MapSet("token_salt", Scalar(secret.salt));
      entry.MapSet("token_hash", Scalar(secret.hash));
      var dated := entry.MapGet("created_at");
      if dated.None? {
        entry.MapSet("created_at", Scalar(secret.createdAt));
      }
      var pinned := entry.MapDelete("pinned_uid");
      var seen := entry.MapDelete("os_uid");
      root.MapSet("users", Sequence(entries[i := Mapping(entry.content)]));
      docs := docs.(users := Mapping(root.content));
      return true;
    }
  }

  /** daemonFindUser. */
  method FindEntry(entries: seq<Yaml>, username: string) returns (found: Option<nat>)
    ensures found == FindUser(entries, username, 0) && (found.Some? ==> found.value < |entries|)
  {
    for i := 0 to |entries|
      invariant FindUser(entries, username, 0) == FindUser(entries, username, i)
    {
      var item := new Node(Content(entries[i]));
      var u := item.MapGet("username");
      if u.Some? && ValueText(u.value) == username {
        return Some(i);
      }
    }
    return None;
  }

  /** The fresh grant block. */
  method Fresh(grants: seq<string>) returns (block: Yaml)
    ensures block == FreshBlock(grants)
  {
    var tools := new Node([]);
    for i := 0 to |grants|
      invariant tools.content == ToolMap(grants, i)
    {
      tools.MapSet(grants[i], GRANTED);
    }
    var privileged := new Node([]);
    privileged.MapSet("tools", Mapping(tools.content));
    privileged.MapSet("resources", Mapping([]));
    var node := new Node([]);
    node.MapSet("privileged", Mapping(privileged.content));
    return Mapping(node.content);
  }

  // ----- reading back what was set -----

  lemma GetAfterSet(c: seq<Yaml>, key: string, v: Yaml, k: string)
    requires |c| % 2 == 0
    ensures GetIn(SetIn(c, key, v), k) == if k == key then Some(v) else GetIn(c, k)
  {
    SetIsUpdate(c, key, v);
    GetIsLookup(SetIn(c, key, v), k);
    GetIsLookup(c, k);
  }

  lemma GetAfterDelete(c: seq<Yaml>, key: string, k: string)
    requires Unique(c)
    ensures GetIn(DeleteIn(c, key), k) == if k == key then None else GetIn(c, k)
  {
    DeleteIsRemoval(c, key);
    GetIsLookup(DeleteIn(c, key), k);
    GetIsLookup(c, k);
  }

  lemma UsersAfter(d: Docs, entries: seq<Yaml>)
    requires d.users.Mapping? && Unique(d.users.pairs)
    ensures var d' := WithUsers(d, entries);
            Users(d') == entries && d'.sudo == d.sudo && d'.users.Mapping? && Unique(d'.users.pairs)
            && GetIn(d'.users.pairs, "users") == Some(Sequence(entries))
  {
    GetAfterSet(d.users.pairs, "users", Sequence(entries), "users");
    EditsKeepUnique(d.users.pairs, "users", Sequence(entries));
  }

  lemma SudoAfter(d: Docs, m: seq<Yaml>)
    requires d.sudo.Mapping? && Unique(d.sudo.pairs)
    ensures var d' := WithSudoUsers(d, m);
            SudoUsers(d') == m && d'.users == d.users && d'.sudo.Mapping? && Unique(d'.sudo.pairs)
            && GetIn(d'.sudo.pairs, "users") == Some(Mapping(m))
  {
    GetAfterSet(d.sudo.pairs, "users", Mapping(m), "users");
    EditsKeepUnique(d.sudo.pairs, "users", Mapping(m));
  }

  // ----- entries by name -----

  lemma {:induction false} FindUserIs(entries: seq<Yaml>, username: string, i: nat)
    requires i <= |entries|
    ensures var r := FindUser(entries, username, i);
            && (r.Some? ==> i <= r.value < |entries| && NameOf(entries[r.value]) == Some(username))
            && (r.None? ==> forall j :: i <= j < |entries| ==> NameOf(entries[j]) != Some(username))
    decreases |entries| - i
  {
    if i < |entries| && NameOf(entries[i]) != Some(username) {
      FindUserIs(entries, username, i + 1);
    }
  }

  lemma IsUserIs(d: Docs, name: string)
    ensures IsUser(d, name) <==> FindUser(Users(d), name, 0).Some?
  {
    FindUserIs(Users(d), name, 0);
  }

  function Entry(entries: seq<Yaml>, username: string): Option<Yaml> {
    match FindUser(entries, username, 0)
    case None => None
    case Some(i) => if i < |entries| then Some(entries[i]) else None
  }

  /** With unique names, the entry of a user is the one that has the name. */
  lemma EntryHasName(entries: seq<Yaml>, username: string, e: Yaml)
    requires UniqueNames(entries)
    ensures Entry(entries, username) == Some(e) <==> e in entries && NameOf(e) == Some(username)
  {
    FindUserIs(entries, username, 0);
    if e in entries && NameOf(e) == Some(username) {
      var j :| 0 <= j < |entries| && entries[j] == e;
      var i := FindUser(entries, username, 0).value;
      assert i == j;
    }
  }

  /** Lists with the same entries for a name agree on it. */
  lemma SameEntry(a: seq<Yaml>, b: seq<Yaml>, username: string)
    requires UniqueNames(a) && UniqueNames(b)
    requires forall e :: NameOf(e) == Some(username) ==> (e in a <==> e in b)
    ensures Entry(a, username) == Entry(b, username)
  {
    if Entry(a, username).Some? {
      EntryHasName(a, username, Entry(a, username).value);
      EntryHasName(b, username, Entry(a, username).value);
    } else if Entry(b, username).Some? {
      EntryHasName(a, username, Entry(b, username).value);
      EntryHasName(b, username, Entry(b, username).value);
    }
  }

  lemma AddedEntry(es: seq<Yaml>, e: Yaml, name: string, other: string)
    requires UniqueNames(es) && NameOf(e) == Some(name) && FindUser(es, name, 0).None?
    ensures UniqueNames(es + [e])
    ensures Entry(es + [e], other) == if other == name then Some(e) else Entry(es, other)
  {
    var all := es + [e];
    FindUserIs(es, name, 0);
    assert UniqueNames(all);
    if other == name {
      assert all[|es|] == e;
      EntryHasName(all, name, e);
    } else {
      SameEntry(all, es, other);
    }
  }

  /** Where the j-th entry of the rest was. */
  function Source(i: nat, j: nat): nat {
    if j < i then j else j + 1
  }

  lemma RemovedAre(es: seq<Yaml>, i: nat)
    requires UniqueNames(es) && i < |es|
    ensures var rest := es[..i] + es[i + 1..];
            && (forall j :: 0 <= j < |rest| ==> rest[j] == es[Source(i, j)])
            && UniqueNames(rest)
            && (forall e :: e in rest <==> e in es && NameOf(e) != NameOf(es[i]))
  {
    var rest := es[..i] + es[i + 1..];
    forall j | 0 <= j < |rest| ensures rest[j] == es[Source(i, j)] && NameOf(rest[j]) != NameOf(es[i]) {
      assert Source(i, j) != i;
    }
    forall j, k | 0 <= j < k < |rest| ensures NameOf(rest[j]) != NameOf(rest[k]) {
      assert Source(i, j) < Source(i, k);
    }
    forall e | e in es && e != es[i] ensures e in rest {
      var j :| 0 <= j < |es| && es[j] == e;
      assert rest[if j < i then j else j - 1] == e;
    }
  }

  lemma RemovedEntry(es: seq<Yaml>, i: nat, name: string, other: string)
    requires UniqueNames(es) && i < |es| && NameOf(es[i]) == Some(name)
    ensures UniqueNames(es[..i] + es[i + 1..])
    ensures Entry(es[..i] + es[i + 1..], other) == if other == name then None else Entry(es, other)
  {
    var rest := es[..i] + es[i + 1..];
    RemovedAre(es, i);
    FindUserIs(rest, other, 0);
    if other != name {
      SameEntry(rest, es, other);
    } else if Entry(rest, name).Some? {
      EntryHasName(rest, name, Entry(rest, name).value);
    }
  }

  lemma ReplacedEntry(es: seq<Yaml>, i: nat, e: Yaml, name: string, other: string)
    requires UniqueNames(es) && i < |es| && NameOf(es[i]) == Some(name) == NameOf(e)
    ensures UniqueNames(es[i := e])
    ensures Entry(es[i := e], other) == if other == name then Some(e) else Entry(es, other)
  {
    var new_ := es[i := e];
    assert UniqueNames(new_);
    if other == name {
      assert new_[i] == e;
      EntryHasName(new_, name, e);
    } else {
      forall x | NameOf(x) == Some(other) ensures x in new_ <==> x in es {
        if x in es {
          var j :| 0 <= j < |es| && es[j] == x;
          assert new_[j] == x;
        }
      }
      SameEntry(new_, es, other);
    }
  }

  // ----- entries as they are written -----

  /** A sequence of edits of one key-unique mapping. */
  lemma SetUnique(c: seq<Yaml>, key: string, v: Yaml, k: string)
    requires Unique(c)
    ensures Unique(SetIn(c, key, v)) && GetIn(SetIn(c, key, v), k) == if k == key then Some(v) else GetIn(c, k)
  {
    EditsKeepUnique(c, key, v);
    GetAfterSet(c, key, v, k);
  }

  lemma DeleteUnique(c: seq<Yaml>, key: string, k: string)
    requires Unique(c)
    ensures Unique(DeleteIn(c, key)) && GetIn(DeleteIn(c, key), k) == if k == key then None else GetIn(c, k)
  {
    EditsKeepUnique(c, key, Scalar(""));
    GetAfterDelete(c, key, k);
  }

  lemma EmptyIsUnique()
    ensures Unique([])
  {
    forall k ensures Count([], k) <= 1 { }
  }

  /** A new entry says who, and the token's salt and hash, and nothing else. */
  lemma NewEntryIs(name: string, s: Secret, key: string)
    ensures GetIn(Content(NewEntry(name, s)), key) ==
              if key == "username" then Some(Scalar(name))
              else if key == "token_salt" then Some(Scalar(s.salt))
              else if key == "token_hash" then Some(Scalar(s.hash))
              else if key == "created_at" then Some(Scalar(s.createdAt))
              else None
  {
    EmptyIsUnique();
    var a := SetIn([], "username", Scalar(name));
    var b := SetIn(a, "token_salt", Scalar(s.salt));
    var c := SetIn(b, "token_hash", Scalar(s.hash));
    SetUnique([], "username", Scalar(name), key);
    SetUnique(a, "token_salt", Scalar(s.salt), key);
    SetUnique(b, "token_hash", Scalar(s.hash), key);
    SetUnique(c, "created_at", Scalar(s.createdAt), key);
  }

  lemma NewEntryIsGood(name: string, s: Secret)
    ensures GoodEntry(NewEntry(name, s)) && NameOf(NewEntry(name, s)) == Some(name)
  {
    EmptyIsUnique();
    var a := SetIn([], "username", Scalar(name));
    var b := SetIn(a, "token_salt", Scalar(s.salt));
    var c := SetIn(b, "token_hash", Scalar(s.hash));
    SetUnique([], "username", Scalar(name), "username");
    SetUnique(a, "token_salt", Scalar(s.salt), "username");
    SetUnique(b, "token_hash", Scalar(s.hash), "username");
    SetUnique(c, "created_at", Scalar(s.createdAt), "username");
  }

  /** What a rotated entry says: the new salt and hash, no plaintext token and no
      pinned uid, and all else as before. */
  lemma RotationIs(entry: seq<Yaml>, s: Secret, key: string)
    requires Unique(entry)
    ensures Unique(Rotated(entry, s))
    ensures GetIn(Rotated(entry, s), key) ==
              if key == "token" || key == "pinned_uid" || key == "os_uid" then None
              else if key == "token_salt" then Some(Scalar(s.salt))
              else if key == "token_hash" then Some(Scalar(s.hash))
              else if key == "created_at" && GetIn(entry, key).None? then Some(Scalar(s.createdAt))
              else GetIn(entry, key)
  {
    var a := DeleteIn(entry, "token");
    var b := SetIn(a, "token_salt", Scalar(s.salt));
    var c := SetIn(b, "token_hash", Scalar(s.hash));
    SaltAndHash(entry, s, key);
    SaltAndHash(entry, s, "created_at");
    var dated := if GetIn(c, "created_at").None? then SetIn(c, "created_at", Scalar(s.createdAt)) else c;
    SetUnique(c, "created_at", Scalar(s.createdAt), key);
    var e := DeleteIn(dated, "pinned_uid");
    DeleteUnique(dated, "pinned_uid", key);
    DeleteUnique(e, "os_uid", key);
  }

  lemma SaltAndHash(entry: seq<Yaml>, s: Secret, key: string)
    requires Unique(entry)
    ensures var c := SetIn(SetIn(DeleteIn(entry, "token"), "token_salt", Scalar(s.salt)), "token_hash", Scalar(s.hash));
            Unique(c) && GetIn(c, key) == if key == "token_salt" then Some(Scalar(s.salt))
                                          else if key == "token_hash" then Some(Scalar(s.hash))
                                          else if key == "token" then None else GetIn(entry, key)
  {
    var a := DeleteIn(entry, "token");
    var b := SetIn(a, "token_salt", Scalar(s.salt));
    DeleteUnique(entry, "token", key);
    SetUnique(a, "token_salt", Scalar(s.salt), key);
    SetUnique(b, "token_hash", Scalar(s.hash), key);
  }

  /** A fresh block grants exactly the tools named, and no resource. */
  lemma {:induction false} ToolMapIs(grants: seq<string>, n: nat, tool: string)
    requires n <= |grants|
    ensures Unique(ToolMap(grants, n))
    ensures GetIn(ToolMap(grants, n), tool) == if tool in grants[..n] then Some(GRANTED) else None
  {
    if n == 0 {
      EmptyIsUnique();
    } else {
      ToolMapIs(grants, n - 1, tool);
      SetUnique(ToolMap(grants, n - 1), grants[n - 1], GRANTED, tool);
      assert grants[..n] == grants[..n - 1] + [grants[n - 1]];
    }
  }

  lemma FreshBlockIs(grants: seq<string>, tool: string) returns (privileged: seq<Yaml>, tools: seq<Yaml>)
    ensures GetIn(Content(FreshBlock(grants)), "privileged") == Some(Mapping(privileged))
    ensures GetIn(privileged, "tools") == Some(Mapping(tools)) && GetIn(privileged, "resources") == Some(Mapping([]))
    ensures GetIn(tools, tool) == if tool in grants then Some(Mapping([Scalar("allowed"), Scalar("true")])) else None
  {
    EmptyIsUnique();
    tools := ToolMap(grants, |grants|);
    var a := SetIn([], "tools", Mapping(tools));
    privileged := SetIn(a, "resources", Mapping([]));
    SetUnique([], "tools", Mapping(tools), "tools");
    SetUnique(a, "resources", Mapping([]), "tools");
    SetUnique(a, "resources", Mapping([]), "resources");
    SetUnique([], "privileged", Mapping(privileged), "privileged");
    ToolMapIs(grants, |grants|, tool);
    assert grants[..|grants|] == grants;
  }

  // ----- one command -----

  /** What a user's entry and grants are after a command. */
  function EntryAfter(c: Command, d: Docs, name: string): Option<Yaml> {
    var was := Entry(Users(d), name);
    if !Succeeds(c, d) || c.username != name then was
    else
      match c
      case Create(_, _, secret, _) => Some(NewEntry(name, secret))
      case Delete(_) => None
      case Update(_, secret) => if was.None? then None else Some(Mapping(Rotated(Content(was.value), secret)))
  }

  function GrantsAfter(c: Command, d: Docs, name: string): Option<Yaml> {
    if !Succeeds(c, d) || c.username != name then GrantsOf(d, name)
    else
      match c
      case Create(_, _, _, grants) => Some(FreshBlock(grants))
      case Delete(_) => None
      case Update(_, _) => GrantsOf(d, name)
  }

  lemma CreateDoes(c: Command, d: Docs, name: string)
    requires Good(d) && c.Create? && Succeeds(c, d)
    ensures Good(Done(c, d)) && Entry(Users(Done(c, d)), name) == EntryAfter(c, d, name)
    ensures GrantsOf(Done(c, d), name) == GrantsAfter(c, d, name)
  {
    var e := NewEntry(c.username, c.secret);
    NewEntryIsGood(c.username, c.secret);
    AddedEntry(Users(d), e, c.username, name);
    UsersAfter(d, Users(d) + [e]);
    var m := SetIn(SudoUsers(d), c.username, FreshBlock(c.grants));
    EmptyIsUnique();
    SetUnique(SudoUsers(d), c.username, FreshBlock(c.grants), name);
    SudoAfter(WithUsers(d, Users(d) + [e]), m);
  }

  lemma RestIsGood(es: seq<Yaml>, i: nat)
    requires i < |es| && forall j :: 0 <= j < |es| ==> GoodEntry(es[j])
    ensures var rest := es[..i] + es[i + 1..]; forall j :: 0 <= j < |rest| ==> GoodEntry(rest[j])
  {
    var rest := es[..i] + es[i + 1..];
    forall j | 0 <= j < |rest| ensures GoodEntry(rest[j]) {
      assert rest[j] == es[Source(i, j)];
    }
  }

  lemma DeleteDoes(c: Command, d: Docs, name: string)
    requires Good(d) && c.Delete? && Succeeds(c, d)
    ensures Good(Done(c, d)) && Entry(Users(Done(c, d)), name) == EntryAfter(c, d, name)
    ensures GrantsOf(Done(c, d), name) == GrantsAfter(c, d, name)
  {
    var es := Users(d);
    FindUserIs(es, c.username, 0);
    var i := FindUser(es, c.username, 0).value;
    var rest := es[..i] + es[i + 1..];
    RemovedEntry(es, i, c.username, name);
    UsersAfter(d, rest);
    RestIsGood(es, i);
    if GetIn(Content(d.sudo), "users").Some? {
      DeleteUnique(SudoUsers(d), c.username, name);
      SudoAfter(WithUsers(d, rest), DeleteIn(SudoUsers(d), c.username));
    }
  }

  lemma UpdateDoes(c: Command, d: Docs, name: string)
    requires Good(d) && c.Update? && Succeeds(c, d)
    ensures Good(Done(c, d)) && Entry(Users(Done(c, d)), name) == EntryAfter(c, d, name)
    ensures GrantsOf(Done(c, d), name) == GrantsAfter(c, d, name)
  {
    FindUserIs(Users(d), c.username, 0);
    var i := FindUser(Users(d), c.username, 0).value;
    var was := Users(d)[i];
    assert GoodEntry(was);
    var e := Mapping(Rotated(was.pairs, c.secret));
    RotationIs(was.pairs, c.secret, "username");
    ReplacedEntry(Users(d), i, e, c.username, name);
    UsersAfter(d, Users(d)[i := e]);
  }

  /** A command changes the entry and the grants of its own user and of no one
      else, and keeps usernames unique. */
  lemma CommandDoes(c: Command, d: Docs, name: string)
    requires Good(d)
    ensures Good(Done(c, d)) && Entry(Users(Done(c, d)), name) == EntryAfter(c, d, name)
    ensures GrantsOf(Done(c, d), name) == GrantsAfter(c, d, name)
  {
    if Succeeds(c, d) {
      match c {
        case Create(_, _, _, _) => CreateDoes(c, d, name);
        case Delete(_) => DeleteDoes(c, d, name);
        case Update(_, _) => UpdateDoes(c, d, name);
      }
    }
  }

  // ----- any run of commands -----

  /** `ds` are the documents before, between and after the commands. */
  ghost predicate IsRun(ds: seq<Docs>, cs: seq<Command>) {
    |ds| == |cs| + 1 && Good(ds[0]) && forall i: nat :: i < |cs| ==> StepAt(ds, cs, i)
  }

  ghost predicate StepAt(ds: seq<Docs>, cs: seq<Command>, i: nat)
    requires i < |cs| && |ds| == |cs| + 1
  {
    ds[i + 1] == Done(cs[i], ds[i])
  }

  predicate Took(ds: seq<Docs>, cs: seq<Command>, k: nat)
    requires k < |cs| < |ds|
  {
    Succeeds(cs[k], ds[k])
  }

  /** Of the first `n` commands, the k-th was the last to make or delete the user. */
  ghost predicate LastMade(ds: seq<Docs>, cs: seq<Command>, n: nat, k: nat, name: string)
    requires n <= |cs| < |ds|
  {
    && k < n && MadeAt(ds, cs, k, name)
    && forall j :: k < j < n ==> !MadeAt(ds, cs, j, name)
  }

  predicate MadeAt(ds: seq<Docs>, cs: seq<Command>, k: nat, name: string)
    requires k < |cs| < |ds|
  {
    Took(ds, cs, k) && cs[k].username == name && !cs[k].Update?
  }

  /** The grants a create or a delete leaves its user. */
  function Made(c: Command): Option<Yaml> {
    if c.Create? then Some(FreshBlock(c.grants)) else None
  }

  lemma {:induction false} RunKeepsGood(ds: seq<Docs>, cs: seq<Command>, n: nat)
    requires IsRun(ds, cs) && n <= |cs|
    ensures Good(ds[n])
  {
    if n > 0 {
      var m := n - 1;
      RunKeepsGood(ds, cs, m);
      assert StepAt(ds, cs, m);
      CommandDoes(cs[m], ds[m], "");
    }
  }

  /** One command of a run, for one user. */
  lemma RunStep(ds: seq<Docs>, cs: seq<Command>, m: nat, n: nat, name: string)
    requires IsRun(ds, cs) && n == m + 1 <= |cs|
    ensures GrantsOf(ds[n], name) == if MadeAt(ds, cs, m, name) then Made(cs[m]) else GrantsOf(ds[m], name)
    ensures cs[m].username != name ==> Entry(Users(ds[n]), name) == Entry(Users(ds[m]), name)
  {
    RunKeepsGood(ds, cs, m);
    assert StepAt(ds, cs, m);
    CommandDoes(cs[m], ds[m], name);
  }

  /** After any run a user's grants are those of its latest create, and none after
      a delete; updates and whatever happens to others do not touch them. */
  lemma {:induction false} GrantsAreOfLatestCreate(ds: seq<Docs>, cs: seq<Command>, n: nat, k: nat, name: string)
    requires IsRun(ds, cs) && n <= |cs| && LastMade(ds, cs, n, k, name)
    ensures GrantsOf(ds[n], name) == if cs[k].Create? then Some(FreshBlock(cs[k].grants)) else None
  {
    var m := n - 1;
    RunStep(ds, cs, m, n, name);
    if k < m {
      assert !MadeAt(ds, cs, m, name);
      GrantsAreOfLatestCreate(ds, cs, m, k, name);
    }
  }

  /** A user no command of the run was about keeps its entry and its grants. */
  lemma {:induction false} OthersUntouched(ds: seq<Docs>, cs: seq<Command>, n: nat, name: string)
    requires IsRun(ds, cs) && n <= |cs| && forall j :: 0 <= j < n ==> cs[j].username != name
    ensures Entry(Users(ds[n]), name) == Entry(Users(ds[0]), name) && GrantsOf(ds[n], name) == GrantsOf(ds[0], name)
  {
    if n > 0 {
      var m := n - 1;
      OthersUntouched(ds, cs, m, name);
      RunStep(ds, cs, m, n, name);
    }
  }
}
