/** cmd/mcpd/reload.go: one reload as it changes the daemon, from the comparison
    of the old and new configuration to the sessions it closes. */
module Reload {
  import opened Text
  import opened Sorting

  datatype User = User(username: string, token: string, salt: string, hash: string, pinnedUid: string, osUid: string)

  datatype Tok = Tok(token: string, salt: string, hash: string)

  datatype Tls = Tls(enabled: bool, port: int, certFile: string, keyFile: string, generate: bool, hosts: seq<string>)

  datatype Http = Http(enabled: bool, port: int)

  datatype Server = Server(port: int, tls: Tls, http: Option<Http>, keepaliveSeconds: int)

  datatype Worker = Worker(timeoutSeconds: int, containerized: bool, dockerSocket: string)

  datatype RateLimits = RateLimits(rps: real, burst: int)

  datatype Logging = Logging(level: string, format: string, accessLog: Option<bool>)

  datatype Config = Config(server: Server, rateLimits: RateLimits, worker: Worker, tools: map<string, int>,
                           logging: Logging, users: seq<User>)

  datatype CronRule = CronRule(view: bool, edit: bool)

  datatype NetPolicy = NetPolicy(denyPrivate: bool, allow: seq<string>, deny: seq<string>)

  datatype SysctlPolicy = SysctlPolicy(writeKeys: seq<string>)

  datatype ToolPrivilege = ToolPrivilege(allowed: bool, paths: seq<string>, containers: seq<string>, prune: seq<string>,
                                         users: map<string, CronRule>, network: Option<NetPolicy>, sysctl: Option<SysctlPolicy>)

  datatype Privileged = Privileged(tools: map<string, ToolPrivilege>, resources: map<string, seq<string>>)

  type Sudo = map<string, Privileged>

  datatype Loaded<+T> = Good(value: T) | Bad(error: string)

  // ----- comparing two maps -----

  datatype Edit = Removed(key: string) | Added(key: string) | Changed(key: string)

  function EditOf<V(==)>(k: string, p: map<string, V>, n: map<string, V>): Option<Edit> {
    if k in p && k !in n then Some(Removed(k))
    else if k !in p && k in n then Some(Added(k))
    else if k in p && k in n && p[k] != n[k] then Some(Changed(k))
    else None
  }

  /** The edits of the first `i` keys, in their order. */
  function EditsOf<V(==)>(keys: seq<string>, i: nat, p: map<string, V>, n: map<string, V>): seq<Edit>
    requires i <= |keys|
  {
    if i == 0 then [] else
      EditsOf(keys, i - 1, p, n) + (match EditOf(keys[i - 1], p, n) case None => [] case Some(e) => [e])
  }

  /** sortedKeys of two maps: their keys, each once, in order. */
  ghost predicate AreSortedKeys<V>(keys: seq<string>, p: map<string, V>, n: map<string, V>) {
    && Sorted(keys)
    && (forall k :: k in keys <==> k in p || k in n)
    && (forall k :: k in keys ==> multiset(keys)[k] == 1)
  }

  lemma SortedKeysAreUnique<V>(a: seq<string>, b: seq<string>, p: map<string, V>, n: map<string, V>)
    requires AreSortedKeys(a, p, n) && AreSortedKeys(b, p, n)
    ensures a == b
  {
    forall k ensures multiset(a)[k] == multiset(b)[k] {
      if k in a { assert k in b; } else { assert k !in b; }
    }
    assert multiset(a) == multiset(b);
    SortedIsUnique(a, b);
  }

  method SortedKeys<V>(p: map<string, V>, n: map<string, V>) returns (keys: seq<string>)
    ensures AreSortedKeys(keys, p, n)
  {
    var rest := p.Keys + n.Keys;
    var found: seq<string> := [];
    while rest != {}
      invariant forall k :: k in found ==> k !in rest
      invariant forall k :: k in found || k in rest <==> k in p || k in n
      invariant forall k :: k in found ==> multiset(found)[k] == 1
      decreases rest
    {
      var k :| k in rest;
      found := found + [k];
      rest := rest - {k};
    }
    SortIsSorted(found);
    keys := SortStrings(found);
    assert forall k :: k in keys <==> k in multiset(keys);
    assert forall k :: k in found <==> k in multiset(found);
  }

  /** The loop configChanges runs over users, over a user's tool grants and over
      its resource grants. */
  method CompareMaps<V(==)>(p: map<string, V>, n: map<string, V>) returns (edits: seq<Edit>)
    ensures Reports(edits, p, n)
    ensures exists keys :: AreSortedKeys(keys, p, n) && edits == EditsOf(keys, |keys|, p, n)
  {
    var keys := SortedKeys(p, n);
    edits := [];
    for i := 0 to |keys|
      invariant edits == EditsOf(keys, i, p, n)
    {
      var k := keys[i];
      if k !in n {
        edits := edits + [Removed(k)];
      } else if k !in p {
        edits := edits + [Added(k)];
      } else if p[k] != n[k] {
        edits := edits + [Changed(k)];
      }
    }
    EditsReport(keys, p, n);
  }

  lemma {:induction false} EditsMembers<V>(keys: seq<string>, i: nat, p: map<string, V>, n: map<string, V>, e: Edit)
    requires i <= |keys|
    ensures e in EditsOf(keys, i, p, n) <==> e.key in keys[..i] && EditOf(e.key, p, n) == Some(e)
  {
    if i > 0 {
      EditsMembers(keys, i - 1, p, n, e);
      assert keys[..i] == keys[..i - 1] + [keys[i - 1]];
    }
  }

  /** What the edits make of the old map. */
  function Patched<V(==)>(edits: seq<Edit>, i: nat, p: map<string, V>, n: map<string, V>): map<string, V>
    requires i <= |edits|
    requires forall e :: e in edits && !e.Removed? ==> e.key in n
  {
    if i == 0 then p else
      var m := Patched(edits, i - 1, p, n);
      var e := edits[i - 1];
      if e.Removed? then m - {e.key} else m[e.key := n[e.key]]
  }

  /** A list that reports every difference and nothing else. */
  ghost predicate Reports<V>(edits: seq<Edit>, p: map<string, V>, n: map<string, V>) {
    forall e :: e in edits <==> EditOf(e.key, p, n) == Some(e)
  }

  lemma {:induction false} PatchedAt<V>(edits: seq<Edit>, i: nat, p: map<string, V>, n: map<string, V>, k: string)
    requires i <= |edits| && Reports(edits, p, n)
    ensures var m := Patched(edits, i, p, n);
            if EditOf(k, p, n).Some? && EditOf(k, p, n).value in edits[..i]
            then (k in m <==> k in n) && (k in n ==> m[k] == n[k])
            else (k in m <==> k in p) && (k in p ==> m[k] == p[k])
  {
    if i > 0 {
      PatchedAt(edits, i - 1, p, n, k);
      assert edits[..i] == edits[..i - 1] + [edits[i - 1]];
      assert edits[i - 1] in edits;
    }
  }

  lemma EditsReport<V>(keys: seq<string>, p: map<string, V>, n: map<string, V>)
    requires AreSortedKeys(keys, p, n)
    ensures Reports(EditsOf(keys, |keys|, p, n), p, n)
  {
    var edits := EditsOf(keys, |keys|, p, n);
    forall e ensures e in edits <==> EditOf(e.key, p, n) == Some(e) {
      EditsMembers(keys, |keys|, p, n, e);
      assert keys[..|keys|] == keys;
    }
  }

  /** A complete report tells the whole difference: its edits turn the old map
      into the new one, and it is empty exactly when the two are equal. */
  lemma ReportIsComplete<V>(edits: seq<Edit>, p: map<string, V>, n: map<string, V>)
    requires Reports(edits, p, n)
    ensures Patched(edits, |edits|, p, n) == n
    ensures edits == [] <==> p == n
  {
    var m := Patched(edits, |edits|, p, n);
    forall k ensures (k in m <==> k in n) && (k in n ==> m[k] == n[k]) {
      PatchedAt(edits, |edits|, p, n, k);
      assert edits[..|edits|] == edits;
      if EditOf(k, p, n).Some? {
        var e := EditOf(k, p, n).value;
        assert e in edits;
      }
    }
    assert m == n;
    assert edits == [] || edits[0] in edits;
  }

  // ----- what changed between two configurations -----

  function TokOf(u: User): Tok {
    Tok(u.token, u.salt, u.hash)
  }

  /** Each name's credential among the first `i` users; the last entry counts. */
  function Tokens(users: seq<User>, i: nat): map<string, Tok>
    requires i <= |users|
  {
    if i == 0 then map[] else Tokens(users, i - 1)[users[i - 1].username := TokOf(users[i - 1])]
  }

  function AllTokens(users: seq<User>): map<string, Tok> {
    Tokens(users, |users|)
  }

  function GrantsOf(name: string, sudo: Sudo): Privileged {
    if name in sudo then sudo[name] else Privileged(map[], map[])
  }

  datatype Change =
    | OfUser(e: Edit) | OfTool(user: string, e: Edit) | OfResource(user: string, e: Edit)
    | OfRateLimits | OfLogging | OfTimeouts

  predicate IsChange(c: Change, prev: Config, next: Config, prevSudo: Sudo, nextSudo: Sudo) {
    match c
    case OfUser(e) => EditOf(e.key, AllTokens(prev.users), AllTokens(next.users)) == Some(e)
    case OfTool(u, e) => EditOf(e.key, GrantsOf(u, prevSudo).tools, GrantsOf(u, nextSudo).tools) == Some(e)
    case OfResource(u, e) => EditOf(e.key, GrantsOf(u, prevSudo).resources, GrantsOf(u, nextSudo).resources) == Some(e)
    case OfRateLimits => prev.rateLimits != next.rateLimits
    case OfLogging => prev.logging != next.logging
    case OfTimeouts => prev.worker.timeoutSeconds != next.worker.timeoutSeconds || prev.tools != next.tools
  }

  method TokenMap(users: seq<User>) returns (tokens: map<string, Tok>)
    ensures tokens == AllTokens(users)
  {
    tokens := map[];
    for i := 0 to |users|
      invariant tokens == Tokens(users, i)
    {
      tokens := tokens[users[i].username := TokOf(users[i])];
    }
  }

  /** Whose sessions must end: removed, or with another credential. */
  predicate MustEnd(name: string, prev: seq<User>, next: seq<User>) {
    var p, n := AllTokens(prev), AllTokens(next);
    name in p && (name !in n || p[name] != n[name])
  }

  method UserChanges(prev: seq<User>, next: seq<User>) returns (edits: seq<Edit>, closeUsers: set<string>)
    ensures Reports(edits, AllTokens(prev), AllTokens(next))
    ensures forall name :: name in closeUsers <==> MustEnd(name, prev, next)
  {
    var p := TokenMap(prev);
    var n := TokenMap(next);
    edits := CompareMaps(p, n);
    closeUsers := Ending(edits);
    forall name ensures name in closeUsers <==> MustEnd(name, prev, next) {
      EndingUser(edits, p, n, name);
    }
  }

  method Ending(edits: seq<Edit>) returns (names: set<string>)
    ensures forall name :: name in names <==> exists j :: 0 <= j < |edits| && Ends(edits[j], name)
  {
    names := {};
    for i := 0 to |edits|
      invariant forall name :: name in names <==> exists j :: 0 <= j < i && Ends(edits[j], name)
    {
      if !edits[i].Added? {
        names := names + {edits[i].key};
      }
    }
  }

  lemma EndingUser(edits: seq<Edit>, p: map<string, Tok>, n: map<string, Tok>, name: string)
    requires Reports(edits, p, n)
    ensures (exists j :: 0 <= j < |edits| && Ends(edits[j], name)) <==> name in p && (name !in n || p[name] != n[name])
  {
    if name in p && (name !in n || p[name] != n[name]) {
      var e := EditOf(name, p, n).value;
      assert EditOf(e.key, p, n) == Some(e);
      var j :| 0 <= j < |edits| && edits[j] == e;
      assert Ends(edits[j], name);
    }
    if j :| 0 <= j < |edits| && Ends(edits[j], name) {
      assert edits[j] in edits;
    }
  }

  predicate Ends(e: Edit, name: string) {
    !e.Added? && e.key == name
  }

  ghost predicate GrantsReported(changes: seq<Change>, names: set<string>, p: Sudo, n: Sudo) {
    forall c :: c in changes <==> GrantChange(c, names, p, n)
  }

  ghost predicate GrantChange(c: Change, names: set<string>, p: Sudo, n: Sudo) {
    match c
    case OfTool(u, e) => u in names && EditOf(e.key, GrantsOf(u, p).tools, GrantsOf(u, n).tools) == Some(e)
    case OfResource(u, e) => u in names && EditOf(e.key, GrantsOf(u, p).resources, GrantsOf(u, n).resources) == Some(e)
    case _ => false
  }

  /** One user's grants. */
  method GrantChangesOf(name: string, p: Sudo, n: Sudo) returns (changes: seq<Change>)
    ensures GrantsReported(changes, {name}, p, n)
  {
    var prev, next := GrantsOf(name, p), GrantsOf(name, n);
    var tools := CompareMaps(prev.tools, next.tools);
    var resources := CompareMaps(prev.resources, next.resources);
    var a := seq(|tools|, i requires 0 <= i < |tools| => OfTool(name, tools[i]));
    var b := seq(|resources|, i requires 0 <= i < |resources| => OfResource(name, resources[i]));
    changes := a + b;
    forall c ensures c in changes <==> GrantChange(c, {name}, p, n) {
      Tagged(tools, a, name, c);
      TaggedResources(resources, b, name, c);
    }
  }

  lemma Tagged(edits: seq<Edit>, a: seq<Change>, name: string, c: Change)
    requires |a| == |edits| && forall i :: 0 <= i < |a| ==> a[i] == OfTool(name, edits[i])
    ensures c in a <==> c.OfTool? && c.user == name && c.e in edits
  {
    if c.OfTool? && c.user == name && c.e in edits {
      var i :| 0 <= i < |edits| && edits[i] == c.e;
      assert a[i] == c;
    }
  }

  lemma TaggedResources(edits: seq<Edit>, a: seq<Change>, name: string, c: Change)
    requires |a| == |edits| && forall i :: 0 <= i < |a| ==> a[i] == OfResource(name, edits[i])
    ensures c in a <==> c.OfResource? && c.user == name && c.e in edits
  {
    if c.OfResource? && c.user == name && c.e in edits {
      var i :| 0 <= i < |edits| && edits[i] == c.e;
      assert a[i] == c;
    }
  }

  method GrantChanges(p: Sudo, n: Sudo) returns (changes: seq<Change>)
    ensures GrantsReported(changes, p.Keys + n.Keys, p, n)
  {
    var keys := SortedKeys(p, n);
    changes := [];
    ghost var seen: set<string> := {};
    for i := 0 to |keys|
      invariant seen == set k | k in keys[..i]
      invariant GrantsReported(changes, seen, p, n)
    {
      var more := GrantChangesOf(keys[i], p, n);
      MoreGrants(changes, more, seen, keys[i], p, n);
      changes := changes + more;
      seen := seen + {keys[i]};
      assert keys[..i + 1] == keys[..i] + [keys[i]];
    }
    assert keys[..|keys|] == keys;
    assert seen == p.Keys + n.Keys;
  }

  lemma MoreGrants(a: seq<Change>, b: seq<Change>, seen: set<string>, name: string, p: Sudo, n: Sudo)
    requires GrantsReported(a, seen, p, n) && GrantsReported(b, {name}, p, n)
    ensures GrantsReported(a + b, seen + {name}, p, n)
  {
    forall c ensures c in a + b <==> GrantChange(c, seen + {name}, p, n) {
      assert c in a <==> GrantChange(c, seen, p, n);
      assert c in b <==> GrantChange(c, {name}, p, n);
    }
  }

  ghost predicate AllReported(changes: seq<Change>, prev: Config, next: Config, prevSudo: Sudo, nextSudo: Sudo) {
    forall c :: c in changes <==> IsChange(c, prev, next, prevSudo, nextSudo)
  }

  method ConfigChanges(prev: Config, next: Config, prevSudo: Sudo, nextSudo: Sudo)
    returns (changes: seq<Change>, closeUsers: set<string>)
    ensures AllReported(changes, prev, next, prevSudo, nextSudo)
    ensures forall name :: name in closeUsers <==> MustEnd(name, prev.users, next.users)
  {
    var edits, ends := UserChanges(prev.users, next.users);
    closeUsers := ends;
    var users := seq(|edits|, i requires 0 <= i < |edits| => OfUser(edits[i]));
    var grants := GrantChanges(prevSudo, nextSudo);
    var limits := if prev.rateLimits != next.rateLimits then [OfRateLimits] else [];
    var logging := if prev.logging != next.logging then [OfLogging] else [];
    var timeouts := if prev.worker.timeoutSeconds != next.worker.timeoutSeconds || prev.tools != next.tools then [OfTimeouts] else [];
    changes := users + grants + (limits + logging + timeouts);
    AllParts(changes, edits, users, grants, limits + logging + timeouts, prev, next, prevSudo, nextSudo);
  }

  lemma AllParts(changes: seq<Change>, edits: seq<Edit>, users: seq<Change>, grants: seq<Change>, rest: seq<Change>,
                 prev: Config, next: Config, prevSudo: Sudo, nextSudo: Sudo)
    requires changes == users + grants + rest
    requires Reports(edits, AllTokens(prev.users), AllTokens(next.users))
    requires |users| == |edits| && forall i :: 0 <= i < |users| ==> users[i] == OfUser(edits[i])
    requires GrantsReported(grants, prevSudo.Keys + nextSudo.Keys, prevSudo, nextSudo)
    requires forall c :: c in rest <==> (c.OfRateLimits? || c.OfLogging? || c.OfTimeouts?) && IsChange(c, prev, next, prevSudo, nextSudo)
    ensures AllReported(changes, prev, next, prevSudo, nextSudo)
  {
    forall c ensures c in changes <==> IsChange(c, prev, next, prevSudo, nextSudo) {
      assert c in changes <==> c in users || c in grants || c in rest;
      assert c in grants <==> GrantChange(c, prevSudo.Keys + nextSudo.Keys, prevSudo, nextSudo);
      if c.OfUser? && c.e in edits {
        var i :| 0 <= i < |edits| && edits[i] == c.e;
        assert users[i] == c;
      }
    }
  }

  // ----- what the report says of users and grants -----

  ghost predicate SameGrants(p: Sudo, n: Sudo) {
    forall name :: GrantsOf(name, p) == GrantsOf(name, n)
  }

  /** Tool grants that came, went or changed are reported as such, user by user;
      a user with no block has no grants. */
  lemma ToolGrantsReported(changes: seq<Change>, prev: Config, next: Config, p: Sudo, n: Sudo, u: string, tool: string)
    requires AllReported(changes, prev, next, p, n)
    ensures OfTool(u, Removed(tool)) in changes <==> (u in p && tool in p[u].tools) && !(u in n && tool in n[u].tools)
    ensures OfTool(u, Added(tool)) in changes <==> !(u in p && tool in p[u].tools) && (u in n && tool in n[u].tools)
    ensures OfTool(u, Changed(tool)) in changes <==>
              (u in p && tool in p[u].tools) && (u in n && tool in n[u].tools) && p[u].tools[tool] != n[u].tools[tool]
  {
    assert OfTool(u, Removed(tool)) in changes <==> IsChange(OfTool(u, Removed(tool)), prev, next, p, n);
    assert OfTool(u, Added(tool)) in changes <==> IsChange(OfTool(u, Added(tool)), prev, next, p, n);
    assert OfTool(u, Changed(tool)) in changes <==> IsChange(OfTool(u, Changed(tool)), prev, next, p, n);
  }

  /** The same for what a user may read as root. */
  lemma ResourceGrantsReported(changes: seq<Change>, prev: Config, next: Config, p: Sudo, n: Sudo, u: string, res: string)
    requires AllReported(changes, prev, next, p, n)
    ensures OfResource(u, Removed(res)) in changes <==> (u in p && res in p[u].resources) && !(u in n && res in n[u].resources)
    ensures OfResource(u, Added(res)) in changes <==> !(u in p && res in p[u].resources) && (u in n && res in n[u].resources)
    ensures OfResource(u, Changed(res)) in changes <==>
              (u in p && res in p[u].resources) && (u in n && res in n[u].resources) && p[u].resources[res] != n[u].resources[res]
  {
    assert OfResource(u, Removed(res)) in changes <==> IsChange(OfResource(u, Removed(res)), prev, next, p, n);
    assert OfResource(u, Added(res)) in changes <==> IsChange(OfResource(u, Added(res)), prev, next, p, n);
    assert OfResource(u, Changed(res)) in changes <==> IsChange(OfResource(u, Changed(res)), prev, next, p, n);
  }

  /** Users that came, went or have another token, salt or hash, where no name is
      listed twice; and whose sessions end. */
  lemma UsersReported(changes: seq<Change>, prev: Config, next: Config, p: Sudo, n: Sudo, name: string)
    requires AllReported(changes, prev, next, p, n) && UniqueNames(prev.users) && UniqueNames(next.users)
    ensures OfUser(Removed(name)) in changes <==>
              (exists i :: 0 <= i < |prev.users| && prev.users[i].username == name) && forall j :: 0 <= j < |next.users| ==> next.users[j].username != name
    ensures OfUser(Added(name)) in changes <==>
              (exists j :: 0 <= j < |next.users| && next.users[j].username == name) && forall i :: 0 <= i < |prev.users| ==> prev.users[i].username != name
    ensures OfUser(Changed(name)) in changes <==>
              exists i, j :: 0 <= i < |prev.users| && 0 <= j < |next.users| && prev.users[i].username == name == next.users[j].username
                && OtherCredential(prev.users[i], next.users[j])
    ensures MustEnd(name, prev.users, next.users) <==> OfUser(Removed(name)) in changes || OfUser(Changed(name)) in changes
  {
    assert OfUser(Removed(name)) in changes <==> IsChange(OfUser(Removed(name)), prev, next, p, n);
    assert OfUser(Added(name)) in changes <==> IsChange(OfUser(Added(name)), prev, next, p, n);
    assert OfUser(Changed(name)) in changes <==> IsChange(OfUser(Changed(name)), prev, next, p, n);
    TokenIsListed(prev.users, name);
    TokenIsListed(next.users, name);
  }

  predicate OtherCredential(a: User, b: User) {
    a.token != b.token || a.salt != b.salt || a.hash != b.hash
  }

  lemma TokenIsListed(users: seq<User>, name: string)
    requires UniqueNames(users)
    ensures name in AllTokens(users) <==> exists i :: 0 <= i < |users| && users[i].username == name
    ensures forall i :: 0 <= i < |users| && users[i].username == name ==>
              AllTokens(users)[name] == Tok(users[i].token, users[i].salt, users[i].hash)
  {
    if name in AllTokens(users) {
      var i := EntryOfToken(users, name, |users|);
    }
    forall i | 0 <= i < |users| && users[i].username == name
      ensures name in AllTokens(users) && AllTokens(users)[name] == Tok(users[i].token, users[i].salt, users[i].hash)
    {
      TokenOfEntry(users, i, |users|);
    }
  }

  /** The two grant files give every user the same tools and resources, on the
      same terms. */
  ghost predicate GrantTheSame(p: Sudo, n: Sudo) {
    && (forall u, tool :: (u in p && tool in p[u].tools) <==> (u in n && tool in n[u].tools))
    && (forall u, tool :: u in p && tool in p[u].tools && u in n && tool in n[u].tools ==> p[u].tools[tool] == n[u].tools[tool])
    && (forall u, res :: (u in p && res in p[u].resources) <==> (u in n && res in n[u].resources))
    && (forall u, res :: u in p && res in p[u].resources && u in n && res in n[u].resources ==> p[u].resources[res] == n[u].resources[res])
  }

  lemma SameGrantsIs(p: Sudo, n: Sudo)
    ensures SameGrants(p, n) <==> GrantTheSame(p, n)
  {
    if SameGrants(p, n) {
      forall u, tool
        ensures (u in p && tool in p[u].tools) <==> (u in n && tool in n[u].tools)
        ensures u in p && tool in p[u].tools && u in n && tool in n[u].tools ==> p[u].tools[tool] == n[u].tools[tool]
      {
        assert GrantsOf(u, p) == GrantsOf(u, n);
      }
      forall u, res
        ensures (u in p && res in p[u].resources) <==> (u in n && res in n[u].resources)
        ensures u in p && res in p[u].resources && u in n && res in n[u].resources ==> p[u].resources[res] == n[u].resources[res]
      {
        assert GrantsOf(u, p) == GrantsOf(u, n);
      }
    }
    if GrantTheSame(p, n) {
      forall u ensures GrantsOf(u, p) == GrantsOf(u, n) {
        assert GrantsOf(u, p).tools == GrantsOf(u, n).tools;
        assert GrantsOf(u, p).resources == GrantsOf(u, n).resources;
      }
    }
  }

  /** "No changes." is printed exactly when credentials, every user's grants,
      limits, logging and time limits are all as they were. */
  lemma NoChangesMeansEqual(changes: seq<Change>, prev: Config, next: Config, prevSudo: Sudo, nextSudo: Sudo)
    requires AllReported(changes, prev, next, prevSudo, nextSudo)
    ensures changes == [] <==>
              && AllTokens(prev.users) == AllTokens(next.users) && GrantTheSame(prevSudo, nextSudo)
              && prev.rateLimits == next.rateLimits && prev.logging == next.logging
              && prev.worker.timeoutSeconds == next.worker.timeoutSeconds && prev.tools == next.tools
  {
    SameGrantsIs(prevSudo, nextSudo);
    if changes == [] {
      NothingReported(prev, next, prevSudo, nextSudo);
    } else {
      assert changes[0] in changes;
      assert IsChange(changes[0], prev, next, prevSudo, nextSudo);
    }
  }

  lemma NothingReported(prev: Config, next: Config, prevSudo: Sudo, nextSudo: Sudo)
    requires AllReported([], prev, next, prevSudo, nextSudo)
    ensures AllTokens(prev.users) == AllTokens(next.users) && SameGrants(prevSudo, nextSudo)
    ensures prev.rateLimits == next.rateLimits && prev.logging == next.logging
    ensures prev.worker.timeoutSeconds == next.worker.timeoutSeconds && prev.tools == next.tools
  {
    assert !IsChange(OfRateLimits, prev, next, prevSudo, nextSudo);
    assert !IsChange(OfLogging, prev, next, prevSudo, nextSudo);
    assert !IsChange(OfTimeouts, prev, next, prevSudo, nextSudo);
    forall e: Edit ensures EditOf(e.key, AllTokens(prev.users), AllTokens(next.users)) != Some(e) {
      assert !IsChange(OfUser(e), prev, next, prevSudo, nextSudo);
    }
    ReportIsComplete([], AllTokens(prev.users), AllTokens(next.users));
    forall name ensures GrantsOf(name, prevSudo) == GrantsOf(name, nextSudo) {
      var p, n := GrantsOf(name, prevSudo), GrantsOf(name, nextSudo);
      forall e: Edit ensures EditOf(e.key, p.tools, n.tools) != Some(e) {
        assert !IsChange(OfTool(name, e), prev, next, prevSudo, nextSudo);
      }
      forall e: Edit ensures EditOf(e.key, p.resources, n.resources) != Some(e) {
        assert !IsChange(OfResource(name, e), prev, next, prevSudo, nextSudo);
      }
      ReportIsComplete([], p.tools, n.tools);
      ReportIsComplete([], p.resources, n.resources);
    }
  }

  // ----- who may still connect -----

  /** authenticateRequest on one entry; `digest` is the salted SHA-256 in hex. */
  predicate Accepts(t: Tok, provided: string, digest: string -> string) {
    if t.hash != "" then digest(t.salt + provided) == t.hash else t.token == provided && t.token != ""
  }

  /** validateUsers: no name is listed twice. */
  ghost predicate UniqueNames(users: seq<User>) {
    forall i, j :: 0 <= i < j < |users| ==> users[i].username != users[j].username
  }

  lemma {:induction false} TokenOfEntry(users: seq<User>, i: nat, n: nat)
    requires UniqueNames(users) && n <= |users| && i < |users|
    ensures users[i].username in Tokens(users, n) <==> i < n
    ensures i < n ==> Tokens(users, n)[users[i].username] == TokOf(users[i])
  {
    if n > 0 {
      TokenOfEntry(users, i, n - 1);
    }
  }

  lemma {:induction false} EntryOfToken(users: seq<User>, name: string, n: nat) returns (i: nat)
    requires n <= |users| && name in Tokens(users, n)
    ensures i < n && users[i].username == name && TokOf(users[i]) == Tokens(users, n)[name]
  {
    if users[n - 1].username == name {
      i := n - 1;
    } else {
      i := EntryOfToken(users, name, n - 1);
    }
  }

  /** A user whose sessions stay open is still listed, and its entry accepts
      exactly the tokens it accepted before. */
  lemma OpenSessionsKeepTheirCredential(prev: seq<User>, next: seq<User>, i: nat, digest: string -> string) returns (j: nat)
    requires UniqueNames(prev) && UniqueNames(next) && i < |prev|
    requires !MustEnd(prev[i].username, prev, next)
    ensures j < |next| && next[j].username == prev[i].username
    ensures forall provided :: Accepts(TokOf(prev[i]), provided, digest) <==> Accepts(TokOf(next[j]), provided, digest)
  {
    TokenOfEntry(prev, i, |prev|);
    j := EntryOfToken(next, prev[i].username, |next|);
  }

  /** Ending a session does not mean that its token is dead: a user moved from a
      plaintext token to the digest of the same token loses the session, and
      may open another with that token. */
  lemma EndedUserMayStillConnect(digest: string -> string, token: string)
    requires token != "" && digest("s" + token) != ""
    ensures exists prev: seq<User>, next: seq<User> :: UniqueNames(prev) && UniqueNames(next) && |prev| == |next| == 1
              && MustEnd("a", prev, next) && prev[0].username == next[0].username == "a"
              && Accepts(TokOf(prev[0]), token, digest) && Accepts(TokOf(next[0]), token, digest)
  {
    var prev := [User("a", token, "", "", "", "")];
    var next := [User("a", "", "s", digest("s" + token), "", "")];
    assert AllTokens(prev) == Tokens(prev, 0)["a" := Tok(token, "", "")];
    assert AllTokens(next) == Tokens(next, 0)["a" := Tok("", "s", digest("s" + token))];
    assert MustEnd("a", prev, next);
  }

  /** Some entry of this name accepts the token. */
  ghost predicate StillAccepted(name: string, users: seq<User>, provided: string, digest: string -> string) {
    exists j :: 0 <= j < |users| && users[j].username == name && Accepts(TokOf(users[j]), provided, digest)
  }

  /** When a token of a user whose sessions end is accepted after the reload: never
      for a user that is gone; else exactly if it is the new plaintext token, or
      if it fits the new salt and digest. */
  lemma EndedTokenIsAcceptedIff(prev: seq<User>, next: seq<User>, i: nat, provided: string, digest: string -> string)
    requires UniqueNames(prev) && UniqueNames(next) && i < |prev| && MustEnd(prev[i].username, prev, next)
    requires Accepts(TokOf(prev[i]), provided, digest)
    ensures var name := prev[i].username;
            StillAccepted(name, next, provided, digest) <==>
              if name !in AllTokens(next) then false
              else if AllTokens(next)[name].hash == "" then AllTokens(next)[name].token == provided != ""
              else digest(AllTokens(next)[name].salt + provided) == AllTokens(next)[name].hash
  {
    var name := prev[i].username;
    if name in AllTokens(next) {
      var j := EntryOfToken(next, name, |next|);
      forall k | 0 <= k < |next| && next[k].username == name ensures k == j {
      }
    } else {
      forall k | 0 <= k < |next| ensures next[k].username != name {
        TokenOfEntry(next, k, |next|);
      }
    }
  }

  /** Whether some token is accepted by both credentials, by their kinds. */
  ghost predicate ShareToken(p: Tok, n: Tok, digest: string -> string) {
    if p.hash == "" && n.hash == "" then p.token == n.token != ""
    else if p.hash == "" then p.token != "" && digest(n.salt + p.token) == n.hash
    else if n.hash == "" then n.token != "" && digest(p.salt + n.token) == p.hash
    else exists x :: Fits(p, x, digest) && Fits(n, x, digest)
  }

  predicate Fits(t: Tok, x: string, digest: string -> string) {
    digest(t.salt + x) == t.hash
  }

  lemma ShareTokenIff(p: Tok, n: Tok, digest: string -> string)
    ensures ShareToken(p, n, digest) <==> exists x :: Accepts(p, x, digest) && Accepts(n, x, digest)
  {
    if p.hash == "" {
      assert ShareToken(p, n, digest) ==> Accepts(p, p.token, digest) && Accepts(n, p.token, digest);
    } else if n.hash == "" {
      assert ShareToken(p, n, digest) ==> Accepts(p, n.token, digest) && Accepts(n, n.token, digest);
    } else {
      forall x ensures Fits(p, x, digest) == Accepts(p, x, digest) && Fits(n, x, digest) == Accepts(n, x, digest) {
      }
    }
  }

  /** For a digest that no two texts share, and a digest made from a known token,
      that token alone decides. */
  lemma KnownTokenDecides(p: Tok, n: Tok, token: string, digest: string -> string)
    requires forall a, b :: digest(a) == digest(b) ==> a == b
    requires p.hash == digest(p.salt + token) != "" && n.hash != ""
    ensures ShareToken(p, n, digest) <==> digest(n.salt + token) == n.hash
  {
    assert Fits(p, token, digest);
    if x :| Fits(p, x, digest) && Fits(n, x, digest) {
      assert digest(p.salt + x) == digest(p.salt + token);
      assert (p.salt + x)[|p.salt|..] == x && (p.salt + token)[|p.salt|..] == token;
    }
  }

  ghost predicate Ended(prev: seq<User>, next: seq<User>, i: nat)
    requires i < |prev|
  {
    MustEnd(prev[i].username, prev, next)
  }

  /** No token of a user whose sessions end is accepted for that user again. */
  ghost predicate EndedAreRefused(prev: seq<User>, next: seq<User>, digest: string -> string) {
    forall i: nat, x :: i < |prev| && Ended(prev, next, i) && Accepts(TokOf(prev[i]), x, digest) ==>
      !StillAccepted(prev[i].username, next, x, digest)
  }

  /** No token of a user whose sessions end is accepted for anybody. */
  ghost predicate EndedAreStrangers(prev: seq<User>, next: seq<User>, digest: string -> string) {
    forall i: nat, x :: i < |prev| && Ended(prev, next, i) && Accepts(TokOf(prev[i]), x, digest) ==>
      forall j :: 0 <= j < |next| ==> !Accepts(TokOf(next[j]), x, digest)
  }

  ghost predicate EntriesShare(prev: seq<User>, next: seq<User>, i: nat, j: nat, digest: string -> string)
    requires i < |prev| && j < |next|
  {
    ShareToken(TokOf(prev[i]), TokOf(next[j]), digest)
  }

  /** "Their tokens no longer authenticate" holds of two configurations exactly if
      no ended user's old entry shares a token with its new one; and their tokens
      authenticate nobody exactly if it shares none with any new entry. */
  lemma EndedTokensAreDeadIff(prev: seq<User>, next: seq<User>, digest: string -> string)
    ensures EndedAreRefused(prev, next, digest) <==>
              forall i: nat, j: nat :: i < |prev| && j < |next| && Ended(prev, next, i) && next[j].username == prev[i].username ==>
                !EntriesShare(prev, next, i, j, digest)
    ensures EndedAreStrangers(prev, next, digest) <==>
              forall i: nat, j: nat :: i < |prev| && j < |next| && Ended(prev, next, i) ==> !EntriesShare(prev, next, i, j, digest)
  {
    forall i: nat, j: nat | i < |prev| && j < |next|
      ensures EntriesShare(prev, next, i, j, digest) <==>
                exists x :: Accepts(TokOf(prev[i]), x, digest) && Accepts(TokOf(next[j]), x, digest)
    {
      ShareTokenIff(TokOf(prev[i]), TokOf(next[j]), digest);
    }
  }

  // ----- the reload -----

  datatype RestartSetting = ServerPort | ServerTls | ServerKeepalive | ServerHttp | Containerized | DockerSocket

  method RestartOnlyChanges(running: Config, onDisk: Config) returns (out: seq<RestartSetting>)
    ensures ServerPort in out <==> onDisk.server.port != running.server.port
    ensures ServerTls in out <==> onDisk.server.tls != running.server.tls
    ensures ServerKeepalive in out <==> onDisk.server.keepaliveSeconds != running.server.keepaliveSeconds
    ensures ServerHttp in out <==> onDisk.server.http != running.server.http
    ensures Containerized in out <==> onDisk.worker.containerized != running.worker.containerized
    ensures DockerSocket in out <==> onDisk.worker.dockerSocket != running.worker.dockerSocket
    ensures out == [] <==> InEffect(running, onDisk) == onDisk
  {
    out := [];
    if onDisk.server.port != running.server.port { out := out + [ServerPort]; }
    if onDisk.server.tls != running.server.tls { out := out + [ServerTls]; }
    if onDisk.server.keepaliveSeconds != running.server.keepaliveSeconds { out := out + [ServerKeepalive]; }
    if onDisk.server.http != running.server.http { out := out + [ServerHttp]; }
    if onDisk.worker.containerized != running.worker.containerized { out := out + [Containerized]; }
    if onDisk.worker.dockerSocket != running.worker.dockerSocket { out := out + [DockerSocket]; }
  }

  /** The configuration after an accepted reload: what is on disk, except for
      what belongs to the running listeners and worker setup. */
  function InEffect(running: Config, onDisk: Config): Config {
    onDisk.(server := running.server,
            worker := onDisk.worker.(containerized := running.worker.containerized, dockerSocket := running.worker.dockerSocket))
  }

  predicate SameStartup(a: Config, b: Config) {
    && a.server == b.server && a.worker.containerized == b.worker.containerized
    && a.worker.dockerSocket == b.worker.dockerSocket
  }

  /** One attempt: the files on disk, or an error in one of them. */
  datatype Attempt = Attempt(config: Loaded<Config>, sudo: Loaded<Sudo>)

  predicate Accepted(a: Attempt) {
    a.config.Good? && a.sudo.Good?
  }

  function After(start: Config, attempts: seq<Attempt>, n: nat): Config
    requires n <= |attempts|
  {
    if n == 0 then start
    else
      var running := After(start, attempts, n - 1);
      if Accepted(attempts[n - 1]) then InEffect(running, attempts[n - 1].config.value) else running
  }

  /** After any sequence of reloads the daemon listens as it did at startup;
      all else is as in the last accepted attempt, whatever came in between. */
  lemma {:induction false} StartupSettingsSurvive(start: Config, attempts: seq<Attempt>, n: nat, last: nat)
    requires n <= |attempts|
    ensures SameStartup(After(start, attempts, n), start)
    ensures last < n && Accepted(attempts[last]) && (forall i :: last < i < n ==> !Accepted(attempts[i])) ==>
              After(start, attempts, n) == InEffect(start, attempts[last].config.value)
    ensures (forall i :: 0 <= i < n ==> !Accepted(attempts[i])) ==> After(start, attempts, n) == start
  {
    if n > 0 {
      StartupSettingsSurvive(start, attempts, n - 1, last);
    }
  }

  class Session {
    const user: string
    var done: bool

    constructor (user: string)
      ensures this.user == user && !done
    {
      this.user := user;
      done := false;
    }

    /** Safe to call more than once. */
    method Close()
      modifies this
      ensures done
    {
      if !done {
        done := true;
      }
    }
  }

  /** The keys of a map as iteration meets them: each once, in any order. */
  method AnyOrder(sessions: map<string, Session>) returns (ids: seq<string>)
    ensures forall id :: id in ids <==> id in sessions
    ensures forall i, j :: 0 <= i < j < |ids| ==> ids[i] != ids[j]
  {
    ids := [];
    var rest := sessions.Keys;
    while rest != {}
      invariant forall id :: id in sessions <==> id in ids || id in rest
      invariant forall id :: id in ids ==> id !in rest
      invariant forall i, j :: 0 <= i < j < |ids| ==> ids[i] != ids[j]
      decreases rest
    {
      var id :| id in rest;
      ids := ids + [id];
      rest := rest - {id};
    }
  }

  /** How many of the first `n` sessions belong to these users. */
  function Owned(sessions: map<string, Session>, users: set<string>, ids: seq<string>, n: nat): nat
    requires n <= |ids| && forall id :: id in ids ==> id in sessions
  {
    if n == 0 then 0
    else Owned(sessions, users, ids, n - 1) + (if sessions[ids[n - 1]].user in users then 1 else 0)
  }

  ghost function OwnedIds(sessions: map<string, Session>, users: set<string>, ids: seq<string>, n: nat): set<string>
    requires n <= |ids| && forall id :: id in ids ==> id in sessions
  {
    set i | 0 <= i < n && sessions[ids[i]].user in users :: ids[i]
  }

  lemma OwnedIdsStep(sessions: map<string, Session>, users: set<string>, ids: seq<string>, n: nat)
    requires 0 < n <= |ids| && forall id :: id in ids ==> id in sessions
    ensures OwnedIds(sessions, users, ids, n)
         == OwnedIds(sessions, users, ids, n - 1) + (if sessions[ids[n - 1]].user in users then {ids[n - 1]} else {})
  {
  }

  lemma {:induction false} OwnedIsCount(sessions: map<string, Session>, users: set<string>, ids: seq<string>, n: nat)
    requires n <= |ids| && forall id :: id in ids ==> id in sessions
    requires forall i, j :: 0 <= i < j < |ids| ==> ids[i] != ids[j]
    ensures Owned(sessions, users, ids, n) == |OwnedIds(sessions, users, ids, n)|
  {
    if n > 0 {
      var m := n - 1;
      OwnedIsCount(sessions, users, ids, m);
      OwnedIdsStep(sessions, users, ids, n);
      NotOwnedYet(sessions, users, ids, m);
      OneMore(OwnedIds(sessions, users, ids, m), ids[m]);
    }
  }

  lemma NotOwnedYet(sessions: map<string, Session>, users: set<string>, ids: seq<string>, m: nat)
    requires m < |ids| && forall id :: id in ids ==> id in sessions
    requires forall i, j :: 0 <= i < j < |ids| ==> ids[i] != ids[j]
    ensures ids[m] !in OwnedIds(sessions, users, ids, m)
  {
  }

  lemma OneMore(s: set<string>, x: string)
    ensures |s + {x}| == |s| + (if x in s then 0 else 1) && s + {} == s
  {
    if x in s { assert s + {x} == s; }
  }

  datatype Settings = Settings(sudo: Sudo, timeoutSeconds: int, tools: map<string, int>)

  datatype Outcome =
    | Rejected(error: string)
    | Reloaded(changes: seq<Change>, restartOnly: seq<RestartSetting>, closed: nat)

  class Daemon {
    var config: Config
    var usersPath: string
    var limiter: RateLimits
    var settings: Settings
    var logging: Logging
    var rpcCache: map<string, string>
    var resourceCache: map<string, string>
    var sessions: map<string, Session>

    ghost function Streams(): set<Session>
      reads this
    {
      sessions.Values
    }

    /** The open streams of these users. */
    ghost function StreamsOf(users: set<string>): set<string>
      reads this
    {
      set id | id in sessions && sessions[id].user in users
    }

    /** One stream, if it is one of these users'. */
    method CloseOne(session: Session, users: set<string>) returns (closed: bool)
      modifies session
      ensures closed <==> session.user in users
      ensures session.done == (old(session.done) || closed)
    {
      closed := session.user in users;
      if closed {
        session.Close();
      }
    }

    method CloseSessions(users: set<string>) returns (n: nat)
      modifies Streams()
      ensures n == |StreamsOf(users)|
      ensures forall s :: s in Streams() ==> s.done == (old(s.done) || s.user in users)
    {
      var ids := AnyOrder(sessions);
      n := 0;
      for i := 0 to |ids|
        invariant n == Owned(sessions, users, ids, i)
        invariant forall s :: s in Streams() ==> s.done == old(s.done) || (s.done && s.user in users)
        invariant forall j :: 0 <= j < i && sessions[ids[j]].user in users ==> sessions[ids[j]].done
      {
        var closed := CloseOne(sessions[ids[i]], users);
        n := if closed then n + 1 else n;
      }
      OwnedIsCount(sessions, users, ids, |ids|);
      assert OwnedIds(sessions, users, ids, |ids|) == StreamsOf(users);
      forall s | s in Streams() && s.user in users ensures s.done {
        var id :| id in sessions && sessions[id] == s;
        var j :| 0 <= j < |ids| && ids[j] == id;
      }
    }

    /** Reconfigure. */
    method Reconfigure(next: Settings)
      modifies this`settings, this`rpcCache, this`resourceCache
      ensures settings == next && rpcCache == map[] && resourceCache == map[]
    {
      settings := next;
      var keys := rpcCache.Keys;
      while keys != {}
        invariant rpcCache.Keys == keys && settings == next
        decreases keys
      {
        var k :| k in keys;
        rpcCache := rpcCache - {k};
        keys := keys - {k};
      }
      resourceCache := map[];
    }

    /** A reload that finds an error in either file changes nothing at all. One
        that does not puts the files in effect, drops what was cached under the
        old grants, and ends exactly the streams that must end. */
    method ReloadConfig(onDisk: Loaded<Config>, nextUsersPath: string, sudoOnDisk: Loaded<Sudo>) returns (outcome: Outcome)
      modifies this, Streams()
      ensures sessions == old(sessions)
      ensures outcome.Reloaded? <==> onDisk.Good? && sudoOnDisk.Good?
      ensures outcome.Rejected? ==>
                && config == old(config) && usersPath == old(usersPath) && limiter == old(limiter) && settings == old(settings)
                && logging == old(logging) && rpcCache == old(rpcCache) && resourceCache == old(resourceCache)
                && (forall s :: s in Streams() ==> s.done == old(s.done))
      ensures outcome.Reloaded? ==>
                && config == InEffect(old(config), onDisk.value) && usersPath == nextUsersPath
                && limiter == config.rateLimits && logging == config.logging
                && settings == Settings(sudoOnDisk.value, config.worker.timeoutSeconds, config.tools)
                && rpcCache == map[] && resourceCache == map[]
      ensures outcome.Reloaded? ==>
                && AllReported(outcome.changes, old(config), onDisk.value, old(settings.sudo), sudoOnDisk.value)
                && (outcome.restartOnly == [] <==> config == onDisk.value)
                && outcome.closed == |set id | id in sessions && MustEnd(sessions[id].user, old(config.users), onDisk.value.users)|
                && (forall s :: s in Streams() ==>
                      s.done == (old(s.done) || MustEnd(s.user, old(config.users), onDisk.value.users)))
    {
      if onDisk.Bad? {
        return Rejected(onDisk.error);
      }
      if sudoOnDisk.Bad? {
        return Rejected(sudoOnDisk.error);
      }
      var next, prev, nextSudo := onDisk.value, config, sudoOnDisk.value;
      var restartOnly := RestartOnlyChanges(prev, next);
      var changes, closeUsers := ConfigChanges(prev, next, settings.sudo, nextSudo);
      next := next.(server := prev.server);
      next := next.(worker := next.worker.(containerized := prev.worker.containerized));
      next := next.(worker := next.worker.(dockerSocket := prev.worker.dockerSocket));
      config := next;
      usersPath := nextUsersPath;
      limiter := next.rateLimits;
      Reconfigure(Settings(nextSudo, next.worker.timeoutSeconds, next.tools));
      logging := next.logging;
      var closed := CloseSessions(closeUsers);
      assert StreamsOf(closeUsers) == set id | id in sessions && MustEnd(sessions[id].user, prev.users, onDisk.value.users);
      outcome := Reloaded(changes, restartOnly, closed);
    }
  }
}
