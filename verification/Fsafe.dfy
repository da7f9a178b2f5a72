/** internal/fsafe/fsafe_linux.go: opening paths one component at a time, while
    an environment may rearrange the tree before every system call. */
module Fsafe {
  import opened Text
  import opened Paths
  import opened FileTree

  datatype Errno = ENOENT | ENOTDIR | EEXIST | ELOOP | EISDIR | OtherErrno(code: nat)

  datatype Error =
    | NotAbsolute(path: string)
    | NotAFilePath(path: string)
    | NotADirectory(path: string)
    | SymlinkRefused(path: string)
    | Sys(path: string, errno: Errno)

  datatype Result<+T, +E> = Ok(value: T) | Err(error: E)

  function Failure<T, E>(r: Result<T, E>): Option<E> {
    if r.Err? then Some(r.error) else None
  }

  /** `kind` is the type field of the stat taken through the descriptor. */
  datatype Node = Node(fd: Fd, inode: Inode, kind: Kind, path: string) {
    predicate IsDir() {
      kind == Directory
    }
  }

  datatype Flags = Flags(creat: bool, excl: bool, write: bool)

  /** Everything the caller does not control: what others do to the tree before
      the n-th system call, which calls fail, and which numbers are handed out. */
  datatype Environment = Environment(move: (nat, Tree) -> Tree,
                                     fault: nat -> Option<Errno>,
                                     pickFd: set<Fd> -> Fd,
                                     pickInode: (nat, Tree, Inode) -> Inode,
                                     list: (nat, Tree, Inode) -> seq<string>)
  {
    ghost predicate Possible() {
      && (forall n: nat, t: Tree :: t.WellFormed() ==> move(n, t).WellFormed() && Later(t, move(n, t)))
      && (forall s: set<Fd> :: pickFd(s) !in s)
      && (forall n: nat, t: Tree, d: Inode :: pickInode(n, t, d) !in t.kinds)
      && (forall n: nat, t: Tree, d: Inode :: ListedNames(list(n, t, d)))
    }

    ghost predicate Frozen() {
      forall n: nat, t: Tree :: move(n, t) == t
    }

    /** Nobody else acts, and getdents lists exactly what is there, in any
        order; calls may still fail. */
    ghost predicate Still() {
      && Frozen()
      && (forall n: nat, t: Tree, d: Inode :: t.WellFormed() && d in t.entries ==> Lists(t, d, list(n, t, d)))
    }

    /** No call fails by itself; others may act as they like. */
    ghost predicate Unfailing() {
      forall n: nat :: fault(n) == None
    }

    /** Nobody else acts and no call fails by itself. */
    ghost predicate Quiet() {
      Frozen() && Unfailing()
    }
  }

  ghost predicate ListedNames(names: seq<string>) {
    forall k :: 0 <= k < |names| ==> '/' !in names[k] && names[k] != ""
  }

  ghost predicate Distinct(names: seq<string>) {
    forall i, j :: 0 <= i < j < |names| ==> names[i] != names[j]
  }

  ghost predicate Lists(t: Tree, d: Inode, names: seq<string>)
    requires d in t.entries
  {
    Distinct(names) && forall x :: x in names <==> x == "." || x == ".." || x in t.entries[d]
  }

  // ----- such environments exist -----

  /** The elements of a finite set, each once. */
  ghost function Enumerated(names: set<string>): (all: seq<string>)
    ensures Distinct(all) && forall x :: x in all <==> x in names
  {
    if names == {} then []
    else
      var x :| x in names;
      Enumerated(names - {x}) + [x]
  }

  ghost function Unused(s: set<nat>): (n: nat)
    ensures forall x :: x in s ==> x < n
  {
    if s == {} then 0
    else
      var x :| x in s;
      var n := Unused(s - {x});
      assert forall y :: y in s ==> y == x || y in s - {x};
      if x < n then n else x + 1
  }

  /** What getdents returns for a directory of a proper tree. */
  ghost function Listing(t: Tree, d: Inode): seq<string> {
    if t.WellFormed() && d in t.entries then [".", ".."] + Enumerated(t.entries[d].Keys) else []
  }

  /** Nobody else acts, no call fails, and listings are complete. */
  ghost function Undisturbed(): Environment {
    Environment((n: nat, t: Tree) => t, (n: nat) => None, (s: set<Fd>) => Unused(s),
                (n: nat, t: Tree, d: Inode) => Unused(t.kinds.Keys), (n: nat, t: Tree, d: Inode) => Listing(t, d))
  }

  lemma ListingIsComplete(t: Tree, d: Inode)
    ensures ListedNames(Listing(t, d))
    ensures t.WellFormed() && d in t.entries ==> Lists(t, d, Listing(t, d))
  {
    if t.WellFormed() && d in t.entries {
      assert Tree.PlainKeys(t.entries[d]);
      WithDots(t.entries[d].Keys, Enumerated(t.entries[d].Keys));
    }
  }

  lemma WithDots(keys: set<string>, names: seq<string>)
    requires (forall x :: x in keys ==> Plain(x)) && Distinct(names) && forall x :: x in names <==> x in keys
    ensures var all := [".", ".."] + names;
            ListedNames(all) && Distinct(all) && forall x :: x in all <==> x == "." || x == ".." || x in keys
  {
    forall k | 0 <= k < |names| ensures Plain(names[k]) {
      assert names[k] in names;
    }
  }

  /** The assumptions on environments can all be met at once, so what is stated
      of still trees and of undisturbed calls is stated of something. */
  lemma UndisturbedIsPossible()
    ensures Undisturbed().Possible() && Undisturbed().Still() && Undisturbed().Quiet()
  {
    var env := Undisturbed();
    forall n: nat, t: Tree, d: Inode
      ensures ListedNames(env.list(n, t, d)) && (t.WellFormed() && d in t.entries ==> Lists(t, d, env.list(n, t, d)))
    {
      ListingIsComplete(t, d);
    }
    forall s: set<Fd> ensures env.pickFd(s) !in s { assert Unused(s) !in s; }
    forall n: nat, t: Tree, d: Inode ensures env.pickInode(n, t, d) !in t.kinds { assert Unused(t.kinds.Keys) !in t.kinds.Keys; }
  }

  // ----- reference: resolving names on a tree that stands still -----

  datatype Outcome = Reached(inode: Inode) | HitSymlink | Missing | NotDir

  /** One name looked up below a directory. */
  function Entry(t: Tree, d: Inode, name: string): Outcome {
    if !t.IsDir(d) || d !in t.entries || d !in t.parents then NotDir
    else
      match t.Lookup(d, name)
      case None => Missing
      case Some(c) => if c in t.kinds && t.kinds[c] == Symlink then HitSymlink else Reached(c)
  }

  function Resolve(t: Tree, d: Inode, names: seq<string>): Outcome
    decreases |names|
  {
    if names == [] then Reached(d)
    else
      match Entry(t, d, names[0])
      case Reached(c) => Resolve(t, c, names[1..])
      case HitSymlink => HitSymlink
      case Missing => Missing
      case NotDir => NotDir
  }

  predicate Agrees(r: Result<Node, Error>, o: Outcome) {
    match o
    case Reached(i) => r.Ok? && r.value.inode == i
    case HitSymlink => r.Err? && r.error.SymlinkRefused?
    case Missing => r.Err? && r.error.Sys? && r.error.errno == ENOENT
    case NotDir => r.Err? && r.error.NotADirectory?
  }

  /** filepath.Join of a directory's path and a name. */
  function JoinPath(dir: string, name: string): string {
    Clean(dir + "/" + name)
  }

  /** filepath.Split: everything up to the last '/', and the rest. */
  function SplitLast(path: string): (parts: (string, string))
    ensures parts.0 + parts.1 == path
    ensures '/' !in parts.1
    ensures parts.0 == "" || parts.0[|parts.0| - 1] == '/'
  {
    if path == "" then ("", "")
    else if path[|path| - 1] == '/' then (path, "")
    else
      var (dir, name) := SplitLast(path[..|path| - 1]);
      (dir, name + [path[|path| - 1]])
  }

  lemma {:induction false} SplitLastUnique(dir: string, name: string)
    requires '/' !in name
    ensures SplitLast(dir + "/" + name) == (dir + "/", name)
  {
    var s := dir + "/" + name;
    if name == "" {
      assert s == dir + "/";
    } else {
      var c := name[|name| - 1];
      assert c in name;
      assert s[|s| - 1] == c && s[..|s| - 1] == dir + "/" + name[..|name| - 1];
      SplitLastUnique(dir, name[..|name| - 1]);
      assert name[..|name| - 1] + [c] == name;
    }
  }

  /** Splitting a cleaned path leaves a parent with one element less. */
  lemma SplitLastOfClean(path: string)
    requires IsAbs(path) && Components(path) != []
    ensures var names := Components(path);
            var (dir, name) := SplitLast(Clean(path));
            IsAbs(dir) && Components(dir) == names[..|names| - 1] && name == names[|names| - 1] && Plain(name)
  {
    var names := Components(path);
    var init, last := names[..|names| - 1], names[|names| - 1];
    CleanedIsPlain(path);
    assert Plain(last);
    assert AllPlain(init) by {
      forall i | 0 <= i < |init| ensures Plain(init[i]) { assert init[i] == names[i]; }
    }
    assert names == init + [last];
    RootedAppend(init, last);
    SplitLastUnique(Rooted(init), last);
    var dir := Rooted(init) + "/";
    RootedHead(init);
    assert IsAbs(dir);
    assert Components(dir) == init by {
      assert dir == Rooted(init) + ['/'] + "";
      SplitAt(Rooted(init), "", '/');
      var parts := Split(Rooted(init), '/');
      var all := parts + [""];
      assert Split(dir, '/') == all;
      assert all[..|all| - 1] == parts && all[|all| - 1] == "";
      assert Normalize(true, all) == Normalize(true, parts);
      if init == [] {
        assert parts == [""];
        assert [""][..0] == [] && Normalize(true, [""]) == [];
      } else {
        ComponentsFromRoot(init);
      }
    }
  }

  lemma AddedIsGood(t: Tree, c: Creation)
    requires t.WellFormed() && t.IsDir(c.parent) && Plain(c.name) && c.name !in t.entries[c.parent] && c.child !in t.kinds
    ensures t.Added(c.parent, c.name, c.child, c.kind).WellFormed()
    ensures Makes(t, c, t.Added(c.parent, c.name, c.child, c.kind))
    ensures Later(t, t.Added(c.parent, c.name, c.child, c.kind))
  {
  }

  // ----- the process -----

  class System {
    const env: Environment
    var tree: Tree
    var fds: map<Fd, Inode>
    var clock: nat
    ghost var history: seq<Tree>
    ghost var made: map<nat, Creation>

    ghost predicate Valid()
      reads this
    {
      && env.Possible()
      && IsRun(history, made)
      && history[|history| - 1] == tree && tree.WellFormed()
      && (forall fd :: fd in fds ==> fds[fd] in tree.kinds)
    }

    constructor (env: Environment, tree: Tree)
      requires env.Possible() && tree.WellFormed()
      ensures Valid() && this.env == env && this.tree == tree && fds == map[] && history == [tree] && made == map[]
    {
      this.env := env;
      this.tree := tree;
      fds := map[];
      clock := 0;
      history := [tree];
      made := map[];
      new;
      assert GoodAt(history, 0);
    }

    /** What happens before a system call takes effect. */
    method Interfere()
      requires Valid()
      modifies this
      ensures Valid() && fds == old(fds) && made == old(made)
      ensures history == old(history) + [tree] && Grown(old(history), history)
      ensures Later(old(tree), tree)
      ensures env.Frozen() ==> tree == old(tree)
    {
      var t := env.move(clock, tree);
      RunGrows(history, made, t, None);
      tree := t;
      clock := clock + 1;
      history := history + [tree];
    }

    method Make(d: Inode, name: string, child: Inode, kind: Kind)
      requires Valid() && tree.IsDir(d) && Plain(name) && name !in tree.entries[d]
      requires child !in tree.kinds && kind != Symlink
      modifies this
      ensures Valid() && fds == old(fds) && tree == old(tree).Added(d, name, child, kind)
      ensures Later(old(tree), tree)
      ensures made == old(made)[|old(history)| - 1 := Creation(d, name, child, kind)]
      ensures history == old(history) + [tree] && Grown(old(history), history)
    {
      var t := tree.Added(d, name, child, kind);
      ghost var c := Creation(d, name, child, kind);
      AddedIsGood(tree, c);
      RunGrows(history, made, t, Some(c));
      made := made[|history| - 1 := c];
      tree := t;
      history := history + [tree];
    }

    method NewFd(i: Inode) returns (fd: Fd)
      requires Valid() && i in tree.kinds
      modifies this`fds
      ensures Valid() && fd !in old(fds) && fds == old(fds)[fd := i]
    {
      fd := env.pickFd(fds.Keys);
      fds := fds[fd := i];
    }

    /** close(2), only ever on a descriptor that is open. */
    method Close(fd: Fd)
      requires Valid() && fd in fds
      modifies this
      ensures Valid() && fds == old(fds) - {fd} && made == old(made)
      ensures history == old(history) + [tree] && Grown(old(history), history)
      ensures Later(old(tree), tree)
      ensures env.Frozen() ==> tree == old(tree)
    {
      Interfere();
      fds := fds - {fd};
    }

    method OpenRoot() returns (r: Result<Fd, Errno>)
      requires Valid()
      modifies this
      ensures Valid() && made == old(made)
      ensures history == old(history) + [tree] && Grown(old(history), history)
      ensures Later(old(tree), tree)
      ensures r.Err? ==> fds == old(fds)
      ensures r.Ok? ==> r.value !in old(fds) && fds == old(fds)[r.value := ROOT]
      ensures env.Frozen() ==> tree == old(tree)
      ensures env.Quiet() ==> r.Ok?
    {
      var now := clock;
      Interfere();
      if env.fault(now).Some? {
        return Err(env.fault(now).value);
      }
      var fd := NewFd(ROOT);
      return Ok(fd);
    }

    /** openat(O_PATH|O_NOFOLLOW): reaches a symlink itself, never its target. */
    method OpenatPath(dirfd: Fd, name: string) returns (r: Result<Fd, Errno>, ghost child: Inode)
      requires Valid() && dirfd in fds && '/' !in name
      modifies this
      ensures Valid() && made == old(made)
      ensures history == old(history) + [tree] && Grown(old(history), history)
      ensures Later(old(tree), tree)
      ensures r.Err? ==> fds == old(fds)
      ensures r.Ok? ==>
                && r.value !in old(fds) && fds == old(fds)[r.value := child]
                && old(fds)[dirfd] in tree.entries && old(fds)[dirfd] in tree.parents
                && tree.Lookup(old(fds)[dirfd], name) == Some(child)
      ensures env.Frozen() ==> tree == old(tree)
      ensures env.Unfailing() ==>
                match Entry(tree, old(fds)[dirfd], name)
                case NotDir => r == Err(ENOTDIR)
                case Missing => r == Err(ENOENT)
                case _ => r.Ok?
    {
      child := ROOT;
      var now := clock;
      Interfere();
      if env.fault(now).Some? {
        return Err(env.fault(now).value), child;
      }
      var d := fds[dirfd];
      if !tree.IsDir(d) {
        return Err(ENOTDIR), child;
      }
      var found := tree.Lookup(d, name);
      match found {
        case Some(c) =>
          child := c;
          var fd := NewFd(c);
          return Ok(fd), child;
        case None =>
          return Err(ENOENT), child;
      }
    }

    method Fstat(fd: Fd) returns (r: Result<Kind, Errno>)
      requires Valid() && fd in fds
      modifies this
      ensures Valid() && fds == old(fds) && made == old(made)
      ensures history == old(history) + [tree] && Grown(old(history), history)
      ensures Later(old(tree), tree)
      ensures r.Ok? ==> r.value == tree.kinds[fds[fd]]
      ensures env.Frozen() ==> tree == old(tree)
      ensures env.Unfailing() ==> r.Ok?
    {
      var now := clock;
      Interfere();
      if env.fault(now).Some? {
        return Err(env.fault(now).value);
      }
      return Ok(tree.kinds[fds[fd]]);
    }

    method Mkdirat(dirfd: Fd, name: string) returns (failed: Option<Errno>, ghost child: Inode)
      requires Valid() && dirfd in fds && Plain(name)
      modifies this
      ensures Valid() && fds == old(fds) && Grown(old(history), history)
      ensures Later(old(tree), tree)
      ensures failed.Some? ==> made == old(made)
      ensures failed.None? ==> made == old(made)[|old(history)| := Creation(fds[dirfd], name, child, Directory)]
      ensures |history| > |old(history)|
      ensures env.Unfailing() && failed.Some? ==>
                failed == Some(if history[|old(history)|].IsDir(fds[dirfd]) then EEXIST else ENOTDIR)
      ensures |old(history)| !in old(made)
      ensures env.Quiet() && old(tree).IsDir(fds[dirfd]) && name !in old(tree).entries[fds[dirfd]] ==>
                failed.None? && MadeDir(old(tree), fds[dirfd], name, child, tree)
    {
      child := ROOT;
      var now := clock;
      Interfere();
      if env.fault(now).Some? {
        return env.fault(now), child;
      }
      var d := fds[dirfd];
      if !tree.IsDir(d) {
        return Some(ENOTDIR), child;
      }
      if name in tree.entries[d] {
        return Some(EEXIST), child;
      }
      var made := env.pickInode(now, tree, d);
      Make(d, name, made, Directory);
      child := made;
      return None, child;
    }

    /** The part of openat(O_CREAT) that makes the file and opens it. */
    method CreateOther(now: nat, d: Inode, name: string) returns (fd: Fd, ghost child: Inode)
      requires Valid() && tree.IsDir(d) && Plain(name) && name !in tree.entries[d]
      modifies this
      ensures Valid() && tree == old(tree).Added(d, name, child, Other) && child !in old(tree).kinds
      ensures made == old(made)[|old(history)| - 1 := Creation(d, name, child, Other)]
      ensures history == old(history) + [tree] && Grown(old(history), history)
      ensures fd !in old(fds) && fds == old(fds)[fd := child]
    {
      var c := env.pickInode(now, tree, d);
      child := c;
      Make(d, name, c, Other);
      fd := NewFd(c);
    }

    /** A new descriptor for the entry openat found, or made, at step `at`. */
    ghost predicate OpenedEntry(fd: Fd, file: Inode, before: map<Fd, Inode>, d: Inode, name: string, flags: Flags, at: nat,
                                made0: map<nat, Creation>)
      reads this
    {
      && fd !in before && fds == before[fd := file]
      && history != [] && Seen(history, Hop(|history| - 1, d, name, file))
      && FoundOrMade(history, at, d, name, flags, file, made0, made)
    }

    /** openat(flags|O_NOFOLLOW): refuses a symlink, may create the file. */
    method OpenatFile(dirfd: Fd, name: string, flags: Flags) returns (r: Result<Fd, Errno>, ghost child: Inode)
      requires Valid() && dirfd in fds && Plain(name)
      modifies this
      ensures Valid() && Grown(old(history), history) && |history| > |old(history)|
      ensures r.Err? ==> fds == old(fds) && made == old(made)
      ensures r.Ok? ==> OpenedEntry(r.value, child, old(fds), old(fds)[dirfd], name, flags, |old(history)|, old(made))
      ensures env.Frozen() ==> history[|old(history)|] == old(tree)
      ensures env.Quiet() && old(tree).IsDir(old(fds)[dirfd]) ==>
                Failure(r) == FileRefusal(old(tree), old(fds)[dirfd], name, flags)
    {
      child := ROOT;
      var now := clock;
      Interfere();
      if env.fault(now).Some? {
        return Err(env.fault(now).value), child;
      }
      var d := fds[dirfd];
      ghost var before, at := history, |old(history)|;
      assert made == old(made) && d == old(fds)[dirfd];
      r, child := OpenNow(now, d, name, flags, at);
      GrownTrans(old(history), before, history);
      assert SameAt(before, history, at);
    }

    /** The effect of openat(O_NOFOLLOW), at once. */
    method OpenNow(now: nat, d: Inode, name: string, flags: Flags, ghost at: nat)
      returns (r: Result<Fd, Errno>, ghost child: Inode)
      requires Valid() && d in tree.kinds && Plain(name) && at == |history| - 1
      modifies this
      ensures Valid() && Grown(old(history), history) && |history| >= |old(history)|
      ensures r.Err? ==> fds == old(fds) && made == old(made)
      ensures r.Ok? ==> OpenedEntry(r.value, child, old(fds), d, name, flags, at, old(made))
      ensures old(tree).IsDir(d) ==> Failure(r) == FileRefusal(old(tree), d, name, flags)
    {
      child := ROOT;
      if !tree.IsDir(d) {
        return Err(ENOTDIR), child;
      }
      var found := tree.Lookup(d, name);
      match found {
        case Some(c) =>
          if flags.creat && flags.excl {
            return Err(EEXIST), child;
          }
          if tree.kinds[c] == Symlink {
            return Err(ELOOP), child;
          }
          if tree.kinds[c] == Directory && (flags.write || flags.creat) {
            return Err(EISDIR), child;
          }
          child := c;
          var fd := NewFd(c);
          return Ok(fd), child;
        case None =>
          if !flags.creat {
            return Err(ENOENT), child;
          }
          var fd;
          fd, child := CreateOther(now, d, name);
          return Ok(fd), child;
      }
    }

    method Stat(fd: Fd, path: string) returns (r: Result<Node, Error>)
      requires Valid() && fd in fds
      modifies this
      ensures Valid() && made == old(made) && Grown(old(history), history) && |history| > |old(history)|
      ensures Later(old(tree), tree)
      ensures r.Err? ==> fds == old(fds) - {fd}
      ensures r.Ok? ==> fds == old(fds) && r.value == Node(fd, old(fds)[fd], tree.kinds[old(fds)[fd]], path)
      ensures r.Ok? ==> r.value.kind != Symlink
      ensures env.Frozen() ==> tree == old(tree)
      ensures r.Err? ==> (r.error.SymlinkRefused? ==> tree.kinds[old(fds)[fd]] == Symlink)
      ensures env.Unfailing() ==>
                Failure(r) == if tree.kinds[old(fds)[fd]] == Symlink then Some(SymlinkRefused(path)) else None
    {
      var k := Fstat(fd);
      if k.Err? || k.value == Symlink {
        ghost var before := history;
        Close(fd);
        GrownTrans(old(history), before, history);
        return Err(if k.Err? then Sys(path, k.error) else SymlinkRefused(path));
      }
      return Ok(Node(fd, fds[fd], k.value, path));
    }

    /** A step down: a descriptor for `name` below `d`, with the hop it witnesses. */
    ghost predicate Reaches(from: seq<Tree>, d: Inode, name: string, n: Node, hop: Hop)
      reads this
    {
      && n.inode in tree.kinds && n.kind == tree.kinds[n.inode] && n.kind != Symlink
      && hop == Hop(|from|, d, name, n.inode)
      && Seen(history, hop)
    }

    method Child(n: Node, name: string) returns (r: Result<Node, Error>, ghost hop: Hop)
      requires Valid() && n.fd in fds && '/' !in name
      modifies this
      ensures Valid() && made == old(made) && Grown(old(history), history)
      ensures Later(old(tree), tree)
      ensures r.Err? ==> fds == old(fds)
      ensures r.Ok? ==>
                && r.value.fd !in old(fds) && fds == old(fds)[r.value.fd := r.value.inode]
                && Reaches(old(history), old(fds)[n.fd], name, r.value, hop)
                && r.value.path == JoinPath(n.path, name)
      ensures r.Err? && r.error.SymlinkRefused? ==> SawSymlink(history, |old(history)|, old(fds)[n.fd], name)
      ensures env.Unfailing() && r.Err? ==> MissedAt(history, |old(history)|, old(fds)[n.fd], name, r.error)
      ensures env.Frozen() ==> tree == old(tree)
      ensures env.Frozen() && r.Ok? ==> Entry(tree, old(fds)[n.fd], name) == Reached(r.value.inode)
      ensures env.Frozen() && r.Err? && r.error.SymlinkRefused? ==> Entry(tree, old(fds)[n.fd], name) == HitSymlink
      ensures env.Quiet() ==>
                (Entry(tree, old(fds)[n.fd], name) != NotDir ==> Agrees(r, Entry(tree, old(fds)[n.fd], name)))
    {
      ghost var child;
      var o;
      o, child := OpenatPath(n.fd, name);
      hop := Hop(|old(history)|, old(fds)[n.fd], name, child);
      if o.Err? {
        return Err(Sys(JoinPath(n.path, name), o.error)), hop;
      }
      SwapFd(old(fds), n.fd, o.value, child);
      ghost var mid, seen := history, tree;
      r := Stat(o.value, JoinPath(n.path, name));
      GrownTrans(old(history), mid, history);
      assert SameAt(mid, history, |old(history)|);
      assert history[hop.at] == seen;
      assert child in seen.kinds && child in tree.kinds && seen.kinds[child] == tree.kinds[child];
    }

    /** One component of Open: openat below `dirfd`, close `dirfd`, stat. */
    method Descend(dirfd: Fd, name: string, path: string) returns (r: Result<Node, Error>, ghost hop: Hop)
      requires Valid() && dirfd in fds && '/' !in name
      modifies this
      ensures Valid() && made == old(made) && Grown(old(history), history)
      ensures Later(old(tree), tree)
      ensures r.Err? ==> fds == old(fds) - {dirfd}
      ensures r.Ok? ==>
                && r.value.fd !in old(fds) && fds == (old(fds) - {dirfd})[r.value.fd := r.value.inode]
                && r.value.path == path
                && Reaches(old(history), old(fds)[dirfd], name, r.value, hop)
      ensures env.Quiet() ==>
                && tree == old(tree)
                && (Entry(tree, old(fds)[dirfd], name) != NotDir ==> Agrees(r, Entry(tree, old(fds)[dirfd], name)))
    {
      ghost var child;
      var o;
      o, child := OpenatPath(dirfd, name);
      hop := Hop(|old(history)|, old(fds)[dirfd], name, child);
      ghost var mid, seen := history, tree;
      Close(dirfd);
      GrownTrans(old(history), mid, history);
      if o.Err? {
        return Err(Sys(path, o.error)), hop;
      }
      SwapFd(old(fds), dirfd, o.value, child);
      ghost var mid' := history;
      r := Stat(o.value, path);
      GrownTrans(old(history), mid', history);
      GrownTrans(mid, mid', history);
      assert SameAt(mid, history, |old(history)|);
      assert history[hop.at] == seen;
    }

    // ----- Open -----

    /** A successful walk: each object met was, at its own step, a non-symlink
        entry of the one before, and the last one is the object returned. */
    ghost predicate Opened(from: nat, names: seq<string>, n: Node, hops: seq<Hop>)
      reads this
    {
      && |hops| == |names| && IsChain(history, hops, names) && StartsAt(hops, from)
      && n.inode == At(hops, |hops|)
      && n.inode in tree.kinds && n.kind == tree.kinds[n.inode] && n.kind != Symlink
    }

    method Open(path: string) returns (r: Result<Node, Error>, ghost hops: seq<Hop>)
      requires Valid()
      modifies this
      ensures Valid() && made == old(made) && Grown(old(history), history)
      ensures Later(old(tree), tree)
      ensures r.Err? ==> fds == old(fds)
      ensures r.Ok? ==> r.value.fd !in old(fds) && fds == old(fds)[r.value.fd := r.value.inode]
      ensures r.Ok? ==> IsAbs(path) && r.value.path == Clean(path)
      ensures r.Ok? ==> Opened(|old(history)|, Components(path), r.value, hops)
      ensures !IsAbs(path) ==> r == Err(NotAbsolute(path))
      ensures env.Quiet() ==> tree == old(tree)
      ensures env.Quiet() && IsAbs(path) ==> Agrees(r, Resolve(old(tree), ROOT, Components(path)))
    {
      hops := [];
      if !HasPrefix(path, "/") {
        return Err(NotAbsolute(path)), hops;
      }
      var clean := Clean(path);
      ghost var names := Components(path);
      CleanedIsPlain(path);
      RootHasNoElements(names);
      var root := OpenRoot();
      if root.Err? {
        return Err(Sys("/", root.error)), hops;
      }
      var dirfd := root.value;
      ghost var mid := history;
      if clean == "/" {
        r := Stat(dirfd, clean);
        GrownTrans(old(history), mid, history);
        SwapFd(old(fds), dirfd, dirfd, ROOT);
        return;
      }
      TrimmedSplit(names);
      var parts := Split(clean[1..], '/');
      assert parts[..|parts|] == names;
      RootedIsJoin(names);
      r, hops := OpenBelow(dirfd, parts);
      GrownTrans(old(history), mid, history);
      SwapFd(old(fds), dirfd, dirfd, ROOT);
    }

    /** The loop of Open: from the root directory down through `parts`. */
    method OpenBelow(root: Fd, parts: seq<string>) returns (r: Result<Node, Error>, ghost hops: seq<Hop>)
      requires Valid() && root in fds && fds[root] == ROOT
      requires parts != [] && AllPlain(parts)
      modifies this
      ensures Valid() && made == old(made) && Grown(old(history), history)
      ensures Later(old(tree), tree)
      ensures r.Err? ==> fds == old(fds) - {root}
      ensures r.Ok? ==> r.value.fd !in old(fds) - {root} && fds == (old(fds) - {root})[r.value.fd := r.value.inode]
      ensures r.Ok? ==> r.value.path == "/" + Join(parts[..|parts|], '/')
      ensures r.Ok? ==> Opened(|old(history)|, parts, r.value, hops)
      ensures env.Quiet() ==> tree == old(tree) && Agrees(r, Resolve(tree, ROOT, parts))
    {
      hops := [];
      ghost var rest, from := fds - {root}, |history|;
      assert parts[0..] == parts;
      var dirfd := root;
      SwapFd(rest, root, root, ROOT);
      var i := 0;
      while i < |parts|
        invariant 0 <= i < |parts|
        invariant Standing(rest, dirfd, parts, hops, i, from)
        invariant made == old(made) && Grown(old(history), history) && Later(old(tree), tree)
        invariant env.Quiet() ==> tree == old(tree) && Resolve(tree, ROOT, parts) == Resolve(tree, At(hops, i), parts[i..])
      {
        ghost var before := history;
        r, hops := OpenStep(dirfd, parts, i, rest, hops, from);
        GrownTrans(old(history), before, history);
        if r.Err? || i == |parts| - 1 {
          return;
        }
        dirfd := r.value.fd;
        i := i + 1;
      }
    }

    /** Open holds one descriptor beyond `rest`: the directory reached by `hops`. */
    ghost predicate Standing(rest: map<Fd, Inode>, dirfd: Fd, parts: seq<string>, hops: seq<Hop>, i: nat, from: nat)
      reads this
    {
      && Valid() && |hops| == i <= |parts| && from <= |history|
      && dirfd !in rest && fds == rest[dirfd := At(hops, i)] && tree.IsDir(At(hops, i))
      && IsChain(history, hops, parts) && StartsAt(hops, from)
    }

    /** One turn of the loop. */
    method OpenStep(dirfd: Fd, parts: seq<string>, i: nat, ghost rest: map<Fd, Inode>, ghost hops: seq<Hop>, ghost from: nat)
      returns (r: Result<Node, Error>, ghost hops': seq<Hop>)
      requires i < |parts| && AllPlain(parts) && Standing(rest, dirfd, parts, hops, i, from)
      modifies this
      ensures Valid() && made == old(made) && Grown(old(history), history) && Later(old(tree), tree)
      ensures r.Err? ==> fds == rest
      ensures r.Ok? ==>
                && r.value.fd !in rest && fds == rest[r.value.fd := r.value.inode]
                && r.value.path == "/" + Join(parts[..i + 1], '/')
                && |hops'| == i + 1 && At(hops', i + 1) == r.value.inode
                && IsChain(history, hops', parts) && StartsAt(hops', from)
                && r.value.inode in tree.kinds && r.value.kind == tree.kinds[r.value.inode] && r.value.kind != Symlink
                && (i + 1 < |parts| ==> r.value.IsDir())
      ensures env.Quiet() ==>
                && tree == old(tree)
                && (r.Ok? ==> Resolve(tree, At(hops, i), parts[i..]) == Resolve(tree, r.value.inode, parts[i + 1..]))
                && (r.Err? ==> Agrees(r, Resolve(tree, At(hops, i), parts[i..])))
    {
      hops' := hops;
      assert Plain(parts[i]);
      ResolveStep(tree, At(hops, i), parts, i);
      SwapFd(rest, dirfd, dirfd, At(hops, i));
      ghost var before := history;
      ghost var hop;
      r, hop := Descend(dirfd, parts[i], "/" + Join(parts[..i + 1], '/'));
      if r.Ok? {
        ChainStep(before, history, hops, parts, hop, from);
        hops' := hops + [hop];
        if i != |parts| - 1 && !r.value.IsDir() {
          ghost var mid := history;
          ResolveStep(tree, hop.child, parts, i + 1);
          r := RefuseNonDirectory(r.value, rest);
          GrownTrans(old(history), mid, history);
        }
      }
    }

    method RefuseNonDirectory(n: Node, ghost rest: map<Fd, Inode>) returns (r: Result<Node, Error>)
      requires Valid() && n.fd !in rest && fds == rest[n.fd := n.inode]
      modifies this
      ensures Valid() && made == old(made) && Grown(old(history), history)
      ensures Later(old(tree), tree)
      ensures fds == rest && r == Err(NotADirectory(n.path))
      ensures env.Frozen() ==> tree == old(tree)
    {
      Close(n.fd);
      SwapFd(rest, n.fd, n.fd, n.inode);
      return Err(NotADirectory(n.path));
    }

    /** Confinement of Open, OpenFile and MkdirAll: once the walk has stood in an
        inside directory, the object it returns is inside. */
    lemma OpenedStaysInside(inside: iset<Inode>, from: nat, names: seq<string>, n: Node, hops: seq<Hop>, k: nat)
      requires Valid() && Opened(from, names, n, hops) && AllPlain(names)
      requires KeepsConfined(inside, history, made) && Confined(inside, history[0])
      requires k <= |hops| && At(hops, k) in inside
      ensures n.inode in inside && n.kind != Symlink
    {
      ChainStaysInside(inside, history, made, hops, names, k, |hops|);
    }

    /** The loop in Names. */
    method WithoutDots(found: seq<string>) returns (names: seq<string>)
      requires ListedNames(found)
      ensures AllPlain(names)
      ensures forall x :: x in names <==> x in found && x != "." && x != ".."
      ensures Distinct(found) ==> Distinct(names)
    {
      names := [];
      for k := 0 to |found|
        invariant AllPlain(names)
        invariant forall x :: x in names <==> x in found[..k] && x != "." && x != ".."
        invariant Distinct(found) ==> Distinct(names)
      {
        if Distinct(found) { assert found[k] !in found[..k]; }
        if found[k] != "." && found[k] != ".." {
          names := names + [found[k]];
        }
      }
      assert found[..|found|] == found;
    }

    /** Names: reopen the directory through its descriptor, list it, close. */
    method Names(n: Node) returns (r: Result<seq<string>, Error>)
      requires Valid() && n.fd in fds
      modifies this
      ensures Valid() && fds == old(fds) && made == old(made)
      ensures Grown(old(history), history) && Later(old(tree), tree)
      ensures r.Ok? ==> AllPlain(r.value)
      ensures env.Frozen() ==> tree == old(tree)
      ensures env.Still() && r.Ok? ==>
                && old(fds)[n.fd] in tree.entries && Distinct(r.value)
                && forall x :: x in r.value <==> x in tree.entries[old(fds)[n.fd]]
      ensures env.Quiet() && old(tree).IsDir(old(fds)[n.fd]) ==> r.Ok?
    {
      ghost var d0 := fds[n.fd];
      var now := clock;
      var o := Reopen(n, false);
      if o.Err? {
        return Err(o.error);
      }
      var d := fds[o.value];
      ghost var h1 := history;
      SwapFd(old(fds), n.fd, o.value, d0);
      Interfere();
      GrownTrans(old(history), h1, history);
      if env.fault(now + 1).Some? || !tree.IsDir(d) {
        ghost var h2 := history;
        Close(o.value);
        GrownTrans(old(history), h2, history);
        return Err(Sys(n.path, if env.fault(now + 1).Some? then env.fault(now + 1).value else ENOTDIR));
      }
      var found := env.list(now + 1, tree, d);
      assert ListedNames(found);
      ghost var t := tree;
      ghost var h2 := history;
      var names := WithoutDots(found);
      if env.Still() { PlainEntries(t, d0, found, names); }
      Close(o.value);
      GrownTrans(old(history), h2, history);
      return Ok(names);
    }

    /** OpenFile: open the path, reopen the object through its descriptor, for
        writing too if `write`. */
    method OpenFile(path: string, write: bool) returns (r: Result<Fd, Error>, ghost node: Node, ghost hops: seq<Hop>)
      requires Valid()
      modifies this
      ensures Valid() && made == old(made) && Grown(old(history), history)
      ensures r.Err? ==> fds == old(fds)
      ensures r.Ok? ==>
                && IsAbs(path) && Opened(|old(history)|, Components(path), node, hops)
                && r.value !in old(fds) && fds == old(fds)[r.value := node.inode]
      ensures env.Quiet() && IsAbs(path) ==>
                (r.Ok? <==> match Resolve(old(tree), ROOT, Components(path))
                            case Reached(i) => !(write && old(tree).IsDir(i))
                            case _ => false)
    {
      var o;
      o, hops := Open(path);
      if o.Err? {
        return Err(o.error), Node(0, 0, Other, ""), hops;
      }
      node := o.value;
      ghost var mid := history;
      var f := Reopen(o.value, write);
      GrownTrans(old(history), mid, history);
      if f.Ok? { SwapFd(old(fds)[o.value.fd := o.value.inode], o.value.fd, f.value, o.value.inode); }
      SwapFd(old(fds), o.value.fd, o.value.fd, o.value.inode);
      ghost var mid' := history;
      Close(o.value.fd);
      GrownTrans(old(history), mid', history);
      ChainExtends(mid, mid', hops, Components(path));
      ChainExtends(mid', history, hops, Components(path));
      return f, node, hops;
    }

    /** open("/proc/self/fd/N"): whatever happened to the path, this inode. */
    method Reopen(n: Node, write: bool) returns (r: Result<Fd, Error>)
      requires Valid() && n.fd in fds
      modifies this
      ensures Valid() && made == old(made) && Later(old(tree), tree)
      ensures history == old(history) + [tree] && Grown(old(history), history)
      ensures r.Err? ==> fds == old(fds)
      ensures r.Ok? ==> r.value !in old(fds) && fds == old(fds)[r.value := old(fds)[n.fd]]
      ensures env.Frozen() ==> tree == old(tree)
      ensures r.Ok? ==> !(write && tree.IsDir(old(fds)[n.fd]))
      ensures env.Quiet() ==> (r.Ok? <==> !(write && tree.IsDir(old(fds)[n.fd])))
    {
      var now := clock;
      Interfere();
      if env.fault(now).Some? {
        return Err(Sys(n.path, env.fault(now).value));
      }
      if write && tree.IsDir(fds[n.fd]) {
        return Err(Sys(n.path, EISDIR));
      }
      var fd := NewFd(fds[n.fd]);
      return Ok(fd);
    }

    // ----- MkdirAll -----

    method MkdirAll(path: string) returns (r: Result<Node, Error>, ghost hops: seq<Hop>)
      requires Valid()
      modifies this
      ensures Valid() && Grown(old(history), history)
      ensures !IsAbs(path) ==> r == Err(NotAbsolute(path)) && made == old(made)
      ensures r.Err? ==> fds == old(fds)
      ensures r.Ok? ==> r.value.fd !in old(fds) && fds == old(fds)[r.value.fd := r.value.inode]
      ensures r.Ok? ==> IsAbs(path) && r.value.IsDir() && Opened(|old(history)|, Components(path), r.value, hops)
      ensures IsAbs(path) ==> IsChain(history, hops, Components(path)) && StartsAt(hops, |old(history)|)
      ensures IsAbs(path) ==> CreatesAlong(old(made), made, hops, Components(path))
      ensures env.Quiet() && IsAbs(path) ==> MkdirAgrees(old(tree), r, Resolve(old(tree), ROOT, Components(path)))
      ensures env.Quiet() && r.Ok? ==> MkdirLeaves(old(tree), Resolve(old(tree), ROOT, Components(path)), tree, r.value.inode)
    {
      hops := [];
      if !HasPrefix(path, "/") {
        return Err(NotAbsolute(path)), hops;
      }
      ghost var names := Components(path);
      CleanedIsPlain(path);
      RootHasNoElements(names);
      ComponentsFromRoot([]);
      r, hops := Open("/");
      if r.Err? {
        return r, [];
      }
      assert hops == [];
      var clean := Clean(path);
      if clean == "/" {
        return;
      }
      TrimmedSplit(names);
      ghost var mid := history;
      ghost var rest, tree0, made0 := old(fds), old(tree), old(made);
      assert names[0..] == names;
      r, hops := MkdirBelow(r.value, Split(clean[1..], '/'), rest, |old(history)|, tree0, made0);
      GrownTrans(old(history), mid, history);
    }

    /** The loop of MkdirAll: from the root directory down through `parts`. */
    method MkdirBelow(root: Node, parts: seq<string>, ghost rest: map<Fd, Inode>, ghost from: nat,
                      ghost tree0: Tree, ghost made0: map<nat, Creation>)
      returns (r: Result<Node, Error>, ghost hops: seq<Hop>)
      requires AllPlain(parts) && root.inode == ROOT && root.kind == Directory && made0 == made
      requires Standing(rest, root.fd, parts, [], 0, from)
      requires tree0.WellFormed() && (env.Quiet() ==> tree == tree0)
      modifies this
      ensures Valid() && Grown(old(history), history)
      ensures IsChain(history, hops, parts) && StartsAt(hops, from) && CreatesAlong(made0, made, hops, parts)
      ensures r.Err? ==> fds == rest
      ensures r.Ok? ==> r.value.fd !in rest && fds == rest[r.value.fd := r.value.inode]
      ensures r.Ok? ==> r.value.IsDir() && Opened(from, parts, r.value, hops)
      ensures env.Quiet() ==> MkdirAgrees(tree0, r, Resolve(tree0, ROOT, parts))
      ensures env.Quiet() && r.Ok? ==> MkdirLeaves(tree0, Resolve(tree0, ROOT, parts), tree, r.value.inode)
    {
      hops := [];
      r := Ok(root);
      assert parts[0..] == parts;
      var i := 0;
      while i < |parts|
        invariant 0 <= i <= |parts| && |hops| == i
        invariant r.Ok? && r.value.inode == At(hops, i) && r.value.kind == Directory
        invariant Standing(rest, r.value.fd, parts, hops, i, from)
        invariant Grown(old(history), history) && CreatesAlong(made0, made, hops, parts)
        invariant env.Quiet() ==> MkdirProgress(tree0, tree, At(hops, i), parts, i)
      {
        ghost var before := history;
        r, hops := MkdirStep(r.value, parts, i, rest, hops, from, made0, tree0);
        GrownTrans(old(history), before, history);
        if r.Err? {
          return;
        }
        i := i + 1;
      }
      assert parts[i..] == [];
    }

    /** One turn of the loop: enter `parts[i]`, making it if it is missing. */
    method MkdirStep(dir: Node, parts: seq<string>, i: nat, ghost rest: map<Fd, Inode>, ghost hops: seq<Hop>,
                     ghost from: nat, ghost made0: map<nat, Creation>, ghost tree0: Tree)
      returns (r: Result<Node, Error>, ghost hops': seq<Hop>)
      requires i < |parts| && AllPlain(parts) && Standing(rest, dir.fd, parts, hops, i, from)
      requires CreatesAlong(made0, made, hops, parts)
      requires tree0.WellFormed() && (env.Quiet() ==> MkdirProgress(tree0, tree, At(hops, i), parts, i))
      modifies this
      ensures Valid() && Grown(old(history), history)
      ensures IsChain(history, hops', parts) && StartsAt(hops', from) && CreatesAlong(made0, made, hops', parts)
      ensures r.Err? ==> fds == rest
      ensures r.Ok? ==> Standing(rest, r.value.fd, parts, hops', i + 1, from)
      ensures r.Ok? ==> r.value.inode == At(hops', i + 1) && r.value.kind == Directory
      ensures env.Quiet() ==>
                && (r.Ok? ==> MkdirProgress(tree0, tree, At(hops', i + 1), parts, i + 1))
                && (r.Err? ==> MkdirAgrees(tree0, r, Resolve(tree0, ROOT, parts)))
    {
      hops' := hops;
      assert Plain(parts[i]);
      SwapFd(rest, dir.fd, dir.fd, At(hops, i));
      ghost var before, t := history, tree;
      ghost var hop;
      r, hop := EnterOrMake(dir, parts[i]);
      if env.Quiet() { QuietMkdirStep(tree0, t, At(hops, i), parts, i, r, tree); }
      CreationStep(made0, old(made), made, hops, parts);
      if r.Err? {
        ChainExtends(before, history, hops, parts);
        return;
      }
      ChainStep(before, history, hops, parts, hop, from);
      hops' := hops + [hop];
      CreationsCarry(made0, made, hops, hop, parts);
      if !r.value.IsDir() {
        ghost var mid := history;
        r := RefuseNonDirectory(r.value, rest);
        GrownTrans(old(history), mid, history);
        ChainExtends(mid, history, hops', parts);
      }
    }

    /** dir.Child(name), with a mkdirat and a second try if there is no such entry. */
    method ChildOrMake(dir: Node, name: string) returns (r: Result<Node, Error>, ghost hop: Hop)
      requires Valid() && dir.fd in fds && Plain(name)
      modifies this
      ensures Valid() && Grown(old(history), history) && Later(old(tree), tree)
      ensures NewIn(old(made), made, old(fds)[dir.fd], name)
      ensures r.Err? ==> fds == old(fds)
      ensures r.Ok? ==> r.value.fd !in old(fds) && fds == old(fds)[r.value.fd := r.value.inode]
      ensures r.Ok? ==> Arrives(|old(history)|, old(fds)[dir.fd], name, r.value, hop)
      ensures env.Unfailing() && r.Err? ==> MissedAgain(history, |old(history)|, old(fds)[dir.fd], name)
      ensures env.Quiet() && old(tree).IsDir(old(fds)[dir.fd]) ==>
                MakeAgrees(old(tree), old(fds)[dir.fd], name, r, tree)
    {
      r, hop := Child(dir, name);
      if r.Err? && r.error.Sys? && r.error.errno == ENOENT {
        ghost var h1 := history;
        r, hop := MakeThenChild(dir, name);
        GrownTrans(old(history), h1, history);
        if env.Unfailing() && r.Err? { MissedBefore(history, |old(history)|, |h1|, old(fds)[dir.fd], name); }
      } else if env.Unfailing() && r.Err? {
        MissedFirst(history, |old(history)|, old(fds)[dir.fd], name, r.error);
      }
    }

    /** The mkdirat, unless somebody else was faster, and the second try. */
    method MakeThenChild(dir: Node, name: string) returns (r: Result<Node, Error>, ghost hop: Hop)
      requires Valid() && dir.fd in fds && Plain(name)
      modifies this
      ensures Valid() && Grown(old(history), history) && Later(old(tree), tree)
      ensures NewIn(old(made), made, old(fds)[dir.fd], name)
      ensures r.Err? ==> fds == old(fds)
      ensures r.Ok? ==> r.value.fd !in old(fds) && fds == old(fds)[r.value.fd := r.value.inode]
      ensures r.Ok? ==> Arrives(|old(history)|, old(fds)[dir.fd], name, r.value, hop)
      ensures env.Unfailing() && r.Err? ==> MissedAgain(history, |old(history)|, old(fds)[dir.fd], name)
      ensures env.Quiet() && old(tree).IsDir(old(fds)[dir.fd]) && Entry(old(tree), old(fds)[dir.fd], name) == Missing ==>
                r.Ok? && MadeDir(old(tree), old(fds)[dir.fd], name, r.value.inode, tree)
    {
      hop := Hop(0, 0, name, 0);
      var failed;
      ghost var child;
      failed, child := Mkdirat(dir.fd, name);
      if failed.Some? && failed != Some(EEXIST) {
        if env.Unfailing() { NoDirectory(history, |old(history)|, old(fds)[dir.fd], name); }
        return Err(Sys(JoinPath(dir.path, name), failed.value)), hop;
      }
      ghost var h2, t2 := history, tree;
      r, hop := Child(dir, name);
      GrownTrans(old(history), h2, history);
      if env.Unfailing() && r.Err? { MissedOnce(history, |old(history)|, |h2|, old(fds)[dir.fd], name, r.error); }
      if env.Quiet() && old(tree).IsDir(old(fds)[dir.fd]) && name !in old(tree).entries[old(fds)[dir.fd]] {
        MadeDirEntry(old(tree), old(fds)[dir.fd], name, child, t2);
      }
    }

    ghost predicate Arrives(from: nat, d: Inode, name: string, n: Node, hop: Hop)
      reads this
    {
      && n.inode in tree.kinds && n.kind == tree.kinds[n.inode] && n.kind != Symlink
      && hop.at >= from && hop == Hop(hop.at, d, name, n.inode) && Seen(history, hop)
    }

    /** ChildOrMake, and `dir` is closed whatever came of it. */
    method EnterOrMake(dir: Node, name: string) returns (r: Result<Node, Error>, ghost hop: Hop)
      requires Valid() && dir.fd in fds && Plain(name)
      modifies this
      ensures Valid() && Grown(old(history), history) && Later(old(tree), tree)
      ensures NewIn(old(made), made, old(fds)[dir.fd], name)
      ensures r.Err? ==> fds == old(fds) - {dir.fd}
      ensures r.Ok? ==>
                && r.value.fd !in old(fds) - {dir.fd}
                && fds == (old(fds) - {dir.fd})[r.value.fd := r.value.inode]
                && Arrives(|old(history)|, old(fds)[dir.fd], name, r.value, hop)
      ensures env.Quiet() && old(tree).IsDir(old(fds)[dir.fd]) ==>
                MakeAgrees(old(tree), old(fds)[dir.fd], name, r, tree)
    {
      r, hop := ChildOrMake(dir, name);
      if r.Ok? { SwapFd(old(fds), dir.fd, r.value.fd, r.value.inode); }
      ghost var mid := history;
      Close(dir.fd);
      GrownTrans(old(history), mid, history);
      if r.Ok? { assert SameAt(mid, history, hop.at); }
    }

    // ----- CreateFile -----

    method CreateFile(path: string, flags: Flags, mkdirs: bool)
      returns (r: Result<Fd, Error>, ghost file: Inode, ghost hops: seq<Hop>)
      requires Valid()
      modifies this
      ensures Valid() && Grown(old(history), history)
      ensures r.Err? ==> fds == old(fds)
      ensures r.Ok? ==> IsAbs(path) && r.value !in old(fds) && fds == old(fds)[r.value := file]
      ensures r.Ok? ==> CreatedOrFound(|old(history)|, Components(path), file, hops)
      ensures !IsAbs(path) ==> r.Err? && made == old(made)
      ensures IsAbs(path) ==> CreatesAlong(old(made), made, hops, Components(path)) && IsChain(history, hops, Components(path))
      ensures !mkdirs && !flags.creat ==> made == old(made)
      ensures !mkdirs && r.Err? ==> made == old(made)
      ensures r.Ok? ==> EndsIn(history, |old(history)|, hops, Components(path), flags, file, old(made), made, mkdirs)
      ensures env.Quiet() && IsAbs(path) ==>
                (r.Ok? <==> Components(path) != [] && Creatable(old(tree), Components(path), flags, mkdirs))
      ensures env.Quiet() && r.Ok? ==> LedTo(old(tree), Components(path), file)
    {
      hops, file := [], ROOT;
      var clean := Clean(path);
      var (dirPath, name) := SplitLast(clean);
      ParentAndName(path);
      if name == "" {
        return Err(NotAFilePath(path)), file, hops;
      }
      ghost var names := Components(path);
      var parent;
      parent, hops := OpenFileParent(dirPath, mkdirs, IsAbs(path), names, name, flags);
      if parent.Err? {
        return Err(parent.error), file, hops;
      }
      ghost var mid, stood := history, tree;
      r, file, hops := CreateBelow(parent.value, name, flags, clean, hops, names, old(fds), |old(history)|, old(made), mkdirs);
      GrownTrans(old(history), mid, history);
      if env.Quiet() && r.Ok? { LastLed(old(tree), stood, parent.value.inode, names, name, file); }
    }

    /** OpenParent, on the way to the file at `names`. */
    method OpenFileParent(dir: string, mkdirs: bool, ghost abs: bool, ghost names: seq<string>, ghost name: string, ghost flags: Flags)
      returns (r: Result<Node, Error>, ghost hops: seq<Hop>)
      requires Valid() && (!abs ==> !IsAbs(dir))
      requires abs ==> names != [] && AllPlain(names) && IsAbs(dir) && Components(dir) == names[..|names| - 1] && name == names[|names| - 1]
      modifies this
      ensures Valid() && Grown(old(history), history)
      ensures r.Err? ==> fds == old(fds)
      ensures r.Ok? ==> abs && r.value.fd !in old(fds) && fds == old(fds)[r.value.fd := r.value.inode]
      ensures r.Ok? ==> |hops| == |names| - 1 && r.value.inode == At(hops, |hops|)
      ensures abs ==> IsChain(history, hops, names) && StartsAt(hops, |old(history)|) && CreatesAlong(old(made), made, hops, names)
      ensures !abs || !mkdirs ==> made == old(made)
      ensures env.Quiet() && abs ==> ParentReady(old(tree), tree, names, name, flags, mkdirs, r)
    {
      r, hops := OpenParent(dir, mkdirs);
      if abs {
        LongerNames(history, old(made), made, hops, names[..|names| - 1], names);
        if env.Quiet() {
          GrownLater(old(history), old(tree), history, made, tree);
          FileOutcome(old(tree), names, flags, mkdirs, r, tree);
        }
      }
    }

    /** The directory to create in: MkdirAll or Open, and it must be a directory. */
    method OpenParent(path: string, mkdirs: bool) returns (r: Result<Node, Error>, ghost hops: seq<Hop>)
      requires Valid()
      modifies this
      ensures Valid() && Grown(old(history), history)
      ensures r.Err? ==> fds == old(fds)
      ensures r.Ok? ==> r.value.fd !in old(fds) && fds == old(fds)[r.value.fd := r.value.inode]
      ensures r.Ok? ==> IsAbs(path) && |hops| == |Components(path)| && r.value.inode == At(hops, |hops|)
      ensures IsAbs(path) ==> IsChain(history, hops, Components(path)) && StartsAt(hops, |old(history)|)
      ensures IsAbs(path) ==> CreatesAlong(old(made), made, hops, Components(path))
      ensures !IsAbs(path) || !mkdirs ==> made == old(made)
      ensures env.Quiet() && IsAbs(path) ==>
                ParentAgrees(old(tree), Resolve(old(tree), ROOT, Components(path)), mkdirs, r, tree)
    {
      if mkdirs {
        r, hops := MkdirAll(path);
        return;
      }
      r, hops := Open(path);
      if r.Err? {
        return r, [];
      }
      if !r.value.IsDir() {
        ghost var mid := history;
        r := RefuseNonDirectory(r.value, old(fds));
        GrownTrans(old(history), mid, history);
        ChainExtends(mid, history, hops, Components(path));
      }
    }

    /** The file CreateFile returns, found or made, is inside if the walk was
        inside anywhere on its way. */
    lemma CreatedStaysInside(inside: iset<Inode>, from: nat, names: seq<string>, file: Inode, hops: seq<Hop>, k: nat)
      requires Valid() && CreatedOrFound(from, names, file, hops) && AllPlain(names)
      requires KeepsConfined(inside, history, made) && Confined(inside, history[0])
      requires k <= |hops| && At(hops, k) in inside
      ensures file in inside
    {
      ChainStaysInside(inside, history, made, hops, names, k, |hops|);
    }

    /** The last component: open it below the verified parent, then drop the parent. */
    method CreateBelow(parent: Node, name: string, flags: Flags, clean: string, ghost hops: seq<Hop>,
                       ghost names: seq<string>, ghost rest: map<Fd, Inode>, ghost from: nat,
                       ghost made0: map<nat, Creation>, ghost mkdirs: bool)
      returns (r: Result<Fd, Error>, ghost file: Inode, ghost hops': seq<Hop>)
      requires Valid() && parent.fd !in rest && fds == rest[parent.fd := parent.inode] && from <= |history|
      requires |names| == |hops| + 1 && name == names[|hops|] && Plain(name)
      requires IsChain(history, hops, names) && StartsAt(hops, from) && parent.inode == At(hops, |hops|)
      requires CreatesAlong(made0, made, hops, names) && (!mkdirs ==> made == made0)
      modifies this
      ensures Valid() && Grown(old(history), history)
      ensures r.Err? ==> fds == rest
      ensures r.Ok? ==> r.value !in rest && fds == rest[r.value := file] && CreatedOrFound(from, names, file, hops')
      ensures CreatesAlong(made0, made, hops', names) && IsChain(history, hops', names)
      ensures r.Err? ==> made == old(made)
      ensures env.Quiet() && r.Ok? ==> EntryLed(old(tree), parent.inode, name, file)
      ensures r.Ok? ==> EndsIn(history, from, hops', names, flags, file, made0, made, mkdirs)
      ensures env.Quiet() && old(tree).IsDir(parent.inode) ==>
                (r.Ok? <==> FileRefusal(old(tree), parent.inode, name, flags).None?)
    {
      hops' := hops;
      ghost var h0 := history;
      var o;
      o, file := OpenatFile(parent.fd, name, flags);
      ghost var h1 := history;
      ghost var at, hop := |h0|, Hop(|history| - 1, parent.inode, name, file);
      if o.Ok? { FoundIsNewIn(history, at, parent.inode, name, flags, file, old(made), made); }
      CreationStep(made0, old(made), made, hops, names);
      if o.Ok? {
        SwapFd(rest, parent.fd, o.value, file);
        SwapFd(rest[parent.fd := parent.inode], parent.fd, o.value, file);
        ChainStep(h0, h1, hops, names, hop, from);
        hops' := hops + [hop];
        CreationsCarry(made0, made, hops, hop, names);
        CreationsCarry(made0, old(made), hops, hop, names);
      } else {
        ChainExtends(h0, h1, hops, names);
      }
      SwapFd(rest, parent.fd, parent.fd, parent.inode);
      Close(parent.fd);
      GrownTrans(h0, h1, history);
      ChainExtends(h1, history, hops', names);
      if o.Ok? {
        EndedIn(h1, history, from, at, hops', names, parent.inode, name, flags, file, made0, old(made), made, mkdirs);
      }
      if o.Err? {
        return Err(if o.error == ELOOP then SymlinkRefused(clean) else Sys(clean, o.error)), file, hops';
      }
      return Ok(o.value), file, hops';
    }

    ghost predicate CreatedOrFound(from: nat, names: seq<string>, file: Inode, hops: seq<Hop>)
      reads this
    {
      && |hops| == |names| > 0 && IsChain(history, hops, names) && StartsAt(hops, from)
      && file == At(hops, |hops|)
    }
  }

  /** On a tree that stands still: what is there may be opened with these flags, a
      directory only to be read and under O_EXCL nothing; a missing file may be
      made, in its directory or in one that is made too. No symlink is followed
      anywhere. */
  ghost predicate Creatable(t: Tree, names: seq<string>, flags: Flags, mkdirs: bool)
    requires names != []
  {
    match Resolve(t, ROOT, names)
    case Reached(i) => if t.IsDir(i) then !flags.creat && !flags.write else !(flags.creat && flags.excl)
    case Missing => flags.creat && (mkdirs || Resolve(t, ROOT, names[..|names| - 1]).Reached?)
    case _ => false
  }

  /** What OpenParent comes to when nobody interferes. */
  ghost predicate ParentAgrees(t0: Tree, o: Outcome, mkdirs: bool, r: Result<Node, Error>, t: Tree) {
    match o
    case Reached(d) => (r.Ok? <==> t0.IsDir(d)) && (r.Ok? ==> t == t0 && r.value.inode == d)
    case Missing =>
      if mkdirs then r.Ok? && t.IsDir(r.value.inode) && r.value.inode in t.entries && t.entries[r.value.inode] == map[]
      else r.Err?
    case _ => r.Err?
  }

  /** Whether the last step succeeds decides, and its entry is what the whole path
      leads to. */
  ghost predicate ParentReady(t0: Tree, t: Tree, names: seq<string>, name: string, flags: Flags, mkdirs: bool, parent: Result<Node, Error>)
  {
    && names != [] && t.WellFormed()
    && (parent.Ok? ==> t.IsDir(parent.value.inode) && LeadsOn(t0, t, names, parent.value.inode, name))
    && (Creatable(t0, names, flags, mkdirs) <==> parent.Ok? && FileRefusal(t, parent.value.inode, name, flags).None?)
  }

  ghost predicate LeadsOn(t0: Tree, t: Tree, names: seq<string>, d: Inode, name: string) {
    forall file :: EntryLed(t, d, name, file) ==> LedTo(t0, names, file)
  }

  lemma LastLed(t0: Tree, t: Tree, d: Inode, names: seq<string>, name: string, file: Inode)
    requires LeadsOn(t0, t, names, d, name) && EntryLed(t, d, name, file)
    ensures LedTo(t0, names, file)
  {
  }

  lemma FileOutcome(t0: Tree, names: seq<string>, flags: Flags, mkdirs: bool, parent: Result<Node, Error>, t: Tree)
    requires t0.WellFormed() && t.WellFormed() && names != [] && AllPlain(names)
    requires ParentAgrees(t0, Resolve(t0, ROOT, names[..|names| - 1]), mkdirs, parent, t) && Later(t0, t)
    ensures ParentReady(t0, t, names, names[|names| - 1], flags, mkdirs, parent)
  {
    assert Plain(names[|names| - 1]);
    ResolveLast(t0, ROOT, names);
  }

  lemma {:induction false} ResolveLast(t: Tree, d: Inode, names: seq<string>)
    requires names != []
    ensures Resolve(t, d, names) == match Resolve(t, d, names[..|names| - 1])
                                    case Reached(c) => Entry(t, c, names[|names| - 1])
                                    case o => o
    decreases |names|
  {
    var init := names[..|names| - 1];
    if |names| > 1 {
      assert init[0] == names[0] && init[1..] == names[1..][..|names| - 2];
      match Entry(t, d, names[0])
      case Reached(c) => ResolveLast(t, c, names[1..]);
      case _ =>
    }
  }

  /** The last step of CreateFile: beyond the directories made on the way, nothing
      was made but the file, and only if there was no such entry. */
  ghost predicate EndsIn(h: seq<Tree>, from: nat, hops: seq<Hop>, names: seq<string>, flags: Flags, file: Inode,
                         made0: map<nat, Creation>, made: map<nat, Creation>, mkdirs: bool)
  {
    && |hops| == |names| > 0
    && var d, name := At(hops, |hops| - 1), names[|names| - 1];
       exists at, before :: FoundOrMade(h, at, d, name, flags, file, before, made)
         && from <= at && CreatesAlong(made0, before, hops, names) && (!mkdirs ==> before == made0)
  }

  lemma EndedIn(h0: seq<Tree>, h: seq<Tree>, from: nat, at: nat, hops: seq<Hop>, names: seq<string>, d: Inode, name: string,
                flags: Flags, file: Inode, made0: map<nat, Creation>, before: map<nat, Creation>, made: map<nat, Creation>, mkdirs: bool)
    requires |hops| == |names| > 0 && from <= at && CreatesAlong(made0, before, hops, names) && (!mkdirs ==> before == made0)
    requires d == At(hops, |hops| - 1) && name == names[|names| - 1]
    requires FoundOrMade(h0, at, d, name, flags, file, before, made) && Grown(h0, h)
    ensures EndsIn(h, from, hops, names, flags, file, made0, made, mkdirs)
    ensures h0[at].WellFormed() && Plain(name) ==> EntryLed(h0[at], d, name, file)
  {
    assert SameAt(h0, h, at);
    assert FoundOrMade(h, at, d, name, flags, file, before, made);
  }

  lemma GrownLater(h: seq<Tree>, t: Tree, h': seq<Tree>, made: map<nat, Creation>, t': Tree)
    requires |h| > 0 && h[|h| - 1] == t && Grown(h, h') && IsRun(h', made) && h'[|h'| - 1] == t'
    ensures Later(t, t')
  {
    LaterInRun(h', made, |h| - 1, |h'| - 1);
    assert SameAt(h, h', |h| - 1);
  }

  /** The file is the object the path resolves to, or a new one where it leads
      nowhere. */
  ghost predicate LedTo(t: Tree, names: seq<string>, file: Inode) {
    Resolve(t, ROOT, names) == Reached(file) || (Resolve(t, ROOT, names) == Missing && file !in t.kinds)
  }

  ghost predicate EntryLed(t: Tree, d: Inode, name: string, file: Inode) {
    Entry(t, d, name) == Reached(file) || (Entry(t, d, name) == Missing && file !in t.kinds)
  }

  lemma LongerNames(h: seq<Tree>, made0: map<nat, Creation>, made: map<nat, Creation>, hops: seq<Hop>,
                    init: seq<string>, names: seq<string>)
    requires init <= names && IsChain(h, hops, init) && CreatesAlong(made0, made, hops, init)
    ensures IsChain(h, hops, names) && CreatesAlong(made0, made, hops, names)
  {
    forall i | 0 <= i < |hops| ensures HopOk(h, hops, names, i) {
      assert HopOk(h, hops, init, i);
    }
    forall i | i in made && i !in made0 ensures exists j: nat :: CreatedAt(made[i], hops, names, j) {
      var j: nat :| CreatedAt(made[i], hops, init, j);
      assert CreatedAt(made[i], hops, names, j);
    }
  }

  /** What splitting a cleaned path gives CreateFile to work with. */
  lemma ParentAndName(path: string)
    ensures var (dir, name) := SplitLast(Clean(path)); var names := Components(path);
            if !IsAbs(path) then !IsAbs(dir)
            else AllPlain(names) && (name == "" <==> names == []) &&
                 (names != [] ==> IsAbs(dir) && Components(dir) == names[..|names| - 1] && name == names[|names| - 1] && Plain(name))
  {
    if IsAbs(path) {
      CleanedIsPlain(path);
      RootHasNoElements(Components(path));
      if Components(path) != [] { SplitLastOfClean(path); }
    } else {
      RelativeParent(path);
    }
  }

  /** A relative path stays relative: its parent is refused by Open and MkdirAll. */
  lemma RelativeParent(path: string)
    requires !IsAbs(path)
    ensures !IsAbs(Clean(path)) && !IsAbs(SplitLast(Clean(path)).0)
  {
    var names := Components(path);
    SplitAllFree(path, '/');
    NormalizeNonEmpty(Split(path, '/'));
    if names != [] {
      assert names[0] != "" && '/' !in names[0];
      var j := Join(names, '/');
      assert j[0] == names[0][0] && names[0][0] in names[0];
    }
    var (dir, name) := SplitLast(Clean(path));
    if dir != "" { assert dir[0] == Clean(path)[0]; }
  }

  lemma {:induction false} NormalizeNonEmpty(names: seq<string>)
    requires AllFree(names, '/')
    ensures forall i :: 0 <= i < |Normalize(false, names)| ==>
              Normalize(false, names)[i] != "" && '/' !in Normalize(false, names)[i]
  {
    if names != [] {
      var init := names[..|names| - 1];
      assert AllFree(init, '/') by {
        forall i | 0 <= i < |init| ensures Free(init[i], '/') { assert init[i] == names[i]; }
      }
      NormalizeNonEmpty(init);
      assert Free(names[|names| - 1], '/');
    }
  }

  lemma MadeDirEntry(t: Tree, d: Inode, name: string, child: Inode, t': Tree)
    requires t.WellFormed() && t.IsDir(d) && Plain(name) && MadeDir(t, d, name, child, t')
    ensures Entry(t', d, name) == Reached(child) && t'.IsDir(d)
  {
  }

  ghost predicate MakeAgrees(t: Tree, d: Inode, name: string, r: Result<Node, Error>, t': Tree) {
    match Entry(t, d, name)
    case Missing => r.Ok? && MadeDir(t, d, name, r.value.inode, t')
    case o => t' == t && Agrees(r, o)
  }

  /** One component of MkdirAll keeps it in step with the reference resolution. */
  lemma QuietMkdirStep(t0: Tree, t: Tree, d: Inode, parts: seq<string>, i: nat, r: Result<Node, Error>, t': Tree)
    requires t.WellFormed() && t0.WellFormed() && t'.WellFormed() && i < |parts| && AllPlain(parts)
    requires MkdirProgress(t0, t, d, parts, i) && MakeAgrees(t, d, parts[i], r, t')
    ensures r.Err? ==> MkdirAgrees(t0, r, Resolve(t0, ROOT, parts))
    ensures r.Ok? && t'.IsDir(r.value.inode) ==> MkdirProgress(t0, t', r.value.inode, parts, i + 1)
    ensures r.Ok? && !t'.IsDir(r.value.inode) ==>
              MkdirAgrees(t0, Err(NotADirectory(r.value.path)), Resolve(t0, ROOT, parts))
  {
    assert Plain(parts[i]);
    ResolveStep(t0, d, parts, i);
    if r.Ok? && i + 1 < |parts| {
      ResolveStep(t0, r.value.inode, parts, i + 1);
    }
  }

  /** At most one creation was added: `name` in directory `d`. */
  ghost predicate NewIn(made: map<nat, Creation>, made': map<nat, Creation>, d: Inode, name: string) {
    || made' == made
    || exists i: nat, child, kind :: i !in made && made' == made[i := Creation(d, name, child, kind)]
  }

  lemma CreationStep(made0: map<nat, Creation>, made1: map<nat, Creation>, made2: map<nat, Creation>,
                     hops: seq<Hop>, names: seq<string>)
    requires CreatesAlong(made0, made1, hops, names) && |hops| < |names|
    requires NewIn(made1, made2, At(hops, |hops|), names[|hops|])
    ensures CreatesAlong(made0, made2, hops, names)
  {
    forall i | i in made2 && i !in made0 ensures exists j: nat :: CreatedAt(made2[i], hops, names, j) {
      if i in made1 && made2[i] == made1[i] {
        var j: nat :| CreatedAt(made1[i], hops, names, j);
        assert CreatedAt(made2[i], hops, names, j);
      } else {
        assert CreatedAt(made2[i], hops, names, |hops|);
      }
    }
  }

  lemma CreationsCarry(made0: map<nat, Creation>, made: map<nat, Creation>, hops: seq<Hop>, hop: Hop, names: seq<string>)
    requires CreatesAlong(made0, made, hops, names)
    ensures CreatesAlong(made0, made, hops + [hop], names)
  {
    forall i | i in made && i !in made0 ensures exists j: nat :: CreatedAt(made[i], hops + [hop], names, j) {
      var j: nat :| CreatedAt(made[i], hops, names, j);
      assert CreatedAt(made[i], hops + [hop], names, j);
    }
  }

  /** Where MkdirAll stands on a tree nobody else touches: still resolving what
      was there, or in a directory it has just made. */
  ghost predicate MkdirProgress(t0: Tree, t: Tree, d: Inode, parts: seq<string>, i: nat)
    requires i <= |parts|
  {
    && t.IsDir(d)
    && ((t == t0 && Resolve(t0, ROOT, parts) == Resolve(t0, d, parts[i..])) ||
        (Resolve(t0, ROOT, parts) == Missing && d in t.entries && t.entries[d] == map[]))
  }

  /** What MkdirAll leaves behind: the tree as it was, or a new, empty directory
      where the path was missing. */
  ghost predicate MkdirLeaves(t0: Tree, o: Outcome, t: Tree, d: Inode) {
    match o
    case Missing => t.IsDir(d) && d in t.entries && t.entries[d] == map[]
    case Reached(i) => t == t0 && i == d
    case _ => false
  }

  /** MkdirAll succeeds exactly on directories and on missing paths. */
  ghost predicate MkdirAgrees(t0: Tree, r: Result<Node, Error>, o: Outcome) {
    match o
    case Missing => r.Ok?
    case Reached(i) => if t0.IsDir(i) then r.Ok? && r.value.inode == i else r.Err? && r.error.NotADirectory?
    case HitSymlink => r.Err? && r.error.SymlinkRefused?
    case NotDir => r.Err? && r.error.NotADirectory?
  }

  lemma PlainEntries(t: Tree, d: Inode, found: seq<string>, names: seq<string>)
    requires t.WellFormed() && d in t.entries && Lists(t, d, found)
    requires forall x :: x in names <==> x in found && x != "." && x != ".."
    ensures forall x :: x in names <==> x in t.entries[d]
  {
    forall x ensures x in names <==> x in t.entries[d] {
      if x in t.entries[d] { assert Plain(x); }
    }
  }

  /** At step `at`, `name` led to no object that may be opened; ENOENT says that
      there was none at all. */
  ghost predicate MissedAt(h: seq<Tree>, at: nat, d: Inode, name: string, e: Error) {
    && at < |h| && !Entry(h[at], d, name).Reached?
    && (e.Sys? && e.errno == ENOENT ==> Entry(h[at], d, name) == Missing)
    && (Entry(h[at], d, name) == Missing ==> e.Sys? && e.errno == ENOENT)
  }

  /** The looks at `name` from step `from` on came to nothing: the first found a
      symlink or no directory to look in, or a later one, after something had
      been made there, found no object that may be opened. */
  ghost predicate MissedAgain(h: seq<Tree>, from: nat, d: Inode, name: string) {
    exists k: nat :: k < |h| && MissedLater(h, from, k, d, name)
  }

  ghost predicate MissedLater(h: seq<Tree>, from: nat, k: nat, d: Inode, name: string)
    requires k < |h|
  {
    from <= k && !Entry(h[k], d, name).Reached? && (k == from ==> Entry(h[k], d, name) != Missing)
  }

  lemma MissedFirst(h: seq<Tree>, at: nat, d: Inode, name: string, e: Error)
    requires MissedAt(h, at, d, name, e) && !(e.Sys? && e.errno == ENOENT)
    ensures MissedAgain(h, at, d, name)
  {
    assert MissedLater(h, at, at, d, name);
  }

  lemma MissedOnce(h: seq<Tree>, from: nat, at: nat, d: Inode, name: string, e: Error)
    requires MissedAt(h, at, d, name, e) && from < at
    ensures MissedAgain(h, from, d, name)
  {
    assert MissedLater(h, from, at, d, name);
  }

  lemma NoDirectory(h: seq<Tree>, at: nat, d: Inode, name: string)
    requires at < |h| && !h[at].IsDir(d)
    ensures MissedAgain(h, at, d, name)
  {
    assert MissedLater(h, at, at, d, name);
  }

  lemma MissedBefore(h: seq<Tree>, from: nat, from': nat, d: Inode, name: string)
    requires MissedAgain(h, from', d, name) && from < from'
    ensures MissedAgain(h, from, d, name)
  {
    var k: nat :| k < |h| && MissedLater(h, from', k, d, name);
    assert MissedLater(h, from, k, d, name);
  }

  /** At step `at`, the entry `name` of directory `d` was a symlink. */
  ghost predicate SawSymlink(h: seq<Tree>, at: nat, d: Inode, name: string) {
    at < |h| && Entry(h[at], d, name) == HitSymlink
  }

  /** The hops were made at steps of the run from `from` on. */
  ghost predicate StartsAt(hops: seq<Hop>, from: nat) {
    forall k :: 0 <= k < |hops| ==> hops[k].at >= from
  }

  lemma ChainStep(h: seq<Tree>, h': seq<Tree>, hops: seq<Hop>, names: seq<string>, hop: Hop, from: nat)
    requires IsChain(h, hops, names) && StartsAt(hops, from) && Grown(h, h')
    requires |hops| < |names| && from <= |h|
    requires Seen(h', hop) && hop.at >= |h| && hop.dir == At(hops, |hops|) && hop.name == names[|hops|]
    ensures IsChain(h', hops + [hop], names) && StartsAt(hops + [hop], from)
    ensures At(hops + [hop], |hops| + 1) == hop.child
  {
    ChainExtends(h, h', hops, names);
    if hops != [] {
      assert HopOk(h, hops, names, |hops| - 1);
    }
    ChainGrows(h', hops, names, hop);
  }

  lemma ResolveStep(t: Tree, d: Inode, names: seq<string>, i: nat)
    requires t.WellFormed() && i < |names|
    ensures Resolve(t, d, names[i..]) ==
            match Entry(t, d, names[i])
            case Reached(c) => Resolve(t, c, names[i + 1..])
            case o => o
    ensures Entry(t, d, names[i]) == NotDir <==> !t.IsDir(d)
  {
    assert names[i..][0] == names[i] && names[i..][1..] == names[i + 1..];
  }

  lemma SwapFd(m: map<Fd, Inode>, a: Fd, b: Fd, i: Inode)
    requires b !in m
    ensures m[b := i] - {a} == if a == b then m - {a} else (m - {a})[b := i]
    ensures m[b := i] - {b} == m
    ensures (m - {a})[b := i] - {b} == m - {a}
  {
    assert m[b := i] - {b} == m;
    assert (m - {a})[b := i] - {b} == m - {a};
  }

  predicate MadeDir(t: Tree, d: Inode, name: string, child: Inode, t': Tree) {
    d in t.entries && child !in t.kinds && t' == t.Added(d, name, child, Directory)
  }

  /** What a successful openat did to the tree it found at step `at`: it opened the
      entry that was there, never a symlink, and changed nothing; or there was
      none, and it made one. */
  ghost predicate FoundOrMade(h: seq<Tree>, at: nat, d: Inode, name: string, flags: Flags, file: Inode,
                              before: map<nat, Creation>, after: map<nat, Creation>)
  {
    && at < |h| && at !in before && h[at].IsDir(d) && d in h[at].entries
    && if name in h[at].entries[d]
       then && after == before && file == h[at].entries[d][name] && file in h[at].kinds && h[at].kinds[file] != Symlink
            && !(flags.creat && (flags.excl || h[at].IsDir(file))) && !(flags.write && h[at].IsDir(file))
       else flags.creat && file !in h[at].kinds && after == before[at := Creation(d, name, file, Other)]
  }

  lemma FoundIsNewIn(h: seq<Tree>, at: nat, d: Inode, name: string, flags: Flags, file: Inode,
                     before: map<nat, Creation>, after: map<nat, Creation>)
    requires FoundOrMade(h, at, d, name, flags, file, before, after)
    ensures NewIn(before, after, d, name)
  {
  }

  /** Why openat refuses a file on a tree that stands still. */
  function FileRefusal(t: Tree, d: Inode, name: string, flags: Flags): Option<Errno>
    requires d in t.entries && d in t.parents
  {
    match t.Lookup(d, name)
    case None => if flags.creat then None else Some(ENOENT)
    case Some(c) =>
      if flags.creat && flags.excl then Some(EEXIST)
      else if c !in t.kinds then None
      else if t.kinds[c] == Symlink then Some(ELOOP)
      else if t.kinds[c] == Directory && (flags.write || flags.creat) then Some(EISDIR)
      else None
  }

  /** The error for each kind of entry. */
  lemma RefusalIs(t: Tree, d: Inode, name: string, flags: Flags)
    requires t.WellFormed() && t.IsDir(d) && Plain(name)
    ensures name !in t.entries[d] ==> FileRefusal(t, d, name, flags) == if flags.creat then None else Some(ENOENT)
    ensures name in t.entries[d] && flags.creat && flags.excl ==> FileRefusal(t, d, name, flags) == Some(EEXIST)
    ensures name in t.entries[d] && !(flags.creat && flags.excl) ==>
              FileRefusal(t, d, name, flags) ==
                match t.kinds[t.entries[d][name]]
                case Symlink => Some(ELOOP)
                case Directory => if flags.creat || flags.write then Some(EISDIR) else None
                case Other => None
  {
  }

  lemma RootHasNoElements(names: seq<string>)
    requires AllPlain(names)
    ensures FromRoot(names) == "/" <==> names == []
  {
    if names != [] {
      assert Plain(names[0]);
      assert |Rooted(names)| >= 2;
    }
  }
}
