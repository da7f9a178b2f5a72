/** internal/tools/disks/usage/usage.go: what a tree uses, and each directory in
    it, with excluded parts pruned and hard links counted once. */
module Usage {
  import opened Text
  import opened Paths

  datatype Stat = Stat(dev: nat, ino: nat, nlink: nat, blocks: nat)

  datatype Info = Info(size: nat, stat: Option<Stat>)

  /** `info` is absent when lstat fails; `entries` are what reading the directory
      yields, in name order, possibly cut short. */
  datatype Tree = Tree(name: string, isDir: bool, info: Option<Info>, entries: seq<Tree>)

  datatype Args = Args(maxDepth: int, oneFileSystem: bool, exclude: seq<string>, all: bool, apparentSize: bool,
                       threshold: int, separateDirs: bool)

  datatype FileLine = FileLine(path: string, size: nat)

  type Names = seq<string>

  // ----- paths as strings -----

  function LastSlash(path: string): (i: nat)
    ensures i <= |path|
    ensures i < |path| ==> path[i] == '/'
    ensures i == |path| ==> '/' !in path
    ensures forall j :: i < j < |path| ==> path[j] != '/'
  {
    if path == "" then 0
    else if path[|path| - 1] == '/' then |path| - 1
    else
      var i := LastSlash(path[..|path| - 1]);
      if i == |path| - 1 then |path| else i
  }

  /** filepath.Dir. */
  function DirOf(path: string): string {
    var i := LastSlash(path);
    Clean(if i == |path| then "" else path[..i + 1])
  }

  /** strings.Count(path, "/"). */
  function Slashes(path: string): nat {
    if path == "" then 0 else (if path[0] == '/' then 1 else 0) + Slashes(path[1..])
  }

  lemma {:induction false} SlashesConcat(a: string, b: string)
    ensures Slashes(a + b) == Slashes(a) + Slashes(b)
  {
    if a == "" {
      assert a + b == b;
    } else {
      SlashesConcat(a[1..], b);
      assert (a + b)[1..] == a[1..] + b;
    }
  }

  lemma {:induction false} NoSlashes(name: string)
    requires '/' !in name
    ensures Slashes(name) == 0
  {
    if name != "" {
      NoSlashes(name[1..]);
    }
  }

  /** A cleaned path other than "/" has a separator for each element. */
  lemma {:induction false} SlashesAreElements(names: Names)
    requires AllPlain(names)
    ensures Slashes(Rooted(names)) == |names|
  {
    if names != [] {
      assert Plain(names[0]);
      TailPlain(names);
      SlashesAreElements(names[1..]);
      NoSlashes(names[0]);
      SlashesConcat("/" + names[0], Rooted(names[1..]));
      SlashesConcat("/", names[0]);
    }
  }

  lemma CleanTrailing(names: Names)
    requires AllPlain(names)
    ensures Clean(Rooted(names) + "/") == FromRoot(names)
  {
    var s := Rooted(names) + "/";
    RootedHead(names);
    SplitAt(Rooted(names), "", '/');
    assert Rooted(names) + ['/'] + "" == s;
    var parts := Split(Rooted(names), '/');
    assert Split(s, '/') == parts + [""];
    assert (parts + [""])[..|parts|] == parts;
    assert Normalize(true, parts + [""]) == Normalize(true, parts);
    if names == [] {
      assert parts == [""] && parts[..0] == [];
    } else {
      ComponentsFromRoot(names);
    }
  }

  /** filepath.Dir drops the last element. */
  lemma DirOfIsParent(names: Names, name: string)
    requires AllPlain(names) && Plain(name)
    ensures DirOf(FromRoot(names + [name])) == FromRoot(names)
  {
    RootedAppend(names, name);
    var s := Rooted(names) + "/" + name;
    var i := LastSlash(s);
    assert s[|Rooted(names)|] == '/';
    assert '/' in s;
    forall j | |Rooted(names)| < j < |s| ensures s[j] != '/' {
      assert s[j] == name[j - |Rooted(names)| - 1];
    }
    assert s[..i + 1] == Rooted(names) + "/";
    CleanTrailing(names);
  }

  lemma FromRootInjective(a: Names, b: Names)
    requires AllPlain(a) && AllPlain(b) && FromRoot(a) == FromRoot(b)
    ensures a == b
  {
    ComponentsFromRoot(a);
    ComponentsFromRoot(b);
  }

  lemma {:induction false} RootedConcat(a: Names, b: Names)
    ensures Rooted(a + b) == Rooted(a) + Rooted(b)
  {
    if a == [] {
      assert a + b == b;
    } else {
      RootedConcat(a[1..], b);
      assert (a + b)[1..] == a[1..] + b;
    }
  }

  lemma BelowHasPrefix(root: Names, dir: Names)
    requires root <= dir
    ensures HasPrefix(FromRoot(dir), FromRoot(root))
  {
    assert dir == root + dir[|root|..];
    RootedConcat(root, dir[|root|..]);
    RootedHead(dir);
  }

  lemma ParentLacksPrefix(names: Names, name: string)
    requires Plain(name)
    ensures !HasPrefix(FromRoot(names), FromRoot(names + [name]))
  {
    RootedAppend(names, name);
  }

  // ----- what is visited, and what of it is counted -----

  /** `key` is the inode of a file with several links. */
  datatype Entry = Entry(path: Names, isDir: bool, size: nat, key: Option<(nat, nat)>)

  function EntryOf(t: Tree, path: Names, apparent: bool): Entry
    requires t.info.Some?
  {
    var info := t.info.value;
    Entry(path, t.isDir,
          if !apparent && info.stat.Some? then info.stat.value.blocks * 512 else info.size,
          if info.stat.Some? && !t.isDir && info.stat.value.nlink > 1
          then Some((info.stat.value.dev, info.stat.value.ino)) else None)
  }

  /** filepath.Match, which is not part of this model, and what Usage was asked. */
  datatype Query = Query(args: Args, root: Names, rootDev: nat, glob: (string, string) -> bool)

  predicate Matches(q: Query, pattern: string, path: string, name: string) {
    if '/' in pattern then
      var p := Clean(pattern);
      path == p || HasPrefix(path, p + "/") || q.glob(p, path)
    else q.glob(pattern, name)
  }

  predicate Excluded(q: Query, path: string, name: string) {
    exists i :: 0 <= i < |q.args.exclude| && Matches(q, q.args.exclude[i], path, name)
  }

  predicate Foreign(q: Query, t: Tree) {
    t.info.Some? && q.args.oneFileSystem && t.info.value.stat.Some? && t.info.value.stat.value.dev != q.rootDev
  }

  predicate Pruned(q: Query, t: Tree, path: Names) {
    (path != q.root && Excluded(q, FromRoot(path), t.name)) || Foreign(q, t)
  }

  function ItselfOf(t: Tree, path: Names, apparent: bool): seq<Entry> {
    if t.info.Some? then [EntryOf(t, path, apparent)] else []
  }

  /** The entries that are looked at, in the order of the walk. */
  function Visits(q: Query, t: Tree, path: Names): seq<Entry>
    decreases t, 0
  {
    if Pruned(q, t, path) then []
    else
      ItselfOf(t, path, q.args.apparentSize) + (if t.isDir then VisitsAll(q, t.entries, path) else [])
  }

  function VisitsAll(q: Query, ts: seq<Tree>, path: Names): seq<Entry>
    decreases ts
  {
    if ts == [] then [] else Visits(q, ts[0], path + [ts[0].name]) + VisitsAll(q, ts[1..], path)
  }

  function Keys(log: seq<Entry>): set<(nat, nat)> {
    set i | 0 <= i < |log| && log[i].key.Some? :: log[i].key.value
  }

  predicate New(e: Entry, seen: set<(nat, nat)>) {
    e.key.None? || e.key.value !in seen
  }

  function SeenAfter(e: Entry, seen: set<(nat, nat)>): set<(nat, nat)> {
    if e.key.Some? then seen + {e.key.value} else seen
  }

  /** What is counted of a list of visits: an inode already seen is not. */
  function Kept(log: seq<Entry>, seen: set<(nat, nat)>): seq<Entry> {
    if log == [] then []
    else (if New(log[0], seen) then [log[0]] else []) + Kept(log[1..], SeenAfter(log[0], seen))
  }

  lemma KeysSnoc(log: seq<Entry>, e: Entry)
    ensures Keys(log + [e]) == SeenAfter(e, Keys(log))
  {
    var all := log + [e];
    forall k ensures k in Keys(all) <==> k in SeenAfter(e, Keys(log)) {
      if k in Keys(log) {
        var i :| 0 <= i < |log| && log[i].key == Some(k);
        assert all[i].key == Some(k);
      }
      if e.key == Some(k) {
        assert all[|log|].key == Some(k);
      }
    }
  }

  lemma KeysCons(e: Entry, log: seq<Entry>, seen: set<(nat, nat)>)
    ensures SeenAfter(e, seen) + Keys(log) == seen + Keys([e] + log)
  {
    var all := [e] + log;
    forall k ensures k in SeenAfter(e, seen) + Keys(log) <==> k in seen + Keys(all) {
      if k in Keys(log) {
        var i :| 0 <= i < |log| && log[i].key == Some(k);
        assert all[i + 1].key == Some(k);
      }
      if e.key == Some(k) {
        assert all[0].key == Some(k);
      }
      if k in Keys(all) {
        var i :| 0 <= i < |all| && all[i].key == Some(k);
        assert i > 0 ==> log[i - 1].key == Some(k);
      }
    }
  }

  lemma {:induction false} KeptSnoc(log: seq<Entry>, e: Entry, seen: set<(nat, nat)>)
    ensures Kept(log + [e], seen) == Kept(log, seen) + (if New(e, seen + Keys(log)) then [e] else [])
  {
    if log == [] {
      assert [e][1..] == [] && log + [e] == [e];
      assert Kept([e], seen) == (if New(e, seen) then [e] else []) + Kept([], SeenAfter(e, seen));
    } else {
      assert (log + [e])[1..] == log[1..] + [e];
      assert log == [log[0]] + log[1..];
      KeptSnoc(log[1..], e, SeenAfter(log[0], seen));
      KeysCons(log[0], log[1..], seen);
    }
  }

  function Sum(es: seq<Entry>): nat {
    if es == [] then 0 else es[0].size + Sum(es[1..])
  }

  lemma {:induction false} SumConcat(a: seq<Entry>, b: seq<Entry>)
    ensures Sum(a + b) == Sum(a) + Sum(b)
  {
    if a == [] {
      assert a + b == b;
    } else {
      SumConcat(a[1..], b);
      assert (a + b)[1..] == a[1..] + b;
    }
  }

  /** The directory an entry is charged to first. */
  function Home(e: Entry): Names {
    if e.isDir || e.path == [] then e.path else e.path[..|e.path| - 1]
  }

  /** Whether `e` is charged to directory `d`. */
  predicate Charged(q: Query, e: Entry, d: Names) {
    && q.args.maxDepth > 0
    && q.root <= d <= Home(e)
    && (|d| - |q.root| <= q.args.maxDepth || d == q.root)
    && (q.args.separateDirs ==> d == Home(e))
  }

  function OptPlus(o: Option<nat>, size: nat): Option<nat> {
    Some((if o.Some? then o.value else 0) + size)
  }

  /** The charges to `d`; none at all gives no entry. */
  function Charges(q: Query, es: seq<Entry>, d: Names): Option<nat> {
    if es == [] then None
    else
      var e := es[|es| - 1];
      var before := Charges(q, es[..|es| - 1], d);
      if Charged(q, e, d) then OptPlus(before, e.size) else before
  }

  lemma ChargesSnoc(q: Query, es: seq<Entry>, e: Entry, d: Names)
    ensures Charges(q, es + [e], d)
         == if Charged(q, e, d) then OptPlus(Charges(q, es, d), e.size) else Charges(q, es, d)
  {
    assert (es + [e])[..|es|] == es;
  }

  predicate Passes(size: int, threshold: int) {
    if threshold > 0 then size >= threshold
    else if threshold < 0 then size <= -threshold
    else true
  }

  function Files(q: Query, es: seq<Entry>): seq<FileLine> {
    if es == [] then []
    else
      var e := es[|es| - 1];
      Files(q, es[..|es| - 1])
      + (if q.args.all && !e.isDir && Passes(e.size, q.args.threshold) then [FileLine(FromRoot(e.path), e.size)] else [])
  }

  lemma FilesSnoc(q: Query, es: seq<Entry>, e: Entry)
    ensures Files(q, es + [e])
         == Files(q, es) + (if q.args.all && !e.isDir && Passes(e.size, q.args.threshold) then [FileLine(FromRoot(e.path), e.size)] else [])
  {
    assert (es + [e])[..|es|] == es;
  }

  function At(m: map<string, nat>, d: Names): Option<nat> {
    if FromRoot(d) in m then Some(m[FromRoot(d)]) else None
  }

  ghost predicate SizesAre(m: map<string, nat>, q: Query, es: seq<Entry>) {
    && (forall k :: k in m ==> IsPath(k))
    && (forall d :: AllPlain(d) ==> At(m, d) == Charges(q, es, d))
  }

  ghost predicate Tallied(q: Query, kept: seq<Entry>, total: nat, sizes: map<string, nat>, files: seq<FileLine>) {
    total == Sum(kept) && SizesAre(sizes, q, kept) && files == Files(q, kept)
  }

  ghost predicate IsPath(k: string) {
    exists d :: AllPlain(d) && FromRoot(d) == k
  }

  ghost predicate PlainTree(t: Tree)
    decreases t, 0
  {
    Plain(t.name) && PlainTrees(t.entries)
  }

  ghost predicate PlainTrees(ts: seq<Tree>)
    decreases ts
  {
    ts == [] || (PlainTree(ts[0]) && PlainTrees(ts[1..]))
  }

  // ----- the ancestor loop -----

  function Plus(m: map<string, nat>, dir: string, size: nat): map<string, nat> {
    m[dir := (if dir in m then m[dir] else 0) + size]
  }

  /** The loop has dealt with the directories of `from_` elements or more. */
  ghost predicate ChargedDown(m: map<string, nat>, was: map<string, nat>, q: Query, e: Entry, from_: nat) {
    && (forall k :: k in m ==> IsPath(k))
    && (forall d :: AllPlain(d) ==> At(m, d) == if Charged(q, e, d) && |d| >= from_ then OptPlus(At(was, d), e.size) else At(was, d))
  }

  lemma StartsAtHome(q: Query, e: Entry)
    requires AllPlain(e.path) && q.root <= e.path
    ensures FromRoot(Home(e)) == if e.isDir then FromRoot(e.path) else DirOf(FromRoot(e.path))
    ensures AllPlain(Home(e))
    ensures HasPrefix(FromRoot(Home(e)), FromRoot(q.root)) <==> q.root <= Home(e)
  {
    if !e.isDir {
      ParentOf(e.path);
    }
    if q.root <= Home(e) {
      BelowHasPrefix(q.root, Home(e));
    } else {
      FileHasNoHome(q.root, Home(e), e.path);
    }
  }

  lemma FileHasNoHome(root: Names, home: Names, path: Names)
    requires AllPlain(path) && root <= path && path != [] && home == path[..|path| - 1] && !(root <= home)
    ensures !HasPrefix(FromRoot(home), FromRoot(root))
  {
    assert |root| == |path|;
    assert root == path;
    assert home + [path[|path| - 1]] == path;
    ParentLacksPrefix(home, path[|path| - 1]);
  }

  lemma ParentOf(names: Names)
    requires AllPlain(names)
    ensures names == [] ==> DirOf(FromRoot(names)) == "/"
    ensures names != [] ==> DirOf(FromRoot(names)) == FromRoot(names[..|names| - 1]) && AllPlain(names[..|names| - 1])
  {
    if names == [] {
      CleanTrailing([]);
      assert "/"[..1] == "/";
    } else {
      var init := names[..|names| - 1];
      assert names == init + [names[|names| - 1]];
      forall i | 0 <= i < |init| ensures Plain(init[i]) { assert init[i] == names[i]; }
      DirOfIsParent(init, names[|names| - 1]);
    }
  }

  lemma DepthOf(root: Names, names: Names)
    requires AllPlain(root) && AllPlain(names) && root <= names
    ensures FromRoot(names) == FromRoot(root) <==> names == root
    ensures FromRoot(names) == "/" <==> names == []
    ensures FromRoot(names) != "."
    ensures names != root ==>
              Slashes(FromRoot(names)) - (if FromRoot(root) == "/" then 0 else Slashes(FromRoot(root))) == |names| - |root|
  {
    if FromRoot(names) == FromRoot(root) { FromRootInjective(names, root); }
    ComponentsFromRoot(names);
    ComponentsFromRoot(root);
    if FromRoot(names) == "/" { FromRootInjective(names, []); }
    if FromRoot(root) == "/" { FromRootInjective(root, []); }
    SlashesAreElements(names);
    SlashesAreElements(root);
  }

  /** Adding to one directory. */
  lemma PlusAt(m: map<string, nat>, names: Names, size: nat, d: Names)
    requires AllPlain(names) && AllPlain(d)
    ensures At(Plus(m, FromRoot(names), size), d) == if d == names then OptPlus(At(m, d), size) else At(m, d)
  {
    if d != names && FromRoot(d) == FromRoot(names) { FromRootInjective(d, names); }
  }

  lemma OneDown(m: map<string, nat>, m': map<string, nat>, was: map<string, nat>, q: Query, e: Entry, names: Names)
    requires ChargedDown(m, was, q, e, |names| + 1) && AllPlain(names) && q.root <= names <= Home(e)
    requires q.args.maxDepth > 0 && (q.args.separateDirs ==> names == Home(e))
    requires m' == if |names| - |q.root| <= q.args.maxDepth || names == q.root then Plus(m, FromRoot(names), e.size) else m
    ensures ChargedDown(m', was, q, e, |names|)
  {
    forall d | AllPlain(d)
      ensures At(m', d) == if Charged(q, e, d) && |d| >= |names| then OptPlus(At(was, d), e.size) else At(was, d)
    {
      PlusAt(m, names, e.size, d);
      assert At(m, d) == if Charged(q, e, d) && |d| >= |names| + 1 then OptPlus(At(was, d), e.size) else At(was, d);
      if d <= Home(e) && |d| == |names| { assert d == names; }
    }
    assert IsPath(FromRoot(names));
  }

  ghost predicate NoneShorter(q: Query, e: Entry, from_: nat) {
    forall d :: Charged(q, e, d) ==> |d| >= from_
  }

  lemma LoopEnds(q: Query, e: Entry, names: Names)
    requires names <= Home(e) && (q.args.separateDirs ==> names == Home(e))
    ensures (q.args.separateDirs || names == q.root) ==> NoneShorter(q, e, |names|)
    ensures !(q.root <= names) ==> NoneShorter(q, e, |names| + 1)
  {
  }

  lemma NothingCharged(q: Query, es: seq<Entry>, e: Entry, m: map<string, nat>)
    requires q.args.maxDepth <= 0 && SizesAre(m, q, es)
    ensures SizesAre(m, q, es + [e])
  {
    forall d | AllPlain(d) ensures At(m, d) == Charges(q, es + [e], d) {
      ChargesSnoc(q, es, e, d);
    }
  }

  lemma NoneCharged(was: map<string, nat>, q: Query, e: Entry)
    requires forall k :: k in was ==> IsPath(k)
    ensures ChargedDown(was, was, q, e, |Home(e)| + 1)
  {
  }

  /** Nothing shorter is charged: the loop is over. */
  lemma AllCharged(m: map<string, nat>, was: map<string, nat>, q: Query, e: Entry, from_: nat, es: seq<Entry>)
    requires ChargedDown(m, was, q, e, from_) && SizesAre(was, q, es)
    requires NoneShorter(q, e, from_)
    ensures SizesAre(m, q, es + [e])
  {
    forall d | AllPlain(d) ensures At(m, d) == Charges(q, es + [e], d) {
      var o := Charges(q, es, d);
      assert At(was, d) == o;
      assert At(m, d) == if Charged(q, e, d) then OptPlus(o, e.size) else o;
      ChargesSnoc(q, es, e, d);
    }
  }

  lemma Assoc<T>(a: seq<T>, b: seq<T>, c: seq<T>)
    ensures (a + b) + c == a + (b + c)
    ensures a + [] == a && [] + a == a
  {
  }

  lemma GoUp(root: Names, home: Names, names: Names)
    requires AllPlain(names) && root <= names <= home && names != root
    ensures var up := names[..|names| - 1];
            && AllPlain(up) && DirOf(FromRoot(names)) == FromRoot(up) && root <= up <= home
            && HasPrefix(FromRoot(up), FromRoot(root))
  {
    ParentOf(names);
    BelowHasPrefix(root, names[..|names| - 1]);
  }

  lemma Finish(m: map<string, nat>, was: map<string, nat>, q: Query, e: Entry, names: Names, from_: nat, es: seq<Entry>)
    requires ChargedDown(m, was, q, e, from_) && SizesAre(was, q, es)
    requires names <= Home(e) && (q.args.separateDirs ==> names == Home(e))
    requires (from_ == |names| && (q.args.separateDirs || names == q.root)) || (from_ == |names| + 1 && !(q.root <= names))
    ensures SizesAre(m, q, es + [e])
  {
    LoopEnds(q, e, names);
    AllCharged(m, was, q, e, from_, es);
  }

  // ----- the walk -----

  /** The variables of Usage that the walk callback updates. */
  class Walker {
    const q: Query
    var totalSize: nat
    var dirSizes: map<string, nat>
    var seenInodes: set<(nat, nat)>
    var allFiles: seq<FileLine>
    ghost var log: seq<Entry>       // every entry looked at so far
    ghost var kept: seq<Entry>      // those of them that were counted

    ghost predicate Valid()
      reads this
    {
      && AllPlain(q.root)
      && seenInodes == Keys(log) && kept == Kept(log, {})
      && Tallied(q, kept, totalSize, dirSizes, allFiles)
    }

    constructor (q: Query)
      requires AllPlain(q.root)
      ensures Valid() && this.q == q && log == []
    {
      this.q := q;
      totalSize, dirSizes, seenInodes, allFiles := 0, map[], {}, [];
      log, kept := [], [];
    }

    /** dirSizes[dir] += size. */
    method Add(dir: string, size: nat)
      modifies this`dirSizes
      ensures dirSizes == Plus(old(dirSizes), dir, size)
    {
      dirSizes := dirSizes[dir := (if dir in dirSizes then dirSizes[dir] else 0) + size];
    }

    /** One ancestor. */
    method ChargeOne(dir: string, size: nat, ghost e: Entry, ghost names: Names, ghost was: map<string, nat>)
      requires size == e.size && AllPlain(q.root) && AllPlain(names) && dir == FromRoot(names) && q.root <= names <= Home(e)
      requires q.args.maxDepth > 0 && (q.args.separateDirs ==> names == Home(e))
      requires ChargedDown(dirSizes, was, q, e, |names| + 1)
      modifies this`dirSizes
      ensures ChargedDown(dirSizes, was, q, e, |names|)
    {
      var top := FromRoot(q.root);
      var rootDepth := if top == "/" then 0 else Slashes(top);
      DepthOf(q.root, names);
      ghost var before := dirSizes;
      if Slashes(dir) - rootDepth <= q.args.maxDepth || dir == top {
        Add(dir, size);
      }
      OneDown(before, dirSizes, was, q, e, names);
    }

    /** The loop over the ancestors of `e`, on path strings. */
    method Charge(path: Names, isDir: bool, size: nat, ghost e: Entry)
      requires e.path == path && e.isDir == isDir && e.size == size
      requires AllPlain(q.root) && SizesAre(dirSizes, q, kept) && q.args.maxDepth > 0
      requires AllPlain(e.path) && q.root <= e.path
      modifies this`dirSizes
      ensures SizesAre(dirSizes, q, kept + [e])
    {
      var top := FromRoot(q.root);
      var dir := FromRoot(path);
      ghost var names := Home(e);
      StartsAtHome(q, e);
      if !isDir {
        dir := DirOf(dir);
      }
      ghost var was := dirSizes;
      NoneCharged(was, q, e);
      while HasPrefix(dir, top)
        invariant AllPlain(names) && dir == FromRoot(names) && names <= Home(e)
        invariant q.args.separateDirs ==> names == Home(e)
        invariant HasPrefix(dir, top) <==> q.root <= names
        invariant ChargedDown(dirSizes, was, q, e, |names| + 1)
        decreases |names|
      {
        ChargeOne(dir, size, e, names, was);
        DepthOf(q.root, names);
        if q.args.separateDirs || dir == top || dir == "/" || dir == "." {
          Finish(dirSizes, was, q, e, names, |names|, kept);
          return;
        }
        GoUp(q.root, Home(e), names);
        dir := DirOf(dir);
        names := names[..|names| - 1];
      }
      Finish(dirSizes, was, q, e, names, |names| + 1, kept);
    }

    method IsExcluded(path: string, name: string) returns (yes: bool)
      ensures yes <==> Excluded(q, path, name)
    {
      for i := 0 to |q.args.exclude|
        invariant forall j :: 0 <= j < i ==> !Matches(q, q.args.exclude[j], path, name)
      {
        if Matches(q, q.args.exclude[i], path, name) {
          return true;
        }
      }
      return false;
    }

    /** What is not a link already seen adds to the total and its ancestors. */
    method Count(path: Names, isDir: bool, size: nat, ghost e: Entry)
      requires e.path == path && e.isDir == isDir && e.size == size
      requires AllPlain(q.root) && AllPlain(path) && q.root <= path
      requires Tallied(q, kept, totalSize, dirSizes, allFiles)
      modifies this`totalSize, this`dirSizes, this`allFiles, this`kept
      ensures kept == old(kept) + [e] && Tallied(q, kept, totalSize, dirSizes, allFiles)
    {
      SumConcat(kept, [e]);
      totalSize := totalSize + size;
      if q.args.maxDepth > 0 {
        Charge(path, isDir, size, e);
      } else {
        NothingCharged(q, kept, e, dirSizes);
      }
      FilesSnoc(q, kept, e);
      if q.args.all && !isDir && Passes(size, q.args.threshold) {
        allFiles := allFiles + [FileLine(FromRoot(path), size)];
      }
      kept := kept + [e];
    }

    /** The walk callback once the entry is known to be wanted. */
    method Look(t: Tree, path: Names)
      requires Valid() && AllPlain(path) && q.root <= path && t.info.Some?
      modifies this
      ensures Valid() && log == old(log) + [EntryOf(t, path, q.args.apparentSize)]
    {
      ghost var e := EntryOf(t, path, q.args.apparentSize);
      KeptSnoc(log, e, {});
      assert {} + Keys(log) == Keys(log);
      KeysSnoc(log, e);
      log := log + [e];
      var info := t.info.value;
      if info.stat.Some? && !t.isDir && info.stat.value.nlink > 1 {
        var key := (info.stat.value.dev, info.stat.value.ino);
        if key in seenInodes {
          return;
        }
        seenInodes := seenInodes + {key};
      }
      var size := if !q.args.apparentSize && info.stat.Some? then info.stat.value.blocks * 512 else info.size;
      Count(path, t.isDir, size, e);
    }

    /** The walk callback; `descend` is false where it returns SkipDir. */
    method Callback(t: Tree, path: Names) returns (descend: bool)
      requires Valid() && AllPlain(path) && q.root <= path
      modifies this
      ensures Valid() && descend == !Pruned(q, t, path)
      ensures log == old(log) + if descend then ItselfOf(t, path, q.args.apparentSize) else []
    {
      if path != q.root {
        var out := IsExcluded(FromRoot(path), t.name);
        if out {
          return false;
        }
      }
      if t.info.None? {
        return true;
      }
      if q.args.oneFileSystem && t.info.value.stat.Some? && t.info.value.stat.value.dev != q.rootDev {
        return false;
      }
      Look(t, path);
      return true;
    }

    /** filepath.WalkDir. */
    method Visit(t: Tree, path: Names)
      requires Valid() && AllPlain(path) && q.root <= path && PlainTrees(t.entries)
      modifies this
      ensures Valid() && log == old(log) + Visits(q, t, path)
      decreases t, 1
    {
      ghost var before := log;
      var descend := Callback(t, path);
      if descend && t.isDir {
        VisitAll(t.entries, path);
        Assoc(before, ItselfOf(t, path, q.args.apparentSize), VisitsAll(q, t.entries, path));
      } else {
        Assoc(before, if descend then ItselfOf(t, path, q.args.apparentSize) else [], []);
      }
    }

    method VisitAll(ts: seq<Tree>, path: Names)
      requires Valid() && AllPlain(path) && q.root <= path && PlainTrees(ts)
      modifies this
      ensures Valid() && log == old(log) + VisitsAll(q, ts, path)
      decreases ts, 0
    {
      if ts != [] {
        ghost var before := log;
        Visit(ts[0], path + [ts[0].name]);
        VisitAll(ts[1..], path);
        Assoc(before, Visits(q, ts[0], path + [ts[0].name]), VisitsAll(q, ts[1..], path));
      }
    }
  }

  /** Usage, after its arguments have been read; `t` is the tree at the path. */
  method Usage(q: Query, t: Tree) returns (total: nat, sizes: map<string, nat>, files: seq<FileLine>)
    requires AllPlain(q.root) && PlainTrees(t.entries)
    ensures var kept := Kept(Visits(q, t, q.root), {});
            total == Sum(kept) && SizesAre(sizes, q, kept) && files == Files(q, kept)
    ensures var nodes := Walked(q, t, q.root);
            total == if q.args.apparentSize then Sizes(nodes, |nodes|) else 512 * Blocks(nodes, |nodes|) + Unblocked(nodes, |nodes|)
  {
    TotalIs(q, t);
    var walker := new Walker(q);
    walker.Visit(t, q.root);
    assert walker.log == Visits(q, t, q.root);
    total, sizes, files := walker.totalSize, walker.dirSizes, walker.allFiles;
  }

  // ----- what the figures mean -----

  /** Everything looked at is at or below the starting path, and when that is a
      directory everything is charged to directories at or below it. */
  lemma {:induction false} VisitsInside(q: Query, t: Tree, path: Names, e: Entry)
    requires e in Visits(q, t, path)
    ensures path <= e.path && (t.isDir ==> path <= Home(e))
    decreases t, 0
  {
    if t.isDir && e in VisitsAll(q, t.entries, path) {
      VisitsAllInside(q, t.entries, path, e);
    }
  }

  lemma {:induction false} VisitsAllInside(q: Query, ts: seq<Tree>, path: Names, e: Entry)
    requires e in VisitsAll(q, ts, path)
    ensures path < e.path && path <= Home(e)
    decreases ts
  {
    var below := path + [ts[0].name];
    if e in Visits(q, ts[0], below) {
      VisitsInside(q, ts[0], below, e);
      assert path < below <= e.path;
    } else {
      VisitsAllInside(q, ts[1..], path, e);
    }
  }

  predicate ClearAt(q: Query, path: Names, k: nat)
    requires k <= |path|
  {
    k <= |q.root| || !Excluded(q, FromRoot(path[..k]), path[k - 1])
  }

  /** Nothing on the way to `path` is excluded, counting from `n` elements. */
  ghost predicate Clear(q: Query, path: Names, n: nat) {
    forall k :: n <= k <= |path| ==> ClearAt(q, path, k)
  }

  /** An excluded directory takes everything below it out of the figures. */
  lemma {:induction false} ExcludedHidesAllBelow(q: Query, t: Tree, path: Names, e: Entry)
    requires e in Visits(q, t, path) && q.root <= path && (path != q.root ==> path[|path| - 1] == t.name)
    ensures path <= e.path && Clear(q, e.path, |path|)
    decreases t, 0
  {
    VisitsInside(q, t, path, e);
    assert !Pruned(q, t, path);
    if t.isDir && e in VisitsAll(q, t.entries, path) {
      ExcludedHidesAllIn(q, t.entries, path, e);
    } else {
      assert e.path == path;
    }
    ClearHere(q, t.name, path, e.path);
  }

  lemma ClearHere(q: Query, name: string, path: Names, below: Names)
    requires q.root <= path <= below && (path != q.root ==> path[|path| - 1] == name && !Excluded(q, FromRoot(path), name))
    requires Clear(q, below, |path| + 1)
    ensures Clear(q, below, |path|)
  {
    var n := |path|;
    assert below[..n] == path;
    assert n > |q.root| ==> path != q.root && below[n - 1] == name;
    forall k | n <= k <= |below| ensures ClearAt(q, below, k) {
      if k > n { assert n + 1 <= k; }
    }
  }

  lemma {:induction false} ExcludedHidesAllIn(q: Query, ts: seq<Tree>, path: Names, e: Entry)
    requires e in VisitsAll(q, ts, path) && q.root <= path
    ensures path <= e.path && Clear(q, e.path, |path| + 1)
    decreases ts
  {
    VisitsAllInside(q, ts, path, e);
    if e in Visits(q, ts[0], path + [ts[0].name]) {
      ExcludedHidesAllBelow(q, ts[0], path + [ts[0].name], e);
    } else {
      ExcludedHidesAllIn(q, ts[1..], path, e);
    }
  }

  lemma {:induction false} KeptAreVisits(log: seq<Entry>, seen: set<(nat, nat)>, e: Entry)
    requires e in Kept(log, seen)
    ensures e in log
  {
    if e != log[0] || !New(log[0], seen) {
      KeptAreVisits(log[1..], SeenAfter(log[0], seen), e);
    }
  }

  /** The sum of what lies at or below `d`, and of what lies directly in it. */
  function Under(es: seq<Entry>, d: Names): nat {
    if es == [] then 0 else
      Under(es[..|es| - 1], d) + (if d <= Home(es[|es| - 1]) then es[|es| - 1].size else 0)
  }

  function Own(es: seq<Entry>, d: Names): nat {
    if es == [] then 0 else
      Own(es[..|es| - 1], d) + (if d == Home(es[|es| - 1]) then es[|es| - 1].size else 0)
  }

  /** A directory within depth gets everything at or below it, or only what is
      directly in it with separate_dirs; others get no figure. */
  lemma {:induction false} FiguresAreSums(q: Query, es: seq<Entry>, d: Names)
    ensures var within := q.args.maxDepth > 0 && q.root <= d && |d| - |q.root| <= q.args.maxDepth;
            && (!within ==> Charges(q, es, d) == None)
            && (within ==> Figure(Charges(q, es, d)) == if q.args.separateDirs then Own(es, d) else Under(es, d))
  {
    if es != [] {
      var init, e := es[..|es| - 1], es[|es| - 1];
      FiguresAreSums(q, init, d);
      assert q.args.maxDepth > 0 && q.root <= d && |d| - |q.root| <= q.args.maxDepth ==>
               (Charged(q, e, d) <==> if q.args.separateDirs then d == Home(e) else d <= Home(e));
    }
  }

  function Figure(o: Option<nat>): nat {
    if o.Some? then o.value else 0
  }

  /** There is a figure as soon as one thing is charged. */
  lemma {:induction false} FigureGiven(q: Query, es: seq<Entry>, d: Names, i: nat)
    requires i < |es| && Charged(q, es[i], d)
    ensures Charges(q, es, d).Some?
  {
    if i < |es| - 1 {
      assert es[..|es| - 1][i] == es[i];
      FigureGiven(q, es[..|es| - 1], d, i);
    }
  }

  lemma {:induction false} UnderAll(es: seq<Entry>, d: Names)
    requires forall e :: e in es ==> d <= Home(e)
    ensures Under(es, d) == Sum(es)
  {
    if es != [] {
      var init := es[..|es| - 1];
      UnderAll(init, d);
      assert es == init + [es[|es| - 1]];
      SumConcat(init, [es[|es| - 1]]);
    }
  }

  /** The figure of the directory asked about is the total. */
  lemma RootFigureIsTotal(q: Query, t: Tree)
    requires t.isDir && q.args.maxDepth > 0 && !q.args.separateDirs
    ensures var kept := Kept(Visits(q, t, q.root), {});
            kept != [] ==> Charges(q, kept, q.root) == Some(Sum(kept))
  {
    var kept := Kept(Visits(q, t, q.root), {});
    forall e | e in kept ensures q.root <= Home(e) {
      KeptAreVisits(Visits(q, t, q.root), {}, e);
      VisitsInside(q, t, q.root, e);
    }
    UnderAll(kept, q.root);
    FiguresAreSums(q, kept, q.root);
    if kept != [] {
      assert kept[0] in kept;
      FigureGiven(q, kept, q.root, 0);
    }
  }

  /** A figure for a path that is not a directory is never given. */
  lemma FileRootHasNoFigures(q: Query, t: Tree, d: Names)
    requires !t.isDir && q.root != []
    ensures Charges(q, Kept(Visits(q, t, q.root), {}), d) == None
  {
    var log := Visits(q, t, q.root);
    assert |log| <= 1;
    if log != [] {
      assert log == [EntryOf(t, q.root, q.args.apparentSize)];
      assert Kept(log, {}) == log;
      assert log[..0] == [];
    }
  }

  function OwnOver(es: seq<Entry>, ds: seq<Names>, d: Names): nat {
    if ds == [] then 0 else (if d <= ds[0] then Own(es, ds[0]) else 0) + OwnOver(es, ds[1..], d)
  }

  ghost predicate Distinct(ds: seq<Names>) {
    forall i, j :: 0 <= i < j < |ds| ==> ds[i] != ds[j]
  }

  lemma {:induction false} OwnOverOne(es: seq<Entry>, ds: seq<Names>, d: Names)
    requires es != [] && Distinct(ds)
    ensures var e := es[|es| - 1];
            OwnOver(es, ds, d) == OwnOver(es[..|es| - 1], ds, d) + (if Home(e) in ds && d <= Home(e) then e.size else 0)
  {
    if ds != [] {
      OwnOverOne(es, ds[1..], d);
      assert ds == [ds[0]] + ds[1..];
    }
  }

  lemma {:induction false} NothingOwned(ds: seq<Names>, d: Names)
    ensures OwnOver([], ds, d) == 0
  {
    if ds != [] {
      NothingOwned(ds[1..], d);
    }
  }

  /** A directory's figure is the sum of the separate figures of all directories
      at or below it. */
  lemma {:induction false} FigureIsSumOfSeparate(es: seq<Entry>, ds: seq<Names>, d: Names)
    requires Distinct(ds) && forall e :: e in es ==> Home(e) in ds
    ensures Under(es, d) == OwnOver(es, ds, d)
  {
    if es == [] {
      NothingOwned(ds, d);
    } else {
      FigureIsSumOfSeparate(es[..|es| - 1], ds, d);
      OwnOverOne(es, ds, d);
    }
  }

  function CountOf(es: seq<Entry>, k: (nat, nat)): nat {
    if es == [] then 0 else (if es[0].key == Some(k) then 1 else 0) + CountOf(es[1..], k)
  }

  lemma {:induction false} NotAgain(log: seq<Entry>, seen: set<(nat, nat)>, k: (nat, nat))
    requires k in seen
    ensures CountOf(Kept(log, seen), k) == 0
  {
    if log != [] {
      NotAgain(log[1..], SeenAfter(log[0], seen), k);
      assert Kept(log, seen) == Kept(log[1..], SeenAfter(log[0], seen))
          || Kept(log, seen)[1..] == Kept(log[1..], SeenAfter(log[0], seen));
    }
  }

  /** An inode with several links is counted once, however many are met. */
  lemma {:induction false} CountedOnce(log: seq<Entry>, seen: set<(nat, nat)>, k: (nat, nat))
    requires k !in seen && k in Keys(log)
    ensures CountOf(Kept(log, seen), k) == 1
  {
    var rest := Kept(log[1..], SeenAfter(log[0], seen));
    assert Kept(log, seen) == rest || Kept(log, seen)[1..] == rest;
    if log[0].key == Some(k) {
      NotAgain(log[1..], SeenAfter(log[0], seen), k);
    } else {
      var i :| 0 <= i < |log| && log[i].key == Some(k);
      assert log[1..][i - 1].key == Some(k);
      CountedOnce(log[1..], SeenAfter(log[0], seen), k);
    }
  }

  // ----- the total does not depend on the order -----

  /** The links of one inode all show its size. */
  ghost predicate Consistent(log: seq<Entry>) {
    forall a, b :: a in log && b in log && a.key.Some? && a.key == b.key ==> a.size == b.size
  }

  lemma Swap(x: Entry, y: Entry, r: seq<Entry>, seen: set<(nat, nat)>)
    requires x.key.Some? && x.key == y.key ==> x.size == y.size
    ensures Sum(Kept([x, y] + r, seen)) == Sum(Kept([y, x] + r, seen))
  {
    assert ([x, y] + r)[1..] == [y] + r && ([y] + r)[1..] == r;
    assert ([y, x] + r)[1..] == [x] + r && ([x] + r)[1..] == r;
    assert SeenAfter(x, SeenAfter(y, seen)) == SeenAfter(y, SeenAfter(x, seen));
    FirstCounted(x, [y] + r, seen);
    FirstCounted(y, r, SeenAfter(x, seen));
    FirstCounted(y, [x] + r, seen);
    FirstCounted(x, r, SeenAfter(y, seen));
  }

  lemma FirstCounted(x: Entry, r: seq<Entry>, seen: set<(nat, nat)>)
    ensures Sum(Kept([x] + r, seen)) == (if New(x, seen) then x.size else 0) + Sum(Kept(r, SeenAfter(x, seen)))
  {
    assert ([x] + r)[1..] == r;
    SumConcat(if New(x, seen) then [x] else [], Kept(r, SeenAfter(x, seen)));
  }

  lemma Rearranged(x: Entry, y: Entry, a: seq<Entry>, b: seq<Entry>)
    ensures [x] + ([y] + a + b) == [x, y] + (a + b)
    ensures [x] + ([y] + a) + b == [x, y] + (a + b)
    ensures ([y] + a) + [x] + b == [y] + (a + [x] + b)
  {
  }

  lemma {:induction false} MoveToFront(a: seq<Entry>, x: Entry, b: seq<Entry>, seen: set<(nat, nat)>)
    requires Consistent(a + [x] + b)
    ensures Sum(Kept(a + [x] + b, seen)) == Sum(Kept([x] + a + b, seen))
  {
    if a == [] {
      assert a + [x] + b == [x] + a + b;
    } else {
      var y, a', all := a[0], a[1..], a + [x] + b;
      assert a == [y] + a';
      Rearranged(x, y, a', b);
      Rearranged(y, x, a', b);
      ConsistentTail(y, a' + [x] + b);
      MoveToFront(a', x, b, SeenAfter(y, seen));
      FirstCounted(y, a' + [x] + b, seen);
      FirstCounted(y, [x] + a' + b, seen);
      assert y in all && x in all;
      Swap(y, x, a' + b, seen);
    }
  }

  lemma ConsistentTail(y: Entry, r: seq<Entry>)
    requires Consistent([y] + r)
    ensures Consistent(r)
  {
    forall a, b | a in r && b in r && a.key.Some? && a.key == b.key ensures a.size == b.size {
      assert a in [y] + r && b in [y] + r;
    }
  }

  lemma TakeOut<T>(w: seq<T>, i: nat)
    requires i < |w|
    ensures w == w[..i] + ([w[i]] + w[i + 1..]) == w[..i] + [w[i]] + w[i + 1..]
    ensures multiset(w) == multiset{w[i]} + multiset(w[..i] + w[i + 1..])
  {
    assert w == w[..i] + ([w[i]] + w[i + 1..]);
  }

  lemma TakeOutBoth(v: seq<Entry>, w: seq<Entry>) returns (i: nat)
    requires multiset(v) == multiset(w) && v != [] && Consistent(w)
    ensures i < |w| && w[i] == v[0] && w == w[..i] + [v[0]] + w[i + 1..]
    ensures multiset(v[1..]) == multiset(w[..i] + w[i + 1..]) && Consistent(w[..i] + w[i + 1..])
  {
    assert v[0] in multiset(v);
    i :| 0 <= i < |w| && w[i] == v[0];
    TakeOut(w, i);
    TakeOut(v, 0);
    Assoc(v[1..], [], []);
    assert v[..0] == [];
    SameRest(multiset(v), v[0], multiset(v[1..]), multiset(w[..i] + w[i + 1..]));
    ConsistentWithout(w, i);
  }

  lemma SameRest(all: multiset<Entry>, x: Entry, a: multiset<Entry>, b: multiset<Entry>)
    requires all == multiset{x} + a && all == multiset{x} + b
    ensures a == b
  {
    assert a == all - multiset{x} && b == all - multiset{x};
  }

  lemma ConsistentWithout(w: seq<Entry>, i: nat)
    requires i < |w| && Consistent(w)
    ensures Consistent(w[..i] + w[i + 1..])
  {
    forall e | e in w[..i] + w[i + 1..] ensures e in w { }
  }

  lemma SameFirst(x: Entry, v: seq<Entry>, w: seq<Entry>, seen: set<(nat, nat)>)
    requires Sum(Kept(v, SeenAfter(x, seen))) == Sum(Kept(w, SeenAfter(x, seen)))
    ensures Sum(Kept([x] + v, seen)) == Sum(Kept([x] + w, seen))
  {
    FirstCounted(x, v, seen);
    FirstCounted(x, w, seen);
  }

  lemma {:induction false} TotalIgnoresOrder(v: seq<Entry>, w: seq<Entry>, seen: set<(nat, nat)>)
    requires multiset(v) == multiset(w) && Consistent(w)
    ensures Sum(Kept(v, seen)) == Sum(Kept(w, seen))
    decreases |v|
  {
    if v == [] {
      assert |multiset(w)| == 0;
    } else {
      var x := v[0];
      var i := TakeOutBoth(v, w);
      TotalIgnoresOrder(v[1..], w[..i] + w[i + 1..], SeenAfter(x, seen));
      SameFirst(x, v[1..], w[..i] + w[i + 1..], seen);
      MoveToFront(w[..i], x, w[i + 1..], seen);
      Assoc([x], w[..i], w[i + 1..]);
      assert v == [x] + v[1..];
    }
  }

  /** The same tree with the entries of its directories in another order. */
  ghost predicate Reordered(t: Tree, u: Tree)
    decreases t, 0
  {
    t.name == u.name && t.isDir == u.isDir && t.info == u.info && ReorderedAll(t.entries, u.entries)
  }

  ghost predicate ReorderedAll(ts: seq<Tree>, us: seq<Tree>)
    decreases ts
  {
    if ts == [] then us == []
    else exists j :: 0 <= j < |us| && Reordered(ts[0], us[j]) && ReorderedAll(ts[1..], us[..j] + us[j + 1..])
  }

  lemma {:induction false} VisitsAllConcat(q: Query, a: seq<Tree>, b: seq<Tree>, path: Names)
    ensures VisitsAll(q, a + b, path) == VisitsAll(q, a, path) + VisitsAll(q, b, path)
  {
    if a == [] {
      assert a + b == b;
    } else {
      assert (a + b)[1..] == a[1..] + b;
      VisitsAllConcat(q, a[1..], b, path);
    }
  }

  lemma {:induction false} ReorderedVisits(q: Query, t: Tree, u: Tree, path: Names)
    requires Reordered(t, u)
    ensures multiset(Visits(q, t, path)) == multiset(Visits(q, u, path))
    decreases t, 0
  {
    ReorderedVisitsAll(q, t.entries, u.entries, path);
    VisitsOf(q, t, u, path);
    SameAround(ItselfOf(t, path, q.args.apparentSize), VisitsAll(q, t.entries, path), VisitsAll(q, u.entries, path));
  }

  lemma VisitsOf(q: Query, t: Tree, u: Tree, path: Names)
    requires t.name == u.name && t.isDir == u.isDir && t.info == u.info
    ensures Visits(q, t, path) == Visits(q, u, path)
         || (Visits(q, t, path) == ItselfOf(t, path, q.args.apparentSize) + VisitsAll(q, t.entries, path)
             && Visits(q, u, path) == ItselfOf(t, path, q.args.apparentSize) + VisitsAll(q, u.entries, path))
  {
    assert Pruned(q, t, path) == Pruned(q, u, path);
  }

  lemma SameAround(own: seq<Entry>, a: seq<Entry>, b: seq<Entry>)
    requires multiset(a) == multiset(b)
    ensures multiset(own + a) == multiset(own + b)
  {
  }

  lemma {:induction false} ReorderedVisitsAll(q: Query, ts: seq<Tree>, us: seq<Tree>, path: Names)
    requires ReorderedAll(ts, us)
    ensures multiset(VisitsAll(q, ts, path)) == multiset(VisitsAll(q, us, path))
    decreases ts
  {
    if ts != [] {
      var j :| 0 <= j < |us| && Reordered(ts[0], us[j]) && ReorderedAll(ts[1..], us[..j] + us[j + 1..]);
      ReorderedVisits(q, ts[0], us[j], path + [ts[0].name]);
      ReorderedVisitsAll(q, ts[1..], us[..j] + us[j + 1..], path);
      VisitsTakeOut(q, us, j, path);
    }
  }

  lemma VisitsTakeOut(q: Query, us: seq<Tree>, j: nat, path: Names)
    requires j < |us|
    ensures multiset(VisitsAll(q, us, path))
         == multiset(Visits(q, us[j], path + [us[j].name])) + multiset(VisitsAll(q, us[..j] + us[j + 1..], path))
  {
    var a, u, b := us[..j], us[j], us[j + 1..];
    TakeOut(us, j);
    VisitsAllConcat(q, a, [u] + b, path);
    VisitsAllConcat(q, a, b, path);
    assert ([u] + b)[1..] == b;
    assert VisitsAll(q, [u] + b, path) == Visits(q, u, path + [u.name]) + VisitsAll(q, b, path);
  }

  /** Whatever the order of siblings, the total is the same. */
  lemma TotalIgnoresSiblingOrder(q: Query, t: Tree, u: Tree)
    requires Reordered(t, u) && Consistent(Visits(q, u, q.root))
    ensures Sum(Kept(Visits(q, t, q.root), {})) == Sum(Kept(Visits(q, u, q.root), {}))
  {
    ReorderedVisits(q, t, u, q.root);
    TotalIgnoresOrder(Visits(q, t, q.root), Visits(q, u, q.root), {});
  }

  // ----- the total, read off the tree -----

  /** The nodes the walk comes to, parents first. */
  function Walked(q: Query, t: Tree, path: Names): seq<Tree>
    decreases t, 0
  {
    if Pruned(q, t, path) then [] else [t] + (if t.isDir then WalkedAll(q, t.entries, path) else [])
  }

  function WalkedAll(q: Query, ts: seq<Tree>, path: Names): seq<Tree>
    decreases ts
  {
    if ts == [] then [] else Walked(q, ts[0], path + [ts[0].name]) + WalkedAll(q, ts[1..], path)
  }

  predicate HasStat(t: Tree) {
    t.info.Some? && t.info.value.stat.Some?
  }

  /** With one_file_system nothing on another device is looked at. */
  lemma {:induction false} WalkStaysOnDevice(q: Query, t: Tree, path: Names, x: Tree)
    requires x in Walked(q, t, path) && q.args.oneFileSystem && HasStat(x)
    ensures x.info.value.stat.value.dev == q.rootDev
    decreases t, 0
  {
    if t.isDir && x in WalkedAll(q, t.entries, path) {
      WalkAllStaysOnDevice(q, t.entries, path, x);
    }
  }

  lemma {:induction false} WalkAllStaysOnDevice(q: Query, ts: seq<Tree>, path: Names, x: Tree)
    requires x in WalkedAll(q, ts, path) && q.args.oneFileSystem && HasStat(x)
    ensures x.info.value.stat.value.dev == q.rootDev
    decreases ts
  {
    if x in Walked(q, ts[0], path + [ts[0].name]) {
      WalkStaysOnDevice(q, ts[0], path + [ts[0].name], x);
    } else {
      WalkAllStaysOnDevice(q, ts[1..], path, x);
    }
  }

  function Nodes(t: Tree): seq<Tree>
    decreases t, 0
  {
    [t] + (if t.isDir then NodesAll(t.entries) else [])
  }

  function NodesAll(ts: seq<Tree>): seq<Tree>
    decreases ts
  {
    if ts == [] then [] else Nodes(ts[0]) + NodesAll(ts[1..])
  }

  /** Nothing is excluded, and one_file_system is not set or changes nothing. */
  ghost predicate NothingPruned(q: Query, nodes: seq<Tree>) {
    && (forall path, name :: !Excluded(q, path, name))
    && (q.args.oneFileSystem ==> forall x :: x in nodes && HasStat(x) ==> x.info.value.stat.value.dev == q.rootDev)
  }

  /** Then the walk comes to the whole tree. */
  lemma {:induction false} WalkedIsAll(q: Query, t: Tree, path: Names)
    requires NothingPruned(q, Nodes(t))
    ensures Walked(q, t, path) == Nodes(t)
    decreases t, 0
  {
    assert Nodes(t)[0] == t && !Excluded(q, FromRoot(path), t.name);
    if t.isDir {
      assert forall x :: x in NodesAll(t.entries) ==> x in Nodes(t);
      WalkedAllIsAll(q, t.entries, path);
    }
  }

  lemma {:induction false} WalkedAllIsAll(q: Query, ts: seq<Tree>, path: Names)
    requires NothingPruned(q, NodesAll(ts))
    ensures WalkedAll(q, ts, path) == NodesAll(ts)
    decreases ts
  {
    if ts != [] {
      assert forall x :: x in Nodes(ts[0]) || x in NodesAll(ts[1..]) ==> x in NodesAll(ts);
      WalkedIsAll(q, ts[0], path + [ts[0].name]);
      WalkedAllIsAll(q, ts[1..], path);
    }
  }

  /** A file that other names may stand for too. */
  predicate MultiLinked(t: Tree) {
    HasStat(t) && !t.isDir && t.info.value.stat.value.nlink > 1
  }

  predicate SameInode(a: Tree, b: Tree) {
    && HasStat(a) && HasStat(b)
    && a.info.value.stat.value.dev == b.info.value.stat.value.dev && a.info.value.stat.value.ino == b.info.value.stat.value.ino
  }

  /** The i-th node is the first link to its inode, or no link at all. */
  predicate FirstLink(nodes: seq<Tree>, i: nat)
    requires i < |nodes|
  {
    MultiLinked(nodes[i]) ==> forall j :: 0 <= j < i ==> !(MultiLinked(nodes[j]) && SameInode(nodes[j], nodes[i]))
  }

  /** Blocks of the first `n` nodes that have a stat; sizes of those that have
      none; sizes of all. Each inode's first link counts. */
  function Blocks(nodes: seq<Tree>, n: nat): nat
    requires n <= |nodes|
  {
    if n == 0 then 0
    else Blocks(nodes, n - 1) + if HasStat(nodes[n - 1]) && FirstLink(nodes, n - 1) then nodes[n - 1].info.value.stat.value.blocks else 0
  }

  function Unblocked(nodes: seq<Tree>, n: nat): nat
    requires n <= |nodes|
  {
    if n == 0 then 0
    else Unblocked(nodes, n - 1) + if nodes[n - 1].info.Some? && !HasStat(nodes[n - 1]) then nodes[n - 1].info.value.size else 0
  }

  function Sizes(nodes: seq<Tree>, n: nat): nat
    requires n <= |nodes|
  {
    if n == 0 then 0
    else Sizes(nodes, n - 1) + if nodes[n - 1].info.Some? && FirstLink(nodes, n - 1) then nodes[n - 1].info.value.size else 0
  }

  /** The entries looked at are the nodes that have an info. */
  ghost predicate Shows(es: seq<Entry>, nodes: seq<Tree>, apparent: bool) {
    if nodes == [] then es == []
    else
      var init, t := nodes[..|nodes| - 1], nodes[|nodes| - 1];
      if t.info.None? then Shows(es, init, apparent)
      else es != [] && ShowsOne(es[|es| - 1], t, apparent) && Shows(es[..|es| - 1], init, apparent)
  }

  ghost predicate ShowsOne(e: Entry, t: Tree, apparent: bool)
    requires t.info.Some?
  {
    && e.size == (if !apparent && HasStat(t) then 512 * t.info.value.stat.value.blocks else t.info.value.size)
    && e.key == if MultiLinked(t) then Some((t.info.value.stat.value.dev, t.info.value.stat.value.ino)) else None
  }

  lemma {:induction false} ShowsConcat(a: seq<Entry>, m: seq<Tree>, b: seq<Entry>, n: seq<Tree>, apparent: bool)
    requires Shows(a, m, apparent) && Shows(b, n, apparent)
    ensures Shows(a + b, m + n, apparent)
  {
    if n == [] {
      assert m + n == m && a + b == a;
    } else {
      var init, t := n[..|n| - 1], n[|n| - 1];
      var all := m + n;
      assert all[..|all| - 1] == m + init && all[|all| - 1] == t;
      if t.info.None? {
        ShowsConcat(a, m, b, init, apparent);
      } else {
        ShowsConcat(a, m, b[..|b| - 1], init, apparent);
        assert (a + b)[..|a + b| - 1] == a + b[..|b| - 1] && (a + b)[|a + b| - 1] == b[|b| - 1];
      }
    }
  }

  lemma ShowsItself(t: Tree, path: Names, apparent: bool)
    ensures Shows(ItselfOf(t, path, apparent), [t], apparent)
  {
    assert [t][..0] == [];
    if t.info.Some? {
      assert [EntryOf(t, path, apparent)][..0] == [];
      assert Shows([], [], apparent);
    }
  }

  lemma {:induction false} VisitsShow(q: Query, t: Tree, path: Names)
    ensures Shows(Visits(q, t, path), Walked(q, t, path), q.args.apparentSize)
    decreases t, 0
  {
    if !Pruned(q, t, path) {
      ShowsItself(t, path, q.args.apparentSize);
      if t.isDir {
        VisitsAllShow(q, t.entries, path);
        ShowsConcat(ItselfOf(t, path, q.args.apparentSize), [t], VisitsAll(q, t.entries, path), WalkedAll(q, t.entries, path), q.args.apparentSize);
      } else {
        Assoc(ItselfOf(t, path, q.args.apparentSize), [], []);
        Assoc([t], [], []);
      }
    }
  }

  lemma {:induction false} VisitsAllShow(q: Query, ts: seq<Tree>, path: Names)
    ensures Shows(VisitsAll(q, ts, path), WalkedAll(q, ts, path), q.args.apparentSize)
    decreases ts
  {
    if ts != [] {
      var below := path + [ts[0].name];
      VisitsShow(q, ts[0], below);
      VisitsAllShow(q, ts[1..], path);
      ShowsConcat(Visits(q, ts[0], below), Walked(q, ts[0], below), VisitsAll(q, ts[1..], path), WalkedAll(q, ts[1..], path), q.args.apparentSize);
    }
  }

  /** The inodes seen are those of the multiply linked nodes. */
  lemma {:induction false} KeysShown(es: seq<Entry>, nodes: seq<Tree>, apparent: bool, x: Tree)
    requires Shows(es, nodes, apparent) && MultiLinked(x)
    ensures (x.info.value.stat.value.dev, x.info.value.stat.value.ino) in Keys(es) <==>
              exists j :: 0 <= j < |nodes| && MultiLinked(nodes[j]) && SameInode(nodes[j], x)
  {
    if nodes != [] {
      var m := |nodes| - 1;
      var init, t := nodes[..m], nodes[m];
      if t.info.None? {
        KeysShown(es, init, apparent, x);
      } else {
        var rest, e := es[..|es| - 1], es[|es| - 1];
        KeysShown(rest, init, apparent, x);
        assert es == rest + [e];
        KeysSnoc(rest, e);
      }
      assert (exists j :: 0 <= j < |init| && MultiLinked(init[j]) && SameInode(init[j], x)) <==>
             exists j :: 0 <= j < m && MultiLinked(nodes[j]) && SameInode(nodes[j], x);
    }
  }

  lemma {:induction false} PrefixSums(nodes: seq<Tree>, m: nat, n: nat)
    requires n <= m <= |nodes|
    ensures Blocks(nodes[..m], n) == Blocks(nodes, n) && Unblocked(nodes[..m], n) == Unblocked(nodes, n)
    ensures Sizes(nodes[..m], n) == Sizes(nodes, n)
    decreases n
  {
    if n > 0 {
      PrefixSums(nodes, m, n - 1);
      FirstInPrefix(nodes, m, n - 1);
    }
  }

  lemma FirstInPrefix(nodes: seq<Tree>, m: nat, i: nat)
    requires i < m <= |nodes|
    ensures FirstLink(nodes[..m], i) <==> FirstLink(nodes, i)
  {
    assert forall j :: 0 <= j <= i ==> nodes[..m][j] == nodes[j];
  }

  lemma {:induction false} KeptSum(es: seq<Entry>, nodes: seq<Tree>, apparent: bool)
    requires Shows(es, nodes, apparent)
    ensures Sum(Kept(es, {})) == if apparent then Sizes(nodes, |nodes|) else 512 * Blocks(nodes, |nodes|) + Unblocked(nodes, |nodes|)
  {
    if nodes != [] {
      var m := |nodes| - 1;
      var init, t := nodes[..m], nodes[m];
      PrefixSums(nodes, m, m);
      if t.info.None? {
        KeptSum(es, init, apparent);
      } else {
        var rest, e := es[..|es| - 1], es[|es| - 1];
        KeptSum(rest, init, apparent);
        assert es == rest + [e];
        NewIsFirst(rest, nodes, m, e, apparent);
        KeptSnoc(rest, e, {});
        assert {} + Keys(rest) == Keys(rest);
        SumConcat(Kept(rest, {}), if New(e, Keys(rest)) then [e] else []);
        assert Sum([e]) == e.size;
      }
    }
  }

  lemma NewIsFirst(rest: seq<Entry>, nodes: seq<Tree>, m: nat, e: Entry, apparent: bool)
    requires m < |nodes| && Shows(rest, nodes[..m], apparent) && nodes[m].info.Some? && ShowsOne(e, nodes[m], apparent)
    ensures New(e, Keys(rest)) <==> FirstLink(nodes, m)
  {
    if MultiLinked(nodes[m]) {
      KeysShown(rest, nodes[..m], apparent, nodes[m]);
      assert forall j :: 0 <= j < m ==> nodes[..m][j] == nodes[j];
    }
  }

  /** The total is 512 times the blocks of the nodes the walk came to, and the
      size of those without a stat; or all sizes, when apparent ones are asked
      for. Of the links to one inode the first counts. */
  lemma TotalIs(q: Query, t: Tree)
    ensures var nodes := Walked(q, t, q.root);
            Sum(Kept(Visits(q, t, q.root), {})) ==
              if q.args.apparentSize then Sizes(nodes, |nodes|) else 512 * Blocks(nodes, |nodes|) + Unblocked(nodes, |nodes|)
  {
    VisitsShow(q, t, q.root);
    KeptSum(Visits(q, t, q.root), Walked(q, t, q.root), q.args.apparentSize);
  }

  // ----- exclusion and threshold -----

  /** An absolute pattern excludes a path exactly if it is the path, or stands for
      it as a glob, or has its components at the head of the path's; "/" is no
      such prefix. One without a slash is about the last name. */
  lemma MatchesIs(q: Query, pattern: string, names: Names, name: string)
    requires AllPlain(names)
    ensures '/' !in pattern ==> (Matches(q, pattern, FromRoot(names), name) <==> q.glob(pattern, name))
    ensures IsAbs(pattern) ==>
              (Matches(q, pattern, FromRoot(names), name) <==>
                 q.glob(Clean(pattern), FromRoot(names)) || names == Components(pattern)
                 || (Components(pattern) != [] && Components(pattern) <= names))
  {
    if IsAbs(pattern) {
      var p := Components(pattern);
      CleanedIsPlain(pattern);
      assert pattern[0] == '/';
      if FromRoot(p) == FromRoot(names) { FromRootInjective(p, names); }
      if p == [] {
        RootedHead(names);
        NoDoubleSlash(names);
      } else {
        PrefixIsComponentPrefix(p, names);
      }
    }
  }

  lemma NoDoubleSlash(names: Names)
    requires AllPlain(names)
    ensures !HasPrefix(FromRoot(names), "//")
  {
    if names != [] {
      assert Plain(names[0]);
      assert Rooted(names)[1] == names[0][0] && names[0][0] in names[0];
    }
  }

  /** The files listed: every counted file of at least the threshold, or with a
      negative threshold of at most that much. */
  lemma {:induction false} FilesAre(q: Query, es: seq<Entry>, x: FileLine)
    ensures x in Files(q, es) <==>
              && q.args.all
              && (if q.args.threshold < 0 then x.size + q.args.threshold <= 0 else x.size >= q.args.threshold)
              && exists e :: e in es && !e.isDir && x.path == FromRoot(e.path) && x.size == e.size
  {
    if es != [] {
      var init, e := es[..|es| - 1], es[|es| - 1];
      FilesAre(q, init, x);
      assert es == init + [e];
      assert e in es;
    }
  }
}
