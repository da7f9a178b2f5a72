/** Inodes, directory entries and runs of a file system that other processes
    rearrange at will: the world internal/fsafe opens paths in. */
module FileTree {
  import opened Text
  import opened Paths

  type Inode = nat
  type Fd = nat

  const ROOT: Inode := 0

  datatype Kind = Directory | Symlink | Other

  /** `parents` answers "..", which no entry of a directory describes. */
  datatype Tree = Tree(kinds: map<Inode, Kind>,
                       entries: map<Inode, map<string, Inode>>,
                       parents: map<Inode, Inode>)
  {
    predicate IsDir(i: Inode) {
      i in kinds && kinds[i] == Directory
    }

    ghost predicate WellFormed() {
      && IsDir(ROOT)
      && (forall d :: d in entries <==> IsDir(d))
      && (forall d :: d in parents <==> IsDir(d))
      && (forall d :: d in parents ==> parents[d] in kinds)
      && (forall d, n :: d in entries && n in entries[d] ==> entries[d][n] in kinds)
      && (forall d :: d in entries ==> PlainKeys(entries[d]))
    }

    static ghost predicate PlainKeys(dir: map<string, Inode>) {
      forall n :: n in dir ==> Plain(n)
    }

    /** One step of pathname resolution, never following a symlink. */
    function Lookup(d: Inode, name: string): Option<Inode>
      requires d in entries && d in parents
    {
      if name == "." then Some(d)
      else if name == ".." then Some(parents[d])
      else if name in entries[d] then Some(entries[d][name])
      else None
    }

    /** A new, empty object `child` under `name` in directory `d`. */
    function Added(d: Inode, name: string, child: Inode, kind: Kind): (t: Tree)
      requires d in entries
      ensures forall i :: i in kinds && i != child ==> i in t.kinds && t.kinds[i] == kinds[i]
    {
      var here: map<string, Inode> := entries[d][name := child];
      var listed := entries[d := here];
      Tree(kinds[child := kind],
           if kind == Directory then listed[child := map[]] else listed,
           if kind == Directory then parents[child := d] else parents)
    }
  }

  /** An inode that is in use keeps its type. */
  ghost predicate Later(t: Tree, t': Tree) {
    forall i :: i in t.kinds ==> i in t'.kinds && t'.kinds[i] == t.kinds[i]
  }

  /** A directory entry this process made. */
  datatype Creation = Creation(parent: Inode, name: string, child: Inode, kind: Kind)

  ghost predicate Makes(t: Tree, c: Creation, t': Tree) {
    && t.IsDir(c.parent) && c.parent in t.entries && Plain(c.name)
    && c.name !in t.entries[c.parent] && c.child !in t.kinds
    && t' == t.Added(c.parent, c.name, c.child, c.kind)
  }

  /** `h` lists every state the file system went through; step `i` was this
      process's creation `made[i]` if there is one, and otherwise others' doing. */
  ghost predicate IsRun(h: seq<Tree>, made: map<nat, Creation>) {
    && |h| > 0
    && (forall i: nat :: i < |h| ==> GoodAt(h, i))
    && (forall i: nat :: i + 1 < |h| ==> StepAt(h, made, i))
    && (forall i :: i in made ==> i + 1 < |h|)
  }

  ghost predicate GoodAt(h: seq<Tree>, i: nat)
    requires i < |h|
  {
    h[i].WellFormed()
  }

  ghost predicate StepAt(h: seq<Tree>, made: map<nat, Creation>, i: nat)
    requires i + 1 < |h|
  {
    if i in made then Makes(h[i], made[i], h[i + 1]) else Later(h[i], h[i + 1])
  }

  lemma RunGrows(h: seq<Tree>, made: map<nat, Creation>, t: Tree, c: Option<Creation>)
    requires IsRun(h, made) && t.WellFormed()
    requires c.None? ==> Later(h[|h| - 1], t)
    requires c.Some? ==> Makes(h[|h| - 1], c.value, t)
    ensures IsRun(h + [t], if c.Some? then made[|h| - 1 := c.value] else made)
    ensures Grown(h, h + [t])
  {
    var h' := h + [t];
    var made' := if c.Some? then made[|h| - 1 := c.value] else made;
    forall i: nat | i < |h'| ensures GoodAt(h', i) {
      if i < |h| { assert GoodAt(h, i); }
    }
    forall i: nat | i + 1 < |h'| ensures StepAt(h', made', i) {
      if i + 1 < |h| { assert StepAt(h, made, i); }
    }
    forall i: nat | i < |h| ensures SameAt(h, h', i) {
    }
  }

  /** `h'` continues the history `h`. */
  ghost predicate Grown(h: seq<Tree>, h': seq<Tree>) {
    |h| <= |h'| && forall i: nat :: i < |h| ==> SameAt(h, h', i)
  }

  ghost predicate SameAt(h: seq<Tree>, h': seq<Tree>, i: nat)
    requires i < |h| <= |h'|
  {
    h[i] == h'[i]
  }

  lemma GrownTrans(h: seq<Tree>, h': seq<Tree>, h'': seq<Tree>)
    requires Grown(h, h') && Grown(h', h'')
    ensures Grown(h, h'')
  {
    forall i: nat | i < |h| ensures SameAt(h, h'', i) {
      assert SameAt(h, h', i) && SameAt(h', h'', i);
    }
  }

  lemma {:induction false} LaterInRun(h: seq<Tree>, made: map<nat, Creation>, i: nat, j: nat)
    requires IsRun(h, made) && i <= j < |h|
    ensures Later(h[i], h[j])
    decreases j - i
  {
    if i < j {
      LaterInRun(h, made, i, j - 1);
      assert StepAt(h, made, j - 1) && GoodAt(h, j - 1);
    }
  }

  // ----- chains of single-component opens -----

  datatype Hop = Hop(at: nat, dir: Inode, name: string, child: Inode)

  /** At its own step, `child` was the non-symlink object called `name` in `dir`. */
  ghost predicate Seen(h: seq<Tree>, hop: Hop) {
    && hop.at < |h|
    && var t := h[hop.at];
    && hop.dir in t.entries && hop.dir in t.parents
    && t.Lookup(hop.dir, hop.name) == Some(hop.child)
    && hop.child in t.kinds && t.kinds[hop.child] != Symlink
  }

  /** The directory the chain stands in before its j-th hop. */
  function At(hops: seq<Hop>, j: nat): Inode
    requires j <= |hops|
  {
    if j == 0 then ROOT else hops[j - 1].child
  }

  ghost predicate IsChain(h: seq<Tree>, hops: seq<Hop>, names: seq<string>) {
    && |hops| <= |names|
    && (forall i :: 0 <= i < |hops| ==> HopOk(h, hops, names, i))
    && (forall i, j :: 0 <= i < j < |hops| ==> hops[i].at < hops[j].at)
  }

  ghost predicate HopOk(h: seq<Tree>, hops: seq<Hop>, names: seq<string>, i: nat)
    requires i < |hops| <= |names|
  {
    Seen(h, hops[i]) && hops[i].name == names[i] && hops[i].dir == At(hops, i)
  }

  lemma ChainExtends(h: seq<Tree>, more: seq<Tree>, hops: seq<Hop>, names: seq<string>)
    requires IsChain(h, hops, names) && Grown(h, more)
    ensures IsChain(more, hops, names)
  {
    forall i | 0 <= i < |hops| ensures HopOk(more, hops, names, i) {
      assert HopOk(h, hops, names, i);
      assert SameAt(h, more, hops[i].at);
    }
  }

  lemma ChainGrows(h: seq<Tree>, hops: seq<Hop>, names: seq<string>, hop: Hop)
    requires IsChain(h, hops, names) && |hops| < |names|
    requires Seen(h, hop) && hop.dir == At(hops, |hops|) && hop.name == names[|hops|]
    requires hops != [] ==> hops[|hops| - 1].at < hop.at
    ensures IsChain(h, hops + [hop], names)
    ensures At(hops + [hop], |hops| + 1) == hop.child
  {
    var more := hops + [hop];
    forall i | 0 <= i < |more| ensures HopOk(h, more, names, i) {
      if i < |hops| {
        assert HopOk(h, hops, names, i);
      }
      assert At(more, i) == At(hops, i);
    }
  }

  // ----- confinement -----

  /** Entries of inside directories lead inside or are symlinks. */
  ghost predicate Confined(inside: iset<Inode>, t: Tree) {
    forall d, n :: d in inside && d in t.entries && n in t.entries[d] ==>
      t.entries[d][n] in inside || (t.entries[d][n] in t.kinds && t.kinds[t.entries[d][n]] == Symlink)
  }

  /** Others keep the inside confined, and what is made inside counts as inside. */
  ghost predicate KeepsConfined(inside: iset<Inode>, h: seq<Tree>, made: map<nat, Creation>) {
    && (forall i: nat :: i + 1 < |h| ==> KeptAt(inside, h, made, i))
    && (forall i :: i in made ==> (made[i].parent in inside <==> made[i].child in inside))
  }

  ghost predicate KeptAt(inside: iset<Inode>, h: seq<Tree>, made: map<nat, Creation>, i: nat)
    requires i + 1 < |h|
  {
    i !in made && Confined(inside, h[i]) ==> Confined(inside, h[i + 1])
  }

  lemma MakingStaysConfined(inside: iset<Inode>, t: Tree, c: Creation, t': Tree)
    requires t.WellFormed() && Makes(t, c, t') && Confined(inside, t)
    requires c.parent in inside <==> c.child in inside
    ensures Confined(inside, t')
  {
    forall d, n | d in inside && d in t'.entries && n in t'.entries[d]
      ensures t'.entries[d][n] in inside || t'.kinds[t'.entries[d][n]] == Symlink
    {
      if d != c.child && !(d == c.parent && n == c.name) {
        assert n in t.entries[d] && t'.entries[d][n] == t.entries[d][n];
        assert t.entries[d][n] in t.kinds;
      }
    }
  }

  lemma {:induction false} RunStaysConfined(inside: iset<Inode>, h: seq<Tree>, made: map<nat, Creation>, k: nat)
    requires IsRun(h, made) && KeepsConfined(inside, h, made)
    requires Confined(inside, h[0]) && k < |h|
    ensures Confined(inside, h[k])
  {
    if k > 0 {
      RunStaysConfined(inside, h, made, k - 1);
      assert StepAt(h, made, k - 1) && GoodAt(h, k - 1) && KeptAt(inside, h, made, k - 1);
      if k - 1 in made {
        MakingStaysConfined(inside, h[k - 1], made[k - 1], h[k]);
      }
    }
  }

  lemma HopStaysInside(inside: iset<Inode>, h: seq<Tree>, made: map<nat, Creation>, hop: Hop)
    requires IsRun(h, made) && KeepsConfined(inside, h, made) && Confined(inside, h[0])
    requires Seen(h, hop) && Plain(hop.name) && hop.dir in inside
    ensures hop.child in inside
  {
    RunStaysConfined(inside, h, made, hop.at);
    assert hop.name in h[hop.at].entries[hop.dir];
  }

  /** Once a walk over plain names stands inside, every later object is inside,
      whatever others do between two steps. */
  lemma {:induction false} ChainStaysInside(inside: iset<Inode>, h: seq<Tree>, made: map<nat, Creation>,
                                            hops: seq<Hop>, names: seq<string>, k: nat, j: nat)
    requires IsRun(h, made) && KeepsConfined(inside, h, made) && Confined(inside, h[0])
    requires IsChain(h, hops, names) && AllPlain(names)
    requires k <= j <= |hops| && At(hops, k) in inside
    ensures At(hops, j) in inside
    decreases j - k
  {
    if k < j {
      ChainStaysInside(inside, h, made, hops, names, k, j - 1);
      assert HopOk(h, hops, names, j - 1) && Plain(names[j - 1]);
      HopStaysInside(inside, h, made, hops[j - 1]);
    }
  }

  /** Every creation beyond those in `before` is under a name of the path, in
      the directory the walk stood in at that name. */
  ghost predicate CreatesAlong(before: map<nat, Creation>, made: map<nat, Creation>,
                               hops: seq<Hop>, names: seq<string>) {
    && (forall i :: i in before ==> i in made && made[i] == before[i])
    && (forall i :: i in made && i !in before ==> exists j: nat :: CreatedAt(made[i], hops, names, j))
  }

  ghost predicate CreatedAt(c: Creation, hops: seq<Hop>, names: seq<string>, j: nat) {
    && j <= |hops| && j < |names|
    && c.parent == At(hops, j) && c.name == names[j]
  }

  /** From the point where the walk enters the inside, it creates only inside. */
  lemma CreationsStayInside(inside: iset<Inode>, h: seq<Tree>, before: map<nat, Creation>, made: map<nat, Creation>,
                            hops: seq<Hop>, names: seq<string>, k: nat, i: nat)
    requires IsRun(h, made) && KeepsConfined(inside, h, made) && Confined(inside, h[0])
    requires IsChain(h, hops, names) && AllPlain(names) && CreatesAlong(before, made, hops, names)
    requires k <= |hops| && At(hops, k) in inside
    requires i in made && i !in before
    ensures || (exists j: nat :: j < k && CreatedAt(made[i], hops, names, j))
            || (made[i].parent in inside && made[i].child in inside)
  {
    var j: nat :| CreatedAt(made[i], hops, names, j);
    if k <= j {
      ChainStaysInside(inside, h, made, hops, names, k, j);
    }
  }
}
