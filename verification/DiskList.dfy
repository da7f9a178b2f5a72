/** internal/tools/disks/list/list.go: block devices linked into a graph by
    partition nesting and holders, and the graph printed as a tree. */
module DiskList {
  import opened Text

  /** One device as sysfs describes it; `parent` is "" unless it is a partition. */
  datatype Info = Info(kname: string, majMin: string, sizeBytes: nat, parent: string, holders: seq<string>)

  type Less = (string, string) -> bool

  predicate Hidden(d: Info) {
    d.sizeBytes == 0 || HasPrefix(d.majMin, "1:")
  }

  // ----- sort.Slice with lessKName: a permutation -----

  function Insert(less: Less, x: string, names: seq<string>): seq<string> {
    if names == [] then [x]
    else if less(x, names[0]) then [x] + names
    else [names[0]] + Insert(less, x, names[1..])
  }

  function SortBy(less: Less, names: seq<string>): seq<string> {
    if names == [] then [] else Insert(less, names[0], SortBy(less, names[1..]))
  }

  lemma {:induction false} InsertHas(less: Less, x: string, names: seq<string>, y: string)
    ensures y in Insert(less, x, names) <==> y == x || y in names
  {
    if names != [] && !less(x, names[0]) {
      InsertHas(less, x, names[1..], y);
      assert names == [names[0]] + names[1..];
    }
  }

  lemma {:induction false} SortHas(less: Less, names: seq<string>, y: string)
    ensures y in SortBy(less, names) <==> y in names
  {
    if names != [] {
      SortHas(less, names[1..], y);
      InsertHas(less, names[0], SortBy(less, names[1..]), y);
      assert names == [names[0]] + names[1..];
    }
  }

  // ----- the links -----

  type Infos = map<string, Info>

  ghost predicate Keyed(infos: Infos) {
    forall k :: k in infos ==> infos[k].kname == k
  }

  function Known(infos: Infos, names: seq<string>): seq<string> {
    if names == [] then [] else (if names[0] in infos then [names[0]] else []) + Known(infos, names[1..])
  }

  lemma {:induction false} KnownHas(infos: Infos, names: seq<string>, y: string)
    ensures y in Known(infos, names) <==> y in names && y in infos
  {
    if names != [] {
      KnownHas(infos, names[1..], y);
      assert names == [names[0]] + names[1..];
    }
  }

  lemma {:induction false} KnownSnoc(infos: Infos, names: seq<string>, n: string)
    ensures Known(infos, names + [n]) == Known(infos, names) + (if n in infos then [n] else [])
  {
    var all := names + [n];
    if names == [] {
      assert [n][1..] == [] && all == [n];
    } else {
      assert all[1..] == names[1..] + [n] && all[0] == names[0];
      KnownSnoc(infos, names[1..], n);
      Reassociate(if names[0] in infos then [names[0]] else [], Known(infos, names[1..]), if n in infos then [n] else []);
    }
  }

  function HoldersOf(infos: Infos, less: Less, p: string): seq<string>
    requires p in infos
  {
    Known(infos, SortBy(less, infos[p].holders))
  }

  /** What dealing with device `n` appends to the children of `p`. */
  function OnePass(infos: Infos, less: Less, n: string, p: string): seq<string>
    requires p in infos
  {
    (if n in infos && infos[n].parent == p && p != "" then [n] else []) + (if n == p then HoldersOf(infos, less, p) else [])
  }

  lemma OnePassHas(infos: Infos, less: Less, n: string, p: string, c: string)
    requires p in infos
    ensures c in OnePass(infos, less, n, p) <==>
              c in infos && ((c == n && infos[n].parent == p && p != "") || (n == p && c in infos[p].holders))
  {
    if n == p {
      SortHas(less, infos[p].holders, c);
      KnownHas(infos, SortBy(less, infos[p].holders), c);
    }
  }

  /** The children of `p` once the first `i` devices have been dealt with. */
  function ChildrenUpto(infos: Infos, less: Less, names: seq<string>, i: nat, p: string): seq<string>
    requires i <= |names| && p in infos
  {
    if i == 0 then [] else ChildrenUpto(infos, less, names, i - 1, p) + OnePass(infos, less, names[i - 1], p)
  }

  function ChildrenOf(infos: Infos, less: Less, names: seq<string>, p: string): seq<string>
    requires p in infos
  {
    ChildrenUpto(infos, less, names, |names|, p)
  }

  /** `c` nests in `p`: as a partition of it, or built on it. */
  predicate Linked(infos: Infos, p: string, c: string) {
    p in infos && c in infos && ((infos[c].parent == p && p != "") || c in infos[p].holders)
  }

  /** Dealing with the j-th device makes `c` a child of `p`. */
  predicate LinkedAt(infos: Infos, less: Less, names: seq<string>, p: string, c: string, j: nat)
    requires j < |names| && p in infos
  {
    c in OnePass(infos, less, names[j], p)
  }

  lemma {:induction false} LinkedBefore(infos: Infos, less: Less, names: seq<string>, i: nat, p: string, c: string) returns (j: nat)
    requires i <= |names| && p in infos && c in ChildrenUpto(infos, less, names, i, p)
    ensures j < i && LinkedAt(infos, less, names, p, c, j)
  {
    var m := i - 1;
    UptoStep(infos, less, names, m, i, p);
    InConcat(ChildrenUpto(infos, less, names, m, p), OnePass(infos, less, names[m], p), c);
    if LinkedAt(infos, less, names, p, c, m) {
      j := m;
    } else {
      j := LinkedBefore(infos, less, names, m, p, c);
    }
  }

  lemma {:induction false} StaysLinked(infos: Infos, less: Less, names: seq<string>, i: nat, p: string, c: string, j: nat)
    requires j < i <= |names| && p in infos && LinkedAt(infos, less, names, p, c, j)
    ensures c in ChildrenUpto(infos, less, names, i, p)
  {
    var m := i - 1;
    var before := ChildrenUpto(infos, less, names, m, p);
    var pass := OnePass(infos, less, names[m], p);
    assert ChildrenUpto(infos, less, names, i, p) == before + pass by {
      UptoStep(infos, less, names, m, i, p);
    }
    InConcat(before, pass, c);
    if j < m {
      StaysLinked(infos, less, names, m, p, c, j);
    } else {
      assert c in pass;
    }
  }

  lemma UptoStep(infos: Infos, less: Less, names: seq<string>, m: nat, i: nat, p: string)
    requires i == m + 1 <= |names| && p in infos
    ensures ChildrenUpto(infos, less, names, i, p) == ChildrenUpto(infos, less, names, m, p) + OnePass(infos, less, names[m], p)
  {
  }

  lemma InConcat<T>(a: seq<T>, b: seq<T>, x: T)
    ensures x in a + b <==> x in a || x in b
  {
  }

  lemma Reassociate<T>(a: seq<T>, b: seq<T>, c: seq<T>)
    ensures a + (b + c) == (a + b) + c && a + [] == a && (a + b) + [] == a + b
  {
  }

  /** The children of a device are exactly the devices linked below it. */
  lemma ChildrenAreLinked(infos: Infos, less: Less, names: seq<string>, p: string, c: string)
    requires p in infos && forall k :: k in infos <==> k in names
    ensures c in ChildrenOf(infos, less, names, p) <==> Linked(infos, p, c)
    ensures Linked(infos, p, c) <==> c in infos && ((infos[c].parent == p && p != "") || c in infos[p].holders)
  {
    if c in ChildrenOf(infos, less, names, p) {
      var j := LinkedBefore(infos, less, names, |names|, p, c);
      OnePassHas(infos, less, names[j], p, c);
    }
    if Linked(infos, p, c) {
      var n := if infos[c].parent == p && p != "" then c else p;
      var j :| 0 <= j < |names| && names[j] == n;
      OnePassHas(infos, less, n, p, c);
      StaysLinked(infos, less, names, |names|, p, c, j);
    }
  }

  class Device {
    const info: Info
    var children: seq<Device>

    constructor (info: Info)
      ensures this.info == info && children == []
    {
      this.info := info;
      children := [];
    }
  }

  function Knames(ds: seq<Device>): seq<string> {
    seq(|ds|, i requires 0 <= i < |ds| => ds[i].info.kname)
  }

  /** One object for each name, under its name. */
  ghost predicate Stands(devices: map<string, Device>, infos: Infos) {
    && Keyed(infos) && devices.Keys == infos.Keys
    && forall k :: k in devices ==> devices[k].info == infos[k]
  }

  ghost predicate Ours(ds: seq<Device>, devices: map<string, Device>) {
    forall i :: 0 <= i < |ds| ==> ds[i].info.kname in devices && devices[ds[i].info.kname] == ds[i]
  }

  /** Each device's children are those of `g`. */
  ghost predicate Shows(devices: map<string, Device>, g: map<string, seq<string>>)
    reads devices.Values
  {
    && g.Keys == devices.Keys
    && forall k :: k in devices ==> Ours(devices[k].children, devices) && Knames(devices[k].children) == g[k]
  }

  function Graph(infos: Infos, less: Less, names: seq<string>, i: nat): map<string, seq<string>>
    requires i <= |names|
  {
    map p | p in infos :: ChildrenUpto(infos, less, names, i, p)
  }

  function With(g: map<string, seq<string>>, p: string, c: string): map<string, seq<string>>
    requires p in g
  {
    g[p := g[p] + [c]]
  }

  /** p.Children = append(p.Children, child). */
  method AddChild(devices: map<string, Device>, ghost infos: Infos, ghost g: map<string, seq<string>>, p: string, c: string)
    requires Stands(devices, infos) && Shows(devices, g) && p in devices && c in devices
    modifies devices[p]
    ensures Shows(devices, With(g, p, c))
  {
    var parent := devices[p];
    parent.children := parent.children + [devices[c]];
    assert forall k :: k in devices && k != p ==> devices[k] != parent;
    assert Knames(parent.children) == g[p] + [c];
  }

  /** Everything that is a child of something. */
  ghost function Parented(g: map<string, seq<string>>): set<string> {
    set p, c | p in g && c in g[p] :: c
  }

  lemma ParentedWith(g: map<string, seq<string>>, p: string, c: string)
    requires p in g
    ensures Parented(With(g, p, c)) == Parented(g) + {c}
  {
    var g' := With(g, p, c);
    forall x ensures x in Parented(g') <==> x in Parented(g) + {c} {
      if x in Parented(g) {
        var q :| q in g && x in g[q];
        assert x in g'[q];
      }
      if x == c {
        assert c in g'[p];
      }
    }
  }

  /** The devices among `holders`, appended to the children of `p`. */
  method AddHolders(devices: map<string, Device>, ghost infos: Infos, ghost g: map<string, seq<string>>, p: string,
                    holders: seq<string>, hasParent: set<string>) returns (hasParent': set<string>)
    requires Stands(devices, infos) && Shows(devices, g) && p in devices && hasParent == Parented(g)
    modifies devices[p]
    ensures Shows(devices, g[p := g[p] + Known(infos, holders)])
    ensures hasParent' == Parented(g[p := g[p] + Known(infos, holders)])
  {
    hasParent' := hasParent;
    ghost var now := g;
    NoneKnown(infos, holders, g, p);
    for i := 0 to |holders|
      invariant now == g[p := g[p] + Known(infos, holders[..i])]
      invariant Shows(devices, now) && hasParent' == Parented(now)
    {
      var h := holders[i];
      OneKnown(infos, holders, i, g, p);
      if h in devices {
        AddChild(devices, infos, now, p, h);
        ParentedWith(now, p, h);
        hasParent' := hasParent' + {h};
        now := With(now, p, h);
      }
    }
    assert holders[..|holders|] == holders;
  }

  lemma NoneKnown(infos: Infos, holders: seq<string>, g: map<string, seq<string>>, p: string)
    requires p in g
    ensures g == g[p := g[p] + Known(infos, holders[..0])]
  {
    assert holders[..0] == [];
    assert g[p] + [] == g[p];
  }

  lemma OneKnown(infos: Infos, holders: seq<string>, i: nat, g: map<string, seq<string>>, p: string)
    requires p in g && i < |holders|
    ensures var now := g[p := g[p] + Known(infos, holders[..i])];
            g[p := g[p] + Known(infos, holders[..i + 1])] == if holders[i] in infos then With(now, p, holders[i]) else now
  {
    var known := Known(infos, holders[..i]);
    assert holders[..i + 1] == holders[..i] + [holders[i]];
    KnownSnoc(infos, holders[..i], holders[i]);
    assert (g[p] + known) + [holders[i]] == g[p] + (known + [holders[i]]);
    assert known + [] == known;
  }

  /** One pass of the linking loop. */
  method LinkOne(devices: map<string, Device>, ghost infos: Infos, less: Less, names: seq<string>, i: nat, hasParent: set<string>)
    returns (hasParent': set<string>)
    requires Stands(devices, infos) && i < |names| && names[i] in devices
    requires Shows(devices, Graph(infos, less, names, i)) && hasParent == Parented(Graph(infos, less, names, i))
    modifies devices.Values
    ensures Shows(devices, Graph(infos, less, names, i + 1)) && hasParent' == Parented(Graph(infos, less, names, i + 1))
  {
    var name := names[i];
    var dev := devices[name];
    hasParent' := hasParent;
    ghost var g := Graph(infos, less, names, i);
    GraphStep(infos, less, names, i);
    if dev.info.parent != "" && dev.info.parent in devices {
      AddChild(devices, infos, g, dev.info.parent, name);
      ParentedWith(g, dev.info.parent, name);
      g := With(g, dev.info.parent, name);
      hasParent' := hasParent' + {name};
    }
    var sorted := SortBy(less, dev.info.holders);
    hasParent' := AddHolders(devices, infos, g, name, sorted, hasParent');
  }

  lemma GraphStep(infos: Infos, less: Less, names: seq<string>, i: nat)
    requires i < |names| && names[i] in infos
    ensures Graph(infos, less, names, i + 1) == Passed(infos, less, Graph(infos, less, names, i), names[i])
  {
    var n, j, g := names[i], i + 1, Graph(infos, less, names, i);
    var h := Passed(infos, less, g, n);
    var g' := Graph(infos, less, names, j);
    forall p | p in infos ensures g'[p] == h[p] {
      PassedAt(infos, less, g, n, p);
      assert ChildrenUpto(infos, less, names, j, p) == g[p] + OnePass(infos, less, n, p);
    }
    assert g'.Keys == h.Keys;
  }

  function Passed(infos: Infos, less: Less, g: map<string, seq<string>>, n: string): map<string, seq<string>>
    requires g.Keys == infos.Keys && n in infos
  {
    var parent := infos[n].parent;
    var mid := if parent != "" && parent in infos then With(g, parent, n) else g;
    mid[n := mid[n] + HoldersOf(infos, less, n)]
  }

  lemma PassedAt(infos: Infos, less: Less, g: map<string, seq<string>>, n: string, p: string)
    requires g.Keys == infos.Keys && n in infos && p in infos
    ensures Passed(infos, less, g, n)[p] == g[p] + OnePass(infos, less, n, p)
  {
    var first := if infos[n].parent == p && p != "" then [n] else [];
    var then_ := if n == p then HoldersOf(infos, less, p) else [];
    Reassociate(g[p], first, then_);
    Reassociate(g[p], [], then_);
  }

  lemma GraphAtStart(devices: map<string, Device>, infos: Infos, less: Less, names: seq<string>)
    requires Stands(devices, infos) && forall k :: k in devices ==> devices[k].children == []
    ensures Shows(devices, Graph(infos, less, names, 0)) && Parented(Graph(infos, less, names, 0)) == {}
  {
    forall k | k in devices ensures Knames(devices[k].children) == [] {
      assert devices[k].children == [];
    }
  }

  /** The linking loop of List. */
  method LinkAll(devices: map<string, Device>, ghost infos: Infos, less: Less, names: seq<string>) returns (hasParent: set<string>)
    requires Stands(devices, infos) && (forall n :: n in names ==> n in devices)
    requires forall k :: k in devices ==> devices[k].children == []
    modifies devices.Values
    ensures Shows(devices, Graph(infos, less, names, |names|)) && hasParent == Parented(Graph(infos, less, names, |names|))
  {
    hasParent := {};
    GraphAtStart(devices, infos, less, names);
    for i := 0 to |names|
      invariant Shows(devices, Graph(infos, less, names, i)) && hasParent == Parented(Graph(infos, less, names, i))
    {
      hasParent := LinkOne(devices, infos, less, names, i, hasParent);
    }
  }

  function Roots(names: seq<string>, hasParent: set<string>): seq<string> {
    if names == [] then [] else (if names[0] in hasParent then [] else [names[0]]) + Roots(names[1..], hasParent)
  }

  lemma {:induction false} RootsHas(names: seq<string>, hasParent: set<string>, n: string)
    ensures n in Roots(names, hasParent) <==> n in names && n !in hasParent
  {
    if names != [] {
      RootsHas(names[1..], hasParent, n);
      assert names == [names[0]] + names[1..];
    }
  }

  // ----- the tree that is printed -----

  /** One line; `drawn` says for each level of its branch glyphs whether it is
      the last entry there. */
  datatype Row = Row(drawn: seq<bool>, kname: string)

  type Links = map<string, seq<string>>

  /** Children exist and have a smaller rank: there are no cycles. */
  ghost predicate Acyclic(g: Links, rank: map<string, nat>) {
    && rank.Keys == g.Keys
    && forall p :: p in g ==> forall i :: 0 <= i < |g[p]| ==> g[p][i] in g && rank[g[p][i]] < rank[p]
  }

  ghost predicate Within(names: seq<string>, rank: map<string, nat>, bound: nat) {
    forall i :: 0 <= i < |names| ==> names[i] in rank && rank[names[i]] < bound
  }

  function Glyphs(prefix: seq<bool>, top: bool, last: bool): seq<bool> {
    if top then prefix else prefix + [last]
  }

  /** flatten, from the i-th device of `names` on. */
  ghost function Flat(g: Links, rank: map<string, nat>, names: seq<string>, i: nat, prefix: seq<bool>, top: bool, bound: nat): seq<Row>
    requires Acyclic(g, rank) && i <= |names| && Within(names, rank, bound)
    decreases bound, |names| - i
  {
    if i == |names| then []
    else
      var n := names[i];
      var drawn := Glyphs(prefix, top, i == |names| - 1);
      [Row(drawn, n)] + Flat(g, rank, g[n], 0, drawn, false, rank[n]) + Flat(g, rank, names, i + 1, prefix, top, bound)
  }

  method Flatten(devs: seq<Device>, prefix: seq<bool>, top: bool, rows: seq<Row>,
                 ghost devices: map<string, Device>, ghost g: Links, ghost rank: map<string, nat>, ghost bound: nat)
    returns (rows': seq<Row>)
    requires Shows(devices, g) && Ours(devs, devices) && Acyclic(g, rank) && Within(Knames(devs), rank, bound)
    ensures rows' == rows + Flat(g, rank, Knames(devs), 0, prefix, top, bound)
    decreases bound, 1
  {
    ghost var names := Knames(devs);
    rows' := rows;
    for i := 0 to |devs|
      invariant rows' + Flat(g, rank, names, i, prefix, top, bound) == rows + Flat(g, rank, names, 0, prefix, top, bound)
    {
      var d := devs[i];
      var drawn := Glyphs(prefix, top, i == |devs| - 1);
      ghost var before, n := rows', names[i];
      rows' := rows' + [Row(drawn, d.info.kname)];
      ChildrenWithin(g, rank, n);
      rows' := Flatten(d.children, drawn, false, rows', devices, g, rank, rank[n]);
      ThreeParts(before, [Row(drawn, n)], Flat(g, rank, g[n], 0, drawn, false, rank[n]),
                 Flat(g, rank, names, i + 1, prefix, top, bound));
    }
    ThreeParts(rows', [], [], []);
  }

  lemma ChildrenWithin(g: Links, rank: map<string, nat>, n: string)
    requires Acyclic(g, rank) && n in g
    ensures Within(g[n], rank, rank[n])
  {
  }

  lemma ThreeParts(a: seq<Row>, b: seq<Row>, c: seq<Row>, d: seq<Row>)
    ensures a + (b + c + d) == a + b + c + d
    ensures a + [] == a
  {
  }

  // ----- every device is printed -----

  predicate Listed(rows: seq<Row>, n: string) {
    exists k :: 0 <= k < |rows| && rows[k].kname == n
  }

  lemma ListedConcat(a: seq<Row>, b: seq<Row>, n: string)
    ensures Listed(a + b, n) <==> Listed(a, n) || Listed(b, n)
  {
    if Listed(b, n) {
      var k :| 0 <= k < |b| && b[k].kname == n;
      assert (a + b)[|a| + k].kname == n;
    }
    if Listed(a, n) {
      var k :| 0 <= k < |a| && a[k].kname == n;
      assert (a + b)[k].kname == n;
    }
  }

  /** The devices asked for are printed, and the children of what is printed. */
  lemma {:induction false} FlatListsAll(g: Links, rank: map<string, nat>, names: seq<string>, i: nat, prefix: seq<bool>, top: bool, bound: nat, n: string)
    requires Acyclic(g, rank) && i <= |names| && Within(names, rank, bound)
    ensures n in names[i..] ==> Listed(Flat(g, rank, names, i, prefix, top, bound), n)
    ensures n in g && Listed(Flat(g, rank, names, i, prefix, top, bound), n) ==>
              forall c :: c in g[n] ==> Listed(Flat(g, rank, names, i, prefix, top, bound), c)
    decreases bound, |names| - i
  {
    if i < |names| {
      var m := names[i];
      var drawn := Glyphs(prefix, top, i == |names| - 1);
      var head, sub, rest := [Row(drawn, m)], Flat(g, rank, g[m], 0, drawn, false, rank[m]), Flat(g, rank, names, i + 1, prefix, top, bound);
      ChildrenWithin(g, rank, m);
      FlatListsAll(g, rank, g[m], 0, drawn, false, rank[m], n);
      FlatListsAll(g, rank, names, i + 1, prefix, top, bound, n);
      assert names[i..] == [m] + names[i + 1..];
      ListedParts(head, sub, rest, n);
      assert Listed(head, n) <==> n == m by {
        assert head[0].kname == m;
      }
      if n in g {
        forall c | c in g[n] && Listed(head + sub + rest, n) ensures Listed(head + sub + rest, c) {
          ListedParts(head, sub, rest, c);
          if n == m {
            FlatListsAll(g, rank, g[m], 0, drawn, false, rank[m], c);
            assert g[m][0..] == g[m];
          }
        }
      }
    }
  }

  lemma ListedParts(a: seq<Row>, b: seq<Row>, c: seq<Row>, n: string)
    ensures Listed(a + b + c, n) <==> Listed(a, n) || Listed(b, n) || Listed(c, n)
  {
    ListedConcat(a + b, c, n);
    ListedConcat(a, b, n);
  }

  lemma {:induction false} Climb(g: Links, rank: map<string, nat>, hasParent: set<string>, roots: seq<string>, top: nat, bound: nat, n: string)
    requires Acyclic(g, rank) && hasParent == Parented(g) && Within(roots, rank, bound)
    requires forall m :: m in g && m !in hasParent ==> m in roots
    requires n in g && (forall m :: m in g ==> rank[m] < top)
    ensures Listed(Flat(g, rank, roots, 0, [], true, bound), n)
    decreases top - rank[n]
  {
    if n !in hasParent {
      FlatListsAll(g, rank, roots, 0, [], true, bound, n);
      assert roots[0..] == roots;
    } else {
      var p :| p in g && n in g[p];
      var i :| 0 <= i < |g[p]| && g[p][i] == n;
      Climb(g, rank, hasParent, roots, top, bound, p);
      FlatListsAll(g, rank, roots, 0, [], true, bound, p);
    }
  }

  // ----- each child under its parent -----

  /** Row `j` is the parent of row `k`: one level up, the last such before it. */
  ghost predicate Under(rows: seq<Row>, g: Links, j: nat, k: nat)
    requires j < |rows| && k < |rows|
  {
    && j < k && rows[j].kname in g && rows[k].kname in g[rows[j].kname]
    && |rows[k].drawn| == |rows[j].drawn| + 1 && rows[j].drawn <= rows[k].drawn
    && forall m :: j < m < k ==> |rows[m].drawn| > |rows[j].drawn|
  }

  ghost predicate HasParentRow(rows: seq<Row>, g: Links, k: nat)
    requires k < |rows|
  {
    exists j: nat :: j < k && Under(rows, g, j, k)
  }

  /** Every row stands at level `base`, being one of `tops`, or under a row. */
  ghost predicate Nested(rows: seq<Row>, g: Links, base: nat, tops: seq<string>) {
    forall k: nat :: k < |rows| ==> Placed(rows, g, base, tops, k)
  }

  ghost predicate Placed(rows: seq<Row>, g: Links, base: nat, tops: seq<string>, k: nat)
    requires k < |rows|
  {
    |rows[k].drawn| >= base && (if |rows[k].drawn| == base then rows[k].kname in tops else HasParentRow(rows, g, k))
  }

  lemma NestedConcat(a: seq<Row>, b: seq<Row>, g: Links, base: nat, tops: seq<string>)
    requires Nested(a, g, base, tops) && Nested(b, g, base, tops)
    ensures Nested(a + b, g, base, tops)
  {
    var all := a + b;
    forall k: nat | k < |all| ensures Placed(all, g, base, tops, k) {
      if k < |a| {
        assert Placed(a, g, base, tops, k);
        if |a[k].drawn| > base {
          var j: nat :| j < k && Under(a, g, j, k);
          assert Under(all, g, j, k);
        }
      } else {
        var k' := k - |a|;
        assert Placed(b, g, base, tops, k');
        if |b[k'].drawn| > base {
          var j: nat :| j < k' && Under(b, g, j, k');
          Shifted(a, b, g, j, k', |a| + j, k);
        }
      }
    }
  }

  lemma Shifted(a: seq<Row>, b: seq<Row>, g: Links, j: nat, k: nat, j': nat, k': nat)
    requires j < |b| && k < |b| && Under(b, g, j, k) && j' == |a| + j && k' == |a| + k
    ensures Under(a + b, g, j', k')
  {
    var all := a + b;
    assert all[j'] == b[j] && all[k'] == b[k];
    forall m | j' < m < k' ensures |all[m].drawn| > |all[j'].drawn| {
      assert all[m] == b[m - |a|];
    }
  }

  /** A row and, one level down, rows that all stand under it. */
  lemma NestedUnder(row: Row, sub: seq<Row>, g: Links, base: nat, tops: seq<string>)
    requires row.kname in g && Nested(sub, g, base + 1, g[row.kname]) && |row.drawn| == base && row.kname in tops
    requires forall k :: 0 <= k < |sub| ==> row.drawn <= sub[k].drawn
    ensures Nested([row] + sub, g, base, tops)
  {
    var all := [row] + sub;
    forall k: nat | k < |all| ensures Placed(all, g, base, tops, k) {
      if k > 0 {
        var k' := k - 1;
        assert all[k] == sub[k'] && Placed(sub, g, base + 1, g[row.kname], k');
        if |sub[k'].drawn| == base + 1 {
          forall m | 0 < m < k ensures |all[m].drawn| > base {
            assert all[m] == sub[m - 1] && Placed(sub, g, base + 1, g[row.kname], m - 1);
          }
          assert Under(all, g, 0, k);
        } else {
          var j: nat :| j < k' && Under(sub, g, j, k');
          Shifted([row], sub, g, j, k', j + 1, k);
        }
      }
    }
  }

  /** Level at which flatten prints the devices it is given. */
  function Level(prefix: seq<bool>, top: bool): nat {
    if top then |prefix| else |prefix| + 1
  }

  /** What flatten prints is a tree: every line but those of the devices it was
      given stands under the line of a device it is linked below. */
  lemma {:induction false} FlatIsNested(g: Links, rank: map<string, nat>, names: seq<string>, i: nat, prefix: seq<bool>, top: bool, bound: nat)
    requires Acyclic(g, rank) && i <= |names| && Within(names, rank, bound)
    ensures var rows := Flat(g, rank, names, i, prefix, top, bound);
            Nested(rows, g, Level(prefix, top), names) && forall k :: 0 <= k < |rows| ==> prefix <= rows[k].drawn
    decreases bound, |names| - i
  {
    if i < |names| {
      var n := names[i];
      var drawn := Glyphs(prefix, top, i == |names| - 1);
      var sub, rest := Flat(g, rank, g[n], 0, drawn, false, rank[n]), Flat(g, rank, names, i + 1, prefix, top, bound);
      ChildrenWithin(g, rank, n);
      FlatIsNested(g, rank, g[n], 0, drawn, false, rank[n]);
      FlatIsNested(g, rank, names, i + 1, prefix, top, bound);
      NestedUnder(Row(drawn, n), sub, g, Level(prefix, top), names);
      NestedConcat([Row(drawn, n)] + sub, rest, g, Level(prefix, top), names);
      PrefixKept(prefix, drawn, n, sub, rest);
    }
  }

  lemma PrefixKept(prefix: seq<bool>, drawn: seq<bool>, n: string, sub: seq<Row>, rest: seq<Row>)
    requires prefix <= drawn && (forall k :: 0 <= k < |sub| ==> drawn <= sub[k].drawn)
    requires forall k :: 0 <= k < |rest| ==> prefix <= rest[k].drawn
    ensures var all := [Row(drawn, n)] + sub + rest; forall k :: 0 <= k < |all| ==> prefix <= all[k].drawn
  {
  }

  // ----- under each parent, all its children -----

  /** Under row `j` stands a row for device `c`. */
  ghost predicate HasChildRow(rows: seq<Row>, g: Links, j: nat, c: string)
    requires j < |rows|
  {
    exists k: nat :: k < |rows| && Under(rows, g, j, k) && rows[k].kname == c
  }

  ghost predicate HasChildRows(rows: seq<Row>, g: Links, j: nat)
    requires j < |rows|
  {
    rows[j].kname in g && forall c :: c in g[rows[j].kname] ==> HasChildRow(rows, g, j, c)
  }

  /** Under every row stands a row for each child of its device. */
  ghost predicate Complete(rows: seq<Row>, g: Links) {
    forall j: nat :: j < |rows| ==> HasChildRows(rows, g, j)
  }

  ghost predicate RowAt(rows: seq<Row>, level: nat, c: string) {
    exists k: nat :: k < |rows| && |rows[k].drawn| == level && rows[k].kname == c
  }

  ghost predicate AllAt(rows: seq<Row>, level: nat, names: seq<string>) {
    forall c :: c in names ==> RowAt(rows, level, c)
  }

  lemma CompleteConcat(a: seq<Row>, b: seq<Row>, g: Links)
    requires Complete(a, g) && Complete(b, g)
    ensures Complete(a + b, g)
  {
    var all := a + b;
    forall j: nat | j < |all| ensures HasChildRows(all, g, j) {
      if j < |a| {
        ChildRowsKept(a, b, g, j);
      } else {
        ChildRowsShifted(a, b, g, j - |a|, j);
      }
    }
  }

  lemma ChildRowsKept(a: seq<Row>, b: seq<Row>, g: Links, j: nat)
    requires j < |a| && HasChildRows(a, g, j)
    ensures HasChildRows(a + b, g, j)
  {
    forall c | c in g[a[j].kname] ensures HasChildRow(a + b, g, j, c) {
      assert HasChildRow(a, g, j, c);
      var k: nat :| k < |a| && Under(a, g, j, k) && a[k].kname == c;
      assert Under(a + b, g, j, k);
    }
  }

  lemma ChildRowsShifted(a: seq<Row>, b: seq<Row>, g: Links, j: nat, j': nat)
    requires j < |b| && HasChildRows(b, g, j) && j' == |a| + j
    ensures HasChildRows(a + b, g, j')
  {
    forall c | c in g[b[j].kname] ensures HasChildRow(a + b, g, j', c) {
      assert HasChildRow(b, g, j, c);
      var k: nat :| k < |b| && Under(b, g, j, k) && b[k].kname == c;
      Shifted(a, b, g, j, k, j', |a| + k);
    }
  }

  /** A row, and below it rows for all children of its device. */
  lemma CompleteUnder(row: Row, sub: seq<Row>, g: Links, base: nat)
    requires row.kname in g && |row.drawn| == base && Complete(sub, g)
    requires Nested(sub, g, base + 1, g[row.kname]) && AllAt(sub, base + 1, g[row.kname])
    requires forall k :: 0 <= k < |sub| ==> row.drawn <= sub[k].drawn
    ensures Complete([row] + sub, g)
  {
    var all := [row] + sub;
    forall j: nat | j < |all| ensures HasChildRows(all, g, j) {
      if j > 0 {
        ChildRowsShifted([row], sub, g, j - 1, j);
      } else {
        forall c | c in g[row.kname] ensures HasChildRow(all, g, 0, c) {
          assert RowAt(sub, base + 1, c);
          var k: nat :| k < |sub| && |sub[k].drawn| == base + 1 && sub[k].kname == c;
          var k' := k + 1;
          assert all[k'] == sub[k];
          forall m | 0 < m < k' ensures |all[m].drawn| > base {
            assert all[m] == sub[m - 1] && Placed(sub, g, base + 1, g[row.kname], m - 1);
          }
          assert Under(all, g, 0, k');
        }
      }
    }
  }

  lemma AtLevel(row: Row, sub: seq<Row>, rest: seq<Row>, level: nat, names: seq<string>, more: seq<string>)
    requires |row.drawn| == level && AllAt(rest, level, more) && names == [row.kname] + more
    ensures AllAt([row] + sub + rest, level, names)
  {
    var all := [row] + sub + rest;
    forall c | c in names ensures RowAt(all, level, c) {
      if c == row.kname {
        assert all[0] == row;
      } else {
        assert RowAt(rest, level, c);
        var k: nat :| k < |rest| && |rest[k].drawn| == level && rest[k].kname == c;
        var k' := 1 + |sub| + k;
        assert all[k'] == rest[k];
      }
    }
  }

  /** What flatten prints is complete: the devices it was given stand at their
      level, and under every line a line for each child, however often a device
      is printed. */
  lemma {:induction false} FlatDrawsEveryChild(g: Links, rank: map<string, nat>, names: seq<string>, i: nat, prefix: seq<bool>, top: bool, bound: nat)
    requires Acyclic(g, rank) && i <= |names| && Within(names, rank, bound)
    ensures var rows := Flat(g, rank, names, i, prefix, top, bound);
            Complete(rows, g) && AllAt(rows, Level(prefix, top), names[i..])
    decreases bound, |names| - i
  {
    if i < |names| {
      var n, level := names[i], Level(prefix, top);
      var drawn := Glyphs(prefix, top, i == |names| - 1);
      var row := Row(drawn, n);
      var sub, rest := Flat(g, rank, g[n], 0, drawn, false, rank[n]), Flat(g, rank, names, i + 1, prefix, top, bound);
      ChildrenWithin(g, rank, n);
      FlatIsNested(g, rank, g[n], 0, drawn, false, rank[n]);
      FlatDrawsEveryChild(g, rank, g[n], 0, drawn, false, rank[n]);
      FlatDrawsEveryChild(g, rank, names, i + 1, prefix, top, bound);
      assert g[n][0..] == g[n];
      CompleteUnder(row, sub, g, level);
      CompleteConcat([row] + sub, rest, g);
      assert names[i..] == [n] + names[i + 1..];
      AtLevel(row, sub, rest, level, names[i..], names[i + 1..]);
    }
  }

  // ----- the branch glyphs -----

  /** Row `m` is the next at the level of row `k`, under the same parent. */
  ghost predicate NextSibling(rows: seq<Row>, k: nat, m: nat)
    requires k < |rows| && m < |rows|
  {
    k < m && |rows[m].drawn| == |rows[k].drawn| && forall x :: k < x < m ==> |rows[x].drawn| > |rows[k].drawn|
  }

  /** The row is drawn as a last entry exactly if no sibling follows. */
  ghost predicate FlagRight(rows: seq<Row>, k: nat)
    requires k < |rows|
  {
    var drawn := rows[k].drawn;
    drawn != [] && (drawn[|drawn| - 1] <==> forall m: nat :: m < |rows| ==> !NextSibling(rows, k, m))
  }

  ghost predicate FlagsRight(rows: seq<Row>, base: nat) {
    forall k: nat :: k < |rows| && |rows[k].drawn| > base ==> FlagRight(rows, k)
  }

  lemma FlagInSub(row: Row, sub: seq<Row>, rest: seq<Row>, k: nat, k': nat)
    requires k < |sub| && FlagRight(sub, k) && |sub[k].drawn| > |row.drawn| && k' == k + 1
    requires rest != [] ==> |rest[0].drawn| <= |row.drawn|
    ensures FlagRight([row] + sub + rest, k')
  {
    var all := [row] + sub + rest;
    assert all[k'] == sub[k];
    forall m: nat | m < |sub| ensures NextSibling(sub, k, m) ==> NextSibling(all, k', m + 1) {
      if NextSibling(sub, k, m) {
        forall x | k' < x < m + 1 ensures |all[x].drawn| > |all[k'].drawn| {
          assert all[x] == sub[x - 1];
        }
        assert all[m + 1] == sub[m];
      }
    }
    var n := |sub| + 1;
    assert rest != [] ==> all[n] == rest[0] && |all[n].drawn| < |all[k'].drawn|;
    forall m: nat | m < |all| && NextSibling(all, k', m) ensures m <= |sub| && NextSibling(sub, k, m - 1) {
      forall x | k < x < m - 1 ensures |sub[x].drawn| > |sub[k].drawn| {
        assert all[x + 1] == sub[x];
      }
    }
  }

  lemma FlagInRest(front: seq<Row>, rest: seq<Row>, k: nat, k': nat)
    requires k < |rest| && FlagRight(rest, k) && k' == |front| + k
    ensures FlagRight(front + rest, k')
  {
    var all := front + rest;
    assert all[k'] == rest[k];
    forall m: nat | m < |rest| ensures NextSibling(rest, k, m) ==> NextSibling(all, k', |front| + m) {
      if NextSibling(rest, k, m) {
        forall x | k' < x < |front| + m ensures |all[x].drawn| > |all[k'].drawn| {
          assert all[x] == rest[x - |front|];
        }
        assert all[|front| + m] == rest[m];
      }
    }
    forall m: nat | m < |all| && NextSibling(all, k', m) ensures NextSibling(rest, k, m - |front|) {
      forall x | k < x < m - |front| ensures |rest[x].drawn| > |rest[k].drawn| {
        assert all[|front| + x] == rest[x];
      }
      assert all[m] == rest[m - |front|];
    }
  }

  lemma FlagOfHead(row: Row, sub: seq<Row>, rest: seq<Row>)
    requires row.drawn != [] && (forall k :: 0 <= k < |sub| ==> |sub[k].drawn| > |row.drawn|)
    requires rest != [] ==> |rest[0].drawn| == |row.drawn|
    requires row.drawn[|row.drawn| - 1] <==> rest == []
    ensures FlagRight([row] + sub + rest, 0)
  {
    var all, m := [row] + sub + rest, |sub| + 1;
    assert forall x :: 0 < x < m ==> all[x] == sub[x - 1];
    if rest != [] {
      assert all[m] == rest[0];
      assert NextSibling(all, 0, m);
    }
  }

  /** The last flag of every line below the roots says whether it is the last of
      its parent's children. */
  lemma {:induction false} FlatFlagsRight(g: Links, rank: map<string, nat>, names: seq<string>, i: nat, prefix: seq<bool>, top: bool, bound: nat)
    requires Acyclic(g, rank) && i <= |names| && Within(names, rank, bound)
    ensures FlagsRight(Flat(g, rank, names, i, prefix, top, bound), |prefix|)
    decreases bound, |names| - i
  {
    if i < |names| {
      var n := names[i];
      var drawn := Glyphs(prefix, top, i == |names| - 1);
      var row := Row(drawn, n);
      var sub, rest := Flat(g, rank, g[n], 0, drawn, false, rank[n]), Flat(g, rank, names, i + 1, prefix, top, bound);
      ChildrenWithin(g, rank, n);
      FlatIsNested(g, rank, g[n], 0, drawn, false, rank[n]);
      FlatFlagsRight(g, rank, g[n], 0, drawn, false, rank[n]);
      FlatFlagsRight(g, rank, names, i + 1, prefix, top, bound);
      FirstRow(g, rank, names, i + 1, prefix, top, bound);
      forall k | 0 <= k < |sub| ensures |sub[k].drawn| > |drawn| {
        assert Placed(sub, g, |drawn| + 1, g[n], k);
      }
      FlagsTogether(row, sub, rest, |prefix|);
    }
  }

  lemma FlagsTogether(row: Row, sub: seq<Row>, rest: seq<Row>, base: nat)
    requires FlagsRight(sub, |row.drawn|) && FlagsRight(rest, base) && base <= |row.drawn|
    requires forall k :: 0 <= k < |sub| ==> |sub[k].drawn| > |row.drawn|
    requires rest != [] ==> |rest[0].drawn| == |row.drawn|
    requires |row.drawn| > base ==> (row.drawn[|row.drawn| - 1] <==> rest == [])
    ensures FlagsRight([row] + sub + rest, base)
  {
    var all := [row] + sub + rest;
    forall k: nat | k < |all| && |all[k].drawn| > base ensures FlagRight(all, k) {
      if k == 0 {
        FlagOfHead(row, sub, rest);
      } else if k <= |sub| {
        var k' := k - 1;
        assert all[k] == sub[k'];
        FlagInSub(row, sub, rest, k', k);
      } else {
        var k' := k - 1 - |sub|;
        assert all[k] == rest[k'];
        FlagInRest([row] + sub, rest, k', k);
      }
    }
  }

  lemma FirstRow(g: Links, rank: map<string, nat>, names: seq<string>, i: nat, prefix: seq<bool>, top: bool, bound: nat)
    requires Acyclic(g, rank) && i <= |names| && Within(names, rank, bound)
    ensures var rows := Flat(g, rank, names, i, prefix, top, bound);
            (rows == [] <==> i == |names|) && (rows != [] ==> |rows[0].drawn| == Level(prefix, top))
  {
  }

  // ----- List -----

  /** The devices that are shown, by name. */
  function Shown(entries: seq<Info>, n: nat, showAll: bool): Infos
    requires n <= |entries|
  {
    if n == 0 then map[]
    else
      var d := entries[n - 1];
      if showAll || !Hidden(d) then Shown(entries, n - 1, showAll)[d.kname := d] else Shown(entries, n - 1, showAll)
  }

  lemma {:induction false} ShownAre(entries: seq<Info>, n: nat, showAll: bool)
    requires n <= |entries|
    ensures Keyed(Shown(entries, n, showAll))
    ensures forall k :: k in Shown(entries, n, showAll) <==>
              exists i :: 0 <= i < n && entries[i].kname == k && (showAll || (entries[i].sizeBytes > 0 && !("1:" <= entries[i].majMin)))
  {
    if n > 0 {
      ShownAre(entries, n - 1, showAll);
    }
  }

  method Keep(entries: seq<Info>, showAll: bool) returns (devices: map<string, Device>, names: seq<string>)
    ensures Stands(devices, Shown(entries, |entries|, showAll))
    ensures (forall k :: k in devices ==> fresh(devices[k]) && devices[k].children == [])
    ensures forall k :: k in devices <==> k in names
  {
    devices, names := map[], [];
    for i := 0 to |entries|
      invariant Stands(devices, Shown(entries, i, showAll))
      invariant forall k :: k in devices ==> fresh(devices[k]) && devices[k].children == []
      invariant forall k :: k in devices <==> k in names
    {
      if !showAll && (entries[i].sizeBytes == 0 || HasPrefix(entries[i].majMin, "1:")) {
        continue;
      }
      var dev := new Device(entries[i]);
      devices := devices[dev.info.kname := dev];
      names := names + [dev.info.kname];
    }
  }

  ghost predicate Graphs(infos: Infos, g: Links) {
    g.Keys == infos.Keys && forall p, c :: p in infos ==> (c in g[p] <==> Linked(infos, p, c))
  }

  lemma GraphIsLinks(infos: Infos, less: Less, names: seq<string>)
    requires forall k :: k in infos <==> k in names
    ensures Graphs(infos, Graph(infos, less, names, |names|))
  {
    forall p, c | p in infos ensures c in Graph(infos, less, names, |names|)[p] <==> Linked(infos, p, c) {
      ChildrenAreLinked(infos, less, names, p, c);
    }
  }

  /** A device nests only in devices of higher rank. */
  ghost predicate NoCycle(infos: Infos, rank: map<string, nat>) {
    rank.Keys == infos.Keys && forall p, c :: Linked(infos, p, c) ==> rank[c] < rank[p]
  }

  lemma Bound(rank: map<string, nat>) returns (top: nat)
    ensures forall m :: m in rank ==> rank[m] < top
    decreases |rank|
  {
    if rank == map[] {
      top := 0;
    } else {
      var k :| k in rank;
      var rest := rank - {k};
      assert |rest.Keys| < |rank.Keys| by {
        assert rest.Keys == rank.Keys - {k};
      }
      var t := Bound(rest);
      top := t + rank[k] + 1;
      forall m | m in rank ensures rank[m] < top {
        if m != k { assert m in rest && rest[m] == rank[m]; }
      }
    }
  }

  lemma AcyclicLinks(infos: Infos, g: Links, rank: map<string, nat>)
    requires Graphs(infos, g) && NoCycle(infos, rank)
    ensures Acyclic(g, rank)
  {
    forall p, i | p in g && 0 <= i < |g[p]| ensures g[p][i] in g && rank[g[p][i]] < rank[p] {
      assert Linked(infos, p, g[p][i]);
    }
  }

  /** The tree of a linked graph, from its roots. */
  method Print(devices: map<string, Device>, names: seq<string>, hasParent: set<string>,
               ghost infos: Infos, ghost g: Links, ghost rank: map<string, nat>)
    returns (roots: seq<string>, rows: seq<Row>)
    requires Stands(devices, infos) && Shows(devices, g) && Graphs(infos, g) && Acyclic(g, rank)
    requires hasParent == Parented(g) && forall k :: k in infos <==> k in names
    ensures forall n :: n in roots <==> n in infos && !exists p :: Linked(infos, p, n)
    ensures forall n :: n in infos <==> Listed(rows, n)
    ensures Nested(rows, g, 0, roots) && Complete(rows, g) && FlagsRight(rows, 0)
  {
    roots := Roots(names, hasParent);
    RootsAre(infos, g, names, hasParent);
    var devs := Objects(devices, roots);
    ghost var top := Bound(rank);
    rows := Flatten(devs, [], true, [], devices, g, rank, top);
    assert rows == Flat(g, rank, roots, 0, [], true, top);
    FlatIsNested(g, rank, roots, 0, [], true, top);
    FlatDrawsEveryChild(g, rank, roots, 0, [], true, top);
    FlatFlagsRight(g, rank, roots, 0, [], true, top);
    AllListed(infos, g, rank, hasParent, roots, top, rows);
  }

  /** The rows draw the nesting of the devices: every row but those of the roots
      stands under the row of a device it nests in, and under every row stands a
      row for each device nested in its own; the last of these, and no other, is
      drawn as the last. */
  ghost predicate DrawsNesting(rows: seq<Row>, infos: Infos, roots: seq<string>) {
    exists g: Links :: Graphs(infos, g) && Nested(rows, g, 0, roots) && Complete(rows, g) && FlagsRight(rows, 0)
  }

  /** List, without the reading of sysfs. When nesting has no cycle: the roots
      are the shown devices nested in no shown device, every shown device is
      printed and no other, each under every device it nests in. */
  method List(entries: seq<Info>, showAll: bool, less: Less, ghost rank: map<string, nat>)
    returns (roots: seq<string>, rows: seq<Row>)
    requires NoCycle(Shown(entries, |entries|, showAll), rank)
    ensures var shown := Shown(entries, |entries|, showAll);
            && (forall n :: n in roots <==> n in shown && !exists p :: Linked(shown, p, n))
            && (forall n :: n in shown <==> Listed(rows, n))
            && DrawsNesting(rows, shown, roots)
  {
    ghost var shown := Shown(entries, |entries|, showAll);
    var devices, names := Keep(entries, showAll);
    names := Sorted(less, names);
    var hasParent := LinkAll(devices, shown, less, names);
    ghost var g := Graph(shown, less, names, |names|);
    GraphIsLinks(shown, less, names);
    AcyclicLinks(shown, g, rank);
    roots, rows := Print(devices, names, hasParent, shown, g, rank);
  }

  method Sorted(less: Less, names: seq<string>) returns (sorted: seq<string>)
    ensures sorted == SortBy(less, names) && forall k :: k in sorted <==> k in names
  {
    sorted := SortBy(less, names);
    forall k ensures k in sorted <==> k in names {
      SortHas(less, names, k);
    }
  }

  lemma RootsAre(infos: Infos, g: Links, names: seq<string>, hasParent: set<string>)
    requires Graphs(infos, g) && hasParent == Parented(g) && forall k :: k in infos <==> k in names
    ensures forall n :: n in Roots(names, hasParent) <==> n in infos && !exists p :: Linked(infos, p, n)
    ensures forall n :: n in Roots(names, hasParent) <==> n in g && n !in hasParent
  {
    forall n ensures n in Roots(names, hasParent) <==> n in infos && n !in hasParent {
      RootsHas(names, hasParent, n);
    }
    forall n | n in infos ensures n in hasParent <==> exists p :: Linked(infos, p, n) {
      if p :| Linked(infos, p, n) {
        assert p in g && n in g[p];
      }
    }
  }

  method Objects(devices: map<string, Device>, names: seq<string>) returns (devs: seq<Device>)
    requires forall n :: n in names ==> n in devices && devices[n].info.kname == n
    ensures Knames(devs) == names && Ours(devs, devices)
  {
    devs := seq(|names|, i requires 0 <= i < |names| => devices[names[i]]);
    assert forall i :: 0 <= i < |names| ==> names[i] in names;
  }

  lemma AllListed(infos: Infos, g: Links, rank: map<string, nat>, hasParent: set<string>, roots: seq<string>, top: nat, rows: seq<Row>)
    requires Graphs(infos, g) && Acyclic(g, rank) && hasParent == Parented(g) && Within(roots, rank, top)
    requires forall m :: m in g ==> rank[m] < top
    requires forall n :: n in roots <==> n in g && n !in hasParent
    requires rows == Flat(g, rank, roots, 0, [], true, top)
    ensures forall n :: n in infos <==> Listed(rows, n)
  {
    forall n ensures n in infos <==> Listed(rows, n) {
      if n in infos {
        Climb(g, rank, hasParent, roots, top, top, n);
      }
      if Listed(rows, n) {
        FlatListsOnly(g, rank, roots, 0, [], true, top, n);
      }
    }
  }

  lemma {:induction false} FlatListsOnly(g: Links, rank: map<string, nat>, names: seq<string>, i: nat, prefix: seq<bool>, top: bool, bound: nat, n: string)
    requires Acyclic(g, rank) && i <= |names| && Within(names, rank, bound)
    requires Listed(Flat(g, rank, names, i, prefix, top, bound), n)
    ensures n in g
    decreases bound, |names| - i
  {
    var m := names[i];
    var drawn := Glyphs(prefix, top, i == |names| - 1);
    var sub, rest := Flat(g, rank, g[m], 0, drawn, false, rank[m]), Flat(g, rank, names, i + 1, prefix, top, bound);
    ListedParts([Row(drawn, m)], sub, rest, n);
    ChildrenWithin(g, rank, m);
    if Listed(sub, n) {
      FlatListsOnly(g, rank, g[m], 0, drawn, false, rank[m], n);
    } else if Listed(rest, n) {
      FlatListsOnly(g, rank, names, i + 1, prefix, top, bound, n);
    }
  }
}
