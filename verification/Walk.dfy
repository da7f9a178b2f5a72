/** internal/fsafe/walk.go: a recursive change below a verified node. */
module Walk {
  import opened Text
  import opened Paths
  import opened FileTree
  import opened Fsafe
  import opened Sorting

  datatype FnResult = Changed | Unchanged | Failed

  datatype Trouble = FnFailed(path: string) | ListFailed(path: string) | OpenFailed(path: string)

  /** What a walk did, in the shape of the tree it met. */
  datatype Log = Log(inode: Inode, path: string, isDir: bool, result: FnResult, below: Below)

  datatype Below = NotListed | Unlisted | Cut | Listed(entries: seq<EntryLog>)

  datatype EntryLog =
    | Skipped(name: string, at: nat)
    | Unopened(name: string)
    | Entered(name: string, log: Log, at: nat)

  // ----- what the log adds up to -----

  /** The WalkResult, with a record of the calls and of the answers to them. */
  datatype Totals = Totals(changed: nat, same: nat, skipped: seq<string>, errors: seq<Trouble>,
                           calls: seq<(Inode, string)>, answers: seq<FnResult>)
  {
    function Plus(o: Totals): Totals {
      Totals(changed + o.changed, same + o.same, skipped + o.skipped, errors + o.errors, calls + o.calls, answers + o.answers)
    }
  }

  const NOTHING := Totals(0, 0, [], [], [], [])

  function CallTotals(log: Log): Totals {
    Totals(if log.result == Changed then 1 else 0,
           if log.result == Unchanged then 1 else 0,
           [],
           if log.result == Failed then [FnFailed(log.path)] else [],
           [(log.inode, log.path)],
           [log.result])
  }

  function LogTotals(log: Log): Totals
    decreases log, 1
  {
    CallTotals(log).Plus(BelowTotals(log.path, log.below))
  }

  function BelowTotals(path: string, below: Below): Totals
    decreases below, 1
  {
    match below
    case Unlisted => NOTHING.(errors := [ListFailed(path)])
    case Listed(es) => EntryTotals(path, es)
    case _ => NOTHING
  }

  function EntryTotals(path: string, es: seq<EntryLog>): Totals
    decreases es, 0
  {
    if es == [] then NOTHING
    else EntryTotals(path, es[..|es| - 1]).Plus(OneEntry(path, es[|es| - 1]))
  }

  function OneEntry(path: string, e: EntryLog): Totals
    decreases e, 2
  {
    match e
    case Skipped(name, _) => NOTHING.(skipped := [path + "/" + name])
    case Unopened(name) => NOTHING.(errors := [OpenFailed(JoinPath(path, name))])
    case Entered(_, log, _) => LogTotals(log)
  }

  lemma PlusAssociates(a: Totals, b: Totals, c: Totals)
    ensures a.Plus(b).Plus(c) == a.Plus(b.Plus(c))
    ensures a.Plus(NOTHING) == a
  {
    assert a.skipped + b.skipped + c.skipped == a.skipped + (b.skipped + c.skipped);
    assert a.errors + b.errors + c.errors == a.errors + (b.errors + c.errors);
    assert a.calls + b.calls + c.calls == a.calls + (b.calls + c.calls);
    assert a.answers + b.answers + c.answers == a.answers + (b.answers + c.answers);
  }

  lemma PlusNothing(a: Totals)
    ensures NOTHING.Plus(a) == a
  {
  }

  function FnFailures(errors: seq<Trouble>): nat {
    if errors == [] then 0 else (if errors[0].FnFailed? then 1 else 0) + FnFailures(errors[1..])
  }

  lemma {:induction false} FnFailuresAdd(a: seq<Trouble>, b: seq<Trouble>)
    ensures FnFailures(a + b) == FnFailures(a) + FnFailures(b)
  {
    if a == [] {
      assert a + b == b;
    } else {
      assert (a + b)[1..] == a[1..] + b;
      FnFailuresAdd(a[1..], b);
    }
  }

  ghost predicate Balanced(t: Totals) {
    t.changed + t.same + FnFailures(t.errors) == |t.calls|
  }

  /** Changed, unchanged and failed calls are all the calls there were. */
  lemma {:induction false} EveryCallIsCounted(log: Log)
    ensures Balanced(LogTotals(log))
    decreases log, 1
  {
    var c := CallTotals(log);
    assert Balanced(c);
    match log.below
    case Listed(es) =>
      EveryEntryCallIsCounted(log.path, es);
      FnFailuresAdd(c.errors, EntryTotals(log.path, es).errors);
    case Unlisted =>
      FnFailuresAdd(c.errors, [ListFailed(log.path)]);
      assert [ListFailed(log.path)][1..] == [];
    case _ =>
      FnFailuresAdd(c.errors, []);
  }

  lemma {:induction false} EveryEntryCallIsCounted(path: string, es: seq<EntryLog>)
    ensures Balanced(EntryTotals(path, es))
    decreases es, 0
  {
    if es != [] {
      var init, last := es[..|es| - 1], es[|es| - 1];
      EveryEntryCallIsCounted(path, init);
      if last.Entered? {
        EveryCallIsCounted(last.log);
      } else if last.Unopened? {
        assert [OpenFailed(JoinPath(path, last.name))][1..] == [];
      }
      FnFailuresAdd(EntryTotals(path, init).errors, OneEntry(path, last).errors);
    }
  }

  // ----- the counters and the answers of the callback -----

  /** The paths of the calls that were answered with an error, in order. */
  function FailedCalls(answers: seq<FnResult>, calls: seq<(Inode, string)>): seq<string>
    requires |answers| == |calls|
  {
    if answers == [] then []
    else (if answers[0] == Failed then [calls[0].1] else []) + FailedCalls(answers[1..], calls[1..])
  }

  /** The paths in the error list that are there for a failed call. */
  function FailedPaths(errors: seq<Trouble>): seq<string> {
    if errors == [] then []
    else (if errors[0].FnFailed? then [errors[0].path] else []) + FailedPaths(errors[1..])
  }

  lemma {:induction false} FailedPathsAdd(a: seq<Trouble>, b: seq<Trouble>)
    ensures FailedPaths(a + b) == FailedPaths(a) + FailedPaths(b)
  {
    if a == [] {
      assert a + b == b;
    } else {
      TailOfConcat(a, b);
      FailedPathsAdd(a[1..], b);
      Associates(if a[0].FnFailed? then [a[0].path] else [], FailedPaths(a[1..]), FailedPaths(b));
    }
  }

  lemma {:induction false} FailedCallsAdd(a: seq<FnResult>, b: seq<FnResult>, ca: seq<(Inode, string)>, cb: seq<(Inode, string)>)
    requires |a| == |ca| && |b| == |cb|
    ensures FailedCalls(a + b, ca + cb) == FailedCalls(a, ca) + FailedCalls(b, cb)
  {
    if a == [] {
      assert a + b == b && ca + cb == cb;
    } else {
      TailOfConcat(a, b);
      TailOfConcat(ca, cb);
      FailedCallsAdd(a[1..], b, ca[1..], cb);
      Associates(if a[0] == Failed then [ca[0].1] else [], FailedCalls(a[1..], ca[1..]), FailedCalls(b, cb));
    }
  }

  lemma TailOfConcat<T>(a: seq<T>, b: seq<T>)
    requires a != []
    ensures (a + b)[1..] == a[1..] + b && (a + b)[0] == a[0]
  {
  }

  lemma Associates<T>(a: seq<T>, b: seq<T>, c: seq<T>)
    ensures a + (b + c) == (a + b) + c
  {
  }

  /** The counters count the answers, and the errors of calls are the calls that
      were answered with one, in order. */
  ghost predicate Tallied(t: Totals) {
    && |t.answers| == |t.calls|
    && t.changed == multiset(t.answers)[Changed] && t.same == multiset(t.answers)[Unchanged]
    && FailedPaths(t.errors) == FailedCalls(t.answers, t.calls)
  }

  lemma TalliedAdd(a: Totals, b: Totals)
    requires Tallied(a) && Tallied(b)
    ensures Tallied(a.Plus(b))
  {
    FailedPathsAdd(a.errors, b.errors);
    FailedCallsAdd(a.answers, b.answers, a.calls, b.calls);
  }

  lemma TalliedOne(log: Log)
    ensures Tallied(CallTotals(log))
  {
    var c := CallTotals(log);
    assert c.answers[1..] == [] && c.errors != [] ==> c.errors[1..] == [];
  }

  /** Whatever the walk met: each counter is the number of answers of its kind,
      and the failed calls are the reported ones. */
  lemma {:induction false} AnswersAreTallied(log: Log)
    ensures Tallied(LogTotals(log))
    decreases log, 1
  {
    TalliedOne(log);
    match log.below
    case Listed(es) =>
      EntryAnswersAreTallied(log.path, es);
      TalliedAdd(CallTotals(log), EntryTotals(log.path, es));
    case Unlisted =>
      var none := NOTHING.(errors := [ListFailed(log.path)]);
      assert none.errors[1..] == [];
      TalliedAdd(CallTotals(log), none);
    case _ =>
      TalliedAdd(CallTotals(log), NOTHING);
  }

  lemma {:induction false} EntryAnswersAreTallied(path: string, es: seq<EntryLog>)
    ensures Tallied(EntryTotals(path, es))
    decreases es, 0
  {
    if es != [] {
      var init, last := es[..|es| - 1], es[|es| - 1];
      EntryAnswersAreTallied(path, init);
      if last.Entered? {
        AnswersAreTallied(last.log);
      } else {
        var one := OneEntry(path, last);
        assert one.errors != [] ==> one.errors[1..] == [];
        assert Tallied(one);
      }
      TalliedAdd(EntryTotals(path, init), OneEntry(path, last));
    }
  }

  /** What Walk is given to call: its n-th call may answer anything. */
  type Callback = (nat, Node) -> FnResult

  /** The k-th answer is the callback's, on an object with this inode and path. */
  ghost predicate AnswerTo(fn: Callback, k: nat, call: (Inode, string), answer: FnResult) {
    exists n: Node :: n.inode == call.0 && n.path == call.1 && fn(k, n) == answer
  }

  ghost predicate Answered(fn: Callback, calls: seq<(Inode, string)>, answers: seq<FnResult>) {
    |answers| == |calls| && forall k: nat :: k < |calls| ==> AnswerTo(fn, k, calls[k], answers[k])
  }

  lemma AnsweredOneMore(fn: Callback, calls: seq<(Inode, string)>, answers: seq<FnResult>, n: Node)
    requires Answered(fn, calls, answers)
    ensures Answered(fn, calls + [(n.inode, n.path)], answers + [fn(|calls|, n)])
  {
    var call := (n.inode, n.path);
    assert AnswerTo(fn, |calls|, call, fn(|calls|, n));
    var calls', answers' := calls + [call], answers + [fn(|calls|, n)];
    forall k: nat | k < |calls'| ensures AnswerTo(fn, k, calls'[k], answers'[k]) {
      if k < |calls| { assert AnswerTo(fn, k, calls[k], answers[k]); }
    }
  }

  // ----- every object called was an entry of its parent -----

  ghost predicate Witnessed(h: seq<Tree>, log: Log)
    decreases log, 1
  {
    log.below.Listed? ==> EntriesWitnessed(h, log.inode, log.below.entries)
  }

  ghost predicate EntriesWitnessed(h: seq<Tree>, d: Inode, es: seq<EntryLog>)
    decreases es, 0
  {
    es == [] || (EntriesWitnessed(h, d, es[..|es| - 1]) && EntryWitnessed(h, d, es[|es| - 1]))
  }

  ghost predicate EntryWitnessed(h: seq<Tree>, d: Inode, e: EntryLog)
    decreases e, 2
  {
    && Plain(e.name)
    && match e
       case Skipped(name, at) => SawSymlink(h, at, d, name)
       case Unopened(_) => true
       case Entered(name, log, at) => Seen(h, Hop(at, d, name, log.inode)) && Witnessed(h, log)
  }

  lemma {:induction false} WitnessedGrows(h: seq<Tree>, h': seq<Tree>, log: Log)
    requires Witnessed(h, log) && Grown(h, h')
    ensures Witnessed(h', log)
    decreases log, 1
  {
    if log.below.Listed? {
      EntriesWitnessedGrow(h, h', log.inode, log.below.entries);
    }
  }

  lemma {:induction false} EntriesWitnessedGrow(h: seq<Tree>, h': seq<Tree>, d: Inode, es: seq<EntryLog>)
    requires EntriesWitnessed(h, d, es) && Grown(h, h')
    ensures EntriesWitnessed(h', d, es)
    decreases es, 0
  {
    if es != [] {
      EntriesWitnessedGrow(h, h', d, es[..|es| - 1]);
      EntryWitnessedGrows(h, h', d, es[|es| - 1]);
    }
  }

  lemma {:induction false} EntryWitnessedGrows(h: seq<Tree>, h': seq<Tree>, d: Inode, e: EntryLog)
    requires EntryWitnessed(h, d, e) && Grown(h, h')
    ensures EntryWitnessed(h', d, e)
    decreases e, 2
  {
    match e
    case Skipped(_, at) => assert SameAt(h, h', at);
    case Unopened(_) =>
    case Entered(_, log, at) =>
      assert SameAt(h, h', at);
      WitnessedGrows(h, h', log);
  }

  ghost predicate CallsInside(inside: iset<Inode>, calls: seq<(Inode, string)>) {
    forall c :: c in calls ==> c.0 in inside
  }

  /** A walk started on an inside object calls fn on inside objects only,
      however the tree is rearranged meanwhile. */
  lemma {:induction false} WalkStaysInside(inside: iset<Inode>, h: seq<Tree>, made: map<nat, Creation>, log: Log)
    requires IsRun(h, made) && KeepsConfined(inside, h, made) && Confined(inside, h[0])
    requires Witnessed(h, log) && log.inode in inside
    ensures CallsInside(inside, LogTotals(log).calls)
    decreases log, 1
  {
    if log.below.Listed? {
      EntriesStayInside(inside, h, made, log.inode, log.path, log.below.entries);
    }
  }

  lemma {:induction false} EntriesStayInside(inside: iset<Inode>, h: seq<Tree>, made: map<nat, Creation>,
                                             d: Inode, path: string, es: seq<EntryLog>)
    requires IsRun(h, made) && KeepsConfined(inside, h, made) && Confined(inside, h[0])
    requires EntriesWitnessed(h, d, es) && d in inside
    ensures CallsInside(inside, EntryTotals(path, es).calls)
    decreases es, 0
  {
    if es != [] {
      var last := es[|es| - 1];
      EntriesStayInside(inside, h, made, d, path, es[..|es| - 1]);
      assert EntryWitnessed(h, d, last);
      if last.Entered? {
        HopStaysInside(inside, h, made, Hop(last.at, d, last.name, last.log.inode));
        WalkStaysInside(inside, h, made, last.log);
      }
    }
  }

  // ----- on a tree that stands still -----

  function Names(es: seq<EntryLog>): (names: seq<string>)
    ensures |names| == |es| && forall k :: 0 <= k < |es| ==> names[k] == es[k].name
  {
    seq(|es|, k requires 0 <= k < |es| => es[k].name)
  }

  /** The log is the whole tree below its root, minus what could not be listed
      or opened: each directory's entries exactly once, in name order. */
  ghost predicate Faithful(t: Tree, log: Log)
    decreases log, 1
  {
    && log.inode in t.kinds && t.kinds[log.inode] != Symlink
    && (log.isDir <==> t.IsDir(log.inode))
    && (log.below.NotListed? <==> !log.isDir)
    && (log.below.Listed? ==>
          && log.inode in t.entries
          && ListsAll(t.entries[log.inode], log.below.entries)
          && EntriesFaithful(t, log.inode, log.path, log.below.entries))
  }

  ghost predicate ListsAll(dir: map<string, Inode>, es: seq<EntryLog>) {
    && Sorted(Names(es)) && Distinct(Names(es))
    && forall x :: x in Names(es) <==> x in dir
  }

  ghost predicate EntriesFaithful(t: Tree, d: Inode, path: string, es: seq<EntryLog>)
    decreases es, 0
  {
    es == [] || (EntriesFaithful(t, d, path, es[..|es| - 1]) && EntryFaithful(t, d, path, es[|es| - 1]))
  }

  ghost predicate EntryFaithful(t: Tree, d: Inode, path: string, e: EntryLog)
    decreases e, 2
  {
    match e
    case Skipped(name, _) => Entry(t, d, name) == HitSymlink
    case Unopened(_) => true
    case Entered(name, log, _) =>
      Entry(t, d, name) == Reached(log.inode) && log.path == JoinPath(path, name) && Faithful(t, log)
  }

  lemma {:induction false} EntriesFaithfulAt(t: Tree, d: Inode, path: string, es: seq<EntryLog>, k: nat)
    requires EntriesFaithful(t, d, path, es) && k < |es|
    ensures EntryFaithful(t, d, path, es[k])
  {
    if k < |es| - 1 {
      EntriesFaithfulAt(t, d, path, es[..|es| - 1], k);
      assert es[..|es| - 1][k] == es[k];
    }
  }

  datatype Fate = Called(inode: Inode) | Refused | Lost | Absent

  /** What became of the object `names` leads to. */
  function FateOf(log: Log, names: seq<string>): Fate
    decreases |names|
  {
    if names == [] then Called(log.inode)
    else
      match log.below
      case NotListed => Absent
      case Unlisted => Lost
      case Cut => Lost
      case Listed(es) =>
        if names[0] !in Names(es) then Absent
        else
          match es[IndexOf(Names(es), names[0])]
          case Skipped(_, _) => Refused
          case Unopened(_) => Lost
          case Entered(_, sub, _) => FateOf(sub, names[1..])
  }

  function IndexOf(names: seq<string>, x: string): (k: nat)
    requires x in names
    ensures k < |names| && names[k] == x
  {
    if names[0] == x then 0 else 1 + IndexOf(names[1..], x)
  }

  /** A walk reaches exactly what path resolution reaches: a path below the root
      that no failed call cut off is visited iff it resolves without a symlink,
      and stopped at a skipped entry iff it does not. */
  lemma {:induction false} WalkMatchesResolution(t: Tree, log: Log, names: seq<string>)
    requires t.WellFormed() && Faithful(t, log) && AllPlain(names)
    requires FateOf(log, names) != Lost
    ensures forall i :: FateOf(log, names) == Called(i) <==> Resolve(t, log.inode, names) == Reached(i)
    ensures FateOf(log, names) == Refused <==> Resolve(t, log.inode, names) == HitSymlink
    decreases |names|
  {
    if names != [] {
      assert Plain(names[0]);
      if log.below.Listed? {
        var es := log.below.entries;
        if names[0] in Names(es) {
          var k := IndexOf(Names(es), names[0]);
          EntriesFaithfulAt(t, log.inode, log.path, es, k);
          if es[k].Entered? {
            TailPlain(names);
            WalkMatchesResolution(t, es[k].log, names[1..]);
          }
        }
      }
    }
  }

  // ----- the walk itself -----

  /** No directory lies below itself: every step down lowers the rank. */
  ghost predicate Ranked(t: Tree, rank: Inode -> nat) {
    forall d, n :: d in t.entries && n in t.entries[d] && t.IsDir(t.entries[d][n]) ==> rank(t.entries[d][n]) < rank(d)
  }

  /** The descent ran out of its recursion budget somewhere, or, `anyhow`, some
      object could not be listed or opened. */
  ghost predicate WasCut(log: Log, anyhow: bool)
    decreases log, 1
  {
    || log.below.Cut? || (anyhow && log.below.Unlisted?)
    || (log.below.Listed? && EntriesWereCut(log.below.entries, anyhow))
  }

  ghost predicate EntriesWereCut(es: seq<EntryLog>, anyhow: bool)
    decreases es, 0
  {
    es != [] && (EntriesWereCut(es[..|es| - 1], anyhow) || EntryWasCut(es[|es| - 1], anyhow))
  }

  ghost predicate EntryWasCut(e: EntryLog, anyhow: bool)
    decreases e, 2
  {
    match e
    case Skipped(_, _) => false
    case Unopened(_) => anyhow
    case Entered(_, log, _) => WasCut(log, anyhow)
  }

  ghost predicate Present(t: Tree, d: Inode, name: string) {
    d in t.entries && name in t.entries[d]
  }

  // ----- each object once, under its own path -----

  lemma JoinIsBelow(base: seq<string>, name: string)
    requires AllPlain(base) && Plain(name)
    ensures JoinPath(FromRoot(base), name) == FromRoot(base + [name])
  {
    var all := base + [name];
    assert AllPlain(all);
    ComponentsFromRoot(all);
    RootedAppend(base, name);
    if base == [] {
      assert all == [name];
      assert FromRoot(all) == "/" + name;
      var s := "/" + "/" + name;
      assert Components(s) == Components("/" + name) by {
        SplitSkipsSlash(name);
      }
    } else {
      assert FromRoot(base) + "/" + name == FromRoot(all);
    }
  }

  lemma SplitSkipsSlash(name: string)
    ensures Components("/" + "/" + name) == Components("/" + name)
  {
    var s := "/" + "/" + name;
    assert s[0] == '/' && s[1..] == "/" + name;
    assert Split(s, '/') == [""] + Split("/" + name, '/');
    NormalizeSkipsEmpty(Split("/" + name, '/'));
  }

  lemma PathsDiffer(a: seq<string>, b: seq<string>)
    requires AllPlain(a) && AllPlain(b)
    ensures FromRoot(a) == FromRoot(b) <==> a == b
  {
    ComponentsFromRoot(a);
    ComponentsFromRoot(b);
  }

  ghost predicate PlainNames(es: seq<EntryLog>) {
    forall k :: 0 <= k < |es| ==> Plain(es[k].name)
  }

  lemma ListedArePlain(t: Tree, log: Log)
    requires t.WellFormed() && Faithful(t, log) && log.below.Listed?
    ensures PlainNames(log.below.entries)
  {
    var es := log.below.entries;
    assert Tree.PlainKeys(t.entries[log.inode]);
    forall k | 0 <= k < |es| ensures Plain(es[k].name) {
      assert Names(es)[k] in Names(es);
    }
  }

  /** Every call is for a path at or below the root of the walk. */
  lemma {:induction false} CallsAreBelow(t: Tree, log: Log, base: seq<string>, c: (Inode, string)) returns (names: seq<string>)
    requires t.WellFormed() && Faithful(t, log) && log.path == FromRoot(base) && AllPlain(base)
    requires c in LogTotals(log).calls
    ensures AllPlain(names) && c.1 == FromRoot(base + names)
    decreases log, 1
  {
    if c == (log.inode, log.path) {
      names := [];
      assert base + [] == base;
    } else {
      ListedArePlain(t, log);
      var e, more := EntryCallsAreBelow(t, log.inode, log.path, base, log.below.entries, c);
      names := [e] + more;
      assert base + names == base + [e] + more;
    }
  }

  lemma {:induction false} EntryCallsAreBelow(t: Tree, d: Inode, path: string, base: seq<string>, es: seq<EntryLog>, c: (Inode, string))
    returns (name: string, names: seq<string>)
    requires t.WellFormed() && EntriesFaithful(t, d, path, es) && PlainNames(es) && path == FromRoot(base) && AllPlain(base)
    requires c in EntryTotals(path, es).calls
    ensures name in Names(es) && Plain(name) && AllPlain(names) && c.1 == FromRoot(base + [name] + names)
    decreases es, 0
  {
    var init, last := es[..|es| - 1], es[|es| - 1];
    UnsnocNames(es);
    CallOfLast(path, es, c);
    if c in EntryTotals(path, init).calls {
      name, names := EntryCallsAreBelow(t, d, path, base, init, c);
    } else {
      name := last.name;
      JoinIsBelow(base, name);
      names := CallsAreBelow(t, last.log, base + [name], c);
    }
  }

  lemma CallOfLast(path: string, es: seq<EntryLog>, c: (Inode, string))
    requires es != [] && c in EntryTotals(path, es).calls
    ensures c in EntryTotals(path, es[..|es| - 1]).calls || (es[|es| - 1].Entered? && c in LogTotals(es[|es| - 1].log).calls)
  {
  }

  /** The entry of this name, if there is one. */
  function EntryNamed(es: seq<EntryLog>, name: string): Option<EntryLog> {
    if es == [] then None
    else if es[|es| - 1].name == name then Some(es[|es| - 1])
    else EntryNamed(es[..|es| - 1], name)
  }

  lemma {:induction false} NamedOccurs(es: seq<EntryLog>, name: string) returns (k: nat)
    ensures EntryNamed(es, name).Some? ==> k < |es| && es[k] == EntryNamed(es, name).value && es[k].name == name
    ensures EntryNamed(es, name).None? ==> name !in Names(es)
  {
    k := 0;
    if es != [] {
      if es[|es| - 1].name == name {
        k := |es| - 1;
      } else {
        k := NamedOccurs(es[..|es| - 1], name);
        assert Names(es) == Names(es[..|es| - 1]) + [es[|es| - 1].name];
      }
    }
  }

  lemma {:induction false} NotNamed(es: seq<EntryLog>, name: string)
    requires name !in Names(es)
    ensures EntryNamed(es, name).None?
  {
    if es != [] {
      UnsnocNames(es);
      NotNamed(es[..|es| - 1], name);
    }
  }

  /** How often `fn` was called for this object under this path. */
  function Times(calls: seq<(Inode, string)>, i: Inode, path: string): nat {
    multiset(calls)[(i, path)]
  }

  lemma TimesAdd(a: seq<(Inode, string)>, b: seq<(Inode, string)>, i: Inode, path: string)
    ensures Times(a + b, i, path) == Times(a, i, path) + Times(b, i, path)
    ensures Times(a, i, path) > 0 <==> (i, path) in a
  {
    assert Times(a, i, path) > 0 <==> (i, path) in multiset(a);
  }

  function OneIf(b: bool): nat {
    if b then 1 else 0
  }

  lemma TimesOne(j: Inode, q: string, i: Inode, path: string)
    ensures Times([(j, q)], i, path) == OneIf(j == i && q == path)
  {
  }

  /** fn is called once for the object a path leads to, under that path. */
  lemma {:induction false} CalledOnce(t: Tree, log: Log, base: seq<string>, names: seq<string>, i: Inode)
    requires t.WellFormed() && Faithful(t, log) && log.path == FromRoot(base) && AllPlain(base) && AllPlain(names)
    ensures Times(LogTotals(log).calls, i, FromRoot(base + names)) == OneIf(FateOf(log, names) == Called(i))
    decreases log, 1
  {
    var path, below := FromRoot(base + names), BelowTotals(log.path, log.below).calls;
    TimesAdd([(log.inode, log.path)], below, i, path);
    TimesOne(log.inode, log.path, i, path);
    assert AllPlain(base + names);
    PathsDiffer(base, base + names);
    assert base == base + names <==> names == [];
    if log.below.Listed? {
      ListedArePlain(t, log);
      if names == [] {
        NoneAtRoot(t, log, base, i);
        assert base + names == base;
      } else {
        EntryCalledOnce(t, log.inode, log.path, base, log.below.entries, names, i);
        NamedIsIndexed(log.below.entries, names[0]);
      }
    }
  }

  /** What is called below the root is not called under the root's path. */
  lemma {:induction false} NoneAtRoot(t: Tree, log: Log, base: seq<string>, i: Inode)
    requires t.WellFormed() && Faithful(t, log) && log.path == FromRoot(base) && AllPlain(base)
    requires log.below.Listed? && PlainNames(log.below.entries)
    ensures Times(BelowTotals(log.path, log.below).calls, i, FromRoot(base)) == 0
    decreases log, 0
  {
    var calls := BelowTotals(log.path, log.below).calls;
    TimesAdd(calls, [], i, FromRoot(base));
    if (i, FromRoot(base)) in calls {
      var e, more := EntryCallsAreBelow(t, log.inode, log.path, base, log.below.entries, (i, FromRoot(base)));
      PathsDiffer(base + [e] + more, base);
    }
  }

  lemma NamedIsIndexed(es: seq<EntryLog>, name: string)
    requires Distinct(Names(es))
    ensures EntryNamed(es, name) == if name in Names(es) then Some(es[IndexOf(Names(es), name)]) else None
  {
    var k := NamedOccurs(es, name);
    if EntryNamed(es, name).Some? {
      assert Names(es)[k] == name;
    }
  }

  lemma {:induction false} EntryCalledOnce(t: Tree, d: Inode, path: string, base: seq<string>, es: seq<EntryLog>,
                                           names: seq<string>, i: Inode)
    requires t.WellFormed() && EntriesFaithful(t, d, path, es) && PlainNames(es) && Distinct(Names(es))
    requires path == FromRoot(base) && AllPlain(base) && AllPlain(names) && names != []
    ensures Times(EntryTotals(path, es).calls, i, FromRoot(base + names))
         == OneIf(match EntryNamed(es, names[0]) case Some(Entered(_, log, _)) => FateOf(log, names[1..]) == Called(i) case _ => false)
    decreases es, 0
  {
    if es != [] {
      var init, last, p := es[..|es| - 1], es[|es| - 1], FromRoot(base + names);
      UnsnocNames(es);
      TimesAdd(EntryTotals(path, init).calls, OneEntry(path, last).calls, i, p);
      DistinctInit(Names(init), last.name);
      EntryCalledOnce(t, d, path, base, init, names, i);
      TailPlain(names);
      HeadMoved(base, names);
      if last.name == names[0] {
        NotNamed(init, names[0]);
        if last.Entered? {
          JoinIsBelow(base, last.name);
          CalledOnce(t, last.log, base + [last.name], names[1..], i);
        }
      } else if last.Entered? {
        NotUnderOtherName(t, last.log, base, last.name, path, names, i);
      }
    }
  }

  lemma HeadMoved(base: seq<string>, names: seq<string>)
    requires names != []
    ensures base + names == (base + [names[0]]) + names[1..]
  {
  }

  lemma UnsnocNames(es: seq<EntryLog>)
    requires es != []
    ensures Names(es) == Names(es[..|es| - 1]) + [es[|es| - 1].name]
  {
  }

  lemma DistinctInit(init: seq<string>, last: string)
    requires Distinct(init + [last])
    ensures Distinct(init) && last !in init
  {
    forall i, j | 0 <= i < j < |init| ensures init[i] != init[j] {
      assert (init + [last])[i] == init[i] && (init + [last])[j] == init[j];
    }
    forall i | 0 <= i < |init| ensures init[i] != last {
      assert (init + [last])[i] == init[i] && (init + [last])[|init|] == last;
    }
  }

  lemma OtherName(base: seq<string>, name: string, more: seq<string>, names: seq<string>)
    requires names != [] && name != names[0]
    ensures base + [name] + more != base + names
  {
    assert (base + [name] + more)[|base|] == name && (base + names)[|base|] == names[0];
  }

  lemma {:induction false} NotUnderOtherName(t: Tree, sub: Log, base: seq<string>, name: string, path: string, names: seq<string>, i: Inode)
    requires t.WellFormed() && Faithful(t, sub) && path == FromRoot(base) && sub.path == JoinPath(path, name)
    requires AllPlain(base) && AllPlain(names) && names != [] && Plain(name) && name != names[0]
    ensures Times(LogTotals(sub).calls, i, FromRoot(base + names)) == 0
    decreases sub, 0
  {
    var calls, p := LogTotals(sub).calls, FromRoot(base + names);
    TimesAdd(calls, [], i, p);
    JoinIsBelow(base, name);
    if (i, p) in calls {
      var more := CallsAreBelow(t, sub, base + [name], (i, p));
      OtherName(base, name, more, names);
      PathsDiffer(base + [name] + more, base + names);
    }
  }

  lemma {:induction false} NothingLost(log: Log, names: seq<string>)
    requires !WasCut(log, true)
    ensures FateOf(log, names) != Lost
    decreases |names|
  {
    if names != [] && log.below.Listed? && names[0] in Names(log.below.entries) {
      var k := IndexOf(Names(log.below.entries), names[0]);
      EntryNotCut(log.below.entries, k);
      if log.below.entries[k].Entered? {
        NothingLost(log.below.entries[k].log, names[1..]);
      }
    }
  }

  lemma {:induction false} EntryNotCut(es: seq<EntryLog>, k: nat)
    requires !EntriesWereCut(es, true) && k < |es|
    ensures !EntryWasCut(es[k], true)
  {
    if k < |es| - 1 {
      EntryNotCut(es[..|es| - 1], k);
      assert es[..|es| - 1][k] == es[k];
    }
  }

  /** On a tree that stands still fn is called for what path resolution reaches
      without a symlink, once under its own path, and for nothing else; only
      paths that a failed call cut off are left open. */
  ghost predicate VisitsTheTree(t: Tree, root: Inode, base: seq<string>, calls: seq<(Inode, string)>, lost: iset<seq<string>>) {
    && (forall names, i :: AllPlain(names) && names !in lost ==>
          Times(calls, i, FromRoot(base + names)) == OneIf(Resolve(t, root, names) == Reached(i)))
    && (forall c :: c in calls ==> exists names :: AllPlain(names) && c.1 == FromRoot(base + names))
  }

  /** The paths below which something could not be listed or opened. */
  ghost function LostPaths(log: Log): iset<seq<string>> {
    iset names | FateOf(log, names) == Lost
  }

  lemma WalkVisitsTheTree(t: Tree, log: Log, base: seq<string>)
    requires t.WellFormed() && Faithful(t, log) && log.path == FromRoot(base) && AllPlain(base)
    ensures VisitsTheTree(t, log.inode, base, LogTotals(log).calls, LostPaths(log))
    ensures !WasCut(log, true) ==> LostPaths(log) == iset{}
  {
    var calls := LogTotals(log).calls;
    forall names, i | AllPlain(names) && names !in LostPaths(log)
      ensures Times(calls, i, FromRoot(base + names)) == OneIf(Resolve(t, log.inode, names) == Reached(i))
    {
      CalledOnce(t, log, base, names, i);
      WalkMatchesResolution(t, log, names);
    }
    forall c | c in calls ensures exists names :: AllPlain(names) && c.1 == FromRoot(base + names) {
      var names := CallsAreBelow(t, log, base, c);
    }
    if !WasCut(log, true) {
      forall names ensures names !in LostPaths(log) {
        NothingLost(log, names);
      }
    }
  }

  // ----- what is reported -----

  /** `sub` is the log of the object the walk entered under these names. */
  ghost predicate LogAt(log: Log, names: seq<string>, sub: Log)
    decreases |names|
  {
    if names == [] then sub == log
    else
      && log.below.Listed?
      && exists k :: (0 <= k < |log.below.entries| && log.below.entries[k].Entered?
                      && log.below.entries[k].name == names[0] && LogAt(log.below.entries[k].log, names[1..], sub))
  }

  /** What the walk reports of one object's listing and entries, by path. */
  ghost predicate SkippedHere(sub: Log, path: string, x: string) {
    && sub.below.Listed?
    && exists k :: (0 <= k < |sub.below.entries| && sub.below.entries[k].Skipped? && x == path + "/" + sub.below.entries[k].name)
  }

  ghost predicate TroubleHere(sub: Log, base: seq<string>, x: Trouble) {
    match x
    case FnFailed(p) => sub.result == Failed && p == FromRoot(base)
    case ListFailed(p) => sub.below == Unlisted && p == FromRoot(base)
    case OpenFailed(p) =>
      && sub.below.Listed?
      && exists k :: (0 <= k < |sub.below.entries| && sub.below.entries[k].Unopened? && p == FromRoot(base + [sub.below.entries[k].name]))
  }

  predicate SkippedBy(path: string, es: seq<EntryLog>, k: nat, x: string)
    requires k < |es|
  {
    x in OneEntry(path, es[k]).skipped
  }

  predicate TroubleBy(path: string, es: seq<EntryLog>, k: nat, x: Trouble)
    requires k < |es|
  {
    x in OneEntry(path, es[k]).errors
  }

  lemma {:induction false} SkippedByEntry(path: string, es: seq<EntryLog>, x: string)
    ensures x in EntryTotals(path, es).skipped <==> exists k: nat :: k < |es| && SkippedBy(path, es, k, x)
  {
    if es != [] {
      var m := |es| - 1;
      var init := es[..m];
      SkippedByEntry(path, init, x);
      InEither(EntryTotals(path, init).skipped, OneEntry(path, es[m]).skipped, x);
      if x in OneEntry(path, es[m]).skipped {
        assert SkippedBy(path, es, m, x);
      }
      forall k: nat | k < m ensures SkippedBy(path, init, k, x) == SkippedBy(path, es, k, x) {
      }
    }
  }

  lemma {:induction false} TroubleByEntry(path: string, es: seq<EntryLog>, x: Trouble)
    ensures x in EntryTotals(path, es).errors <==> exists k: nat :: k < |es| && TroubleBy(path, es, k, x)
  {
    if es != [] {
      var m := |es| - 1;
      var init := es[..m];
      TroubleByEntry(path, init, x);
      InEither(EntryTotals(path, init).errors, OneEntry(path, es[m]).errors, x);
      if x in OneEntry(path, es[m]).errors {
        assert TroubleBy(path, es, m, x);
      }
      forall k: nat | k < m ensures TroubleBy(path, init, k, x) == TroubleBy(path, es, k, x) {
      }
    }
  }

  lemma InEither<T>(a: seq<T>, b: seq<T>, x: T)
    ensures x in a + b <==> x in a || x in b
  {
  }

  ghost predicate SkippedBelow(log: Log, base: seq<string>, x: string) {
    exists names, sub :: LogAt(log, names, sub) && SkippedHere(sub, FromRoot(base + names), x)
  }

  ghost predicate TroubleBelow(log: Log, base: seq<string>, x: Trouble) {
    exists names, sub :: LogAt(log, names, sub) && TroubleHere(sub, base + names, x)
  }

  lemma NextName(base: seq<string>, name: string, names: seq<string>)
    ensures base + [name] + names == base + ([name] + names) && ([name] + names)[1..] == names && base + [] == base
  {
  }

  ghost predicate SkippedIn(e: EntryLog, base: seq<string>, x: string) {
    if e.Entered? then SkippedBelow(e.log, base + [e.name], x) else e.Skipped? && x == FromRoot(base) + "/" + e.name
  }

  ghost predicate TroubleIn(e: EntryLog, base: seq<string>, x: Trouble) {
    if e.Entered? then TroubleBelow(e.log, base + [e.name], x) else e.Unopened? && x == OpenFailed(FromRoot(base + [e.name]))
  }

  /** Below an object means at one of its entries, or below it. */
  lemma SkippedSplits(log: Log, base: seq<string>, x: string)
    ensures SkippedBelow(log, base, x) <==>
              log.below.Listed? && exists k: nat :: k < |log.below.entries| && SkippedIn(log.below.entries[k], base, x)
  {
    NextName(base, "", []);
    if log.below.Listed? {
      forall k: nat | k < |log.below.entries| && SkippedIn(log.below.entries[k], base, x) ensures SkippedBelow(log, base, x) {
        var e := log.below.entries[k];
        if e.Entered? {
          var names, sub :| LogAt(e.log, names, sub) && SkippedHere(sub, FromRoot(base + [e.name] + names), x);
          NextName(base, e.name, names);
          assert LogAt(log, [e.name] + names, sub);
        } else {
          assert LogAt(log, [], log) && SkippedHere(log, FromRoot(base), x);
        }
      }
    }
    if SkippedBelow(log, base, x) {
      var names, sub :| LogAt(log, names, sub) && SkippedHere(sub, FromRoot(base + names), x);
      if names == [] {
        var k: nat :| k < |log.below.entries| && log.below.entries[k].Skipped? && x == FromRoot(base) + "/" + log.below.entries[k].name;
        assert SkippedIn(log.below.entries[k], base, x);
      } else {
        var k: nat :| k < |log.below.entries| && log.below.entries[k].Entered?
                      && log.below.entries[k].name == names[0] && LogAt(log.below.entries[k].log, names[1..], sub);
        NextName(base, names[0], names[1..]);
        assert names == [names[0]] + names[1..];
        assert SkippedIn(log.below.entries[k], base, x);
      }
    }
  }

  lemma TroubleSplits(log: Log, base: seq<string>, x: Trouble)
    ensures TroubleBelow(log, base, x) <==>
              || (log.result == Failed && x == FnFailed(FromRoot(base)))
              || (log.below == Unlisted && x == ListFailed(FromRoot(base)))
              || (log.below.Listed? && exists k: nat :: k < |log.below.entries| && TroubleIn(log.below.entries[k], base, x))
  {
    NextName(base, "", []);
    if TroubleHere(log, base, x) {
      assert LogAt(log, [], log);
    }
    if log.below.Listed? {
      forall k: nat | k < |log.below.entries| && TroubleIn(log.below.entries[k], base, x) ensures TroubleBelow(log, base, x) {
        var e := log.below.entries[k];
        if e.Entered? {
          var names, sub :| LogAt(e.log, names, sub) && TroubleHere(sub, base + [e.name] + names, x);
          NextName(base, e.name, names);
          assert LogAt(log, [e.name] + names, sub);
        } else {
          assert TroubleHere(log, base, x);
        }
      }
    }
    if TroubleBelow(log, base, x) {
      var names, sub :| LogAt(log, names, sub) && TroubleHere(sub, base + names, x);
      if names == [] {
        if x.OpenFailed? {
          var k: nat :| k < |log.below.entries| && log.below.entries[k].Unopened? && x.path == FromRoot(base + [log.below.entries[k].name]);
          assert TroubleIn(log.below.entries[k], base, x);
        }
      } else {
        var k: nat :| k < |log.below.entries| && log.below.entries[k].Entered?
                      && log.below.entries[k].name == names[0] && LogAt(log.below.entries[k].log, names[1..], sub);
        NextName(base, names[0], names[1..]);
        assert names == [names[0]] + names[1..];
        assert TroubleIn(log.below.entries[k], base, x);
      }
    }
  }

  lemma ChildAt(t: Tree, log: Log, base: seq<string>, k: nat)
    requires t.WellFormed() && Faithful(t, log) && log.path == FromRoot(base) && AllPlain(base)
    requires log.below.Listed? && k < |log.below.entries|
    ensures var e := log.below.entries[k];
            && JoinPath(log.path, e.name) == FromRoot(base + [e.name]) && AllPlain(base + [e.name])
            && (e.Entered? ==> Faithful(t, e.log) && e.log.path == FromRoot(base + [e.name]))
  {
    ListedArePlain(t, log);
    EntriesFaithfulAt(t, log.inode, log.path, log.below.entries, k);
    JoinIsBelow(base, log.below.entries[k].name);
  }

  /** On a still tree: the paths reported as skipped are those of the symlinks met
      below the root. */
  lemma {:induction false} SkipsAre(t: Tree, log: Log, base: seq<string>, x: string)
    requires t.WellFormed() && Faithful(t, log) && log.path == FromRoot(base) && AllPlain(base)
    ensures x in LogTotals(log).skipped <==> SkippedBelow(log, base, x)
    decreases log
  {
    SkippedSplits(log, base, x);
    if log.below.Listed? {
      var es := log.below.entries;
      SkippedByEntry(log.path, es, x);
      forall k: nat | k < |es| ensures SkippedBy(log.path, es, k, x) <==> SkippedIn(es[k], base, x) {
        ChildAt(t, log, base, k);
        if es[k].Entered? {
          SkipsAre(t, es[k].log, base + [es[k].name], x);
        }
      }
    }
  }

  /** And the errors reported are the failures below the root: of the function, of
      listing and of opening, each under the path of its object. */
  lemma {:induction false} TroublesAre(t: Tree, log: Log, base: seq<string>, x: Trouble)
    requires t.WellFormed() && Faithful(t, log) && log.path == FromRoot(base) && AllPlain(base)
    ensures x in LogTotals(log).errors <==> TroubleBelow(log, base, x)
    decreases log
  {
    TroubleSplits(log, base, x);
    InEither(CallTotals(log).errors, BelowTotals(log.path, log.below).errors, x);
    if log.below.Listed? {
      var es := log.below.entries;
      TroubleByEntry(log.path, es, x);
      forall k: nat | k < |es| ensures TroubleBy(log.path, es, k, x) <==> TroubleIn(es[k], base, x) {
        ChildAt(t, log, base, k);
        if es[k].Entered? {
          TroublesAre(t, es[k].log, base + [es[k].name], x);
        }
      }
    }
  }

  ghost predicate Reported(log: Log, base: seq<string>, res: Totals) {
    && (forall x :: x in res.skipped <==> SkippedBelow(log, base, x))
    && (forall x :: x in res.errors <==> TroubleBelow(log, base, x))
  }

  lemma AllReported(t: Tree, log: Log, base: seq<string>)
    requires t.WellFormed() && Faithful(t, log) && log.path == FromRoot(base) && AllPlain(base)
    ensures Reported(log, base, LogTotals(log))
  {
    forall x ensures x in LogTotals(log).skipped <==> SkippedBelow(log, base, x) {
      SkipsAre(t, log, base, x);
    }
    forall x ensures x in LogTotals(log).errors <==> TroubleBelow(log, base, x) {
      TroublesAre(t, log, base, x);
    }
  }

  class Walker {
    const sys: System
    /** The callback's answer to its n-th call. */
    const fn: Callback
    var res: Totals

    constructor (sys: System, fn: Callback)
      ensures this.sys == sys && this.fn == fn && res == NOTHING
    {
      this.sys := sys;
      this.fn := fn;
      res := NOTHING;
    }

    ghost predicate Holds(n: Node)
      reads sys
    {
      && sys.Valid() && n.fd in sys.fds && sys.fds[n.fd] == n.inode
      && n.kind == sys.tree.kinds[n.inode] && n.kind != Symlink
    }

    /** The answers counted are those `fn` gave. */
    ghost predicate Answers()
      reads this`res
    {
      Answered(fn, res.calls, res.answers)
    }

    /** Nobody moves anything, and `fuel` is enough for all below `d`. */
    ghost predicate Reachable(t: Tree, rank: Inode -> nat, d: Inode, fuel: int) {
      sys.env.Still() && Ranked(t, rank) && rank(d) <= fuel
    }

    /** fn(n), and its outcome counted. */
    method Call(n: Node) returns (result: FnResult)
      requires Answers()
      modifies this`res
      ensures res == old(res).Plus(CallTotals(Log(n.inode, n.path, n.IsDir(), result, NotListed))) && Answers()
    {
      result := fn(|res.calls|, n);
      AnsweredOneMore(fn, res.calls, res.answers, n);
      var r := res.(calls := res.calls + [(n.inode, n.path)], answers := res.answers + [result]);
      match result {
        case Failed => r := r.(errors := r.errors + [FnFailed(n.path)]);
        case Changed => r := r.(changed := r.changed + 1);
        case Unchanged => r := r.(same := r.same + 1);
      }
      assert r.skipped == res.skipped + [];
      assert result != Failed ==> r.errors == res.errors + [];
      res := r;
    }

    /** Walk. `fuel` bounds the depth of the recursion. */
    method Visit(n: Node, fuel: nat, ghost rank: Inode -> nat) returns (ghost log: Log)
      requires Answers() && Holds(n)
      modifies this`res, sys
      ensures sys.Valid() && sys.fds == old(sys.fds) && sys.made == old(sys.made) && Answers()
      ensures Grown(old(sys.history), sys.history) && Later(old(sys.tree), sys.tree)
      ensures log.inode == n.inode && log.path == n.path
      ensures res == old(res).Plus(LogTotals(log))
      ensures Witnessed(sys.history, log)
      ensures sys.env.Frozen() ==> sys.tree == old(sys.tree)
      ensures sys.env.Still() ==> Faithful(old(sys.tree), log)
      ensures sys.env.Still() && Ranked(old(sys.tree), rank) && (n.IsDir() ==> rank(n.inode) < fuel) ==> !WasCut(log, sys.env.Quiet())
      decreases fuel, 1, 0
    {
      var result := Call(n);
      ghost var below := NotListed;
      if n.IsDir() {
        ghost var called := res;
        below := VisitBelow(n, fuel, rank);
        PlusAssociates(old(res), CallTotals(Log(n.inode, n.path, true, result, below)), BelowTotals(n.path, below));
      } else {
        PlusAssociates(CallTotals(Log(n.inode, n.path, false, result, below)), NOTHING, NOTHING);
      }
      log := Log(n.inode, n.path, n.IsDir(), result, below);
    }

    /** A whole walk. On a still tree it visits the tree; if no call fails and
        `fuel` is enough, all of it. */
    method Walk(root: Node, fuel: nat, ghost rank: Inode -> nat, ghost base: seq<string>) returns (ghost log: Log)
      requires Answers() && Holds(root) && res == NOTHING && AllPlain(base) && root.path == FromRoot(base)
      modifies this`res, sys
      ensures sys.Valid() && sys.fds == old(sys.fds) && sys.made == old(sys.made) && Answers()
      ensures res == LogTotals(log) && Balanced(res) && Witnessed(sys.history, log)
      ensures Tallied(res) && Answered(fn, res.calls, res.answers)
      ensures sys.env.Still() ==> VisitsTheTree(old(sys.tree), root.inode, base, res.calls, LostPaths(log))
      ensures sys.env.Still() ==> Reported(log, base, res)
      ensures sys.env.Quiet() && Reachable(old(sys.tree), rank, root.inode, fuel - 1) ==>
                VisitsTheTree(old(sys.tree), root.inode, base, res.calls, iset{})
    {
      log := Visit(root, fuel, rank);
      PlusNothing(LogTotals(log));
      EveryCallIsCounted(log);
      AnswersAreTallied(log);
      if sys.env.Still() {
        WalkVisitsTheTree(old(sys.tree), log, base);
        AllReported(old(sys.tree), log, base);
      }
    }

    /** List a directory and walk its entries. */
    method VisitBelow(n: Node, fuel: nat, ghost rank: Inode -> nat) returns (ghost below: Below)
      requires Answers() && Holds(n) && n.IsDir()
      modifies this`res, sys
      ensures sys.Valid() && sys.fds == old(sys.fds) && sys.made == old(sys.made) && Answers()
      ensures Grown(old(sys.history), sys.history) && Later(old(sys.tree), sys.tree)
      ensures !below.NotListed?
      ensures res == old(res).Plus(BelowTotals(n.path, below))
      ensures below.Listed? ==> EntriesWitnessed(sys.history, n.inode, below.entries)
      ensures sys.env.Frozen() ==> sys.tree == old(sys.tree)
      ensures sys.env.Still() && below.Listed? ==>
                && n.inode in sys.tree.entries && ListsAll(sys.tree.entries[n.inode], below.entries)
                && EntriesFaithful(old(sys.tree), n.inode, n.path, below.entries)
      ensures sys.env.Still() && Ranked(old(sys.tree), rank) && rank(n.inode) < fuel ==>
                !below.Cut? && (sys.env.Quiet() ==> !below.Unlisted?) && (below.Listed? ==> !EntriesWereCut(below.entries, sys.env.Quiet()))
      decreases fuel, 0
    {
      PlusAssociates(res, NOTHING, NOTHING);
      if fuel == 0 {
        return Cut;
      }
      var listed := sys.Names(n);
      if listed.Err? {
        Report(ListFailed(n.path));
        return Unlisted;
      }
      ghost var mid := sys.history;
      SortKeepsNames(listed.value);
      ghost var entries := VisitEntries(n, SortStrings(listed.value), fuel - 1, rank);
      GrownTrans(old(sys.history), mid, sys.history);
      return Listed(entries);
    }

    /** The loop over a directory's sorted names. */
    method VisitEntries(n: Node, names: seq<string>, fuel: nat, ghost rank: Inode -> nat)
      returns (ghost entries: seq<EntryLog>)
      requires Answers() && Holds(n) && AllPlain(names)
      modifies this`res, sys
      ensures sys.Valid() && sys.fds == old(sys.fds) && sys.made == old(sys.made) && Answers()
      ensures Grown(old(sys.history), sys.history) && Later(old(sys.tree), sys.tree)
      ensures res == old(res).Plus(EntryTotals(n.path, entries))
      ensures Names(entries) == names
      ensures EntriesWitnessed(sys.history, n.inode, entries)
      ensures sys.env.Frozen() ==> sys.tree == old(sys.tree)
      ensures sys.env.Still() ==> EntriesFaithful(old(sys.tree), n.inode, n.path, entries)
      ensures Reachable(old(sys.tree), rank, n.inode, fuel) && (forall k :: 0 <= k < |names| ==> Present(old(sys.tree), n.inode, names[k])) ==>
                !EntriesWereCut(entries, sys.env.Quiet())
      decreases fuel, 3
    {
      entries := [];
      PlusAssociates(res, NOTHING, NOTHING);
      ghost var res0, history0, tree0 := res, sys.history, sys.tree;
      for k := 0 to |names|
        invariant sys.Valid() && sys.fds == old(sys.fds) && sys.made == old(sys.made) && Answers()
        invariant Grown(history0, sys.history) && Later(tree0, sys.tree)
        invariant res == res0.Plus(EntryTotals(n.path, entries))
        invariant Names(entries) == names[..k]
        invariant EntriesWitnessed(sys.history, n.inode, entries)
        invariant sys.env.Frozen() ==> sys.tree == tree0
        invariant sys.env.Still() ==> EntriesFaithful(tree0, n.inode, n.path, entries)
        invariant Reachable(tree0, rank, n.inode, fuel) && (forall k :: 0 <= k < |names| ==> Present(tree0, n.inode, names[k])) ==>
                    !EntriesWereCut(entries, sys.env.Quiet())
      {
        assert Plain(names[k]);
        entries := VisitNext(n, names[k], fuel, rank, entries, res0, history0, tree0);
        TakeOneMore(names, k);
      }
      TakeAll(names);
    }

    /** One entry added to those already visited. */
    method VisitNext(n: Node, name: string, fuel: nat, ghost rank: Inode -> nat, ghost entries: seq<EntryLog>,
                     ghost res0: Totals, ghost history0: seq<Tree>, ghost tree0: Tree)
      returns (ghost entries': seq<EntryLog>)
      requires Answers() && Holds(n) && Plain(name)
      requires Grown(history0, sys.history) && Later(tree0, sys.tree)
      requires res == res0.Plus(EntryTotals(n.path, entries)) && EntriesWitnessed(sys.history, n.inode, entries)
      requires sys.env.Frozen() ==> sys.tree == tree0
      requires sys.env.Still() ==> EntriesFaithful(tree0, n.inode, n.path, entries)
      modifies this`res, sys
      ensures sys.Valid() && sys.fds == old(sys.fds) && sys.made == old(sys.made) && Answers()
      ensures Grown(history0, sys.history) && Later(tree0, sys.tree)
      ensures res == res0.Plus(EntryTotals(n.path, entries')) && EntriesWitnessed(sys.history, n.inode, entries')
      ensures Names(entries') == Names(entries) + [name]
      ensures sys.env.Frozen() ==> sys.tree == tree0
      ensures sys.env.Still() ==> EntriesFaithful(tree0, n.inode, n.path, entries')
      ensures Reachable(tree0, rank, n.inode, fuel) && Present(tree0, n.inode, name) && !EntriesWereCut(entries, sys.env.Quiet()) ==>
                !EntriesWereCut(entries', sys.env.Quiet())
      decreases fuel, 2, 1
    {
      ghost var h := sys.history;
      ghost var e := VisitEntry(n, name, fuel, rank);
      GrownTrans(history0, h, sys.history);
      EntriesWitnessedGrow(h, sys.history, n.inode, entries);
      PlusAssociates(res0, EntryTotals(n.path, entries), OneEntry(n.path, e));
      EntriesGrow(entries, e);
      entries' := entries + [e];
    }

    /** One entry: open it below `n`, and walk on, skip it or report it. */
    method VisitEntry(n: Node, name: string, fuel: nat, ghost rank: Inode -> nat) returns (ghost e: EntryLog)
      requires Answers() && Holds(n) && Plain(name)
      modifies this`res, sys
      ensures sys.Valid() && sys.fds == old(sys.fds) && sys.made == old(sys.made) && Answers()
      ensures Grown(old(sys.history), sys.history) && Later(old(sys.tree), sys.tree)
      ensures res == old(res).Plus(OneEntry(n.path, e))
      ensures e.name == name && EntryWitnessed(sys.history, n.inode, e)
      ensures sys.env.Frozen() ==> sys.tree == old(sys.tree)
      ensures sys.env.Still() ==> EntryFaithful(old(sys.tree), n.inode, n.path, e)
      ensures Reachable(old(sys.tree), rank, n.inode, fuel) && Present(old(sys.tree), n.inode, name) ==>
                !EntryWasCut(e, sys.env.Quiet())
      decreases fuel, 2, 0
    {
      ghost var h0, fds0 := sys.history, sys.fds;
      ghost var hop;
      var child;
      child, hop := sys.Child(n, name);
      ghost var h1 := sys.history;
      if child.Err? && child.error.SymlinkRefused? {
        e := Skipped(name, |h0|);
        Skip(n.path + "/" + name);
        return;
      }
      if child.Err? {
        e := Unopened(name);
        Report(OpenFailed(JoinPath(n.path, name)));
        return;
      }
      if sys.env.Still() && Ranked(sys.tree, rank) { RankDrops(sys.tree, rank, n.inode, name, child.value.inode); }
      ghost var log := WalkChild(child.value, fuel, rank, fds0, hop);
      GrownTrans(h0, h1, sys.history);
      e := Entered(name, log, hop.at);
    }

    method Skip(path: string)
      requires sys.Valid() && Answers()
      modifies this`res
      ensures res == old(res).Plus(NOTHING.(skipped := [path]))
      ensures sys.Valid() && Answers()
    {
      res := res.(skipped := res.skipped + [path]);
      assert res.errors == old(res).errors + [] && res.calls == old(res).calls + [] && res.answers == old(res).answers + [];
    }

    method Report(trouble: Trouble)
      requires sys.Valid() && Answers()
      modifies this`res
      ensures res == old(res).Plus(NOTHING.(errors := [trouble]))
      ensures sys.Valid() && Answers()
    {
      res := res.(errors := res.errors + [trouble]);
      assert res.skipped == old(res).skipped + [] && res.calls == old(res).calls + [] && res.answers == old(res).answers + [];
    }

    /** visit(child); child.Close() */
    method WalkChild(child: Node, fuel: nat, ghost rank: Inode -> nat, ghost fds0: map<Fd, Inode>, ghost hop: Hop)
      returns (ghost log: Log)
      requires Answers() && sys.Valid() && child.fd !in fds0 && sys.fds == fds0[child.fd := child.inode]
      requires child.inode in sys.tree.kinds && child.kind == sys.tree.kinds[child.inode] && child.kind != Symlink
      requires Seen(sys.history, hop)
      modifies this`res, sys
      ensures sys.Valid() && sys.fds == fds0 && sys.made == old(sys.made) && Answers()
      ensures Grown(old(sys.history), sys.history) && Later(old(sys.tree), sys.tree)
      ensures res == old(res).Plus(LogTotals(log))
      ensures log.inode == child.inode && log.path == child.path
      ensures Witnessed(sys.history, log) && Seen(sys.history, hop)
      ensures sys.env.Frozen() ==> sys.tree == old(sys.tree)
      ensures sys.env.Still() ==> Faithful(old(sys.tree), log)
      ensures sys.env.Still() && Ranked(old(sys.tree), rank) && (child.IsDir() ==> rank(child.inode) < fuel) ==> !WasCut(log, sys.env.Quiet())
      decreases fuel, 1, 1
    {
      ghost var h0 := sys.history;
      log := Visit(child, fuel, rank);
      ghost var h1 := sys.history;
      SwapFd(fds0, child.fd, child.fd, child.inode);
      sys.Close(child.fd);
      GrownTrans(h0, h1, sys.history);
      assert SameAt(h0, sys.history, hop.at);
      WitnessedGrows(h1, sys.history, log);
    }
  }

  lemma TakeOneMore(names: seq<string>, k: nat)
    requires k < |names|
    ensures names[..k + 1] == names[..k] + [names[k]]
  {
  }

  lemma TakeAll(names: seq<string>)
    ensures names[..|names|] == names
  {
  }

  lemma EntriesGrow(entries: seq<EntryLog>, e: EntryLog)
    ensures (entries + [e])[..|entries + [e]| - 1] == entries
    ensures Names(entries + [e]) == Names(entries) + [e.name]
  {
  }

  lemma RankDrops(t: Tree, rank: Inode -> nat, d: Inode, name: string, c: Inode)
    requires t.WellFormed() && Ranked(t, rank) && Plain(name) && Entry(t, d, name) == Reached(c)
    ensures t.IsDir(c) ==> rank(c) < rank(d)
  {
  }

  lemma DistinctCount(names: seq<string>)
    ensures Distinct(names) <==> forall x :: multiset(names)[x] <= 1
  {
    if names != [] {
      var rest := names[1..];
      assert names == [names[0]] + rest;
      DistinctCount(rest);
      if Distinct(names) {
        assert names[0] !in rest by {
          forall j | 0 <= j < |rest| ensures rest[j] != names[0] {
            assert rest[j] == names[j + 1];
          }
        }
        assert Distinct(rest);
        forall x ensures multiset(names)[x] <= 1 {
          if x == names[0] { assert multiset(rest)[x] == 0; }
        }
      }
      if forall x :: multiset(names)[x] <= 1 {
        forall x ensures multiset(rest)[x] <= 1 {
          assert multiset(rest)[x] <= multiset(names)[x];
        }
        forall i, j | 0 <= i < j < |names| ensures names[i] != names[j] {
          if i == 0 {
            assert rest[j - 1] == names[j] && rest[j - 1] in multiset(rest);
            assert multiset(names)[names[0]] == 1 + multiset(rest)[names[0]];
          } else {
            assert rest[i - 1] == names[i] && rest[j - 1] == names[j];
          }
        }
      }
    }
  }

  lemma SortKeepsNames(names: seq<string>)
    ensures Sorted(SortStrings(names))
    ensures forall x :: x in SortStrings(names) <==> x in names
    ensures Distinct(names) ==> Distinct(SortStrings(names))
    ensures AllPlain(names) ==> AllPlain(SortStrings(names))
  {
    var s := SortStrings(names);
    SortIsSorted(names);
    forall x ensures x in s <==> x in names {
      assert x in s <==> x in multiset(s);
      assert x in names <==> x in multiset(names);
    }
    DistinctCount(names);
    DistinctCount(s);
    if AllPlain(names) {
      forall i | 0 <= i < |s| ensures Plain(s[i]) {
        assert s[i] in names;
        var j :| 0 <= j < |names| && names[j] == s[i];
        assert Plain(names[j]);
      }
    }
  }
}
