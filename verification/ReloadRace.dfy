/** cmd/mcpd/reload.go, http.go, uid_pin.go and internal/rpc/tools.go: reloads and
    requests interleaved over the three shared cells they swap and read. A
    cell holds the version of the configuration it was last set from. */
module ReloadRace {
  import opened Text

  /** reloadConfig, step by step; from Loading to Releasing it holds reloadMu,
      from SwappingUsers to Unlocking cfgMu as well. */
  datatype ReloadPc =
    | NotStarted | Loading | Rejected | ReadingGrants | WantsConfig
    | SwappingUsers | SwappingLimiter | SwappingSettings | Unlocking
    | ClosingSessions | Releasing | Returned | Failed

  /** `compared` is the version of the grants it reports changes against. */
  datatype Reload = Reload(pc: ReloadPc, compared: nat, version: nat)

  /** authenticateRequest, checkAndPinUID, handleMessage and HandleToolsCall. */
  datatype RequestPc =
    | Arriving | Copying | Copied                  // the last two hold cfgMu for reading
    | Matched | WantsPin | Pinning                 // the last two hold uidPinMu, Pinning cfgMu too
    | AtLimiter | AtSettings | Checking | AtSpawn
    | Spawned | Refused

  datatype Request = Request(
    pc: RequestPc,
    users: nat,                // the version of the user list it was matched against
    limiter: nat,
    grants: nat,               // the snapshot HandleToolsCall takes
    checked: seq<nat>,         // the version each authorization check asked
    timeout: nat,              // the version its time limit came from
    spawned: Option<nat>)      // the version its worker got

  datatype Owner = Nobody | AReload(r: nat) | ARequest(q: nat)

  /** The users in daemonConfig, limiterManager, and the handler's settings. */
  datatype Cells = Cells(users: nat, limiter: nat, settings: nat)

  datatype State = State(
    reloads: seq<Reload>,
    requests: seq<Request>,
    cells: Cells,
    reloadMu: Option<nat>,
    pinMu: Option<nat>,
    writer: Owner,             // cfgMu
    readers: set<nat>)

  function Init(reloads: nat, requests: nat): State {
    State(seq(reloads, r => Reload(NotStarted, 0, 0)),
          seq(requests, q => Request(Arriving, 0, 0, 0, [], 0, None)),
          Cells(0, 0, 0), None, None, Nobody, {})
  }

  datatype ReloadStep =
    | Start | Reject | Accept | ReadGrants | LockConfig | SwapUsers | SwapLimiter | SwapSettings | UnlockConfig
    | CloseSessions | Finish

  datatype RequestStep =
    | LockForRead | CopyUsers | UnlockRead | SkipPin | LockPin | LockConfigForPin | Pin | LoadLimiter | LoadSettings
    | Check | LoadTimeout | Spawn | Refuse

  datatype Action = OfReload(r: nat, step: ReloadStep) | OfRequest(q: nat, act: RequestStep)

  /** Where a request can be turned away; it holds no lock there but in Pinning. */
  predicate CanRefuse(pc: RequestPc) {
    pc == Matched || pc == Pinning || pc == AtLimiter || pc == AtSettings || pc == Checking
  }

  /** The place a reload takes a step from; `Finish` also from Rejected. */
  function From(step: ReloadStep): ReloadPc {
    match step
    case Start => NotStarted
    case Reject => Loading
    case Accept => Loading
    case ReadGrants => ReadingGrants
    case LockConfig => WantsConfig
    case SwapUsers => SwappingUsers
    case SwapLimiter => SwappingLimiter
    case SwapSettings => SwappingSettings
    case UnlockConfig => Unlocking
    case CloseSessions => ClosingSessions
    case Finish => Releasing
  }

  predicate ReloadCan(pc: ReloadPc, step: ReloadStep, reloadFree: bool, configFree: bool) {
    && (pc == From(step) || (step == Finish && pc == Rejected))
    && (step == Start ==> reloadFree)
    && (step == LockConfig ==> configFree)
  }

  function ReloadNext(rel: Reload, step: ReloadStep, cells: Cells): Reload {
    match step
    case Start => rel.(pc := Loading)
    case Reject => rel.(pc := Rejected)
    case Accept => rel.(pc := ReadingGrants)
    case ReadGrants => Reload(WantsConfig, cells.settings, 0)
    case LockConfig => rel.(pc := SwappingUsers)
    case SwapUsers => Reload(SwappingLimiter, rel.compared, cells.users + 1)
    case SwapLimiter => rel.(pc := SwappingSettings)
    case SwapSettings => rel.(pc := Unlocking)
    case UnlockConfig => rel.(pc := ClosingSessions)
    case CloseSessions => rel.(pc := Releasing)
    case Finish => rel.(pc := if rel.pc == Rejected then Failed else Returned)
  }

  function CellsNext(rel: Reload, step: ReloadStep, cells: Cells): Cells {
    if step == SwapUsers then cells.(users := cells.users + 1)
    else if step == SwapLimiter then cells.(limiter := rel.version)
    else if step == SwapSettings then cells.(settings := rel.version)
    else cells
  }

  predicate RequestCan(pc: RequestPc, act: RequestStep, unwritten: bool, configFree: bool, pinFree: bool) {
    match act
    case LockForRead => pc == Arriving && unwritten
    case CopyUsers => pc == Copying
    case UnlockRead => pc == Copied
    case SkipPin => pc == Matched       // no such OS account
    case LockPin => pc == Matched && pinFree
    case LockConfigForPin => pc == WantsPin && configFree
    case Pin => pc == Pinning
    case LoadLimiter => pc == AtLimiter
    case LoadSettings => pc == AtSettings
    case Check => pc == Checking
    case LoadTimeout => pc == Checking
    case Spawn => pc == AtSpawn
    case Refuse => CanRefuse(pc)
  }

  function RequestNext(req: Request, act: RequestStep, cells: Cells): Request {
    match act
    case LockForRead => req.(pc := Copying)
    case CopyUsers => req.(pc := Copied, users := cells.users)
    case UnlockRead => req.(pc := Matched)
    case SkipPin => req.(pc := AtLimiter)
    case LockPin => req.(pc := WantsPin)
    case LockConfigForPin => req.(pc := Pinning)
    case Pin => req.(pc := AtLimiter)
    case LoadLimiter => req.(pc := AtSettings, limiter := cells.limiter)
    case LoadSettings => req.(pc := Checking, grants := cells.settings)
    case Check => req.(checked := req.checked + [req.grants])
    case LoadTimeout => req.(pc := AtSpawn, timeout := cells.settings)
    case Spawn => req.(pc := Spawned, spawned := Some(req.grants))
    case Refuse => req.(pc := Refused)
  }

  predicate Enabled(s: State, a: Action) {
    var configFree := s.writer == Nobody && s.readers == {};
    match a
    case OfReload(r, step) => r < |s.reloads| && ReloadCan(s.reloads[r].pc, step, s.reloadMu == None, configFree)
    case OfRequest(q, act) =>
      q < |s.requests| && RequestCan(s.requests[q].pc, act, s.writer == Nobody, configFree, s.pinMu == None)
  }

  function Step(s: State, a: Action): State
    requires Enabled(s, a)
  {
    match a
    case OfReload(r, step) =>
      s.(reloads := s.reloads[r := ReloadNext(s.reloads[r], step, s.cells)],
         cells := CellsNext(s.reloads[r], step, s.cells),
         reloadMu := if step == Start then Some(r) else if step == Finish then None else s.reloadMu,
         writer := if step == LockConfig then AReload(r) else if step == UnlockConfig then Nobody else s.writer)
    case OfRequest(q, act) =>
      var unpins := act == Pin || (act == Refuse && s.requests[q].pc == Pinning);
      s.(requests := s.requests[q := RequestNext(s.requests[q], act, s.cells)],
         readers := if act == LockForRead then s.readers + {q} else if act == UnlockRead then s.readers - {q} else s.readers,
         pinMu := if act == LockPin then Some(q) else if unpins then None else s.pinMu,
         writer := if act == LockConfigForPin then ARequest(q) else if unpins then Nobody else s.writer)
  }

  // ----- what stays true -----

  predicate HoldsReload(pc: ReloadPc) {
    pc != NotStarted && pc != Returned && pc != Failed
  }

  predicate HoldsConfig(pc: ReloadPc) {
    pc == SwappingUsers || pc == SwappingLimiter || pc == SwappingSettings || pc == Unlocking
  }

  /** It has set the users; the same for the limiter and for the settings. */
  predicate SetUsers(pc: ReloadPc) {
    SetLimiter(pc) || pc == SwappingLimiter
  }

  predicate SetLimiter(pc: ReloadPc) {
    SetSettings(pc) || pc == SwappingSettings
  }

  predicate SetSettings(pc: ReloadPc) {
    pc == Unlocking || pc == ClosingSessions || pc == Releasing || pc == Returned
  }

  predicate HasUsers(pc: RequestPc) {
    pc != Arriving && pc != Copying && pc != Refused
  }

  predicate HasLimiter(pc: RequestPc) {
    pc == AtSettings || HasGrants(pc)
  }

  predicate HasGrants(pc: RequestPc) {
    pc == Checking || pc == AtSpawn || pc == Spawned
  }

  predicate LockPart(r: nat, pc: ReloadPc, reloadMu: Option<nat>, writer: Owner) {
    && (reloadMu == Some(r) <==> HoldsReload(pc))
    && (writer == AReload(r) <==> HoldsConfig(pc))
  }

  /** A cell holds the version of the reload that has set it, until the next. */
  predicate VersionPart(rel: Reload, cells: Cells) {
    && (rel.pc == WantsConfig || rel.pc == SwappingUsers ==> rel.compared == cells.users)
    && (SetUsers(rel.pc) ==> rel.version == rel.compared + 1 <= cells.users)
    && (SetLimiter(rel.pc) ==> rel.version <= cells.limiter)
    && (SetSettings(rel.pc) ==> rel.version <= cells.settings)
    && (rel.pc == SwappingUsers ==> cells.users == cells.limiter == cells.settings)
    && (rel.pc == SwappingLimiter ==> rel.version == cells.users == cells.limiter + 1 == cells.settings + 1)
    && (rel.pc == SwappingSettings ==> rel.version == cells.users == cells.limiter == cells.settings + 1)
    && (rel.pc == Unlocking ==> cells.users == cells.limiter == cells.settings)
  }

  predicate ReloadOk(r: nat, rel: Reload, reloadMu: Option<nat>, writer: Owner, cells: Cells) {
    LockPart(r, rel.pc, reloadMu, writer) && VersionPart(rel, cells)
  }

  predicate RequestLocks(q: nat, pc: RequestPc, pinMu: Option<nat>, writer: Owner, reading: bool) {
    && (reading <==> pc == Copying || pc == Copied)
    && (writer == ARequest(q) <==> pc == Pinning)
    && (pinMu == Some(q) <==> pc == WantsPin || pc == Pinning)
  }

  predicate RequestVersions(req: Request, cells: Cells) {
    && (HasUsers(req.pc) ==> req.users <= cells.limiter && req.users <= cells.settings)
    && (HasLimiter(req.pc) ==> req.users <= req.limiter <= cells.limiter)
    && (HasGrants(req.pc) ==> req.users <= req.grants <= cells.settings && req.limiter <= req.grants + 1)
    && (req.checked != [] ==> HasGrants(req.pc) || req.pc == Refused)
    && (req.pc == AtSpawn || req.pc == Spawned ==> req.grants <= req.timeout <= cells.settings)
    && req.spawned == (if req.pc == Spawned then Some(req.grants) else None)
  }

  ghost predicate OneGrant(req: Request) {
    forall c :: c in req.checked ==> c == req.grants
  }

  ghost predicate RequestOk(q: nat, req: Request, pinMu: Option<nat>, writer: Owner, reading: bool, cells: Cells) {
    RequestLocks(q, req.pc, pinMu, writer, reading) && RequestVersions(req, cells) && OneGrant(req)
  }

  ghost predicate ReloadsOk(reloads: seq<Reload>, reloadMu: Option<nat>, writer: Owner, cells: Cells) {
    forall r: nat :: r < |reloads| ==> ReloadOk(r, reloads[r], reloadMu, writer, cells)
  }

  ghost predicate RequestsOk(requests: seq<Request>, pinMu: Option<nat>, writer: Owner, readers: set<nat>, cells: Cells) {
    forall q: nat :: q < |requests| ==> RequestOk(q, requests[q], pinMu, writer, q in readers, cells)
  }

  /** The cells differ only while a reload holds cfgMu. */
  predicate CellsOk(cells: Cells, writer: Owner) {
    && (!writer.AReload? ==> cells.users == cells.limiter == cells.settings)
    && cells.settings <= cells.limiter <= cells.users <= cells.settings + 1
  }

  predicate OwnersOk(reloads: nat, requests: nat, reloadMu: Option<nat>, pinMu: Option<nat>, writer: Owner) {
    && (reloadMu.Some? ==> reloadMu.value < reloads)
    && (pinMu.Some? ==> pinMu.value < requests)
    && (writer.AReload? ==> writer.r < reloads)
    && (writer.ARequest? ==> writer.q < requests)
  }

  ghost predicate ReadersOk(requests: nat, readers: set<nat>, writer: Owner) {
    (forall q :: q in readers ==> q < requests) && (readers != {} ==> writer == Nobody)
  }

  /** How many of the first `n` reloads have set a cell. */
  function Swapped(reloads: seq<Reload>, n: nat): nat
    requires n <= |reloads|
  {
    if n == 0 then 0 else Swapped(reloads, n - 1) + (if SetUsers(reloads[n - 1].pc) then 1 else 0)
  }

  ghost predicate LocksOk(s: State) {
    && CellsOk(s.cells, s.writer)
    && OwnersOk(|s.reloads|, |s.requests|, s.reloadMu, s.pinMu, s.writer)
    && ReadersOk(|s.requests|, s.readers, s.writer)
  }

  ghost predicate Inv(s: State) {
    && LocksOk(s)
    && ReloadsOk(s.reloads, s.reloadMu, s.writer, s.cells)
    && RequestsOk(s.requests, s.pinMu, s.writer, s.readers, s.cells)
    && s.cells.users == Swapped(s.reloads, |s.reloads|)
  }

  lemma AReloadIsOk(s: State, r: nat)
    requires Inv(s) && r < |s.reloads|
    ensures ReloadOk(r, s.reloads[r], s.reloadMu, s.writer, s.cells)
  {
  }

  lemma ARequestIsOk(s: State, q: nat)
    requires Inv(s) && q < |s.requests|
    ensures RequestOk(q, s.requests[q], s.pinMu, s.writer, q in s.readers, s.cells)
  {
  }

  lemma {:induction false} NoneSwapped(reloads: seq<Reload>, n: nat)
    requires n <= |reloads| && forall r :: 0 <= r < n ==> reloads[r].pc == NotStarted
    ensures Swapped(reloads, n) == 0
  {
    if n > 0 {
      NoneSwapped(reloads, n - 1);
    }
  }

  lemma InitInv(reloads: nat, requests: nat)
    ensures Inv(Init(reloads, requests))
  {
    NoneSwapped(Init(reloads, requests).reloads, reloads);
  }

  lemma {:induction false} SwappedUpdate(reloads: seq<Reload>, r: nat, rel: Reload, n: nat)
    requires r < |reloads| && n <= |reloads|
    ensures Swapped(reloads[r := rel], n) == Swapped(reloads, n)
              + (if r < n && SetUsers(rel.pc) then 1 else 0) - (if r < n && SetUsers(reloads[r].pc) then 1 else 0)
  {
    if n > 0 {
      SwappedUpdate(reloads, r, rel, n - 1);
    }
  }

  // ----- a reload's step: itself, the other reloads, the requests -----

  lemma CellsAdvance(r: nat, rel: Reload, step: ReloadStep, reloadMu: Option<nat>, writer: Owner, cells: Cells, free: bool, configFree: bool)
    requires ReloadOk(r, rel, reloadMu, writer, cells) && CellsOk(cells, writer) && ReloadCan(rel.pc, step, free, configFree)
    ensures var cells', rel' := CellsNext(rel, step, cells), ReloadNext(rel, step, cells);
            && cells.users <= cells'.users && cells.limiter <= cells'.limiter && cells.settings <= cells'.settings
            && cells'.settings <= cells'.limiter <= cells'.users <= cells'.settings + 1
            && (!HoldsConfig(rel.pc) ==> cells' == cells)
            && (rel.pc == Unlocking ==> cells.users == cells.settings)
            && cells'.users == cells.users + (if SetUsers(rel'.pc) then 1 else 0) - (if SetUsers(rel.pc) then 1 else 0)
  {
  }

  lemma ReloadVersionsNext(rel: Reload, step: ReloadStep, cells: Cells, free: bool, configFree: bool)
    requires VersionPart(rel, cells) && ReloadCan(rel.pc, step, free, configFree)
    requires step == ReadGrants || step == LockConfig ==> cells.users == cells.limiter == cells.settings
    ensures VersionPart(ReloadNext(rel, step, cells), CellsNext(rel, step, cells))
  {
  }

  lemma ReloadLocksNext(r: nat, rel: Reload, step: ReloadStep, cells: Cells, free: bool, configFree: bool,
                        reloadMu: Option<nat>, writer: Owner, reloadMu': Option<nat>, writer': Owner)
    requires LockPart(r, rel.pc, reloadMu, writer) && ReloadCan(rel.pc, step, free, configFree)
    requires reloadMu' == if step == Start then Some(r) else if step == Finish then None else reloadMu
    requires writer' == if step == LockConfig then AReload(r) else if step == UnlockConfig then Nobody else writer
    ensures LockPart(r, ReloadNext(rel, step, cells).pc, reloadMu', writer')
  {
  }

  /** A reload reads its predecessor's version while no other reload sets cells. */
  lemma CellsAgree(s: State, r: nat, step: ReloadStep)
    requires Inv(s) && Enabled(s, OfReload(r, step)) && (step == ReadGrants || step == LockConfig)
    ensures s.cells.users == s.cells.limiter == s.cells.settings
  {
    AReloadIsOk(s, r);
    if s.writer.AReload? {
      AReloadIsOk(s, s.writer.r);
      assert s.reloadMu == Some(s.writer.r) == Some(r);
    }
  }

  lemma ReloadActorKeeps(s: State, r: nat, step: ReloadStep)
    requires Inv(s) && Enabled(s, OfReload(r, step))
    ensures var s' := Step(s, OfReload(r, step)); ReloadOk(r, s'.reloads[r], s'.reloadMu, s'.writer, s'.cells)
  {
    var s' := Step(s, OfReload(r, step));
    AReloadIsOk(s, r);
    if step == ReadGrants || step == LockConfig { CellsAgree(s, r, step); }
    ReloadLocksNext(r, s.reloads[r], step, s.cells, s.reloadMu == None, s.writer == Nobody && s.readers == {},
                    s.reloadMu, s.writer, s'.reloadMu, s'.writer);
    ReloadVersionsNext(s.reloads[r], step, s.cells, s.reloadMu == None, s.writer == Nobody && s.readers == {});
  }

  lemma OtherReloadKeeps(s: State, r: nat, step: ReloadStep, j: nat)
    requires Inv(s) && Enabled(s, OfReload(r, step)) && j < |s.reloads| && j != r
    ensures var s' := Step(s, OfReload(r, step)); ReloadOk(j, s'.reloads[j], s'.reloadMu, s'.writer, s'.cells)
  {
    AReloadIsOk(s, r);
    AReloadIsOk(s, j);
    CellsAdvance(r, s.reloads[r], step, s.reloadMu, s.writer, s.cells, s.reloadMu == None, s.writer == Nobody && s.readers == {});
  }

  lemma RequestUnderReload(s: State, r: nat, step: ReloadStep, q: nat)
    requires Inv(s) && Enabled(s, OfReload(r, step)) && q < |s.requests|
    ensures var s' := Step(s, OfReload(r, step)); RequestOk(q, s'.requests[q], s'.pinMu, s'.writer, q in s'.readers, s'.cells)
  {
    AReloadIsOk(s, r);
    ARequestIsOk(s, q);
    CellsAdvance(r, s.reloads[r], step, s.reloadMu, s.writer, s.cells, s.reloadMu == None, s.writer == Nobody && s.readers == {});
  }

  lemma ReloadStepKeeps(s: State, r: nat, step: ReloadStep)
    requires Inv(s) && Enabled(s, OfReload(r, step))
    ensures var s' := Step(s, OfReload(r, step));
            Inv(s') && s.cells.users <= s'.cells.users && s.cells.limiter <= s'.cells.limiter && s.cells.settings <= s'.cells.settings
  {
    var s' := Step(s, OfReload(r, step));
    AReloadIsOk(s, r);
    CellsAdvance(r, s.reloads[r], step, s.reloadMu, s.writer, s.cells, s.reloadMu == None, s.writer == Nobody && s.readers == {});
    assert LocksOk(s');
    SwappedUpdate(s.reloads, r, s'.reloads[r], |s.reloads|);
    forall j: nat | j < |s'.reloads| ensures ReloadOk(j, s'.reloads[j], s'.reloadMu, s'.writer, s'.cells) {
      if j == r { ReloadActorKeeps(s, r, step); } else { OtherReloadKeeps(s, r, step, j); }
    }
    forall q: nat | q < |s'.requests| ensures RequestOk(q, s'.requests[q], s'.pinMu, s'.writer, q in s'.readers, s'.cells) {
      RequestUnderReload(s, r, step, q);
    }
  }

  // ----- a request's step -----

  lemma RequestVersionsNext(req: Request, act: RequestStep, cells: Cells, unwritten: bool, configFree: bool, pinFree: bool)
    requires RequestVersions(req, cells) && OneGrant(req) && RequestCan(req.pc, act, unwritten, configFree, pinFree)
    requires cells.settings <= cells.limiter <= cells.settings + 1
    requires act == CopyUsers ==> cells.users == cells.limiter == cells.settings
    ensures RequestVersions(RequestNext(req, act, cells), cells) && OneGrant(RequestNext(req, act, cells))
  {
  }

  /** The locks a request holds after its step are those of its new place. */
  lemma RequestLocksNext(s: State, q: nat, act: RequestStep)
    requires Inv(s) && Enabled(s, OfRequest(q, act))
    ensures var s' := Step(s, OfRequest(q, act)); RequestLocks(q, s'.requests[q].pc, s'.pinMu, s'.writer, q in s'.readers)
    ensures act == CopyUsers ==> s.cells.users == s.cells.limiter == s.cells.settings
  {
    ARequestIsOk(s, q);
  }

  lemma RequestActorKeeps(s: State, q: nat, act: RequestStep)
    requires Inv(s) && Enabled(s, OfRequest(q, act))
    ensures var s' := Step(s, OfRequest(q, act)); RequestOk(q, s'.requests[q], s'.pinMu, s'.writer, q in s'.readers, s'.cells)
  {
    ARequestIsOk(s, q);
    RequestLocksNext(s, q, act);
    RequestVersionsNext(s.requests[q], act, s.cells, s.writer == Nobody, s.writer == Nobody && s.readers == {}, s.pinMu == None);
  }

  lemma OtherLocksNext(q: nat, pc: RequestPc, act: RequestStep, j: nat, other: RequestPc, pinMu: Option<nat>, writer: Owner,
                       reading: bool, readingOther: bool, pinMu': Option<nat>, writer': Owner)
    requires RequestLocks(q, pc, pinMu, writer, reading) && RequestLocks(j, other, pinMu, writer, readingOther) && j != q
    requires RequestCan(pc, act, writer == Nobody, writer == Nobody, pinMu == None)
    requires var unpins := act == Pin || (act == Refuse && pc == Pinning);
             && pinMu' == (if act == LockPin then Some(q) else if unpins then None else pinMu)
             && writer' == (if act == LockConfigForPin then ARequest(q) else if unpins then Nobody else writer)
    ensures RequestLocks(j, other, pinMu', writer', readingOther)
  {
  }

  lemma OtherRequestKeeps(s: State, q: nat, act: RequestStep, j: nat)
    requires Inv(s) && Enabled(s, OfRequest(q, act)) && j < |s.requests| && j != q
    ensures var s' := Step(s, OfRequest(q, act)); RequestOk(j, s'.requests[j], s'.pinMu, s'.writer, j in s'.readers, s'.cells)
  {
    var s' := Step(s, OfRequest(q, act));
    ARequestIsOk(s, q);
    ARequestIsOk(s, j);
    OtherLocksNext(q, s.requests[q].pc, act, j, s.requests[j].pc, s.pinMu, s.writer, q in s.readers, j in s.readers, s'.pinMu, s'.writer);
    assert s'.requests[j] == s.requests[j] && s'.cells == s.cells && (j in s'.readers <==> j in s.readers);
  }

  lemma ReloadUnderRequest(s: State, q: nat, act: RequestStep, r: nat)
    requires Inv(s) && Enabled(s, OfRequest(q, act)) && r < |s.reloads|
    ensures var s' := Step(s, OfRequest(q, act)); ReloadOk(r, s'.reloads[r], s'.reloadMu, s'.writer, s'.cells)
  {
    ARequestIsOk(s, q);
    AReloadIsOk(s, r);
  }

  lemma RequestKeepsLocks(s: State, q: nat, act: RequestStep)
    requires Inv(s) && Enabled(s, OfRequest(q, act))
    ensures LocksOk(Step(s, OfRequest(q, act)))
  {
    ARequestIsOk(s, q);
  }

  lemma RequestStepKeeps(s: State, q: nat, act: RequestStep)
    requires Inv(s) && Enabled(s, OfRequest(q, act))
    ensures Inv(Step(s, OfRequest(q, act)))
  {
    var s' := Step(s, OfRequest(q, act));
    RequestKeepsLocks(s, q, act);
    forall j: nat | j < |s'.requests| ensures RequestOk(j, s'.requests[j], s'.pinMu, s'.writer, j in s'.readers, s'.cells) {
      if j == q { RequestActorKeeps(s, q, act); } else { OtherRequestKeeps(s, q, act, j); }
    }
    forall r: nat | r < |s'.reloads| ensures ReloadOk(r, s'.reloads[r], s'.reloadMu, s'.writer, s'.cells) {
      ReloadUnderRequest(s, q, act, r);
    }
  }

  /** Every step of every actor keeps the invariant, and no cell goes back. */
  lemma InvKept(s: State, a: Action)
    requires Inv(s) && Enabled(s, a)
    ensures var s' := Step(s, a);
            Inv(s') && s.cells.users <= s'.cells.users && s.cells.limiter <= s'.cells.limiter && s.cells.settings <= s'.cells.settings
  {
    match a
    case OfReload(r, step) => ReloadStepKeeps(s, r, step);
    case OfRequest(q, act) => RequestStepKeeps(s, q, act);
  }

  // ----- progress -----

  predicate ReloadOver(pc: ReloadPc) {
    pc == Returned || pc == Failed
  }

  predicate RequestOver(pc: RequestPc) {
    pc == Spawned || pc == Refused
  }

  predicate Finished(s: State) {
    && (forall r :: 0 <= r < |s.reloads| ==> ReloadOver(s.reloads[r].pc))
    && (forall q :: 0 <= q < |s.requests| ==> RequestOver(s.requests[q].pc))
  }

  /** What a reload (a request) can do when nobody else is in its way. */
  function NextOfReload(pc: ReloadPc): (step: ReloadStep)
    ensures !ReloadOver(pc) ==> ReloadCan(pc, step, pc == NotStarted, pc == WantsConfig)
  {
    match pc
    case NotStarted => Start
    case Loading => Accept
    case ReadingGrants => ReadGrants
    case WantsConfig => LockConfig
    case SwappingUsers => SwapUsers
    case SwappingLimiter => SwapLimiter
    case SwappingSettings => SwapSettings
    case Unlocking => UnlockConfig
    case ClosingSessions => CloseSessions
    case _ => Finish
  }

  function NextOfRequest(pc: RequestPc): (act: RequestStep)
    ensures !RequestOver(pc) ==> RequestCan(pc, act, pc == Arriving, pc == WantsPin, false)
  {
    match pc
    case Arriving => LockForRead
    case Copying => CopyUsers
    case Copied => UnlockRead
    case Matched => SkipPin
    case WantsPin => LockConfigForPin
    case Pinning => Pin
    case AtLimiter => LoadLimiter
    case AtSettings => LoadSettings
    case Checking => LoadTimeout
    case _ => Spawn
  }

  /** The holder of cfgMu can always go on. */
  lemma ConfigHolderCanStep(s: State) returns (a: Action)
    requires Inv(s) && (s.writer != Nobody || s.readers != {})
    ensures Enabled(s, a)
  {
    if s.writer.AReload? {
      AReloadIsOk(s, s.writer.r);
      a := OfReload(s.writer.r, NextOfReload(s.reloads[s.writer.r].pc));
    } else if s.writer.ARequest? {
      ARequestIsOk(s, s.writer.q);
      a := OfRequest(s.writer.q, Pin);
    } else {
      var q :| q in s.readers;
      ARequestIsOk(s, q);
      a := OfRequest(q, NextOfRequest(s.requests[q].pc));
    }
  }

  /** reloadMu and uidPinMu are only ever taken before cfgMu: no deadlock. */
  lemma NoDeadlock(s: State) returns (a: Action)
    requires Inv(s) && !Finished(s)
    ensures Enabled(s, a)
  {
    if s.writer != Nobody || s.readers != {} {
      a := ConfigHolderCanStep(s);
    } else if s.reloadMu.Some? {
      AReloadIsOk(s, s.reloadMu.value);
      a := OfReload(s.reloadMu.value, NextOfReload(s.reloads[s.reloadMu.value].pc));
    } else if r :| 0 <= r < |s.reloads| && !ReloadOver(s.reloads[r].pc) {
      a := OfReload(r, NextOfReload(s.reloads[r].pc));
    } else {
      var q :| 0 <= q < |s.requests| && !RequestOver(s.requests[q].pc);
      a := OfRequest(q, NextOfRequest(s.requests[q].pc));
    }
  }

  // ----- whole runs -----

  ghost predicate IsRun(states: seq<State>, actions: seq<Action>) {
    && |states| == |actions| + 1
    && StartsAfresh(states[0])
    && forall i: nat :: i < |actions| ==> StepAt(states, actions, i)
  }

  ghost predicate StartsAfresh(s: State) {
    s == Init(|s.reloads|, |s.requests|)
  }

  ghost predicate StepAt(states: seq<State>, actions: seq<Action>, i: nat)
    requires i < |actions| && |states| == |actions| + 1
  {
    Enabled(states[i], actions[i]) && states[i + 1] == Step(states[i], actions[i])
  }

  lemma {:induction false} RunIsSafe(states: seq<State>, actions: seq<Action>, i: nat)
    requires IsRun(states, actions) && i < |states|
    ensures Inv(states[i])
    ensures |states[i].reloads| == |states[0].reloads| && |states[i].requests| == |states[0].requests|
  {
    if i == 0 {
      InitInv(|states[0].reloads|, |states[0].requests|);
    } else {
      var m := i - 1;
      RunIsSafe(states, actions, m);
      assert StepAt(states, actions, m);
      InvKept(states[m], actions[m]);
      SameActors(states[m], actions[m]);
    }
  }

  lemma SameActors(s: State, a: Action)
    requires Enabled(s, a)
    ensures |Step(s, a).reloads| == |s.reloads| && |Step(s, a).requests| == |s.requests|
  {
  }

  /** A request matched against user list v is limited and authorized by
      versions at least v; all its checks and its worker use one grant
      version, and its time limit is no older. */
  lemma RequestUsesOneGrantVersion(states: seq<State>, actions: seq<Action>, i: nat, q: nat)
    requires IsRun(states, actions) && i < |states| && q < |states[i].requests| && states[i].requests[q].pc == Spawned
    ensures var req := states[i].requests[q];
            && req.spawned == Some(req.grants) && OneGrant(req)
            && req.users <= req.limiter <= req.grants + 1 && req.users <= req.grants <= req.timeout
  {
    RunIsSafe(states, actions, i);
    ARequestIsOk(states[i], q);
  }

  /** Whenever no reload is under way the three cells agree, on the number of
      reloads accepted so far: a rejected one has changed nothing. */
  lemma CellsCountAcceptedReloads(states: seq<State>, actions: seq<Action>, i: nat)
    requires IsRun(states, actions) && i < |states|
    ensures var s := states[i];
            && s.cells.users == Swapped(s.reloads, |s.reloads|)
            && (s.reloadMu == None ==> s.cells.users == s.cells.limiter == s.cells.settings)
  {
    RunIsSafe(states, actions, i);
    if states[i].writer.AReload? {
      AReloadIsOk(states[i], states[i].writer.r);
    }
  }

  /** What a reload reports is the difference to the version it replaces. */
  lemma ReloadComparesWithItsPredecessor(states: seq<State>, actions: seq<Action>, i: nat, r: nat)
    requires IsRun(states, actions) && i < |actions| && actions[i] == OfReload(r, SwapUsers)
    ensures var s, s' := states[i], states[i + 1];
            && r < |s.reloads| && r < |s'.reloads|
            && s.reloads[r].compared == s.cells.users && s'.reloads[r].version == s'.cells.users == s.cells.users + 1
  {
    RunIsSafe(states, actions, i);
    assert StepAt(states, actions, i);
    AReloadIsOk(states[i], r);
  }

  /** `v` is in effect, for everyone and for request `q`. */
  predicate Sees(s: State, v: nat, q: nat) {
    && v <= s.cells.settings && v <= s.cells.limiter && v <= s.cells.users
    && q < |s.requests|
    && (HasUsers(s.requests[q].pc) ==> v <= s.requests[q].users)
  }

  lemma SeesKept(s: State, a: Action, v: nat, q: nat)
    requires Inv(s) && Enabled(s, a) && Sees(s, v, q)
    ensures Sees(Step(s, a), v, q)
  {
    InvKept(s, a);
  }

  /** Once a reload has returned, no request that arrives later is matched
      against older users or runs under older grants. */
  lemma {:induction false} LaterRequestsSeeTheReload(states: seq<State>, actions: seq<Action>, i: nat, j: nat, r: nat, q: nat)
    requires IsRun(states, actions) && i <= j < |states|
    requires r < |states[i].reloads| && states[i].reloads[r].pc == Returned
    requires q < |states[i].requests| && states[i].requests[q].pc == Arriving
    ensures Sees(states[j], states[i].reloads[r].version, q)
    ensures var req := states[j].requests[q]; req.spawned.Some? ==> states[i].reloads[r].version <= req.spawned.value
    decreases j - i
  {
    if i < j {
      LaterRequestsSeeTheReload(states, actions, i, j - 1, r, q);
      assert StepAt(states, actions, j - 1);
      RunIsSafe(states, actions, j - 1);
      SeesKept(states[j - 1], actions[j - 1], states[i].reloads[r].version, q);
    } else {
      RunIsSafe(states, actions, i);
      AReloadIsOk(states[i], r);
    }
    RunIsSafe(states, actions, j);
    ARequestIsOk(states[j], q);
  }

  // ----- which version is which -----

  /** The request has passed this load and keeps what it got. */
  predicate Past(pc: RequestPc, act: RequestStep) {
    match act
    case CopyUsers => HasUsers(pc)
    case LoadLimiter => HasLimiter(pc)
    case LoadSettings => HasGrants(pc)
    case LoadTimeout => pc == AtSpawn || pc == Spawned
    case _ => false
  }

  /** Every version a request works with is the one its cell held at the moment of
      the load: users, limiter, grants and time limit, each at its own. */
  lemma {:induction false} VersionsWereLoaded(states: seq<State>, actions: seq<Action>, j: nat, q: nat, act: RequestStep) returns (i: nat)
    requires IsRun(states, actions) && j < |states| && q < |states[j].requests| && Past(states[j].requests[q].pc, act)
    ensures i < j && actions[i] == OfRequest(q, act)
    ensures var req, cells := states[j].requests[q], states[i].cells;
            match act
            case CopyUsers => req.users == cells.users
            case LoadLimiter => req.limiter == cells.limiter
            case LoadSettings => req.grants == cells.settings
            case _ => req.timeout == cells.settings
  {
    assert StartsAfresh(states[0]);
    var m := j - 1;
    assert StepAt(states, actions, m);
    if actions[m] == OfRequest(q, act) {
      i := m;
    } else {
      i := VersionsWereLoaded(states, actions, m, q, act);
    }
  }

  // ----- when limiter and grants are of different configurations -----

  /** Some reload has stored the limiter and not yet the grants, and request `q`
      got that limiter. */
  predicate BetweenStores(s: State, q: nat) {
    && q < |s.requests| && s.requests[q].limiter == s.cells.limiter
    && exists r :: 0 <= r < |s.reloads| && s.reloads[r].pc == SwappingSettings
  }

  /** Loading the grants yields an older version than the limiter's exactly then. */
  lemma GapAtLoad(s: State, q: nat)
    requires Inv(s) && Enabled(s, OfRequest(q, LoadSettings))
    ensures s.requests[q].limiter > s.cells.settings <==> BetweenStores(s, q)
  {
    ARequestIsOk(s, q);
    if s.requests[q].limiter > s.cells.settings {
      AReloadIsOk(s, s.writer.r);
      assert s.reloads[s.writer.r].pc == SwappingSettings;
    }
    if r :| 0 <= r < |s.reloads| && s.reloads[r].pc == SwappingSettings {
      AReloadIsOk(s, r);
    }
  }

  ghost predicate LoadsAt(actions: seq<Action>, i: nat, q: nat) {
    i < |actions| && actions[i] == OfRequest(q, LoadSettings)
  }

  /** A request takes its grants once: what it has then it has at the end. */
  lemma {:induction false} GrantsAreKept(states: seq<State>, actions: seq<Action>, i: nat, j: nat, q: nat)
    requires IsRun(states, actions) && LoadsAt(actions, i, q) && i < j < |states|
    ensures q < |states[i].requests| && q < |states[j].requests|
    ensures var was, req := states[i].requests[q], states[j].requests[q];
            && req.limiter == was.limiter && req.grants == states[i].cells.settings
            && (HasGrants(req.pc) || req.pc == Refused)
    decreases j - i
  {
    var m := j - 1;
    assert StepAt(states, actions, m);
    if i < m {
      GrantsAreKept(states, actions, i, m, q);
    }
  }

  lemma {:induction false} GrantsWereLoaded(states: seq<State>, actions: seq<Action>, j: nat, q: nat) returns (i: nat)
    requires IsRun(states, actions) && j < |states| && q < |states[j].requests| && HasGrants(states[j].requests[q].pc)
    ensures i < j && LoadsAt(actions, i, q)
  {
    assert StartsAfresh(states[0]);
    var m := j - 1;
    assert StepAt(states, actions, m);
    if LoadsAt(actions, m, q) {
      i := m;
    } else {
      i := GrantsWereLoaded(states, actions, m, q);
    }
  }

  /** In any run a request is limited by a newer configuration than it is
      authorized by exactly if it loaded its grants between the two stores of the
      reload whose limiter it got. */
  lemma LimiterIsAheadIff(states: seq<State>, actions: seq<Action>, j: nat, q: nat)
    requires IsRun(states, actions) && j < |states| && q < |states[j].requests| && states[j].requests[q].pc == Spawned
    ensures states[j].requests[q].limiter > states[j].requests[q].grants
            <==> exists i :: 0 <= i < j && LoadsAt(actions, i, q) && BetweenStores(states[i], q)
  {
    var i := GrantsWereLoaded(states, actions, j, q);
    LoadedAt(states, actions, i, j, q);
    forall k | 0 <= k < j && LoadsAt(actions, k, q)
      ensures BetweenStores(states[k], q) ==> states[j].requests[q].limiter > states[j].requests[q].grants
    {
      LoadedAt(states, actions, k, j, q);
    }
  }

  lemma LoadedAt(states: seq<State>, actions: seq<Action>, i: nat, j: nat, q: nat)
    requires IsRun(states, actions) && LoadsAt(actions, i, q) && i < j < |states| && q < |states[j].requests|
    ensures states[j].requests[q].limiter > states[j].requests[q].grants <==> BetweenStores(states[i], q)
  {
    RunIsSafe(states, actions, i);
    assert StepAt(states, actions, i);
    GapAtLoad(states[i], q);
    GrantsAreKept(states, actions, i, j, q);
  }

  /** Reachable from the start, by some run. */
  ghost predicate Reachable(s: State) {
    exists states, actions :: RunTo(states, actions, s)
  }

  ghost predicate RunTo(states: seq<State>, actions: seq<Action>, s: State) {
    IsRun(states, actions) && states[|actions|] == s
  }

  lemma ReachBy(s: State, a: Action) returns (s': State)
    requires Reachable(s) && Enabled(s, a)
    ensures s' == Step(s, a) && Reachable(s')
  {
    var states, actions :| RunTo(states, actions, s);
    s' := Step(s, a);
    var states', actions' := states + [s'], actions + [a];
    forall i: nat | i < |actions'| ensures StepAt(states', actions', i) {
      if i < |actions| { assert StepAt(states, actions, i); }
    }
    assert RunTo(states', actions', s');
  }

  /** One reload and one request. */
  function One(rel: Reload, req: Request, cells: Cells, reloadMu: Option<nat>, writer: Owner): State {
    State([rel], [req], cells, reloadMu, None, writer, {})
  }

  lemma OneReloads(rel: Reload, req: Request, cells: Cells, mu: Option<nat>, writer: Owner, step: ReloadStep)
    requires Reachable(One(rel, req, cells, mu, writer))
    requires ReloadCan(rel.pc, step, mu == None, writer == Nobody)
    ensures Reachable(One(ReloadNext(rel, step, cells), req, CellsNext(rel, step, cells),
                          if step == Start then Some(0) else if step == Finish then None else mu,
                          if step == LockConfig then AReload(0) else if step == UnlockConfig then Nobody else writer))
  {
    var s' := ReachBy(One(rel, req, cells, mu, writer), OfReload(0, step));
    assert s'.reloads == [ReloadNext(rel, step, cells)];
  }

  predicate Lockless(act: RequestStep) {
    act == SkipPin || act == LoadLimiter || act == LoadSettings || act == Check || act == LoadTimeout || act == Spawn
  }

  lemma OneRequests(rel: Reload, req: Request, cells: Cells, mu: Option<nat>, writer: Owner, act: RequestStep)
    requires Reachable(One(rel, req, cells, mu, writer))
    requires Lockless(act) && RequestCan(req.pc, act, true, true, true)
    ensures Reachable(One(rel, RequestNext(req, act, cells), cells, mu, writer))
  {
    var s' := ReachBy(One(rel, req, cells, mu, writer), OfRequest(0, act));
    assert s'.requests == [RequestNext(req, act, cells)];
  }

  const ARRIVED := Request(Arriving, 0, 0, 0, [], 0, None)

  /** The request copies the users between two steps of the reload. */
  lemma OneAuthenticates(rel: Reload, cells: Cells, mu: Option<nat>)
    requires Reachable(One(rel, ARRIVED, cells, mu, Nobody)) && cells.users == 0
    ensures Reachable(One(rel, ARRIVED.(pc := Matched), cells, mu, Nobody))
  {
    var s1 := ReachBy(One(rel, ARRIVED, cells, mu, Nobody), OfRequest(0, LockForRead));
    assert s1 == State([rel], [ARRIVED.(pc := Copying)], cells, mu, None, Nobody, {0});
    var s2 := ReachBy(s1, OfRequest(0, CopyUsers));
    assert s2 == State([rel], [ARRIVED.(pc := Copied)], cells, mu, None, Nobody, {0});
    var s3 := ReachBy(s2, OfRequest(0, UnlockRead));
    assert s3 == One(rel, ARRIVED.(pc := Matched), cells, mu, Nobody);
  }

  lemma AuthenticatedWhileReloadWaits()
    ensures Reachable(One(Reload(WantsConfig, 0, 0), ARRIVED.(pc := Matched), Cells(0, 0, 0), Some(0), Nobody))
  {
    var s := Init(1, 1);
    assert RunTo([s], [], s);
    var cells := Cells(0, 0, 0);
    assert s == One(Reload(NotStarted, 0, 0), ARRIVED, cells, None, Nobody);
    OneReloads(Reload(NotStarted, 0, 0), ARRIVED, cells, None, Nobody, Start);
    OneReloads(Reload(Loading, 0, 0), ARRIVED, cells, Some(0), Nobody, Accept);
    OneReloads(Reload(ReadingGrants, 0, 0), ARRIVED, cells, Some(0), Nobody, ReadGrants);
    OneAuthenticates(Reload(WantsConfig, 0, 0), cells, Some(0));
  }

  lemma MatchedWhileReloadSwaps()
    ensures Reachable(One(Reload(SwappingSettings, 0, 1), ARRIVED.(pc := Matched), Cells(1, 1, 0), Some(0), AReload(0)))
  {
    AuthenticatedWhileReloadWaits();
    var req := ARRIVED.(pc := Matched);
    OneReloads(Reload(WantsConfig, 0, 0), req, Cells(0, 0, 0), Some(0), Nobody, LockConfig);
    OneReloads(Reload(SwappingUsers, 0, 0), req, Cells(0, 0, 0), Some(0), AReload(0), SwapUsers);
    OneReloads(Reload(SwappingLimiter, 0, 1), req, Cells(1, 0, 0), Some(0), AReload(0), SwapLimiter);
  }

  /** The one-version gap does occur: limited under the new configuration and
      authorized under the old one, although the two are stored together. */
  lemma LimiterCanBeAheadOfGrants()
    ensures exists s :: Reachable(s) && |s.requests| == 1 && s.requests[0] == Request(Spawned, 0, 1, 0, [0], 0, Some(0))
  {
    MatchedWhileReloadSwaps();
    var rel, now, mu, writer := Reload(SwappingSettings, 0, 1), Cells(1, 1, 0), Some(0), AReload(0);
    OneRequests(rel, ARRIVED.(pc := Matched), now, mu, writer, SkipPin);
    OneRequests(rel, ARRIVED.(pc := AtLimiter), now, mu, writer, LoadLimiter);
    OneRequests(rel, ARRIVED.(pc := AtSettings, limiter := 1), now, mu, writer, LoadSettings);
    OneRequests(rel, ARRIVED.(pc := Checking, limiter := 1), now, mu, writer, Check);
    assert [] + [0] == [0];
    OneRequests(rel, ARRIVED.(pc := Checking, limiter := 1, checked := [0]), now, mu, writer, LoadTimeout);
    OneRequests(rel, ARRIVED.(pc := AtSpawn, limiter := 1, checked := [0]), now, mu, writer, Spawn);
    assert One(rel, Request(Spawned, 0, 1, 0, [0], 0, Some(0)), now, mu, writer).requests[0]
        == Request(Spawned, 0, 1, 0, [0], 0, Some(0));
  }
}
