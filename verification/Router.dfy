/** cmd/linuxctl/main.go: concurrent calls over one session, and the goroutine
    that routes the responses arriving on the event stream to them. */
module Router {
  import opened Text

  /** A JSON-RPC response; `id` answers the id-th call (nextID never repeats). */
  datatype Response = Response(id: nat, body: string)

  /** tryCallMethod, step by step. */
  datatype CallPc =
    | New                         // about to take chanMutex
    | Inserting                   // holds chanMutex
    | Inserted                    // holds chanMutex, responseChans[id] is set
    | Registered                  // chanMutex released, POST not sent yet
    | Posting                     // POST sent, its HTTP status not seen yet
    | Waiting                     // in the select
    | Got(r: Response) | Ended | TimedOut | Failed

  /** `slot` is the call's one-element channel. */
  datatype Call = Call(pc: CallPc, slot: Option<Response>, hasTimeout: bool)

  /** The reading goroutine of connect. `due` is history: the daemon already had
      the call's request when this response was read. */
  datatype RouterPc =
    | Reading
    | Wanting(r: Response, due: bool)    // about to take chanMutex
    | Holding(r: Response, due: bool)    // holds it, looks the id up
    | Sending(r: Response, due: bool)    // holds it, ch <- rpcResp
    | Deleting(r: Response, due: bool)   // holds it, delete(responseChans, id)
    | Releasing(r: Response, due: bool)  // holds it
    | Stopped

  datatype Owner = Nobody | TheRouter | TheCall(k: nat)

  datatype State = State(
    calls: seq<Call>,
    router: RouterPc,
    chans: set<nat>,              // the ids in responseChans; id k maps to call k's channel
    mutex: Owner,                 // chanMutex
    ended: bool,                  // sessionEnded is closed
    delivered: seq<Option<Response>>, // history: what was sent into each call's channel
    posted: seq<bool>,            // history: the daemon has the call's request
    handled: set<nat>)            // history: ids of due responses the router has dealt with

  function Init(timeouts: seq<bool>): State {
    State(seq(|timeouts|, k requires 0 <= k < |timeouts| => Call(New, None, timeouts[k])), Reading, {}, Nobody, false,
          seq(|timeouts|, k => None), seq(|timeouts|, k => false), {})
  }

  datatype Action =
    | Lock(k: nat) | Insert(k: nat) | Unlock(k: nat) | Post(k: nat) | PostFails(k: nat) | Accepted(k: nat)
    | TakeResponse(k: nat) | TakeEnded(k: nat) | TakeTimeout(k: nat)
    | Read(r: Response) | RouterLock | LookUp | Deliver | Forget | RouterUnlock | StreamEnds

  predicate CallAt(s: State, k: nat, pc: CallPc) {
    k < |s.calls| && k < |s.delivered| && k < |s.posted| && s.calls[k].pc == pc
  }

  predicate Enabled(s: State, a: Action) {
    match a
    case Lock(k) => CallAt(s, k, New) && s.mutex == Nobody
    case Insert(k) => CallAt(s, k, Inserting)
    case Unlock(k) => CallAt(s, k, Inserted)
    case Post(k) => CallAt(s, k, Registered)
    case PostFails(k) => CallAt(s, k, Registered) || CallAt(s, k, Posting)
    case Accepted(k) => CallAt(s, k, Posting)
    case TakeResponse(k) => CallAt(s, k, Waiting) && s.calls[k].slot.Some?
    case TakeEnded(k) => CallAt(s, k, Waiting) && s.ended
    case TakeTimeout(k) => CallAt(s, k, Waiting) && s.calls[k].hasTimeout
    case Read(r) => s.router == Reading
    case RouterLock => s.router.Wanting? && s.mutex == Nobody
    case LookUp => s.router.Holding?
    case Deliver => s.router.Sending? && s.router.r.id < |s.calls| && s.router.r.id < |s.delivered|
                    && s.calls[s.router.r.id].slot.None?   // the channel holds one response
    case Forget => s.router.Deleting?
    case RouterUnlock => s.router.Releasing?
    case StreamEnds => s.router == Reading
  }

  function Moved(s: State, k: nat, pc: CallPc): State
    requires k < |s.calls|
  {
    s.(calls := s.calls[k := s.calls[k].(pc := pc)])
  }

  function Step(s: State, a: Action): State
    requires Enabled(s, a)
  {
    match a
    case Lock(k) => Moved(s, k, Inserting).(mutex := TheCall(k))
    case Insert(k) => Moved(s, k, Inserted).(chans := s.chans + {k})
    case Unlock(k) => Moved(s, k, Registered).(mutex := Nobody)
    case Post(k) => Moved(s, k, Posting).(posted := s.posted[k := true])
    case PostFails(k) => Moved(s, k, Failed)
    case Accepted(k) => Moved(s, k, Waiting)
    case TakeResponse(k) => s.(calls := s.calls[k := Call(Got(s.calls[k].slot.value), None, s.calls[k].hasTimeout)])
    case TakeEnded(k) => Moved(s, k, Ended)
    case TakeTimeout(k) => Moved(s, k, TimedOut)
    case Read(r) => s.(router := Wanting(r, r.id < |s.posted| && s.posted[r.id]))
    case RouterLock => s.(router := Holding(s.router.r, s.router.due), mutex := TheRouter)
    case LookUp => s.(router := if s.router.r.id in s.chans then Sending(s.router.r, s.router.due) else Releasing(s.router.r, s.router.due))
    case Deliver =>
      var r := s.router.r;
      s.(router := Deleting(r, s.router.due), calls := s.calls[r.id := s.calls[r.id].(slot := Some(r))],
         delivered := s.delivered[r.id := Some(r)])
    case Forget => s.(router := Releasing(s.router.r, s.router.due), chans := s.chans - {s.router.r.id})
    case RouterUnlock => s.(router := Reading, mutex := Nobody,
                             handled := if s.router.due then s.handled + {s.router.r.id} else s.handled)
    case StreamEnds => s.(router := Stopped, ended := true)
  }

  // ----- what stays true -----

  predicate RouterHolds(pc: RouterPc) {
    pc.Holding? || pc.Sending? || pc.Deleting? || pc.Releasing?
  }

  predicate Fresh(pc: CallPc) {
    pc == New || pc == Inserting
  }

  /** chanMutex is held by the one goroutine that is between lock and unlock. */
  ghost predicate MutexOk(calls: seq<Call>, router: RouterPc, mutex: Owner) {
    && (mutex == TheRouter <==> RouterHolds(router))
    && (forall k: nat :: k < |calls| ==> ((calls[k].pc == Inserting || calls[k].pc == Inserted) <==> mutex == TheCall(k)))
    && (mutex.TheCall? ==> mutex.k < |calls|)
  }

  /** One call, its map entry, its channel and what was ever sent into it. */
  ghost predicate CallOk(k: nat, c: Call, router: RouterPc, registered: bool, delivered: Option<Response>, posted: bool) {
    && (delivered.Some? ==> delivered.value.id == k && !Fresh(c.pc))
    && (Fresh(c.pc) ==> !registered && c.slot.None?)
    && (!Fresh(c.pc) ==> registered || delivered.Some?)
    && (registered && delivered.Some? ==> router.Deleting? && router.r.id == k)
    && (delivered.None? ==> c.slot.None? && !c.pc.Got?)
    && (c.slot.Some? ==> c.slot == delivered && !c.pc.Got?)
    && (c.pc.Got? ==> Some(c.pc.r) == delivered)
    && (delivered.Some? && !c.pc.Got? ==> c.slot == delivered)
    && (posted ==> !Fresh(c.pc) && c.pc != Inserted && c.pc != Registered)
    && (c.pc == Posting || c.pc == Waiting || c.pc.Got? || c.pc == Ended || c.pc == TimedOut ==> posted)
  }

  /** Where the router stands with the response in its hands. */
  ghost predicate RouterOk(router: RouterPc, chans: set<nat>, delivered: seq<Option<Response>>, posted: seq<bool>) {
    match router
    case Wanting(r, due) => due ==> r.id < |posted| && posted[r.id]
    case Holding(r, due) => due ==> r.id < |posted| && posted[r.id]
    case Sending(r, due) => r.id in chans && r.id < |delivered| && delivered[r.id].None?
    case Deleting(r, due) => r.id in chans && r.id < |delivered| && delivered[r.id].Some?
    case Releasing(r, due) => due ==> r.id < |delivered| && delivered[r.id].Some?
    case _ => true
  }

  ghost predicate CallsOk(s: State)
    requires |s.delivered| == |s.calls| == |s.posted|
  {
    forall k: nat :: k < |s.calls| ==> CallOk(k, s.calls[k], s.router, k in s.chans, s.delivered[k], s.posted[k])
  }

  ghost predicate Inv(s: State) {
    && |s.delivered| == |s.calls| == |s.posted|
    && MutexOk(s.calls, s.router, s.mutex)
    && (forall k: nat :: k in s.chans ==> k < |s.calls|)
    && RouterOk(s.router, s.chans, s.delivered, s.posted)
    && CallsOk(s)
    && (s.ended <==> s.router == Stopped)
    && (forall k: nat :: k in s.handled ==> k < |s.calls| && s.delivered[k].Some?)
  }

  lemma InitInv(timeouts: seq<bool>)
    ensures Inv(Init(timeouts))
  {
  }

  predicate IsCallAction(a: Action) {
    a.Lock? || a.Insert? || a.Unlock? || a.Post? || a.PostFails? || a.Accepted?
    || a.TakeResponse? || a.TakeEnded? || a.TakeTimeout?
  }

  lemma CallActorKeeps(s: State, a: Action)
    requires Inv(s) && Enabled(s, a) && IsCallAction(a)
    ensures var s', k := Step(s, a), a.k;
            |s'.delivered| == |s'.calls| == |s'.posted| == |s.calls|
            && CallOk(k, s'.calls[k], s'.router, k in s'.chans, s'.delivered[k], s'.posted[k])
  {
    var k := a.k;
    assert CallOk(k, s.calls[k], s.router, k in s.chans, s.delivered[k], s.posted[k]);
  }

  lemma OtherCallKeeps(s: State, a: Action, j: nat)
    requires Inv(s) && Enabled(s, a) && IsCallAction(a) && j < |s.calls| && j != a.k
    ensures var s' := Step(s, a);
            |s'.delivered| == |s'.calls| == |s'.posted| == |s.calls|
            && CallOk(j, s'.calls[j], s'.router, j in s'.chans, s'.delivered[j], s'.posted[j])
  {
    assert CallOk(j, s.calls[j], s.router, j in s.chans, s.delivered[j], s.posted[j]);
  }

  lemma CallStepKeeps(s: State, a: Action)
    requires Inv(s) && Enabled(s, a) && IsCallAction(a)
    ensures Inv(Step(s, a))
  {
    var s', k := Step(s, a), a.k;
    assert CallOk(k, s.calls[k], s.router, k in s.chans, s.delivered[k], s.posted[k]);
    CallActorKeeps(s, a);
    assert RouterOk(s'.router, s'.chans, s'.delivered, s'.posted);
    forall j: nat | j < |s'.calls|
      ensures CallOk(j, s'.calls[j], s'.router, j in s'.chans, s'.delivered[j], s'.posted[j])
    {
      if j != k { OtherCallKeeps(s, a, j); }
    }
  }

  lemma RouterStepKeeps(s: State, a: Action)
    requires Inv(s) && Enabled(s, a) && !IsCallAction(a)
    ensures Inv(Step(s, a))
  {
    var s' := Step(s, a);
    forall j: nat | j < |s'.calls|
      ensures CallOk(j, s'.calls[j], s'.router, j in s'.chans, s'.delivered[j], s'.posted[j])
    {
      assert CallOk(j, s.calls[j], s.router, j in s.chans, s.delivered[j], s.posted[j]);
    }
    if s.router.Holding? && s.router.r.id < |s.calls| {
      var k := s.router.r.id;
      assert CallOk(k, s.calls[k], s.router, k in s.chans, s.delivered[k], s.posted[k]);
    }
  }

  lemma InvKept(s: State, a: Action)
    requires Inv(s) && Enabled(s, a)
    ensures Inv(Step(s, a))
  {
    if IsCallAction(a) {
      CallStepKeeps(s, a);
    } else {
      RouterStepKeeps(s, a);
    }
  }

  // ----- whole runs -----

  ghost predicate IsRun(states: seq<State>, actions: seq<Action>) {
    && |states| == |actions| + 1
    && forall i: nat :: i < |actions| ==> StepAt(states, actions, i)
  }

  ghost predicate StepAt(states: seq<State>, actions: seq<Action>, i: nat)
    requires i < |actions| && |states| == |actions| + 1
  {
    Enabled(states[i], actions[i]) && states[i + 1] == Step(states[i], actions[i])
  }

  lemma {:induction false} RunIsSafe(timeouts: seq<bool>, states: seq<State>, actions: seq<Action>, i: nat)
    requires IsRun(states, actions) && states[0] == Init(timeouts) && i < |states|
    ensures Inv(states[i]) && |states[i].calls| == |timeouts|
  {
    if i == 0 {
      InitInv(timeouts);
    } else {
      RunIsSafe(timeouts, states, actions, i - 1);
      assert StepAt(states, actions, i - 1);
      InvKept(states[i - 1], actions[i - 1]);
    }
  }

  /** What was sent into a call's channel stays what was sent into it. */
  lemma {:induction false} DeliveryIsFinal(timeouts: seq<bool>, states: seq<State>, actions: seq<Action>,
                                           i: nat, j: nat, k: nat)
    requires IsRun(states, actions) && states[0] == Init(timeouts) && i <= j < |states| && k < |timeouts|
    ensures k < |states[i].delivered| && k < |states[j].delivered|
    ensures states[i].delivered[k].Some? ==> states[j].delivered[k] == states[i].delivered[k]
    decreases j - i
  {
    RunIsSafe(timeouts, states, actions, i);
    RunIsSafe(timeouts, states, actions, j);
    if i < j {
      DeliveryIsFinal(timeouts, states, actions, i, j - 1, k);
      RunIsSafe(timeouts, states, actions, j - 1);
      assert StepAt(states, actions, j - 1);
    }
  }

  /** In any run at most one response is delivered to a call, duplicates or not. */
  lemma DeliveredAtMostOnce(timeouts: seq<bool>, states: seq<State>, actions: seq<Action>, i: nat, j: nat)
    requires IsRun(states, actions) && states[0] == Init(timeouts) && i < j < |actions|
    requires actions[i].Deliver? && actions[j].Deliver?
    ensures states[i].router.Sending? && states[j].router.Sending? && states[i].router.r.id != states[j].router.r.id
  {
    RunIsSafe(timeouts, states, actions, i);
    RunIsSafe(timeouts, states, actions, j);
    assert StepAt(states, actions, i) && StepAt(states, actions, j);
    DeliveryIsFinal(timeouts, states, actions, i + 1, j, states[i].router.r.id);
  }

  /** A call only ever returns a response to its own request, the one delivered. */
  lemma ReturnsItsOwnResponse(s: State, k: nat)
    requires Inv(s) && k < |s.calls| && s.calls[k].pc.Got?
    ensures s.calls[k].pc.r.id == k && s.delivered[k] == Some(s.calls[k].pc.r)
  {
    assert CallOk(k, s.calls[k], s.router, k in s.chans, s.delivered[k], s.posted[k]);
  }

  /** The router never blocks while it holds chanMutex, and neither does a call. */
  lemma MutexHolderCanStep(s: State)
    requires Inv(s) && s.mutex != Nobody
    ensures s.mutex == TheRouter ==>
              Enabled(s, LookUp) || Enabled(s, Deliver) || Enabled(s, Forget) || Enabled(s, RouterUnlock)
    ensures s.mutex.TheCall? ==> Enabled(s, Insert(s.mutex.k)) || Enabled(s, Unlock(s.mutex.k))
  {
    if s.router.Sending? {
      var k := s.router.r.id;
      assert CallOk(k, s.calls[k], s.router, k in s.chans, s.delivered[k], s.posted[k]);
    }
  }

  /** A response read after the daemon had the request is never missed: once the
      router is done with it, a response is in the call's channel until the call
      takes it, whenever the call gets round to waiting. */
  lemma DueResponseIsNeverMissed(s: State, k: nat)
    requires Inv(s) && k in s.handled
    ensures s.delivered[k].Some? && s.delivered[k].value.id == k
    ensures s.calls[k].pc.Got? || s.calls[k].slot == s.delivered[k]
    ensures s.calls[k].pc == Waiting ==> Enabled(s, TakeResponse(k))
  {
    assert CallOk(k, s.calls[k], s.router, k in s.chans, s.delivered[k], s.posted[k]);
  }

  /** A waiting call whose response has been delivered is certain to return it
      exactly when the stream is still open and it has no time limit: select
      picks any ready case. */
  lemma SelectReturnsDelivered(s: State, k: nat)
    requires Inv(s) && CallAt(s, k, Waiting) && s.delivered[k].Some?
    ensures (forall a :: Enabled(s, a) && Step(s, a).calls != s.calls && IsCallAction(a) && a.k == k ==>
                           Step(s, a).calls[k].pc == Got(s.delivered[k].value))
            <==> !s.ended && !s.calls[k].hasTimeout
  {
    assert CallOk(k, s.calls[k], s.router, k in s.chans, s.delivered[k], s.posted[k]);
    if s.ended {
      assert Enabled(s, TakeEnded(k)) && Step(s, TakeEnded(k)).calls[k].pc == Ended;
    }
    if s.calls[k].hasTimeout {
      assert Enabled(s, TakeTimeout(k)) && Step(s, TakeTimeout(k)).calls[k].pc == TimedOut;
    }
  }

  /** Reachable from the start, by some run. */
  ghost predicate Reachable(timeouts: seq<bool>, s: State) {
    exists states, actions :: RunTo(timeouts, states, actions, s)
  }

  ghost predicate RunTo(timeouts: seq<bool>, states: seq<State>, actions: seq<Action>, s: State) {
    IsRun(states, actions) && states[0] == Init(timeouts) && states[|actions|] == s
  }

  lemma StartIsReachable(timeouts: seq<bool>)
    ensures Reachable(timeouts, Init(timeouts))
  {
    assert RunTo(timeouts, [Init(timeouts)], [], Init(timeouts));
  }

  lemma Reach(timeouts: seq<bool>, s: State, a: Action)
    requires Reachable(timeouts, s) && Enabled(s, a)
    ensures Reachable(timeouts, Step(s, a))
  {
    var states, actions :| RunTo(timeouts, states, actions, s);
    var states', actions' := states + [Step(s, a)], actions + [a];
    forall i: nat | i < |actions'| ensures StepAt(states', actions', i) {
      if i < |actions| { assert StepAt(states, actions, i); }
    }
    assert RunTo(timeouts, states', actions', Step(s, a));
  }

  /** The other side of it: the daemon answers and closes the stream, and the
      call reports a lost connection although it has been answered. */
  lemma AnsweredCallMayReportLostConnection()
    ensures exists s :: Reachable([false], s) && AnsweredButEnded(s)
  {
    var s := RegisteredAndPosted();
    var r := Response(0, "ok");
    Reach([false], s, Read(r));
    s := Step(s, Read(r));
    Reach([false], s, RouterLock);
    s := Step(s, RouterLock);
    Reach([false], s, LookUp);
    s := Step(s, LookUp);
    Reach([false], s, Deliver);
    s := Step(s, Deliver);
    Reach([false], s, Forget);
    s := Step(s, Forget);
    Reach([false], s, RouterUnlock);
    s := Step(s, RouterUnlock);
    Reach([false], s, StreamEnds);
    s := Step(s, StreamEnds);
    Reach([false], s, TakeEnded(0));
    s := Step(s, TakeEnded(0));
    assert AnsweredButEnded(s);
  }

  predicate AnsweredButEnded(s: State) {
    |s.calls| == 1 && s.calls[0].pc == Ended && s.calls[0].slot == Some(Response(0, "ok"))
  }

  lemma RegisteredAndPosted() returns (s: State)
    ensures Reachable([false], s)
    ensures s == State([Call(Waiting, None, false)], Reading, {0}, Nobody, false, [None], [true], {})
  {
    s := Init([false]);
    StartIsReachable([false]);
    assert s == State([Call(New, None, false)], Reading, {}, Nobody, false, [None], [false], {});
    Reach([false], s, Lock(0));
    s := Step(s, Lock(0));
    Reach([false], s, Insert(0));
    s := Step(s, Insert(0));
    Reach([false], s, Unlock(0));
    s := Step(s, Unlock(0));
    Reach([false], s, Post(0));
    s := Step(s, Post(0));
    Reach([false], s, Accepted(0));
    s := Step(s, Accepted(0));
  }
}
