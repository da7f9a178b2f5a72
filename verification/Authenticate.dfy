/** cmd/mcpd/http.go and cmd/mcpd/uid_pin.go: who a bearer token stands for, and
    the OS account pinned to a name on its first use. */
module Authenticate {
  import opened Text
  import opened Reload

  type Digest = string -> string

  /** Names of OS accounts to their uids, as they are right now. */
  type Accounts = map<string, string>

  const BEARER := "Bearer "

  // ----- what a request amounts to -----

  /** The first entry that accepts the token, from the i-th on. */
  function Matching(users: seq<User>, token: string, digest: Digest, i: nat): Option<nat>
    requires i <= |users|
    decreases |users| - i
  {
    if i == |users| then None
    else if Accepts(TokOf(users[i]), token, digest) then Some(i)
    else Matching(users, token, digest, i + 1)
  }

  function IndexOf(users: seq<User>, name: string, i: nat): Option<nat>
    requires i <= |users|
    decreases |users| - i
  {
    if i == |users| then None else if users[i].username == name then Some(i) else IndexOf(users, name, i + 1)
  }

  /** Whether the account behind the name is still the one pinned. */
  predicate PinHolds(users: seq<User>, name: string, accounts: Accounts) {
    name in accounts ==>
      match IndexOf(users, name, 0)
      case None => true
      case Some(i) => i < |users| ==> users[i].pinnedUid == "" || users[i].pinnedUid == accounts[name]
  }

  /** The users after the check: pinned on first use, a mismatch noted. */
  function AfterPin(users: seq<User>, name: string, accounts: Accounts): seq<User> {
    if name !in accounts then users
    else
      match IndexOf(users, name, 0)
      case None => users
      case Some(i) =>
        if i >= |users| then users
        else if users[i].pinnedUid == "" then users[i := users[i].(pinnedUid := accounts[name], osUid := accounts[name])]
        else if users[i].pinnedUid == accounts[name] then users
        else users[i := users[i].(osUid := accounts[name])]
  }

  datatype Request = Request(header: string, accounts: Accounts)

  /** The name a request's token stands for, if any. */
  function NameOf(users: seq<User>, r: Request, digest: Digest): Option<string> {
    if !HasPrefix(r.header, BEARER) then None
    else
      match Matching(users, r.header[|BEARER|..], digest, 0)
      case None => None
      case Some(i) => if i < |users| then Some(users[i].username) else None
  }

  function Answer(users: seq<User>, r: Request, digest: Digest): Option<string> {
    match NameOf(users, r, digest)
    case None => None
    case Some(name) => if PinHolds(users, name, r.accounts) then Some(name) else None
  }

  function Remembered(users: seq<User>, r: Request, digest: Digest): seq<User> {
    match NameOf(users, r, digest)
    case None => users
    case Some(name) => AfterPin(users, name, r.accounts)
  }

  // ----- what that means for the entries -----

  /** The header carries a token that this entry accepts, and none before it. */
  ghost predicate FirstAccepting(users: seq<User>, header: string, digest: Digest, i: nat) {
    && i < |users| && "Bearer " <= header
    && Accepts(TokOf(users[i]), header[7..], digest)
    && forall j :: 0 <= j < i ==> !Accepts(TokOf(users[j]), header[7..], digest)
  }

  /** There is an account of this name, and the entry that stands for the name is
      pinned to another one. */
  ghost predicate PinDiffers(users: seq<User>, name: string, accounts: Accounts) {
    && name in accounts
    && exists k: nat :: FirstNamed(users, name, k) && users[k].pinnedUid != "" && users[k].pinnedUid != accounts[name]
  }

  ghost predicate FirstNamed(users: seq<User>, name: string, k: nat) {
    k < |users| && users[k].username == name && forall j :: 0 <= j < k ==> users[j].username != name
  }

  lemma AnswerIs(users: seq<User>, r: Request, digest: Digest)
    ensures Answer(users, r, digest).Some? ==>
              exists i: nat :: FirstAccepting(users, r.header, digest, i) && users[i].username == Answer(users, r, digest).value
    ensures (forall i: nat :: !FirstAccepting(users, r.header, digest, i)) ==> Remembered(users, r, digest) == users
    ensures forall i: nat :: FirstAccepting(users, r.header, digest, i) ==>
              && (Answer(users, r, digest) == None <==> PinDiffers(users, users[i].username, r.accounts))
              && NameOf(users, r, digest) == Some(users[i].username)
  {
    if BEARER <= r.header {
      var token := r.header[|BEARER|..];
      MatchingIs(users, token, digest, 0);
      if Matching(users, token, digest, 0).Some? {
        var i := Matching(users, token, digest, 0).value;
        assert FirstAccepting(users, r.header, digest, i);
        PinHoldsIs(users, users[i].username, r.accounts);
      }
    }
  }

  lemma PinHoldsIs(users: seq<User>, name: string, accounts: Accounts)
    ensures PinHolds(users, name, accounts) <==> !PinDiffers(users, name, accounts)
  {
    IndexIs(users, name, 0);
    if IndexOf(users, name, 0).Some? {
      assert FirstNamed(users, name, IndexOf(users, name, 0).value);
    }
  }

  /** Pinned on first use: the entry that stands for the name gets the account's
      uid if it had none, and keeps the pin it has; every other entry, and
      everything else, stays. */
  lemma AfterPinIs(users: seq<User>, name: string, accounts: Accounts, k: nat)
    requires k < |users|
    ensures |AfterPin(users, name, accounts)| == |users|
    ensures var after := AfterPin(users, name, accounts)[k];
            if name in accounts && FirstNamed(users, name, k)
            then && after.osUid == (if users[k].pinnedUid == accounts[name] != "" then users[k].osUid else accounts[name])
                 && after.pinnedUid == (if users[k].pinnedUid == "" then accounts[name] else users[k].pinnedUid)
                 && after == users[k].(pinnedUid := after.pinnedUid, osUid := after.osUid)
            else after == users[k]
  {
    IndexIs(users, name, 0);
  }

  // ----- the methods -----

  class Daemon {
    var users: seq<User>

    constructor (users: seq<User>)
      ensures this.users == users
    {
      this.users := users;
    }

    /** checkAndPinUID. */
    method CheckAndPinUID(name: string, accounts: Accounts) returns (ok: bool)
      modifies this
      ensures ok == PinHolds(old(users), name, accounts) && users == AfterPin(old(users), name, accounts)
    {
      if name !in accounts {
        return true;
      }
      var uid := accounts[name];
      var found := FindName(users, name);
      if found.None? {
        return true;
      }
      var idx := found.value;
      if users[idx].pinnedUid == "" {
        users := users[idx := users[idx].(pinnedUid := uid, osUid := uid)];
        return true;
      }
      if users[idx].pinnedUid == uid {
        return true;
      }
      users := users[idx := users[idx].(osUid := uid)];
      return false;
    }

    /** authenticateRequest; the first entry that accepts the token decides. */
    method AuthenticateRequest(r: Request, digest: Digest) returns (user: Option<string>)
      modifies this
      ensures user == Answer(old(users), r, digest) && users == Remembered(old(users), r, digest)
      ensures user.Some? ==> exists i: nat :: FirstAccepting(old(users), r.header, digest, i) && old(users)[i].username == user.value
      ensures (forall i: nat :: !FirstAccepting(old(users), r.header, digest, i)) ==> user == None && users == old(users)
      ensures forall i: nat :: FirstAccepting(old(users), r.header, digest, i) ==>
                (user == None <==> PinDiffers(old(users), old(users)[i].username, r.accounts))
    {
      AnswerIs(users, r, digest);
      if !HasPrefix(r.header, BEARER) {
        return None;
      }
      var token := r.header[|BEARER|..];
      var snapshot := users;
      for i := 0 to |snapshot|
        invariant users == old(users) && Matching(snapshot, token, digest, 0) == Matching(snapshot, token, digest, i)
      {
        var u := snapshot[i];
        if u.hash != "" {
          if digest(u.salt + token) == u.hash {
            var ok := CheckAndPinUID(u.username, r.accounts);
            return if ok then Some(u.username) else None;
          }
          continue;
        }
        if u.token == token && u.token != "" {
          var ok := CheckAndPinUID(u.username, r.accounts);
          return if ok then Some(u.username) else None;
        }
      }
      return None;
    }
  }

  method FindName(users: seq<User>, name: string) returns (found: Option<nat>)
    ensures found == IndexOf(users, name, 0) && (found.Some? ==> found.value < |users|)
  {
    for i := 0 to |users|
      invariant IndexOf(users, name, 0) == IndexOf(users, name, i)
    {
      if users[i].username == name {
        return Some(i);
      }
    }
    return None;
  }

  // ----- pinning over any run of requests -----

  /** Only the pin fields change, and a pin that is set stays. */
  ghost predicate OnlyPins(a: seq<User>, b: seq<User>) {
    |a| == |b| && forall i :: 0 <= i < |a| ==> SameButPin(a[i], b[i])
  }

  predicate SameButPin(a: User, b: User) {
    a.username == b.username && TokOf(a) == TokOf(b) && (a.pinnedUid != "" ==> b.pinnedUid == a.pinnedUid)
  }

  lemma {:induction false} IndexIs(users: seq<User>, name: string, i: nat)
    requires i <= |users|
    ensures var r := IndexOf(users, name, i);
            && (r.Some? ==> i <= r.value < |users| && users[r.value].username == name
                            && forall j :: i <= j < r.value ==> users[j].username != name)
            && (r.None? ==> forall j :: i <= j < |users| ==> users[j].username != name)
    decreases |users| - i
  {
    if i < |users| && users[i].username != name {
      IndexIs(users, name, i + 1);
    }
  }

  /** Authenticating never changes a name or a credential, nor a pin once set. */
  lemma AuthenticatingOnlyPins(users: seq<User>, r: Request, digest: Digest)
    ensures OnlyPins(users, Remembered(users, r, digest))
  {
    if NameOf(users, r, digest).Some? {
      IndexIs(users, NameOf(users, r, digest).value, 0);
    }
  }

  lemma {:induction false} OnlyPinsTrans(a: seq<User>, b: seq<User>, c: seq<User>)
    requires OnlyPins(a, b) && OnlyPins(b, c)
    ensures OnlyPins(a, c)
  {
    forall i | 0 <= i < |a| ensures SameButPin(a[i], c[i]) {
      assert SameButPin(a[i], b[i]) && SameButPin(b[i], c[i]);
    }
  }

  /** `states` are the users before, between and after the requests. */
  ghost predicate IsRun(states: seq<seq<User>>, rs: seq<Request>, digest: Digest) {
    |states| == |rs| + 1 && forall i: nat :: i < |rs| ==> StepAt(states, rs, digest, i)
  }

  ghost predicate StepAt(states: seq<seq<User>>, rs: seq<Request>, digest: Digest, i: nat)
    requires i < |rs| && |states| == |rs| + 1
  {
    states[i + 1] == Remembered(states[i], rs[i], digest)
  }

  lemma {:induction false} RunOnlyPins(states: seq<seq<User>>, rs: seq<Request>, digest: Digest, j: nat, k: nat)
    requires IsRun(states, rs, digest) && j <= k <= |rs|
    ensures OnlyPins(states[j], states[k])
    decreases k - j
  {
    if j < k {
      var m := k - 1;
      RunOnlyPins(states, rs, digest, j, m);
      assert StepAt(states, rs, digest, m);
      AuthenticatingOnlyPins(states[m], rs[m], digest);
      OnlyPinsTrans(states[j], states[m], states[k]);
    }
  }

  /** An answer means that the account behind the name, if there is one, is the
      one pinned from then on. */
  lemma AnswerIsPinned(users: seq<User>, r: Request, digest: Digest, name: string) returns (i: nat)
    requires Answer(users, r, digest) == Some(name) && name in r.accounts
    ensures i < |users| && IndexOf(users, name, 0) == Some(i) && |Remembered(users, r, digest)| == |users|
    ensures Remembered(users, r, digest)[i].pinnedUid == r.accounts[name]
  {
    MatchingIs(users, r.header[|BEARER|..], digest, 0);
    IndexIs(users, name, 0);
    i := IndexOf(users, name, 0).value;
  }

  lemma {:induction false} MatchingIs(users: seq<User>, token: string, digest: Digest, i: nat)
    requires i <= |users|
    ensures var r := Matching(users, token, digest, i);
            && (r.Some? ==> i <= r.value < |users| && Accepts(TokOf(users[r.value]), token, digest)
                            && forall j :: i <= j < r.value ==> !Accepts(TokOf(users[j]), token, digest))
            && (r.None? ==> forall j :: i <= j < |users| ==> !Accepts(TokOf(users[j]), token, digest))
    decreases |users| - i
  {
    if i < |users| && !Accepts(TokOf(users[i]), token, digest) {
      MatchingIs(users, token, digest, i + 1);
    }
  }

  lemma {:induction false} SameIndex(a: seq<User>, b: seq<User>, name: string, i: nat)
    requires OnlyPins(a, b) && i <= |a|
    ensures IndexOf(a, name, i) == IndexOf(b, name, i)
    decreases |a| - i
  {
    if i < |a| {
      assert SameButPin(a[i], b[i]);
      SameIndex(a, b, name, i + 1);
    }
  }

  /** Trust on first use: in any run of requests, all that are answered for one
      name found the same OS account behind it. */
  lemma OneAccountPerName(states: seq<seq<User>>, rs: seq<Request>, digest: Digest, j: nat, k: nat, name: string)
    requires IsRun(states, rs, digest) && j < k < |rs|
    requires Answer(states[j], rs[j], digest) == Some(name) == Answer(states[k], rs[k], digest)
    requires name in rs[j].accounts && name in rs[k].accounts && rs[j].accounts[name] != ""
    ensures rs[k].accounts[name] == rs[j].accounts[name]
  {
    var after := j + 1;
    var i := AnswerIsPinned(states[j], rs[j], digest, name);
    assert StepAt(states, rs, digest, j);
    AuthenticatingOnlyPins(states[j], rs[j], digest);
    RunOnlyPins(states, rs, digest, after, k);
    SameIndex(states[j], states[after], name, 0);
    SameIndex(states[after], states[k], name, 0);
    assert SameButPin(states[after][i], states[k][i]);
    assert PinHolds(states[k], name, rs[k].accounts);
  }

  /** A token keeps standing for the same name through any run of requests. */
  lemma TokensKeepTheirName(states: seq<seq<User>>, rs: seq<Request>, digest: Digest, k: nat, r: Request)
    requires IsRun(states, rs, digest) && k <= |rs|
    ensures NameOf(states[k], r, digest) == NameOf(states[0], r, digest)
  {
    RunOnlyPins(states, rs, digest, 0, k);
    if HasPrefix(r.header, BEARER) {
      SameMatching(states[0], states[k], r.header[|BEARER|..], digest, 0);
      MatchingIs(states[0], r.header[|BEARER|..], digest, 0);
      if Matching(states[0], r.header[|BEARER|..], digest, 0).Some? {
        var i := Matching(states[0], r.header[|BEARER|..], digest, 0).value;
        assert SameButPin(states[0][i], states[k][i]);
      }
    }
  }

  lemma {:induction false} SameMatching(a: seq<User>, b: seq<User>, token: string, digest: Digest, i: nat)
    requires OnlyPins(a, b) && i <= |a|
    ensures Matching(a, token, digest, i) == Matching(b, token, digest, i)
    decreases |a| - i
  {
    if i < |a| {
      assert SameButPin(a[i], b[i]);
      SameMatching(a, b, token, digest, i + 1);
    }
  }
}
