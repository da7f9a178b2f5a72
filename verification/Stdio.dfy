/** cmd/mcpd/stdio.go and internal/rpc/rpc.go: `serveStdio` as a reader, one
    goroutine per request, a bounded channel and a single writer, interleaved
    in any order. */
module Stdio {
  import opened Text

  const CAPACITY := 16

  /** `id` is absent for a notification. */
  datatype Request = Request(id: Option<nat>, method_: string)

  /** One line of standard input, trimmed and decoded. */
  datatype Line = Blank | Garbage | Message(req: Request)

  /** Who sent a message: the reader for its n-th undecodable line, or the
      goroutine of the k-th request, early (HandleResourcesRead) or at its end. */
  datatype Origin = ParseError(n: nat) | Answer(k: nat, early: bool)

  datatype Msg = Msg(origin: Origin, text: string)

  /** ProcessJSONRPC: before dispatch, at the early send of a cache hit or a
      refusal, at the send that ends the function, at the deferred Done. */
  datatype WorkerPc = Start | AtEarly | AtFinal | Exiting | Finished

  datatype Worker = Worker(req: Request, pc: WorkerPc, early: bool)

  datatype ReaderPc = Scanning | SendingError | Waiting | Closing | Joining | Returned

  datatype WriterPc = Ranging | Writing(msg: Msg) | AtNewline(text: string) | Flushing | Done

  datatype State = State(
    input: seq<Line>,          // everything standard input will ever deliver
    pos: nat,                  // lines scanned
    reader: ReaderPc,
    errors: nat,               // undecodable lines met
    workers: seq<Worker>,
    inflight: nat,             // the wait group's counter
    buffer: seq<Msg>,          // session.Event
    closed: bool,
    panicked: bool,            // a send on a closed channel
    writer: WriterPc,
    pending: string,           // bufio.Writer's buffer
    out: string,               // standard output
    sent: seq<Msg>,            // history: every message sent
    taken: nat)                // history: how many of them the writer received

  function Init(input: seq<Line>): State {
    State(input, 0, Scanning, 0, [], 0, [], false, false, Ranging, "", "", [], 0)
  }

  datatype Action =
    | Scan | SendParseError(text: string) | WaitDone | CloseChannel | Join
    | Dispatch(k: nat, early: bool) | SendEarly(k: nat, text: string) | SendFinal(k: nat, text: string) | Exit(k: nat)
    | Receive | WriteText(spill: nat) | WriteNewline | Flush | RangeEnds

  /** json.Marshal escapes control characters: a response has no newline in it. */
  predicate OneLine(text: string) {
    '\n' !in text
  }

  // ----- steps -----

  predicate CanSend(s: State) {
    s.closed || |s.buffer| < CAPACITY
  }

  function Send(s: State, m: Msg): State {
    if s.closed then s.(panicked := true)
    else s.(buffer := s.buffer + [m], sent := s.sent + [m])
  }

  predicate WorkerAt(s: State, k: nat, pc: WorkerPc) {
    k < |s.workers| && s.workers[k].pc == pc
  }

  function Moved(s: State, k: nat, pc: WorkerPc): State
    requires k < |s.workers|
  {
    s.(workers := s.workers[k := s.workers[k].(pc := pc)])
  }

  predicate Enabled(s: State, a: Action) {
    match a
    case Scan => s.reader == Scanning
    case SendParseError(text) => s.reader == SendingError && CanSend(s) && OneLine(text)
    case WaitDone => s.reader == Waiting && s.inflight == 0
    case CloseChannel => s.reader == Closing
    case Join => s.reader == Joining && s.writer == Done
    case Dispatch(k, early) => WorkerAt(s, k, Start) && (early ==> s.workers[k].req.method_ == "resources/read")
    case SendEarly(k, text) => WorkerAt(s, k, AtEarly) && CanSend(s) && OneLine(text)
    case SendFinal(k, text) => WorkerAt(s, k, AtFinal) && CanSend(s) && OneLine(text)
    case Exit(k) => WorkerAt(s, k, Exiting)
    case Receive => s.writer == Ranging && s.buffer != []
    case WriteText(spill) => s.writer.Writing? && spill <= |s.pending + s.writer.msg.text|
    case WriteNewline => s.writer.AtNewline?
    case Flush => s.writer == Flushing
    case RangeEnds => s.writer == Ranging && s.buffer == [] && s.closed
  }

  function Step(s: State, a: Action): State
    requires Enabled(s, a)
  {
    match a
    case Scan =>
      if s.pos >= |s.input| then s.(reader := Waiting)
      else
        var s' := s.(pos := s.pos + 1);
        (match s.input[s.pos]
         case Blank => s'
         case Garbage => s'.(reader := SendingError)
         case Message(req) => s'.(inflight := s.inflight + 1, workers := s.workers + [Worker(req, Start, false)]))
    case SendParseError(text) =>
      Send(s, Msg(ParseError(s.errors), text)).(reader := Scanning, errors := s.errors + 1)
    case WaitDone => s.(reader := Closing)
    case CloseChannel => s.(closed := true, reader := Joining)
    case Join => s.(reader := Returned)
    case Dispatch(k, early) =>
      if s.workers[k].req.id.None? then Moved(s, k, Exiting)
      else s.(workers := s.workers[k := Worker(s.workers[k].req, if early then AtEarly else AtFinal, early)])
    case SendEarly(k, text) => Moved(Send(s, Msg(Answer(k, true), text)), k, AtFinal)
    case SendFinal(k, text) => Moved(Send(s, Msg(Answer(k, false), text)), k, Exiting)
    case Exit(k) => Moved(s, k, Finished).(inflight := if s.inflight == 0 then 0 else s.inflight - 1)
    case Receive => s.(writer := Writing(s.buffer[0]), buffer := s.buffer[1..], taken := s.taken + 1)
    case WriteText(spill) =>
      var all := s.pending + s.writer.msg.text;
      s.(out := s.out + all[..spill], pending := all[spill..], writer := AtNewline(s.writer.msg.text))
    case WriteNewline => s.(pending := s.pending + "\n", writer := Flushing)
    case Flush => s.(out := s.out + s.pending, pending := "", writer := Ranging)
    case RangeEnds => s.(writer := Done)
  }

  // ----- what stays true -----

  /** The first `n` messages, a line each. */
  function Lines(msgs: seq<Msg>, n: nat): string
    requires n <= |msgs|
  {
    if n == 0 then "" else Lines(msgs, n - 1) + msgs[n - 1].text + "\n"
  }

  /** How often `o` sent, among the first `n` messages. */
  function Count(msgs: seq<Msg>, n: nat, o: Origin): nat
    requires n <= |msgs|
  {
    if n == 0 then 0 else Count(msgs, n - 1, o) + (if msgs[n - 1].origin == o then 1 else 0)
  }

  /** The requests among the first `n` lines. */
  function Requests(lines: seq<Line>, n: nat): seq<Request>
    requires n <= |lines|
  {
    if n == 0 then []
    else if lines[n - 1].Message? then Requests(lines, n - 1) + [lines[n - 1].req]
    else Requests(lines, n - 1)
  }

  function Garbled(lines: seq<Line>, n: nat): nat
    requires n <= |lines|
  {
    if n == 0 then 0 else Garbled(lines, n - 1) + (if lines[n - 1].Garbage? then 1 else 0)
  }

  function Unfinished(ws: seq<Worker>, n: nat): nat
    requires n <= |ws|
  {
    if n == 0 then 0 else Unfinished(ws, n - 1) + (if ws[n - 1].pc == Finished then 0 else 1)
  }

  /** How many times a goroutine has sent, early and finally, at each point. */
  function SentBy(w: Worker, early: bool): nat {
    if w.req.id.None? then 0
    else if early then (if w.early && w.pc != Start && w.pc != AtEarly then 1 else 0)
    else (if w.pc == Exiting || w.pc == Finished then 1 else 0)
  }

  ghost predicate WorkerOk(w: Worker) {
    && (w.early ==> w.req.method_ == "resources/read" && w.req.id.Some?)
    && (w.pc == Start ==> !w.early)
    && (w.pc == AtEarly ==> w.early)
    && (w.pc == AtEarly || w.pc == AtFinal ==> w.req.id.Some?)
  }

  /** Every goroutine has sent exactly what its program point says. */
  ghost predicate Accounted(sent: seq<Msg>, workers: seq<Worker>, errors: nat) {
    && (forall k: nat, early :: Count(sent, |sent|, Answer(k, early)) == if k < |workers| then SentBy(workers[k], early) else 0)
    && (forall n: nat :: Count(sent, |sent|, ParseError(n)) == if n < errors then 1 else 0)
  }

  /** The writer's output is whole lines, in channel order, up to its point. */
  ghost predicate Written(sent: seq<Msg>, taken: nat, buffer: seq<Msg>, writer: WriterPc, pending: string, out: string) {
    && taken <= |sent| && buffer == sent[taken..]
    && match writer
       case Ranging => pending == "" && out == Lines(sent, taken)
       case Done => pending == "" && out == Lines(sent, taken)
       case Writing(m) => taken > 0 && m == sent[taken - 1] && pending == "" && out == Lines(sent, taken - 1)
       case AtNewline(text) => taken > 0 && text == sent[taken - 1].text &&
                               out + pending == Lines(sent, taken - 1) + text
       case Flushing => out + pending == Lines(sent, taken)
  }

  ghost predicate Control(s: State) {
    && !s.panicked
    && |s.buffer| <= CAPACITY
    && (s.closed <==> s.reader == Joining || s.reader == Returned)
    && (s.reader == Closing || s.closed ==> s.inflight == 0)
    && (s.reader == Waiting || s.reader == Closing || s.closed ==> s.pos == |s.input|)
    && (s.writer == Done ==> s.closed && s.buffer == [])
    && (s.reader == Returned ==> s.writer == Done)
  }

  ghost predicate Consumed(lines: seq<Line>, pos: nat, workers: seq<Worker>, inflight: nat, errors: nat)
    requires pos <= |lines|
  {
    && inflight == Unfinished(workers, |workers|)
    && |workers| == |Requests(lines, pos)|
    && (forall k :: 0 <= k < |workers| ==> workers[k].req == Requests(lines, pos)[k] && WorkerOk(workers[k]))
    && errors == Garbled(lines, pos)
  }

  ghost predicate AllOneLine(msgs: seq<Msg>) {
    forall i :: 0 <= i < |msgs| ==> OneLine(msgs[i].text)
  }

  function Met(s: State): nat {
    s.errors + (if s.reader == SendingError then 1 else 0)
  }

  ghost predicate Inv(s: State) {
    && s.pos <= |s.input|
    && Control(s)
    && Consumed(s.input, s.pos, s.workers, s.inflight, Met(s))
    && Written(s.sent, s.taken, s.buffer, s.writer, s.pending, s.out)
    && Accounted(s.sent, s.workers, s.errors)
    && AllOneLine(s.sent)
  }

  lemma InitInv(input: seq<Line>)
    ensures Inv(Init(input))
  {
  }

  lemma {:induction false} UnfinishedUpdate(ws: seq<Worker>, k: nat, w: Worker, n: nat)
    requires k < |ws| && n <= |ws|
    ensures Unfinished(ws[k := w], n) ==
            if k < n then Unfinished(ws, n) - (if ws[k].pc == Finished then 0 else 1) + (if w.pc == Finished then 0 else 1)
            else Unfinished(ws, n)
  {
    if n > 0 {
      UnfinishedUpdate(ws, k, w, n - 1);
    }
  }

  lemma {:induction false} UnfinishedAppend(ws: seq<Worker>, w: Worker, n: nat)
    requires n <= |ws|
    ensures Unfinished(ws + [w], n) == Unfinished(ws, n)
  {
    if n > 0 {
      UnfinishedAppend(ws, w, n - 1);
    }
  }

  lemma {:induction false} SomeoneUnfinished(ws: seq<Worker>, n: nat) returns (k: nat)
    requires n <= |ws| && Unfinished(ws, n) > 0
    ensures k < n && ws[k].pc != Finished
  {
    if ws[n - 1].pc == Finished {
      k := SomeoneUnfinished(ws, n - 1);
    } else {
      k := n - 1;
    }
  }

  lemma {:induction false} AllFinished(ws: seq<Worker>, k: nat, n: nat)
    requires k < n <= |ws| && Unfinished(ws, n) == 0
    ensures ws[k].pc == Finished
  {
    if k < n - 1 {
      AllFinished(ws, k, n - 1);
    }
  }

  lemma {:induction false} CountAppend(msgs: seq<Msg>, m: Msg, n: nat, o: Origin)
    requires n <= |msgs|
    ensures Count(msgs + [m], n, o) == Count(msgs, n, o)
  {
    if n > 0 {
      CountAppend(msgs, m, n - 1, o);
    }
  }

  lemma {:induction false} LinesAppend(msgs: seq<Msg>, m: Msg, n: nat)
    requires n <= |msgs|
    ensures Lines(msgs + [m], n) == Lines(msgs, n)
  {
    if n > 0 {
      LinesAppend(msgs, m, n - 1);
    }
  }

  /** One more message counts for its sender and nobody else. */
  lemma CountSent(sent: seq<Msg>, m: Msg)
    ensures forall o :: Count(sent + [m], |sent| + 1, o) == Count(sent, |sent|, o) + if o == m.origin then 1 else 0
  {
    forall o ensures Count(sent + [m], |sent| + 1, o) == Count(sent, |sent|, o) + if o == m.origin then 1 else 0 {
      CountAppend(sent, m, |sent|, o);
    }
  }

  /** A goroutine that is not finished keeps the channel open. */
  lemma AtWork(s: State, k: nat)
    requires Inv(s) && k < |s.workers| && s.workers[k].pc != Finished
    ensures s.inflight > 0 && !s.closed && s.reader != Closing
  {
    if Unfinished(s.workers, |s.workers|) == 0 {
      AllFinished(s.workers, k, |s.workers|);
    }
  }

  predicate IsWriter(a: Action) {
    a.Receive? || a.WriteText? || a.WriteNewline? || a.Flush? || a.RangeEnds?
  }

  lemma ScanKeeps(s: State)
    requires Inv(s) && Enabled(s, Scan)
    ensures Inv(Step(s, Scan))
  {
    if s.pos < |s.input| && s.input[s.pos].Message? {
      UnfinishedAppend(s.workers, Worker(s.input[s.pos].req, Start, false), |s.workers|);
    }
  }

  /** What one goroutine's own step does to the wait group. */
  lemma WorkerMoves(lines: seq<Line>, pos: nat, workers: seq<Worker>, inflight: nat, met: nat, k: nat, w: Worker)
    requires pos <= |lines| && Consumed(lines, pos, workers, inflight, met)
    requires k < |workers| && workers[k].pc != Finished && w.req == workers[k].req && WorkerOk(w)
    ensures inflight > 0
    ensures Consumed(lines, pos, workers[k := w], if w.pc == Finished then inflight - 1 else inflight, met)
  {
    UnfinishedUpdate(workers, k, w, |workers|);
    if inflight == 0 {
      AllFinished(workers, k, |workers|);
    }
  }

  lemma WorkerSends(sent: seq<Msg>, workers: seq<Worker>, errors: nat, k: nat, w: Worker, m: Msg)
    requires Accounted(sent, workers, errors) && k < |workers| && m.origin.Answer? && m.origin.k == k
    requires forall early :: SentBy(w, early) == SentBy(workers[k], early) + if early == m.origin.early then 1 else 0
    ensures Accounted(sent + [m], workers[k := w], errors)
  {
    CountSent(sent, m);
  }

  lemma WorkerIsQuiet(sent: seq<Msg>, workers: seq<Worker>, errors: nat, k: nat, w: Worker)
    requires Accounted(sent, workers, errors) && k < |workers|
    requires forall early :: SentBy(w, early) == SentBy(workers[k], early)
    ensures Accounted(sent, workers[k := w], errors)
  {
  }

  lemma WorkerSendKeeps(s: State, a: Action)
    requires Inv(s) && Enabled(s, a) && (a.SendEarly? || a.SendFinal?)
    ensures Inv(Step(s, a))
  {
    var s', k := Step(s, a), a.k;
    var m := Msg(Answer(k, a.SendEarly?), a.text);
    AtWork(s, k);
    assert WorkerOk(s.workers[k]);
    WorkerMoves(s.input, s.pos, s.workers, s.inflight, Met(s), k, s'.workers[k]);
    WorkerSends(s.sent, s.workers, s.errors, k, s'.workers[k], m);
    SendKeepsWritten(s.sent, s.taken, s.buffer, s.writer, s.pending, s.out, m);
  }

  lemma WorkerMoveKeeps(s: State, a: Action)
    requires Inv(s) && Enabled(s, a) && (a.Dispatch? || a.Exit?)
    ensures Inv(Step(s, a))
  {
    if a.Dispatch? { DispatchKeeps(s, a); } else { ExitKeeps(s, a); }
  }

  lemma DispatchKeeps(s: State, a: Action)
    requires Inv(s) && Enabled(s, a) && a.Dispatch?
    ensures Inv(Step(s, a))
  {
    assert WorkerOk(s.workers[a.k]);
    if s.workers[a.k].req.id.None? {
      QuietStepKeeps(s, a.k, s.workers[a.k].(pc := Exiting));
    } else {
      QuietStepKeeps(s, a.k, Worker(s.workers[a.k].req, if a.early then AtEarly else AtFinal, a.early));
    }
  }

  /** A goroutine moves on without sending and without finishing. */
  lemma QuietStepKeeps(s: State, k: nat, w: Worker)
    requires Inv(s) && k < |s.workers| && s.workers[k].pc != Finished && w.pc != Finished
    requires w.req == s.workers[k].req && WorkerOk(w) && forall early :: SentBy(w, early) == SentBy(s.workers[k], early)
    ensures Inv(s.(workers := s.workers[k := w]))
  {
    WorkerMoves(s.input, s.pos, s.workers, s.inflight, Met(s), k, w);
    WorkerIsQuiet(s.sent, s.workers, s.errors, k, w);
  }

  lemma ExitKeeps(s: State, a: Action)
    requires Inv(s) && Enabled(s, a) && a.Exit?
    ensures Inv(Step(s, a))
  {
    var s', k := Step(s, a), a.k;
    AtWork(s, k);
    assert WorkerOk(s.workers[k]);
    WorkerMoves(s.input, s.pos, s.workers, s.inflight, Met(s), k, s'.workers[k]);
    WorkerIsQuiet(s.sent, s.workers, s.errors, k, s'.workers[k]);
  }

  lemma ParseErrorKeeps(s: State, a: Action)
    requires Inv(s) && Enabled(s, a) && a.SendParseError?
    ensures Inv(Step(s, a))
  {
    var m := Msg(ParseError(s.errors), a.text);
    CountSent(s.sent, m);
    SendKeepsWritten(s.sent, s.taken, s.buffer, s.writer, s.pending, s.out, m);
  }

  lemma SendKeepsWritten(sent: seq<Msg>, taken: nat, buffer: seq<Msg>, writer: WriterPc, pending: string, out: string, m: Msg)
    requires Written(sent, taken, buffer, writer, pending, out)
    ensures Written(sent + [m], taken, buffer + [m], writer, pending, out)
  {
    LinesAppend(sent, m, taken);
    if taken > 0 { LinesAppend(sent, m, taken - 1); }
    assert (sent + [m])[taken..] == sent[taken..] + [m];
  }

  lemma WriterTextKept(s: State, a: Action)
    requires Written(s.sent, s.taken, s.buffer, s.writer, s.pending, s.out)
    requires a.WriteText? && Enabled(s, a)
    ensures var s' := Step(s, a); Written(s'.sent, s'.taken, s'.buffer, s'.writer, s'.pending, s'.out)
  {
    Spill(s.out, s.pending + s.writer.msg.text, a.spill);
  }

  lemma Spill(out: string, all: string, spill: nat)
    requires spill <= |all|
    ensures (out + all[..spill]) + all[spill..] == out + all
  {
  }

  lemma WriterKept(s: State, a: Action)
    requires Written(s.sent, s.taken, s.buffer, s.writer, s.pending, s.out)
    requires IsWriter(a) && Enabled(s, a)
    ensures var s' := Step(s, a); Written(s'.sent, s'.taken, s'.buffer, s'.writer, s'.pending, s'.out)
  {
    var s' := Step(s, a);
    if a.Receive? {
      assert s.buffer[0] == s.sent[s.taken];
      assert s.sent[s.taken..][1..] == s.sent[s.taken + 1..];
    } else if a.WriteText? {
      WriterTextKept(s, a);
    } else if a.WriteNewline? {
      assert s'.out + s'.pending == (s.out + s.pending) + "\n";
    }
  }

  lemma WriterKeeps(s: State, a: Action)
    requires Inv(s) && Enabled(s, a) && IsWriter(a)
    ensures Inv(Step(s, a))
  {
    WriterKept(s, a);
  }

  lemma InvKept(s: State, a: Action)
    requires Inv(s) && Enabled(s, a)
    ensures Inv(Step(s, a))
  {
    if a.Scan? {
      ScanKeeps(s);
    } else if a.SendEarly? || a.SendFinal? {
      WorkerSendKeeps(s, a);
    } else if a.Dispatch? || a.Exit? {
      WorkerMoveKeeps(s, a);
    } else if IsWriter(a) {
      WriterKeeps(s, a);
    } else if a.SendParseError? {
      ParseErrorKeeps(s, a);
    }
  }

  // ----- progress -----

  /** Until serveStdio returns, somebody can take a step. */
  lemma NoDeadlock(s: State)
    requires Inv(s) && s.reader != Returned
    ensures exists a :: Enabled(s, a)
  {
    match s.writer
    case Writing(_) => assert Enabled(s, WriteText(0));
    case AtNewline(_) => assert Enabled(s, WriteNewline);
    case Flushing => assert Enabled(s, Flush);
    case Done => assert Enabled(s, Join);
    case Ranging =>
      if s.buffer != [] {
        assert Enabled(s, Receive);
      } else {
        match s.reader
        case Scanning => assert Enabled(s, Scan);
        case SendingError => assert Enabled(s, SendParseError(""));
        case Closing => assert Enabled(s, CloseChannel);
        case Joining => assert Enabled(s, RangeEnds);
        case Waiting =>
          if s.inflight == 0 {
            assert Enabled(s, WaitDone);
          } else {
            var k := SomeoneUnfinished(s.workers, |s.workers|);
            match s.workers[k].pc
            case Start => assert Enabled(s, Dispatch(k, false));
            case AtEarly => assert Enabled(s, SendEarly(k, ""));
            case AtFinal => assert Enabled(s, SendFinal(k, ""));
            case Exiting => assert Enabled(s, Exit(k));
          }
      }
  }

  function WorkerRank(w: Worker): nat {
    match w.pc
    case Start => 12
    case AtEarly => 11
    case AtFinal => 6
    case Exiting => 1
    case Finished => 0
  }

  function WorkersRank(ws: seq<Worker>, n: nat): nat
    requires n <= |ws|
  {
    if n == 0 then 0 else WorkersRank(ws, n - 1) + WorkerRank(ws[n - 1])
  }

  lemma {:induction false} RankUpdate(ws: seq<Worker>, k: nat, w: Worker, n: nat)
    requires k < |ws| && n <= |ws|
    ensures WorkersRank(ws[k := w], n) ==
            if k < n then WorkersRank(ws, n) - WorkerRank(ws[k]) + WorkerRank(w) else WorkersRank(ws, n)
  {
    if n > 0 {
      RankUpdate(ws, k, w, n - 1);
    }
  }

  lemma {:induction false} RankAppend(ws: seq<Worker>, w: Worker, n: nat)
    requires n <= |ws|
    ensures WorkersRank(ws + [w], n) == WorkersRank(ws, n)
  {
    if n > 0 {
      RankAppend(ws, w, n - 1);
    }
  }

  function ReaderRank(pc: ReaderPc): nat {
    match pc
    case Scanning => 4
    case SendingError => 10
    case Waiting => 3
    case Closing => 2
    case Joining => 1
    case Returned => 0
  }

  function WriterRank(pc: WriterPc): nat {
    match pc
    case Writing(_) => 4
    case AtNewline(_) => 3
    case Flushing => 2
    case Ranging => 1
    case Done => 0
  }

  /** Bounds how many steps are still possible. */
  function Measure(s: State): nat
    requires s.pos <= |s.input|
  {
    14 * (|s.input| - s.pos) + ReaderRank(s.reader) + WorkersRank(s.workers, |s.workers|) + 4 * |s.buffer| + WriterRank(s.writer)
  }

  lemma ScanGetsCloser(s: State)
    requires Inv(s) && Enabled(s, Scan)
    ensures Step(s, Scan).pos <= |Step(s, Scan).input| && Measure(Step(s, Scan)) < Measure(s)
  {
    if s.pos < |s.input| && s.input[s.pos].Message? {
      RankAppend(s.workers, Worker(s.input[s.pos].req, Start, false), |s.workers|);
    }
  }

  lemma WorkerGetsCloser(s: State, a: Action)
    requires Inv(s) && Enabled(s, a) && (a.Dispatch? || a.SendEarly? || a.SendFinal? || a.Exit?)
    ensures Step(s, a).pos <= |Step(s, a).input| && Measure(Step(s, a)) < Measure(s)
  {
    AtWork(s, a.k);
    RankUpdate(s.workers, a.k, Step(s, a).workers[a.k], |s.workers|);
  }

  lemma EveryStepGetsCloser(s: State, a: Action)
    requires Inv(s) && Enabled(s, a)
    ensures Step(s, a).pos <= |Step(s, a).input| && Measure(Step(s, a)) < Measure(s)
  {
    if a.Scan? {
      ScanGetsCloser(s);
    } else if a.Dispatch? || a.SendEarly? || a.SendFinal? || a.Exit? {
      WorkerGetsCloser(s, a);
    }
  }

  // ----- whole runs -----

  ghost predicate IsRun(states: seq<State>, actions: seq<Action>) {
    && |states| == |actions| + 1
    && forall i: nat :: i < |actions| ==> StepAt(states, actions, i)
  }

  ghost predicate StepAt(states: seq<State>, actions: seq<Action>, i: nat)
    requires i < |actions| && |states| == |actions| + 1
  {
    Enabled(states[i], actions[i]) && states[i + 1] == Step(states[i], actions[i])
  }

  /** Whatever the schedule: no send ever meets a closed channel, output is
      whole lines in channel order, and a run can take at most 14 steps a line. */
  lemma {:induction false} RunIsSafe(states: seq<State>, actions: seq<Action>, i: nat)
    requires IsRun(states, actions) && i < |states|
    requires states[0] == Init(states[0].input)
    ensures Inv(states[i]) && states[i].input == states[0].input && |states[i].buffer| <= 16
    ensures Measure(states[i]) + i <= 14 * |states[0].input| + 5
  {
    if i == 0 {
      InitInv(states[0].input);
    } else {
      RunIsSafe(states, actions, i - 1);
      assert StepAt(states, actions, i - 1);
      InvKept(states[i - 1], actions[i - 1]);
      EveryStepGetsCloser(states[i - 1], actions[i - 1]);
    }
  }

  ghost predicate Answers(msgs: seq<Msg>, k: nat, req: Request) {
    var final, early := Count(msgs, |msgs|, Answer(k, false)), Count(msgs, |msgs|, Answer(k, true));
    if req.id.None? then final == 0 && early == 0
    else final == 1 && early <= 1 && (early == 1 ==> req.method_ == "resources/read")
  }

  /** What serveStdio has done when it returns. */
  ghost predicate Served(input: seq<Line>, msgs: seq<Msg>, out: string) {
    var reqs := Requests(input, |input|);
    && out == Lines(msgs, |msgs|)
    && AllOneLine(msgs)
    && (forall k: nat :: k < |reqs| ==> Answers(msgs, k, reqs[k]))
    && (forall k: nat, early :: k >= |reqs| ==> Count(msgs, |msgs|, Answer(k, early)) == 0)
    && (forall n: nat :: Count(msgs, |msgs|, ParseError(n)) == if n < Garbled(input, |input|) then 1 else 0)
  }

  /** On return every line was read, every request with an id was answered once
      (a resource read possibly once more, early), every notification was met
      with silence, and standard output is exactly the messages sent. */
  lemma ReturnedMeansServed(s: State)
    requires Inv(s) && s.reader == Returned
    ensures Served(s.input, s.sent, s.out)
  {
    assert s.taken == |s.sent|;
    forall k: nat | k < |s.workers| ensures Answers(s.sent, k, Requests(s.input, |s.input|)[k]) {
      AllFinished(s.workers, k, |s.workers|);
      assert WorkerOk(s.workers[k]);
    }
  }

  /** As many requests are served as there are messages among the lines, in their
      order, and as many errors sent as there are undecodable lines. */
  lemma {:induction false} RequestsAre(lines: seq<Line>, n: nat, i: nat)
    requires n <= |lines|
    ensures |Requests(lines, n)| == |set j: nat | j < n && lines[j].Message?|
    ensures Garbled(lines, n) == |set j: nat | j < n && lines[j].Garbage?|
    ensures i < n && lines[i].Message? ==>
              |Requests(lines, i)| < |Requests(lines, n)| && Requests(lines, n)[|Requests(lines, i)|] == lines[i].req
  {
    if n > 0 {
      RequestsAre(lines, n - 1, i);
      var m := n - 1;
      var messages, garbage := set j: nat | j < m && lines[j].Message?, set j: nat | j < m && lines[j].Garbage?;
      assert (set j: nat | j < n && lines[j].Message?) == messages + (if lines[m].Message? then {m} else {});
      assert (set j: nat | j < n && lines[j].Garbage?) == garbage + (if lines[m].Garbage? then {m} else {});
    }
  }

  function Texts(msgs: seq<Msg>, n: nat): seq<string>
    requires n <= |msgs|
  {
    if n == 0 then [] else Texts(msgs, n - 1) + [msgs[n - 1].text]
  }

  /** A client that splits the output at newlines gets the messages back. */
  lemma {:induction false} OutputSplitsIntoMessages(msgs: seq<Msg>, n: nat)
    requires n <= |msgs| && AllOneLine(msgs)
    ensures Split(Lines(msgs, n), '\n') == Texts(msgs, n) + [""]
  {
    if n > 0 {
      var last := msgs[n - 1].text;
      OutputSplitsIntoMessages(msgs, n - 1);
      SplitTail(Lines(msgs, n - 1), Texts(msgs, n - 1), last);
      assert Lines(msgs, n) == (Lines(msgs, n - 1) + last) + ['\n'] + "";
      SplitAt(Lines(msgs, n - 1) + last, "", '\n');
    }
  }

  /** Text after a final newline is the last piece. */
  lemma {:induction false} SplitTail(s: string, pieces: seq<string>, tail: string)
    requires Split(s, '\n') == pieces + [""] && OneLine(tail)
    ensures Split(s + tail, '\n') == pieces + [tail]
  {
    JoinSplit(s, '\n');
    if pieces == [] {
      assert s == "";
      assert s + tail == tail;
      SplitFree(tail, '\n');
    } else {
      JoinConcat(pieces, [""], '\n');
      assert s == Text.Join(pieces, '\n') + ['\n'] + "";
      var head := Text.Join(pieces, '\n');
      SplitAllFree(s, '\n');
      assert AllFree(pieces, '\n') by {
        forall i | 0 <= i < |pieces| ensures Free(pieces[i], '\n') {
          assert pieces[i] == (pieces + [""])[i];
          assert Free((pieces + [""])[i], '\n');
        }
      }
      SplitJoin(pieces, '\n');
      assert s + tail == head + ['\n'] + tail;
      SplitAt(head, tail, '\n');
      SplitFree(tail, '\n');
    }
  }

  /** serveStdio under any scheduler: it always gets a step, and it returns. */
  method Serve(input: seq<Line>, schedule: State -> Action) returns (out: string, msgs: seq<Msg>)
    requires forall s :: Inv(s) && s.reader != Returned ==> Enabled(s, schedule(s))
    ensures Served(input, msgs, out)
    ensures Split(out, '\n') == Texts(msgs, |msgs|) + [""]
  {
    var s := Init(input);
    InitInv(input);
    while s.reader != Returned
      invariant Inv(s) && s.input == input
      decreases Measure(s)
    {
      var a := schedule(s);
      InvKept(s, a);
      EveryStepGetsCloser(s, a);
      s := Step(s, a);
    }
    ReturnedMeansServed(s);
    OutputSplitsIntoMessages(s.sent, |s.sent|);
    return s.out, s.sent;
  }
}
