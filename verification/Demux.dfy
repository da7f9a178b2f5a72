/** internal/docker/client.go: Docker's multiplexed log and exec streams taken
    apart again. Streams are byte strings. */
module Demux {
  import opened Text

  newtype byte = x: int | 0 <= x < 256

  type Bytes = seq<byte>

  datatype Frame = Frame(kind: byte, payload: Bytes)

  // ----- the encoding -----

  /** The last `k` bytes of `n`, most significant first. */
  function Big(n: nat, k: nat): (b: Bytes)
    ensures |b| == k
    decreases k
  {
    if k == 0 then [] else Big(n / 256, k - 1) + [(n % 256) as byte]
  }

  /** The number in the `k` bytes at `i`. */
  function Value(raw: Bytes, i: nat, k: nat): nat
    requires i + k <= |raw|
    decreases k
  {
    if k == 0 then 0 else Value(raw, i, k - 1) * 256 + raw[i + k - 1] as nat
  }

  function Power(k: nat): nat {
    if k == 0 then 1 else 256 * Power(k - 1)
  }

  lemma {:induction false} ValueOfBig(raw: Bytes, i: nat, n: nat, k: nat)
    requires n < Power(k) && i + k <= |raw| && raw[i..i + k] == Big(n, k)
    ensures Value(raw, i, k) == n
    decreases k
  {
    if k > 0 {
      assert raw[i..i + k - 1] == raw[i..i + k][..k - 1] == Big(n / 256, k - 1);
      assert raw[i + k - 1] == raw[i..i + k][k - 1];
      ValueOfBig(raw, i, n / 256, k - 1);
    }
  }

  /** The four length bytes of a header: binary.BigEndian.Uint32. */
  const LENGTH_BYTES: nat := 4

  function Length(raw: Bytes, i: nat): nat
    requires i + 8 <= |raw|
  {
    Value(raw, i + 4, LENGTH_BYTES)
  }

  predicate Fits(f: Frame) {
    f.kind <= 2 && |f.payload| < 0x1_0000_0000
  }

  ghost predicate AllFit(fs: seq<Frame>) {
    forall i :: 0 <= i < |fs| ==> Fits(fs[i])
  }

  function Header(f: Frame): (h: Bytes)
    requires Fits(f)
    ensures |h| == 8
  {
    [f.kind, 0, 0, 0] + Big(|f.payload|, 4)
  }

  function Encode(fs: seq<Frame>): Bytes
    requires AllFit(fs)
  {
    if fs == [] then [] else
      assert Fits(fs[0]);
      Header(fs[0]) + fs[0].payload + Encode(fs[1..])
  }

  // ----- what is emitted, as a function of the bytes -----

  predicate BadHeader(raw: Bytes, i: nat)
    requires i + 8 <= |raw|
  {
    raw[i] > 2 || raw[i + 1] != 0 || raw[i + 2] != 0 || raw[i + 3] != 0
  }

  /** Where the payload of the frame at `i` ends; the last may be cut short. */
  function PayloadEnd(raw: Bytes, i: nat): (end: nat)
    requires i + 8 <= |raw|
    ensures i + 8 <= end <= |raw|
  {
    if i + 8 + Length(raw, i) > |raw| then |raw| else i + 8 + Length(raw, i)
  }

  /** What is emitted from byte `i` on. */
  function Emitted(raw: Bytes, i: nat): seq<Frame>
    requires i <= |raw|
    decreases |raw| - i
  {
    if i + 8 > |raw| then []
    else if BadHeader(raw, i) then [Frame(1, raw)]
    else [Frame(raw[i], raw[i + 8..PayloadEnd(raw, i)])] + Emitted(raw, PayloadEnd(raw, i))
  }

  /** The payloads of one stream: standard error, or anything else. */
  function Side(fs: seq<Frame>, err: bool): Bytes {
    if fs == [] then []
    else (if (fs[0].kind == 2) == err then fs[0].payload else []) + Side(fs[1..], err)
  }

  function Joined(fs: seq<Frame>): Bytes {
    if fs == [] then [] else fs[0].payload + Joined(fs[1..])
  }

  function Limited(stream: Bytes, limit: nat): Bytes {
    if limit < |stream| then stream[..limit] else stream
  }

  // ----- the loop -----

  /** strings.Builder. */
  class Builder {
    var text: Bytes

    constructor ()
      ensures text == []
    {
      text := [];
    }

    method Write(p: Bytes)
      modifies this
      ensures text == old(text) + p
    {
      text := text + p;
    }
  }

  lemma SideConcat(a: seq<Frame>, b: seq<Frame>, err: bool)
    ensures Side(a + b, err) == Side(a, err) + Side(b, err)
  {
    if a == [] {
      assert a + b == b;
    } else {
      assert (a + b)[1..] == a[1..] + b;
      SideConcat(a[1..], b, err);
    }
  }

  lemma JoinedConcat(a: seq<Frame>, b: seq<Frame>)
    ensures Joined(a + b) == Joined(a) + Joined(b)
  {
    if a == [] {
      assert a + b == b;
    } else {
      assert (a + b)[1..] == a[1..] + b;
      JoinedConcat(a[1..], b);
    }
  }

  /** The writers Demux and DemuxCombined hand to frames: one builder for each
      stream, or the same builder for both. */
  method Emit(f: Frame, out: Builder, errb: Builder)
    modifies out, errb
    ensures out != errb ==> out.text == old(out.text) + Side([f], false) && errb.text == old(errb.text) + Side([f], true)
    ensures out == errb ==> out.text == old(out.text) + Joined([f])
  {
    assert [f][1..] == [];
    if f.kind == 2 {
      errb.Write(f.payload);
    } else {
      out.Write(f.payload);
    }
  }

  /** The builders hold what `done` emits. */
  ghost predicate Got(out: Builder, errb: Builder, done: seq<Frame>)
    reads out, errb
  {
    && (out != errb ==> out.text == Side(done, false) && errb.text == Side(done, true))
    && (out == errb ==> out.text == Joined(done))
  }

  lemma EmittedStep(raw: Bytes, i: nat, body: nat, end: nat, f: Frame)
    requires i + 8 == body <= |raw| && end == PayloadEnd(raw, i)
    requires f == if BadHeader(raw, i) then Frame(1, raw) else Frame(raw[i], raw[body..end])
    ensures Emitted(raw, i) == [f] + (if BadHeader(raw, i) then [] else Emitted(raw, end))
  {
  }

  method EmitNext(f: Frame, out: Builder, errb: Builder, ghost done: seq<Frame>)
    requires Got(out, errb, done)
    modifies out, errb
    ensures Got(out, errb, done + [f])
  {
    Added(done, f);
    Emit(f, out, errb);
  }

  /** frames, on what was read. */
  method Frames(raw: Bytes, out: Builder, errb: Builder)
    requires Got(out, errb, [])
    modifies out, errb
    ensures Got(out, errb, Emitted(raw, 0))
  {
    var i := 0;
    ghost var done: seq<Frame>, all := [], Emitted(raw, 0);
    while i + 8 <= |raw|
      invariant i <= |raw| && done + Emitted(raw, i) == all
      invariant Got(out, errb, done)
      decreases |raw| - i
    {
      var typ := raw[i];
      if typ > 2 || raw[i + 1] != 0 || raw[i + 2] != 0 || raw[i + 3] != 0 {
        EmittedStep(raw, i, i + 8, PayloadEnd(raw, i), Frame(1, raw));
        OneMore(done, Frame(1, raw), []);
        EmitNext(Frame(1, raw), out, errb, done);
        return;
      }
      var n := Value(raw, i + 4, LENGTH_BYTES);
      ghost var start := i;
      i := i + 8;
      if i + n > |raw| {
        n := |raw| - i;
      }
      var end := i + n;
      var f := Frame(typ, raw[i..end]);
      EmittedStep(raw, start, i, end, f);
      OneMore(done, f, Emitted(raw, end));
      EmitNext(f, out, errb, done);
      done := done + [f];
      i := end;
    }
    OneMore(done, Frame(1, raw), []);
  }

  lemma OneMore(done: seq<Frame>, f: Frame, rest: seq<Frame>)
    ensures done + ([f] + rest) == (done + [f]) + rest
    ensures done + [] == done && (done + [f]) + [] == done + [f]
  {
  }

  lemma Added(done: seq<Frame>, f: Frame)
    ensures Side(done + [f], false) == Side(done, false) + Side([f], false)
    ensures Side(done + [f], true) == Side(done, true) + Side([f], true)
    ensures Joined(done + [f]) == Joined(done) + Joined([f])
  {
    SideConcat(done, [f], false);
    SideConcat(done, [f], true);
    JoinedConcat(done, [f]);
  }

  method Demux(stream: Bytes, limit: nat) returns (stdout: Bytes, stderr: Bytes)
    ensures stdout == Side(Emitted(Limited(stream, limit), 0), false)
    ensures stderr == Side(Emitted(Limited(stream, limit), 0), true)
  {
    var out := new Builder();
    var errb := new Builder();
    Frames(Limited(stream, limit), out, errb);
    stdout, stderr := out.text, errb.text;
  }

  method DemuxCombined(stream: Bytes, limit: nat) returns (text: Bytes)
    ensures text == Joined(Emitted(Limited(stream, limit), 0))
  {
    var b := new Builder();
    Frames(Limited(stream, limit), b, b);
    text := b.text;
  }

  // ----- decoding what was encoded -----

  lemma AllFitTail(fs: seq<Frame>)
    requires AllFit(fs) && fs != []
    ensures AllFit(fs[1..]) && Fits(fs[0])
  {
    forall i | 0 <= i < |fs| - 1 ensures Fits(fs[1..][i]) {
      assert fs[1..][i] == fs[i + 1];
    }
  }

  /** The header of a frame, found again in the stream. */
  lemma HeaderAt(raw: Bytes, i: nat, f: Frame)
    requires Fits(f) && i + 8 <= |raw| && raw[i..i + 8] == Header(f)
    ensures !BadHeader(raw, i) && raw[i] == f.kind && Length(raw, i) == |f.payload|
  {
    var h := raw[i..i + 8];
    assert h[0] == raw[i] && h[1] == raw[i + 1] && h[2] == raw[i + 2] && h[3] == raw[i + 3];
    assert raw[i + 4..i + 8] == h[4..8] == Big(|f.payload|, 4);
    assert Power(4) == 0x1_0000_0000;
    ValueOfBig(raw, i + 4, |f.payload|, 4);
  }

  /** Cut anywhere, an encoded stream yields the frames before the cut, with the
      payload of the last one cut short and a header cut in two left out. */
  function Cut(fs: seq<Frame>, n: nat): seq<Frame> {
    if fs == [] || n < 8 then []
    else if n - 8 < |fs[0].payload| then [Frame(fs[0].kind, fs[0].payload[..n - 8])]
    else [fs[0]] + Cut(fs[1..], n - 8 - |fs[0].payload|)
  }

  lemma SliceOf(raw: Bytes, i: nat, j: nat, a: Bytes, b: Bytes)
    requires i <= |raw| && raw[i..] == a + b && j == i + |a|
    ensures j <= |raw| && raw[i..j] == a && raw[j..] == b
  {
    var s := raw[i..];
    assert raw[i..j] == s[..|a|];
    assert raw[j..] == s[|a|..];
  }

  /** A frame that is there whole, followed by `rest`. */
  lemma WholeFrame(raw: Bytes, i: nat, next: nat, f: Frame, rest: Bytes)
    requires Fits(f) && i <= |raw| && raw[i..] == Header(f) + f.payload + rest
    requires next == i + 8 + |f.payload|
    ensures next + |rest| == |raw| && raw[next..] == rest
    ensures Emitted(raw, i) == [f] + Emitted(raw, next)
  {
    assert Header(f) + f.payload + rest == Header(f) + (f.payload + rest);
    var body := i + 8;
    SliceOf(raw, i, body, Header(f), f.payload + rest);
    HeaderAt(raw, i, f);
    SliceOf(raw, body, next, f.payload, rest);
    EmittedStep(raw, i, body, next, f);
  }

  /** A frame that the end of the data cuts short. */
  lemma ShortFrame(raw: Bytes, i: nat, f: Frame, part: Bytes)
    requires Fits(f) && i <= |raw| && raw[i..] == Header(f) + part && |part| < |f.payload|
    ensures Emitted(raw, i) == [Frame(f.kind, part)]
  {
    var s := raw[i..];
    assert raw[i..i + 8] == s[..8] == Header(f);
    HeaderAt(raw, i, f);
    assert raw[i + 8..|raw|] == s[8..] == part;
    EmittedStep(raw, i, i + 8, |raw|, Frame(f.kind, part));
    assert [Frame(f.kind, part)] + [] == [Frame(f.kind, part)];
  }

  lemma CutInside(h: Bytes, p: Bytes, rest: Bytes, n: nat)
    requires |h| <= n <= |h| + |p| + |rest|
    ensures n < |h| + |p| ==> (h + p + rest)[..n] == h + p[..n - |h|]
    ensures n >= |h| + |p| ==> (h + p + rest)[..n] == h + p + rest[..n - |h| - |p|]
  {
  }

  lemma {:induction false} DecodesCut(fs: seq<Frame>, raw: Bytes, i: nat, n: nat)
    requires AllFit(fs) && i + n == |raw| && n <= |Encode(fs)| && raw[i..] == Encode(fs)[..n]
    ensures Emitted(raw, i) == Cut(fs, n)
    decreases |fs|
  {
    if fs != [] && n >= 8 {
      AllFitTail(fs);
      var f, rest := fs[0], fs[1..];
      CutInside(Header(f), f.payload, Encode(rest), n);
      if n - 8 < |f.payload| {
        ShortFrame(raw, i, f, f.payload[..n - 8]);
      } else {
        var next, n' := i + 8 + |f.payload|, n - 8 - |f.payload|;
        WholeFrame(raw, i, next, f, Encode(rest)[..n']);
        DecodesCut(rest, raw, next, n');
      }
    }
  }

  lemma {:induction false} CutNowhere(fs: seq<Frame>)
    requires AllFit(fs)
    ensures Cut(fs, |Encode(fs)|) == fs
  {
    if fs != [] {
      AllFitTail(fs);
      CutNowhere(fs[1..]);
    }
  }

  /** Demultiplexing undoes multiplexing: each stream, whole and in order. */
  lemma DemuxOfEncoded(fs: seq<Frame>)
    requires AllFit(fs)
    ensures Emitted(Encode(fs), 0) == fs
  {
    var raw := Encode(fs);
    assert raw[0..] == raw && raw[..|raw|] == raw;
    DecodesCut(fs, raw, 0, |raw|);
    CutNowhere(fs);
  }

  lemma {:induction false} CutSides(fs: seq<Frame>, n: nat, err: bool)
    ensures Side(Cut(fs, n), err) <= Side(fs, err)
  {
    if fs != [] && n >= 8 {
      if n - 8 < |fs[0].payload| {
        var cut := Frame(fs[0].kind, fs[0].payload[..n - 8]);
        assert [cut][1..] == [];
        assert Side([cut], err) == if (fs[0].kind == 2) == err then fs[0].payload[..n - 8] else [];
      } else {
        var rest := Cut(fs[1..], n - 8 - |fs[0].payload|);
        assert ([fs[0]] + rest)[1..] == rest;
        CutSides(fs[1..], n - 8 - |fs[0].payload|, err);
      }
    }
  }

  /** Under a byte limit each stream comes back as a prefix of itself. */
  lemma LimitGivesPrefixes(fs: seq<Frame>, limit: nat, err: bool)
    requires AllFit(fs)
    ensures Side(Emitted(Limited(Encode(fs), limit), 0), err) <= Side(fs, err)
  {
    var raw := Limited(Encode(fs), limit);
    assert raw[0..] == raw && Encode(fs)[..|raw|] == raw;
    DecodesCut(fs, raw, 0, |raw|);
    CutSides(fs, |raw|, err);
  }

  // ----- any input -----

  /** `m` holds the bytes of `a` and of `b`, each in its order. */
  ghost predicate Merges(m: Bytes, a: Bytes, b: Bytes)
    decreases |m|
  {
    if m == [] then a == [] && b == []
    else (a != [] && a[0] == m[0] && Merges(m[1..], a[1..], b)) || (b != [] && b[0] == m[0] && Merges(m[1..], a, b[1..]))
  }

  lemma {:induction false} MergesLeft(p: Bytes, m: Bytes, a: Bytes, b: Bytes)
    requires Merges(m, a, b)
    ensures Merges(p + m, p + a, b)
  {
    if p == [] {
      assert p + m == m && p + a == a;
    } else {
      MergesLeft(p[1..], m, a, b);
      assert (p + m)[1..] == p[1..] + m && (p + a)[1..] == p[1..] + a;
    }
  }

  lemma {:induction false} MergesRight(p: Bytes, m: Bytes, a: Bytes, b: Bytes)
    requires Merges(m, a, b)
    ensures Merges(p + m, a, p + b)
  {
    if p == [] {
      assert p + m == m && p + b == b;
    } else {
      MergesRight(p[1..], m, a, b);
      assert (p + m)[1..] == p[1..] + m && (p + b)[1..] == p[1..] + b;
    }
  }

  /** On every input the combined text is the two streams merged: no byte is
      lost, added or moved within its stream. */
  lemma {:induction false} CombinedMergesTheStreams(fs: seq<Frame>)
    ensures Merges(Joined(fs), Side(fs, false), Side(fs, true))
  {
    if fs != [] {
      CombinedMergesTheStreams(fs[1..]);
      if fs[0].kind == 2 {
        MergesRight(fs[0].payload, Joined(fs[1..]), Side(fs[1..], false), Side(fs[1..], true));
        assert [] + Side(fs[1..], false) == Side(fs[1..], false);
      } else {
        MergesLeft(fs[0].payload, Joined(fs[1..]), Side(fs[1..], false), Side(fs[1..], true));
        assert [] + Side(fs[1..], true) == Side(fs[1..], true);
      }
    }
  }

  /** A stream of eight bytes or more that does not start with a frame header
      comes back whole as standard output; a shorter one is dropped. */
  lemma UnframedIsWhole(raw: Bytes)
    requires |raw| >= 8 ==> BadHeader(raw, 0)
    ensures Side(Emitted(raw, 0), false) == (if |raw| >= 8 then raw else []) && Side(Emitted(raw, 0), true) == []
  {
    assert [Frame(1, raw)][1..] == [];
    if |raw| >= 8 {
      assert Emitted(raw, 0) == [Frame(1, raw)];
    }
  }

  lemma {:induction false} DecodesThen(fs: seq<Frame>, raw: Bytes, i: nat, end: nat, tail: Bytes)
    requires AllFit(fs) && i <= |raw| && raw[i..] == Encode(fs) + tail && end == i + |Encode(fs)|
    ensures end <= |raw| && Emitted(raw, i) == fs + Emitted(raw, end)
    decreases |fs|
  {
    if fs == [] {
      assert fs + Emitted(raw, i) == Emitted(raw, i);
    } else {
      AllFitTail(fs);
      var f, rest, next := fs[0], fs[1..], i + 8 + |fs[0].payload|;
      EncodeCons(fs, tail);
      WholeFrame(raw, i, next, f, Encode(rest) + tail);
      DecodesThen(rest, raw, next, end, tail);
      EmittedCons(fs, Emitted(raw, end));
    }
  }

  lemma EncodeCons(fs: seq<Frame>, tail: Bytes)
    requires AllFit(fs) && fs != [] && AllFit(fs[1..]) && Fits(fs[0])
    ensures Encode(fs) + tail == Header(fs[0]) + fs[0].payload + (Encode(fs[1..]) + tail)
    ensures |Encode(fs)| == 8 + |fs[0].payload| + |Encode(fs[1..])|
  {
  }

  lemma EmittedCons(fs: seq<Frame>, more: seq<Frame>)
    requires fs != []
    ensures [fs[0]] + (fs[1..] + more) == fs + more
  {
  }

  /** After good frames a bad header brings the whole stream again, the frames
      already emitted included. */
  lemma LateBadHeaderRepeats(fs: seq<Frame>, junk: Bytes)
    requires AllFit(fs) && |junk| >= 8 && BadHeader(junk, 0)
    ensures var raw := Encode(fs) + junk;
            && Emitted(raw, 0) == fs + [Frame(1, raw)]
            && Joined(Emitted(raw, 0)) == Joined(fs) + raw
  {
    var raw := Encode(fs) + junk;
    var end := |Encode(fs)|;
    assert raw[0..] == raw && raw[end..] == junk;
    DecodesThen(fs, raw, 0, end, junk);
    assert raw[end] == junk[0] && raw[end + 1] == junk[1] && raw[end + 2] == junk[2] && raw[end + 3] == junk[3];
    assert Emitted(raw, end) == [Frame(1, raw)];
    JoinedConcat(fs, [Frame(1, raw)]);
    assert [Frame(1, raw)][1..] == [];
  }

  // ----- every input: frames, and what is no frame -----

  /** No whole frame stands at the start: too little for a header, no header, or
      a payload that is cut short. */
  predicate NoWholeFrame(tail: Bytes) {
    |tail| < 8 || BadHeader(tail, 0) || |tail| - 8 < Length(tail, 0)
  }

  predicate BadTail(tail: Bytes) {
    |tail| >= 8 && BadHeader(tail, 0)
  }

  /** What is emitted for a tail of the stream that holds no whole frame. */
  function Remainder(raw: Bytes, tail: Bytes): seq<Frame> {
    if |tail| < 8 then [] else if BadHeader(tail, 0) then [Frame(1, raw)] else [Frame(tail[0], tail[8..])]
  }

  lemma {:induction false} BigOfValue(raw: Bytes, i: nat, k: nat, end: nat)
    requires end == i + k <= |raw|
    ensures Value(raw, i, k) < Power(k) && Big(Value(raw, i, k), k) == raw[i..end]
    decreases k
  {
    if k > 0 {
      var last := end - 1;
      BigOfValue(raw, i, k - 1, last);
      assert raw[i..end] == raw[i..last] + [raw[last]];
    }
  }

  lemma {:induction false} ValueShifted(raw: Bytes, tail: Bytes, from: nat, i: nat, k: nat)
    requires from <= |raw| && raw[from..] == tail && i + k <= |tail|
    ensures Value(raw, from + i, k) == Value(tail, i, k)
    decreases k
  {
    if k > 0 {
      ValueShifted(raw, tail, from, i, k - 1);
      assert tail[i + k - 1] == raw[from..][i + k - 1];
    }
  }

  /** A whole frame at the start of the stream is the encoding of a frame. */
  lemma FirstFrame(raw: Bytes) returns (f: Frame, rest: Bytes)
    requires !NoWholeFrame(raw)
    ensures Fits(f) && raw == Header(f) + f.payload + rest
  {
    var n := Length(raw, 0);
    var next := 8 + n;
    f, rest := Frame(raw[0], raw[8..next]), raw[next..];
    BigOfValue(raw, 4, LENGTH_BYTES, 8);
    assert Power(4) == 0x1_0000_0000;
    assert raw[..8] == [raw[0], raw[1], raw[2], raw[3]] + raw[4..8];
    assert raw == raw[..8] + raw[8..next] + raw[next..];
  }

  /** Every stream is whole frames and then a tail that holds none. */
  lemma {:induction false} EveryStreamParses(raw: Bytes)
    ensures exists fs, tail :: AllFit(fs) && NoWholeFrame(tail) && raw == Encode(fs) + tail
    decreases |raw|
  {
    if NoWholeFrame(raw) {
      assert AllFit([]) && raw == Encode([]) + raw;
    } else {
      var f, rest := FirstFrame(raw);
      EveryStreamParses(rest);
      var fs, tail :| AllFit(fs) && NoWholeFrame(tail) && rest == Encode(fs) + tail;
      var all := [f] + fs;
      assert all[1..] == fs && AllFit(all);
      EncodeCons(all, tail);
      assert raw == Encode(all) + tail;
    }
  }

  lemma TailEmitted(raw: Bytes, end: nat, tail: Bytes)
    requires end <= |raw| && raw[end..] == tail && NoWholeFrame(tail)
    ensures Emitted(raw, end) == Remainder(raw, tail)
  {
    if |tail| >= 8 {
      var body := end + 8;
      assert tail[0] == raw[end] && tail[1] == raw[end + 1] && tail[2] == raw[end + 2] && tail[3] == raw[end + 3];
      ValueShifted(raw, tail, end, 4, LENGTH_BYTES);
      assert raw[body..|raw|] == tail[8..];
      if !BadHeader(tail, 0) {
        EmittedStep(raw, end, body, |raw|, Frame(tail[0], tail[8..]));
      }
    }
  }

  /** What is emitted for any stream: its whole frames; of the tail, nothing if
      there is no room for a header, the payload as far as it goes, or, for a bad
      header, the whole stream. */
  lemma EmittedIs(fs: seq<Frame>, tail: Bytes)
    requires AllFit(fs) && NoWholeFrame(tail)
    ensures Emitted(Encode(fs) + tail, 0) == fs + Remainder(Encode(fs) + tail, tail)
  {
    var raw, end := Encode(fs) + tail, |Encode(fs)|;
    assert raw[0..] == raw && raw[end..] == tail;
    DecodesThen(fs, raw, 0, end, tail);
    TailEmitted(raw, end, tail);
  }

  function Headers(fs: seq<Frame>): Bytes
    requires AllFit(fs)
  {
    if fs == [] then [] else
      assert Fits(fs[0]);
      Header(fs[0]) + Headers(fs[1..])
  }

  lemma {:induction false} MergesEncoded(fs: seq<Frame>, m: Bytes, a: Bytes, b: Bytes)
    requires AllFit(fs) && Merges(m, a, b)
    ensures Merges(Encode(fs) + m, Joined(fs) + a, Headers(fs) + b)
  {
    if fs == [] {
      assert Encode(fs) + m == m && Joined(fs) + a == a && Headers(fs) + b == b;
    } else {
      AllFitTail(fs);
      var h, p, rest := Header(fs[0]), fs[0].payload, fs[1..];
      MergesEncoded(rest, m, a, b);
      MergesFrame(h, p, Encode(rest), m, Joined(rest), a, Headers(rest), b);
    }
  }

  lemma MergesFrame(h: Bytes, p: Bytes, em: Bytes, m: Bytes, ja: Bytes, a: Bytes, hb: Bytes, b: Bytes)
    requires Merges(em + m, ja + a, hb + b)
    ensures Merges(h + p + em + m, p + ja + a, h + hb + b)
  {
    MergesLeft(p, em + m, ja + a, hb + b);
    MergesRight(h, p + (em + m), p + (ja + a), hb + b);
    Regroup(h, p, em, m);
    Regroup(p, [], ja, a);
    Regroup(h, [], hb, b);
  }

  lemma Regroup(a: Bytes, b: Bytes, c: Bytes, d: Bytes)
    ensures a + b + c + d == a + (b + (c + d)) && (b == [] ==> a + c + d == a + (c + d))
  {
  }

  lemma {:induction false} MergesLength(m: Bytes, a: Bytes, b: Bytes)
    requires Merges(m, a, b)
    ensures |m| == |a| + |b|
    decreases |m|
  {
    if m != [] {
      if a != [] && a[0] == m[0] && Merges(m[1..], a[1..], b) {
        MergesLength(m[1..], a[1..], b);
      } else {
        MergesLength(m[1..], a, b[1..]);
      }
    }
  }

  lemma MergesAll(m: Bytes)
    ensures Merges(m, m, []) && Merges(m, [], m)
  {
    assert Merges([], [], []);
    MergesLeft(m, [], [], []);
    MergesRight(m, [], [], []);
    assert m + [] == m;
  }

  /** The text holds bytes of the stream, in their order and none twice. */
  ghost predicate OnceEach(raw: Bytes, text: Bytes) {
    exists dropped :: Merges(raw, text, dropped)
  }

  /** Exactly when a byte comes out twice: a bad header after a frame with a
      payload. Otherwise what is dropped is headers. */
  lemma RepeatsIff(fs: seq<Frame>, tail: Bytes)
    requires AllFit(fs) && NoWholeFrame(tail)
    ensures var raw := Encode(fs) + tail;
            OnceEach(raw, Joined(Emitted(raw, 0))) <==> !(BadTail(tail) && Joined(fs) != [])
  {
    var raw := Encode(fs) + tail;
    var text := Joined(Emitted(raw, 0));
    var last := Remainder(raw, tail);
    EmittedIs(fs, tail);
    JoinedConcat(fs, last);
    assert last != [] ==> last[1..] == [] && Joined(last) == last[0].payload;
    if BadTail(tail) {
      assert text == Joined(fs) + raw;
      if Joined(fs) == [] {
        MergesAll(raw);
        assert text == raw;
      } else {
        forall dropped ensures !Merges(raw, text, dropped) {
          if Merges(raw, text, dropped) { MergesLength(raw, text, dropped); }
        }
      }
    } else {
      var cut := if |tail| < 8 then tail else tail[..8];
      var kept := Joined(last);
      assert tail == cut + kept;
      MergesAll(kept);
      MergesRight(cut, kept, kept, []);
      assert cut + [] == cut;
      MergesEncoded(fs, tail, kept, cut);
      assert text == Joined(fs) + kept;
    }
  }

  // ----- the layout of a frame, and which side it is on -----

  /** A frame byte by byte: its kind, three zeros, the length of the payload with
      the most significant byte first, and the payload. */
  lemma FrameLayout(f: Frame)
    requires Fits(f)
    ensures var n := |f.payload|;
            Encode([f]) == [f.kind, 0, 0, 0, (n / 0x1000000) as byte, (n / 0x10000 % 256) as byte, (n / 0x100 % 256) as byte, (n % 256) as byte]
                           + f.payload
  {
    var n := |f.payload|;
    assert AllFit([f]) && [f][1..] == [];
    FourBytes(n);
    assert Encode([f]) == Header(f) + f.payload;
  }

  lemma FourBytes(n: nat)
    requires n < 0x1_0000_0000
    ensures Big(n, 4) == [(n / 0x1000000) as byte, (n / 0x10000 % 256) as byte, (n / 0x100 % 256) as byte, (n % 256) as byte]
  {
    var n1, n2, n3 := n / 256, n / 256 / 256, n / 256 / 256 / 256;
    assert n1 == n / 0x100 && n2 == n / 0x10000 && n3 == n / 0x1000000 && n3 < 256;
    assert Big(n3, 1) == Big(n3 / 256, 0) + [(n3 % 256) as byte];
    assert Big(n2, 2) == Big(n3, 1) + [(n2 % 256) as byte];
    assert Big(n1, 3) == Big(n2, 2) + [(n1 % 256) as byte];
    assert Big(n, 4) == Big(n1, 3) + [(n % 256) as byte];
  }

  /** The payloads of the frames of these kinds. */
  function OfKinds(fs: seq<Frame>, kinds: set<byte>): Bytes {
    if fs == [] then [] else (if fs[0].kind in kinds then fs[0].payload else []) + OfKinds(fs[1..], kinds)
  }

  lemma {:induction false} SideIs(fs: seq<Frame>)
    requires AllFit(fs)
    ensures Side(fs, true) == OfKinds(fs, {2}) && Side(fs, false) == OfKinds(fs, {0, 1})
  {
    if fs != [] {
      AllFitTail(fs);
      SideIs(fs[1..]);
    }
  }

  /** Frames of kind 2 come back on standard error, those of kinds 0 and 1 on
      standard output. */
  lemma SidesOfEncoded(fs: seq<Frame>)
    requires AllFit(fs)
    ensures Side(Emitted(Encode(fs), 0), true) == OfKinds(fs, {2})
    ensures Side(Emitted(Encode(fs), 0), false) == OfKinds(fs, {0, 1})
  {
    DemuxOfEncoded(fs);
    SideIs(fs);
  }

  /** The limit cuts off what is beyond it and nothing else. */
  lemma LimitedIs(stream: Bytes, limit: nat)
    ensures Limited(stream, limit) <= stream
    ensures |Limited(stream, limit)| == limit || (|stream| < limit && Limited(stream, limit) == stream)
  {
  }
}
