/**
 * The bridge from the native frame API to the agreement client and a read-only Host
 * (testing/generic-simplex-operator.py).  A stream hands out its bytes in pieces of any size; what the
 * reader process and the submission client answer is arbitrary.
 */
module Bridge {
  import opened Common
  import opened Framing

  const MAX_FRAME: nat := 12_102_760

  predicate ReadOnly(operation: int) {
    operation == 0 || operation == 1 || 3 <= operation <= 11 || operation == 91 || operation == 144
  }

  datatype Frame = Frame(operation: Byte, payload: Bytes)

  datatype Failure =
    | Truncated | OutOfBound | Uncertain | ClientFailed | OutcomeRefused | InvalidResponse | OutsideProfile

  // ------------------------------------------------------------------ frames as bytes

  predicate Sendable(f: Frame) {
    |f.payload| + 1 <= MAX_FRAME
  }

  function Header(n: nat): (b: Bytes)
    ensures |b| == 4
  {
    LittleEndian(n, 4)
  }

  function Encoded(f: Frame): Bytes {
    Header(|f.payload| + 1) + ([f.operation] + f.payload)
  }

  function EncodedAll(fs: seq<Frame>): Bytes {
    if fs == [] then [] else Encoded(fs[0]) + EncodedAll(fs[1..])
  }

  /** What one read finds at the front of a stream. */
  datatype Found = Got(frame: Frame, rest: Bytes) | End | Broken(why: Failure)

  function FrameAt(b: Bytes): (r: Found)
    ensures r.Got? ==> |r.rest| < |b| && Sendable(r.frame)
    ensures r.Broken? ==> r.why == Truncated || r.why == OutOfBound
  {
    if b == [] then End
    else if |b| < 4 then Broken(Truncated)
    else
      var n := FromLittleEndian(b[..4]);
      if !(1 <= n <= MAX_FRAME) then Broken(OutOfBound)
      else if |b| < 4 + n then Broken(Truncated)
      else Got(Frame(b[4], b[5..4 + n]), b[4 + n..])
  }

  /** How a stream ends: cleanly between frames, or with a failure. */
  datatype Ending = Clean | Failed(why: Failure)

  datatype Parsed = Parsed(frames: seq<Frame>, ending: Ending)

  function Parse(b: Bytes): Parsed
    decreases |b|
  {
    match FrameAt(b)
    case End => Parsed([], Clean)
    case Broken(why) => Parsed([], Failed(why))
    case Got(frame, rest) => var more := Parse(rest); Parsed([frame] + more.frames, more.ending)
  }

  /** Frames read so far, then what is still to come. */
  function After(frames: seq<Frame>, p: Parsed): Parsed {
    Parsed(frames + p.frames, p.ending)
  }

  lemma NoFramesBefore(p: Parsed)
    ensures After([], p) == p
  {
    assert [] + p.frames == p.frames;
  }

  lemma AfterFound(frames: seq<Frame>, b: Bytes)
    ensures After(frames, Parse(b)) ==
            match FrameAt(b)
            case End => Parsed(frames, Clean)
            case Broken(why) => Parsed(frames, Failed(why))
            case Got(frame, rest) => After(frames + [frame], Parse(rest))
  {
    match FrameAt(b)
    case End => assert frames + [] == frames;
    case Broken(_) => assert frames + [] == frames;
    case Got(frame, rest) =>
      var more := Parse(rest);
      assert Parse(b) == Parsed([frame] + more.frames, more.ending);
      Regroup(frames, [frame], more.frames);
  }

  lemma HeaderReads(n: nat)
    requires n <= MAX_FRAME
    ensures FromLittleEndian(Header(n)) == n
  {
    assert Power256(4) == 0x1_0000_0000;
    LittleEndianReads(n, 4);
  }

  lemma EncodedReads(f: Frame, rest: Bytes)
    requires Sendable(f)
    ensures FrameAt(Encoded(f) + rest) == Got(f, rest)
  {
    var b, n := Encoded(f) + rest, |f.payload| + 1;
    HeaderReads(n);
    assert b[..4] == Header(n);
    assert b[4] == f.operation && b[5..4 + n] == f.payload && b[4 + n..] == rest;
  }

  /** A proper part of a frame is no frame. */
  lemma CutIsTruncated(f: Frame, k: nat)
    requires Sendable(f) && 0 < k < |Encoded(f)|
    ensures FrameAt(Encoded(f)[..k]) == Broken(Truncated)
  {
    var b := Encoded(f)[..k];
    HeaderReads(|f.payload| + 1);
    if k >= 4 { assert b[..4] == Header(|f.payload| + 1); }
  }

  lemma ParseHead(f: Frame, rest: Bytes)
    requires Sendable(f)
    ensures Parse(Encoded(f) + rest) == Parsed([f] + Parse(rest).frames, Parse(rest).ending)
  {
    EncodedReads(f, rest);
  }

  lemma PrefixSize(fs: seq<Frame>, m: nat)
    requires m < |fs|
    ensures fs[..m + 1] == [fs[0]] + fs[1..][..m]
    ensures |EncodedAll(fs[..m + 1])| == |Encoded(fs[0])| + |EncodedAll(fs[1..][..m])|
  {
    assert fs[..m + 1][0] == fs[0] && fs[..m + 1][1..] == fs[1..][..m];
  }

  /** Reading back what was written: any cut of the bytes of a list of frames yields the frames that are
      whole, then a clean end exactly when the cut falls between two frames. */
  lemma {:induction false} CutReads(fs: seq<Frame>, k: nat) returns (n: nat)
    requires k <= |EncodedAll(fs)| && (forall f :: f in fs ==> Sendable(f))
    ensures n <= |fs| && |EncodedAll(fs[..n])| <= k
    ensures n < |fs| ==> k < |EncodedAll(fs[..n])| + |Encoded(fs[n])|
    ensures Parse(EncodedAll(fs)[..k]) ==
            Parsed(fs[..n], if k == |EncodedAll(fs[..n])| then Clean else Failed(Truncated))
  {
    var all := EncodedAll(fs);
    if fs == [] {
      assert all[..k] == [] && fs[..0] == [];
      return 0;
    }
    assert fs[0] in fs;
    var size := |Encoded(fs[0])|;
    if k < size {
      assert fs[..0] == [] && all[..k] == Encoded(fs[0])[..k];
      if k > 0 { CutIsTruncated(fs[0], k); }
      n := 0;
    } else {
      forall f | f in fs[1..] ensures Sendable(f) {
        assert f in fs;
      }
      var m := CutReads(fs[1..], k - size);
      n := m + 1;
      assert all[..k] == Encoded(fs[0]) + EncodedAll(fs[1..])[..k - size];
      ParseHead(fs[0], EncodedAll(fs[1..])[..k - size]);
      PrefixSize(fs, m);
    }
  }

  lemma WrittenFramesRead(fs: seq<Frame>)
    requires forall f :: f in fs ==> Sendable(f)
    ensures Parse(EncodedAll(fs)) == Parsed(fs, Clean)
  {
    var all := EncodedAll(fs);
    assert all[..|all|] == all;
    var n := CutReads(fs, |all|);
    if n < |fs| { PrefixIsShorter(fs, n); }
    assert fs[..|fs|] == fs;
  }

  lemma {:induction false} PrefixIsShorter(fs: seq<Frame>, n: nat)
    requires n < |fs|
    ensures |EncodedAll(fs[..n])| + |Encoded(fs[n])| <= |EncodedAll(fs)|
  {
    if n > 0 {
      PrefixIsShorter(fs[1..], n - 1);
      PrefixSize(fs, n - 1);
    }
  }

  // ------------------------------------------------------------------ streams

  /** An input stream: the bytes still to come, and how many of them each read may deliver. */
  class Source {
    var pending: Bytes
    var calls: nat
    const piece: nat -> nat

    constructor (pending: Bytes, piece: nat -> nat)
      ensures this.pending == pending && this.piece == piece
    {
      this.pending, this.piece, this.calls := pending, piece, 0;
    }

    /** Some bytes, at most `count`; none only at the end. */
    method Read(count: nat) returns (chunk: Bytes)
      requires count > 0
      modifies this
      ensures old(pending) == chunk + pending && |chunk| <= count && (chunk == [] <==> old(pending) == [])
    {
      var n := 1 + piece(calls);
      n := if n > count then count else n;
      n := if n > |pending| then |pending| else n;
      chunk := pending[..n];
      pending := pending[n..];
      calls := calls + 1;
      assert old(pending) == chunk + pending;
    }

    /** `exact`: all the bytes asked for; `None` at a permitted end; otherwise a truncation. */
    method Exact(count: nat, eof: bool) returns (r: Result<Option<Bytes>, Failure>)
      modifies this
      ensures r == if count <= |old(pending)| then Ok(Some(old(pending)[..count]))
                   else if eof && old(pending) == [] then Ok(None)
                   else Err(Truncated)
      ensures pending == if count <= |old(pending)| then old(pending)[count..] else []
    {
      var result: Bytes := [];
      while |result| < count
        invariant old(pending) == result + pending && |result| <= count
        decreases count - |result|
      {
        var chunk := Read(count - |result|);
        if chunk == [] {
          return if eof && result == [] then Ok(None) else Err(Truncated);
        }
        result := result + chunk;
      }
      r := Ok(Some(result));
    }

    /** `read_frame`: what is found does not depend on how the bytes arrive. */
    method ReadFrame() returns (r: Result<Option<Frame>, Failure>)
      modifies this
      ensures match FrameAt(old(pending))
              case End => r == Ok(None) && pending == []
              case Broken(why) => r == Err(why)
              case Got(frame, rest) => r == Ok(Some(frame)) && pending == rest
    {
      ghost var was := pending;
      var header := Exact(4, true);
      if header.Err? { return Err(header.error); }
      if header.value.None? { return Ok(None); }
      var n := FromLittleEndian(header.value.value);
      if !(1 <= n <= MAX_FRAME) { return Err(OutOfBound); }
      var body := Exact(n, false);
      if body.Err? { return Err(body.error); }
      var b := body.value.value;
      assert b == was[4..][..n] && b[1..] == was[5..4 + n] && pending == was[4 + n..];
      r := Ok(Some(Frame(b[0], b[1..])));
    }

    /** All the frames of a stream. */
    method ReadAll() returns (r: Parsed)
      modifies this
      ensures r == Parse(old(pending))
    {
      var frames: seq<Frame> := [];
      ghost var all := Parse(pending);
      NoFramesBefore(all);
      while true
        invariant After(frames, Parse(pending)) == all
        decreases |pending|
      {
        ghost var left := pending;
        var f := ReadFrame();
        AfterFound(frames, left);
        if f.Err? { return Parsed(frames, Failed(f.error)); }
        if f.value.None? { return Parsed(frames, Clean); }
        frames := frames + [f.value.value];
      }
    }
  }

  class Sink {
    var written: Bytes

    constructor ()
      ensures written == []
    {
      written := [];
    }

    /** `write_frame`. */
    method WriteFrame(operation: int, payload: Bytes) returns (ok: bool)
      modifies this
      ensures ok <==> 0 <= operation <= 255 && |payload| + 1 <= MAX_FRAME
      ensures written == old(written) + if ok then Encoded(Frame(operation as Byte, payload)) else []
    {
      if !(0 <= operation <= 255) || |payload| + 1 > MAX_FRAME { return false; }
      written := written + Encoded(Frame(operation as Byte, payload));
      ok := true;
    }
  }

  // ------------------------------------------------------------------ routing

  /** What a run does: submissions started, frames sent to the reader, answers written, and its end. */
  datatype Log = Log(submitted: seq<Bytes>, forwarded: seq<Frame>, answers: seq<Frame>, ending: Ending)

  /** What becomes of an await client: killed when it overstays its deadline and the grace, or exited with
      a code and perhaps an outcome file. */
  datatype ClientRun = Overstayed | Exited(code: int, outcome: Option<Bytes>)

  /** The client started for a ticket, on the call retained there. */
  type Client = (nat, Bytes) -> ClientRun

  /** The outcome file of a client that exited with 0, within its bound; anything else is a failure, and
      never an answer. */
  function Outcome(run: ClientRun): Result<Bytes, Failure> {
    match run
    case Overstayed => Err(Uncertain)
    case Exited(code, outcome) =>
      if code != 0 then Err(ClientFailed)
      else if outcome.None? || !(0 < |outcome.value| < MAX_FRAME) then Err(OutcomeRefused)
      else Ok(outcome.value)
  }

  function Submitted(f: Frame, log: Log): Log {
    log.(submitted := [f.payload] + log.submitted)
  }

  function Forwarded(f: Frame, log: Log): Log {
    log.(forwarded := [f] + log.forwarded)
  }

  function Answered(f: Frame, log: Log): Log {
    log.(answers := [f] + log.answers)
  }

  function Stopped(ending: Ending): Log {
    Log([], [], [], ending)
  }

  predicate ValidResponse(found: Found, operation: Byte) {
    found.Got? && (found.frame.operation == operation || found.frame.operation == 255)
  }

  function ResponseFailure(found: Found): Ending {
    if found.Broken? then Failed(found.why) else Failed(InvalidResponse)
  }

  /** The bridge on a list of requests, a reader that writes `replies`, and a client. */
  function Route(requests: seq<Frame>, ending: Ending, replies: Bytes, client: Client, n: nat): Log
    decreases |requests|
  {
    if requests == [] then Stopped(ending)
    else
      var f := requests[0];
      if f.operation == 2 then
        Submitted(f,
          var outcome := Outcome(client(n, f.payload));
          if outcome.Ok? then Answered(Frame(2, outcome.value), Route(requests[1..], ending, replies, client, n + 1))
          else Stopped(Failed(outcome.error)))
      else if ReadOnly(f.operation as int) then
        Forwarded(f,
          var found := FrameAt(replies);
          if ValidResponse(found, f.operation) then
            Answered(found.frame, Route(requests[1..], ending, found.rest, client, n))
          else Stopped(ResponseFailure(found)))
      else Stopped(Failed(OutsideProfile))
  }

  function Payloads(fs: seq<Frame>): seq<Bytes> {
    if fs == [] then [] else (if fs[0].operation == 2 then [fs[0].payload] else []) + Payloads(fs[1..])
  }

  function Reads(fs: seq<Frame>): seq<Frame> {
    if fs == [] then [] else (if ReadOnly(fs[0].operation as int) then [fs[0]] else []) + Reads(fs[1..])
  }

  predicate InProfile(f: Frame) {
    f.operation == 2 || ReadOnly(f.operation as int)
  }

  predicate Answers(answer: Frame, request: Frame) {
    answer.operation == request.operation || (request.operation != 2 && answer.operation == 255)
  }

  /** The number of requests a run took up. */
  function Taken(log: Log): nat {
    |log.submitted| + |log.forwarded|
  }

  /** What the routing promises of a run over these requests. */
  ghost predicate RoutedInOrder(requests: seq<Frame>, ending: Ending, log: Log) {
    var h := Taken(log);
    && h <= |requests|
    && log.submitted == Payloads(requests[..h]) && log.forwarded == Reads(requests[..h])
    && (forall i :: 0 <= i < h ==> InProfile(requests[i]))
    && (forall i :: 0 <= i < |log.answers| && i < h ==> Answers(log.answers[i], requests[i]))
    && (|| (|log.answers| == h - 1 && log.ending.Failed? && log.ending.why != OutsideProfile)
        || (|log.answers| == h == |requests| && log.ending == ending)
        || (|log.answers| == h < |requests| && !InProfile(requests[h]) && log.ending == Failed(OutsideProfile)))
  }

  /** Every request before the stop is submitted once or forwarded once, by its operation, and answered in
      order; nothing after the stop is, and a request outside the profile is neither. */
  lemma {:induction false} RouteIsInOrder(requests: seq<Frame>, ending: Ending, replies: Bytes, client: Client, n: nat)
    ensures RoutedInOrder(requests, ending, Route(requests, ending, replies, client, n))
    decreases |requests|
  {
    if requests != [] {
      var f, rest := requests[0], requests[1..];
      if f.operation == 2 {
        var outcome := Outcome(client(n, f.payload));
        if outcome.Ok? {
          RouteIsInOrder(rest, ending, replies, client, n + 1);
          OneMore(requests, ending, Route(rest, ending, replies, client, n + 1), Frame(2, outcome.value));
        } else {
          LastOne(requests, ending, outcome.error);
        }
      } else if ReadOnly(f.operation as int) {
        var found := FrameAt(replies);
        if ValidResponse(found, f.operation) {
          RouteIsInOrder(rest, ending, found.rest, client, n);
          OneMore(requests, ending, Route(rest, ending, found.rest, client, n), found.frame);
        } else {
          LastOne(requests, ending, ResponseFailure(found).why);
        }
      }
    }
  }

  /** The client exited with 0 and left this outcome, which is neither empty nor too long for a frame. */
  predicate Leaves(run: ClientRun, b: Bytes) {
    run == Exited(0, Some(b)) && 0 < |b| < MAX_FRAME
  }

  /** Why a client's run is no answer. */
  predicate FailsWith(run: ClientRun, why: Failure) {
    match why
    case Uncertain => run.Overstayed?
    case ClientFailed => run.Exited? && run.code != 0
    case OutcomeRefused =>
      && run.Exited? && run.code == 0
      && (run.outcome == None || run.outcome == Some([]) || |run.outcome.value| >= MAX_FRAME)
    case _ => false
  }

  /** A client's run becomes an answer exactly by leaving one, and fails for exactly one reason otherwise. */
  lemma OutcomeExactly(run: ClientRun, b: Bytes, why: Failure)
    ensures Outcome(run) == Ok(b) <==> Leaves(run, b)
    ensures Outcome(run) == Err(why) <==> FailsWith(run, why)
  {
  }

  /** The `i`-th answer: what the client of its ticket left, or the reader's next frame. */
  ghost predicate Relays(requests: seq<Frame>, replies: seq<Frame>, client: Client, n: nat, i: nat, answer: Frame)
    requires i < |requests|
  {
    var f := requests[i];
    if f.operation == 2 then
      answer.operation == 2 && Leaves(client(n + |Payloads(requests[..i])|, f.payload), answer.payload)
    else
      var j := |Reads(requests[..i])|;
      j < |replies| && answer == replies[j] && (answer.operation == f.operation || answer.operation == 255)
  }

  /** Why the `i`-th request stopped the run: its client's failure, or the reader's next frame. */
  ghost predicate Stops(requests: seq<Frame>, replies: Parsed, client: Client, n: nat, i: nat, why: Failure)
    requires i < |requests|
  {
    var f := requests[i];
    if f.operation == 2 then FailsWith(client(n + |Payloads(requests[..i])|, f.payload), why)
    else
      var j := |Reads(requests[..i])|;
      if j < |replies.frames| then
        replies.frames[j].operation != f.operation && replies.frames[j].operation != 255 && why == InvalidResponse
      else
        j == |replies.frames| && why == if replies.ending.Failed? then replies.ending.why else InvalidResponse
  }

  ghost predicate RelaysAll(requests: seq<Frame>, replies: Parsed, client: Client, n: nat, log: Log) {
    && |log.answers| <= Taken(log) <= |requests|
    && (forall i :: 0 <= i < |log.answers| ==> Relays(requests, replies.frames, client, n, i, log.answers[i]))
    && (|log.answers| < Taken(log) ==>
          log.ending.Failed? && Stops(requests, replies, client, n, |log.answers|, log.ending.why))
  }

  /** Every answer of a run is the outcome its own client left or the reader's frame in its turn, and a run that
      stops at a request stops for that client's or that frame's reason. */
  lemma {:induction false} AnswersAreRelayed(
    requests: seq<Frame>, ending: Ending, replies: Bytes, client: Client, n: nat)
    ensures RelaysAll(requests, Parse(replies), client, n, Route(requests, ending, replies, client, n))
    decreases |requests|
  {
    if requests != [] {
      var f, rest := requests[0], requests[1..];
      assert requests[..0] == [];
      if f.operation == 2 {
        var outcome := Outcome(client(n, f.payload));
        if outcome.Ok? {
          AnswersAreRelayed(rest, ending, replies, client, n + 1);
          SubmissionRelayed(requests, Parse(replies), client, n, Route(rest, ending, replies, client, n + 1),
                            outcome.value);
        } else {
          OutcomeExactly(client(n, f.payload), [], outcome.error);
        }
      } else if ReadOnly(f.operation as int) {
        var found := FrameAt(replies);
        if ValidResponse(found, f.operation) {
          AnswersAreRelayed(rest, ending, found.rest, client, n);
          ReadRelayed(requests, Parse(replies), Parse(found.rest), client, n,
                      Route(rest, ending, found.rest, client, n));
        }
      }
    }
  }

  lemma Shifted(requests: seq<Frame>, i: nat)
    requires 0 < i <= |requests|
    ensures var head, before := requests[0], requests[1..][..i - 1];
            && |Payloads(requests[..i])| == (if head.operation == 2 then 1 else 0) + |Payloads(before)|
            && |Reads(requests[..i])| == (if ReadOnly(head.operation as int) then 1 else 0) + |Reads(before)|
  {
    assert requests[..i][0] == requests[0] && requests[..i][1..] == requests[1..][..i - 1];
  }

  lemma SubmissionRelayed(requests: seq<Frame>, replies: Parsed, client: Client, n: nat, log: Log, b: Bytes)
    requires requests != [] && requests[0].operation == 2 && Outcome(client(n, requests[0].payload)) == Ok(b)
    requires RelaysAll(requests[1..], replies, client, n + 1, log)
    ensures RelaysAll(requests, replies, client, n, Submitted(requests[0], Answered(Frame(2, b), log)))
  {
    var after := Submitted(requests[0], Answered(Frame(2, b), log));
    assert requests[..0] == [];
    forall i | 0 <= i < |after.answers| ensures Relays(requests, replies.frames, client, n, i, after.answers[i]) {
      if i > 0 {
        Shifted(requests, i);
        assert Relays(requests[1..], replies.frames, client, n + 1, i - 1, log.answers[i - 1]);
      }
    }
    if |log.answers| < Taken(log) { Shifted(requests, |log.answers| + 1); }
  }

  lemma ReadRelayed(requests: seq<Frame>, replies: Parsed, later: Parsed, client: Client, n: nat, log: Log)
    requires requests != [] && requests[0].operation != 2 && ReadOnly(requests[0].operation as int)
    requires replies.frames != [] && later == Parsed(replies.frames[1..], replies.ending)
    requires replies.frames[0].operation == requests[0].operation || replies.frames[0].operation == 255
    requires RelaysAll(requests[1..], later, client, n, log)
    ensures RelaysAll(requests, replies, client, n, Forwarded(requests[0], Answered(replies.frames[0], log)))
  {
    var after := Forwarded(requests[0], Answered(replies.frames[0], log));
    assert requests[..0] == [];
    forall i | 0 <= i < |after.answers| ensures Relays(requests, replies.frames, client, n, i, after.answers[i]) {
      if i > 0 {
        Shifted(requests, i);
        assert Relays(requests[1..], later.frames, client, n, i - 1, log.answers[i - 1]);
      }
    }
    if |log.answers| < Taken(log) { Shifted(requests, |log.answers| + 1); }
  }

  function TakenUp(f: Frame, log: Log): Log {
    if f.operation == 2 then Submitted(f, log) else Forwarded(f, log)
  }

  lemma OneMore(requests: seq<Frame>, ending: Ending, log: Log, answer: Frame)
    requires requests != [] && InProfile(requests[0]) && Answers(answer, requests[0])
    requires RoutedInOrder(requests[1..], ending, log)
    ensures RoutedInOrder(requests, ending, TakenUp(requests[0], Answered(answer, log)))
  {
    var h := Taken(log);
    var after := TakenUp(requests[0], Answered(answer, log));
    assert requests[..h + 1][0] == requests[0] && requests[..h + 1][1..] == requests[1..][..h];
    forall i | 0 <= i < |after.answers| && i < h + 1 ensures Answers(after.answers[i], requests[i]) {
      assert i > 0 ==> after.answers[i] == log.answers[i - 1] && requests[i] == requests[1..][i - 1];
    }
    forall i | 0 <= i < h + 1 ensures InProfile(requests[i]) {
      assert i > 0 ==> requests[i] == requests[1..][i - 1];
    }
  }

  lemma LastOne(requests: seq<Frame>, ending: Ending, why: Failure)
    requires requests != [] && InProfile(requests[0]) && why != OutsideProfile
    ensures RoutedInOrder(requests, ending, TakenUp(requests[0], Stopped(Failed(why))))
  {
    assert requests[..1] == [requests[0]] && requests[..1][1..] == [];
  }

  // ------------------------------------------------------------------ one request at a time

  function Nothing(): Log {
    Stopped(Clean)
  }

  function Then(a: Log, b: Log): Log {
    Log(a.submitted + b.submitted, a.forwarded + b.forwarded, a.answers + b.answers, b.ending)
  }

  function RunOf(b: Bytes, replies: Bytes, client: Client, n: nat): Log {
    Route(Parse(b).frames, Parse(b).ending, replies, client, n)
  }

  /** What one request adds to the log, whether the bridge stops, and the replies left. */
  datatype Turn = Turn(log: Log, stop: Option<Ending>, replies: Bytes)

  function TurnOf(f: Frame, replies: Bytes, client: Client, n: nat): Turn {
    if f.operation == 2 then
      var outcome := Outcome(client(n, f.payload));
      if outcome.Ok? then Turn(Log([f.payload], [], [Frame(2, outcome.value)], Clean), None, replies)
      else Turn(Log([f.payload], [], [], Clean), Some(Failed(outcome.error)), replies)
    else if ReadOnly(f.operation as int) then
      var found := FrameAt(replies);
      if ValidResponse(found, f.operation) then Turn(Log([], [f], [found.frame], Clean), None, found.rest)
      else Turn(Log([], [f], [], Clean), Some(ResponseFailure(found)), replies)
    else Turn(Nothing(), Some(Failed(OutsideProfile)), replies)
  }

  /** The routing takes the requests of a stream one at a time. */
  lemma RunStep(b: Bytes, replies: Bytes, client: Client, n: nat)
    ensures RunOf(b, replies, client, n) ==
            match FrameAt(b)
            case End => Stopped(Clean)
            case Broken(why) => Stopped(Failed(why))
            case Got(f, rest) =>
              var s := TurnOf(f, replies, client, n);
              Then(s.log,
                   if s.stop.Some? then Stopped(s.stop.value)
                   else RunOf(rest, s.replies, client, n + |s.log.submitted|))
  {
    if FrameAt(b).Got? {
      var f, rest := FrameAt(b).frame, FrameAt(b).rest;
      var frames := Parse(b).frames;
      assert frames[0] == f && frames[1..] == Parse(rest).frames;
    }
  }

  lemma NothingThen(log: Log)
    ensures Then(Nothing(), log) == log
  {
    assert [] + log.submitted == log.submitted && [] + log.forwarded == log.forwarded &&
           [] + log.answers == log.answers;
  }

  lemma ThenAssociates(a: Log, b: Log, c: Log)
    ensures Then(a, Then(b, c)) == Then(Then(a, b), c)
  {
    Regroup(a.submitted, b.submitted, c.submitted);
    Regroup(a.forwarded, b.forwarded, c.forwarded);
    Regroup(a.answers, b.answers, c.answers);
  }

  lemma EndsHere(done: Log, ending: Ending)
    ensures Then(done, Stopped(ending)) == done.(ending := ending)
  {
    assert done.submitted + [] == done.submitted && done.forwarded + [] == done.forwarded &&
           done.answers + [] == done.answers;
  }

  /** The whole run is what was done, then the run from here. */
  ghost predicate OnTrack(whole: Log, done: Log, b: Bytes, replies: Bytes, client: Client, n: nat) {
    whole == Then(done, RunOf(b, replies, client, n))
  }

  lemma TrackEnds(whole: Log, done: Log, b: Bytes, replies: Bytes, client: Client, n: nat)
    requires OnTrack(whole, done, b, replies, client, n) && !FrameAt(b).Got?
    ensures whole == done.(ending := if FrameAt(b).End? then Clean else Failed(FrameAt(b).why))
  {
    RunStep(b, replies, client, n);
    EndsHere(done, if FrameAt(b).End? then Clean else Failed(FrameAt(b).why));
  }

  lemma TrackTurns(whole: Log, done: Log, b: Bytes, replies: Bytes, client: Client, n: nat)
    requires OnTrack(whole, done, b, replies, client, n) && FrameAt(b).Got?
    ensures var t := TurnOf(FrameAt(b).frame, replies, client, n);
            if t.stop.Some? then whole == Then(done, t.log).(ending := t.stop.value)
            else OnTrack(whole, Then(done, t.log), FrameAt(b).rest, t.replies, client, n + |t.log.submitted|)
  {
    var t := TurnOf(FrameAt(b).frame, replies, client, n);
    RunStep(b, replies, client, n);
    if t.stop.Some? {
      ThenAssociates(done, t.log, Stopped(t.stop.value));
      EndsHere(Then(done, t.log), t.stop.value);
    } else {
      ThenAssociates(done, t.log, RunOf(FrameAt(b).rest, t.replies, client, n + |t.log.submitted|));
    }
  }

  lemma Regroup<T>(a: seq<T>, b: seq<T>, c: seq<T>)
    ensures a + b + c == a + (b + c)
  {
  }

  lemma EncodedOne(f: Frame)
    ensures EncodedAll([f]) == Encoded(f)
  {
    assert [f][1..] == [] && EncodedAll([]) == [];
  }

  lemma {:induction false} EncodedConcats(a: seq<Frame>, b: seq<Frame>)
    ensures EncodedAll(a + b) == EncodedAll(a) + EncodedAll(b)
  {
    if a == [] {
      assert a + b == b;
    } else {
      EncodedConcats(a[1..], b);
      assert (a + b)[0] == a[0] && (a + b)[1..] == a[1..] + b;
      Regroup(Encoded(a[0]), EncodedAll(a[1..]), EncodedAll(b));
    }
  }

  /** The bridge's outputs, from what they were, after a log. */
  datatype Outputs = Outputs(submissions: seq<Bytes>, toReader: Bytes, destination: Bytes)

  function Extended(o: Outputs, log: Log): Outputs {
    Outputs(o.submissions + log.submitted, o.toReader + EncodedAll(log.forwarded),
            o.destination + EncodedAll(log.answers))
  }

  lemma ExtendsTwice(o: Outputs, a: Log, b: Log)
    ensures Extended(Extended(o, a), b) == Extended(o, Then(a, b))
  {
    EncodedConcats(a.forwarded, b.forwarded);
    EncodedConcats(a.answers, b.answers);
    Regroup(o.submissions, a.submitted, b.submitted);
    Regroup(o.toReader, EncodedAll(a.forwarded), EncodedAll(b.forwarded));
    Regroup(o.destination, EncodedAll(a.answers), EncodedAll(b.answers));
  }

  lemma ExtendsByNothing(o: Outputs)
    ensures Extended(o, Nothing()) == o
  {
    assert o.submissions + [] == o.submissions && o.toReader + [] == o.toReader && o.destination + [] == o.destination;
  }

  // ------------------------------------------------------------------ the bridge

  class Server {
    const client: Client
    var submissions: seq<Bytes>
    var started: seq<nat>

    /** The calls retained under their tickets have each had one client, in order. */
    ghost predicate OneClientEach()
      reads this
    {
      |started| == |submissions| && forall i :: 0 <= i < |started| ==> started[i] == i
    }

    constructor (client: Client)
      ensures this.client == client && submissions == [] && OneClientEach()
    {
      this.client, submissions, started := client, [], [];
    }

    /** `run_submission`: the call is retained under a new ticket, then one client is started on it, and its
        outcome is the answer; however it ends, the call stays retained and is not sent again. */
    method RunSubmission(payload: Bytes) returns (r: Result<Bytes, Failure>)
      requires OneClientEach()
      modifies this
      ensures OneClientEach() && submissions == old(submissions) + [payload]
      ensures var run := client(|old(submissions)|, payload);
              if r.Ok? then Leaves(run, r.value) else FailsWith(run, r.error)
      ensures r == Outcome(client(|old(submissions)|, payload))
    {
      var ticket := |submissions|;
      submissions := submissions + [payload];
      started := started + [ticket];
      var run := client(ticket, submissions[ticket]);
      if run.Overstayed? { return Err(Uncertain); }
      if run.code != 0 { return Err(ClientFailed); }
      if run.outcome.None? || |run.outcome.value| == 0 || |run.outcome.value| >= MAX_FRAME {
        return Err(OutcomeRefused);
      }
      r := Ok(run.outcome.value);
    }

    function OutputsOf(toReader: Sink, destination: Sink): Outputs
      reads this, toReader, destination
    {
      Outputs(submissions, toReader.written, destination.written)
    }

    /** One request.  `None` means that it was answered. */
    method ServeOne(f: Frame, destination: Sink, toReader: Sink, fromReader: Source) returns (stop: Option<Ending>)
      requires Sendable(f) && destination != toReader && OneClientEach()
      modifies this, destination, toReader, fromReader
      ensures OneClientEach()
      ensures var t := TurnOf(f, old(fromReader.pending), client, |old(submissions)|);
              && stop == t.stop && (stop.None? ==> fromReader.pending == t.replies)
              && OutputsOf(toReader, destination) == Extended(old(OutputsOf(toReader, destination)), t.log)
    {
      EncodedOne(f);
      if f.operation == 2 {
        var outcome := RunSubmission(f.payload);
        if outcome.Err? { return Some(Failed(outcome.error)); }
        EncodedOne(Frame(2, outcome.value));
        var ok := destination.WriteFrame(2, outcome.value);
      } else if ReadOnly(f.operation as int) {
        var ok := toReader.WriteFrame(f.operation as int, f.payload);
        var response := fromReader.ReadFrame();
        if response.Err? { return Some(Failed(response.error)); }
        if response.value.None?
           || !(response.value.value.operation == f.operation || response.value.value.operation == 255) {
          return Some(Failed(InvalidResponse));
        }
        var g := response.value.value;
        EncodedOne(g);
        ok := destination.WriteFrame(g.operation as int, g.payload);
      } else {
        return Some(Failed(OutsideProfile));
      }
      stop := None;
    }

    /** One turn of the loop of `serve`: a request, the end of the requests, or a failure. */
    method ServeNext(
      source: Source, destination: Sink, toReader: Sink, fromReader: Source, ghost whole: Log, ghost before: Outputs,
      ghost done: Log)
      returns (stop: Option<Ending>, ghost after: Log)
      requires destination != toReader && source != fromReader && OneClientEach()
      requires OnTrack(whole, done, source.pending, fromReader.pending, client, |submissions|)
      requires OutputsOf(toReader, destination) == Extended(before, done)
      modifies this, source, destination, toReader, fromReader
      ensures OneClientEach()
      ensures stop.None? ==> |source.pending| < |old(source.pending)|
      ensures stop.None? ==> OnTrack(whole, after, source.pending, fromReader.pending, client, |submissions|)
      ensures stop.None? ==> OutputsOf(toReader, destination) == Extended(before, after)
      ensures stop.Some? ==> stop.value == whole.ending && OutputsOf(toReader, destination) == Extended(before, whole)
    {
      ghost var b, replies, n := source.pending, fromReader.pending, |submissions|;
      after := done;
      var request := source.ReadFrame();
      if request.Err? || request.value.None? {
        TrackEnds(whole, done, b, replies, client, n);
        stop := Some(if request.Err? then Failed(request.error) else Clean);
        return;
      }
      TrackTurns(whole, done, b, replies, client, n);
      stop := ServeOne(request.value.value, destination, toReader, fromReader);
      ghost var log := TurnOf(request.value.value, replies, client, n).log;
      ExtendsTwice(before, done, log);
      after := Then(done, log);
    }

    /** `serve`, whatever the sizes of the pieces in which its two inputs arrive. */
    method Serve(source: Source, destination: Sink, toReader: Sink, fromReader: Source) returns (ending: Ending)
      requires destination != toReader && source != fromReader && OneClientEach()
      modifies this, source, destination, toReader, fromReader
      ensures OneClientEach()
      ensures var log := RunOf(old(source.pending), old(fromReader.pending), client, |old(submissions)|);
              && ending == log.ending
              && OutputsOf(toReader, destination) == Extended(old(OutputsOf(toReader, destination)), log)
    {
      ghost var whole := RunOf(source.pending, fromReader.pending, client, |submissions|);
      ghost var before := OutputsOf(toReader, destination);
      ghost var done := Nothing();
      NothingThen(whole);
      ExtendsByNothing(before);
      while true
        invariant OneClientEach()
        invariant OnTrack(whole, done, source.pending, fromReader.pending, client, |submissions|)
        invariant OutputsOf(toReader, destination) == Extended(before, done)
        decreases |source.pending|
      {
        var stop;
        stop, done := ServeNext(source, destination, toReader, fromReader, whole, before, done);
        if stop.Some? { return stop.value; }
      }
    }
  }
}
