/** Every interleaving of readers and writers on one pipe (fs/pipe.c). */
module PipeRuns {
  import opened Common
  import opened Pipe

  // ----- how a write is staged -----

  function Joined(parts: seq<seq<byte>>): seq<byte> {
    if parts == [] then [] else parts[0] + Joined(parts[1..])
  }

  /** pipe_write_user stages one page at a time. */
  function Cut(part: seq<byte>): seq<seq<byte>>
    decreases |part|
  {
    if part == [] then [] else if |part| <= PAGE then [part] else [part[..PAGE]] + Cut(part[PAGE..])
  }

  function CutAll(parts: seq<seq<byte>>): seq<seq<byte>> {
    if parts == [] then [] else Cut(parts[0]) + CutAll(parts[1..])
  }

  /** A write of at most PIPE_BUF bytes is gathered into one chunk. */
  function Chunks(parts: seq<seq<byte>>): seq<seq<byte>> {
    if |Joined(parts)| <= PIPE_BUF then [Joined(parts)] else CutAll(parts)
  }

  predicate ChunkSizes(chunks: seq<seq<byte>>) {
    forall i | 0 <= i < |chunks| :: 0 < |chunks[i]| <= PAGE
  }

  lemma {:induction false} JoinedConcat(a: seq<seq<byte>>, b: seq<seq<byte>>)
    ensures Joined(a + b) == Joined(a) + Joined(b)
    decreases |a|
  {
    if a == [] {
      assert a + b == b;
    } else {
      JoinedConcat(a[1..], b);
      assert (a + b)[1..] == a[1..] + b;
    }
  }

  lemma {:induction false} CutJoins(part: seq<byte>)
    ensures Joined(Cut(part)) == part && ChunkSizes(Cut(part))
    decreases |part|
  {
    if |part| > PAGE {
      CutJoins(part[PAGE..]);
      assert ([part[..PAGE]] + Cut(part[PAGE..]))[1..] == Cut(part[PAGE..]);
    } else if part != [] {
      assert [part][1..] == [];
    }
  }

  lemma {:induction false} CutAllJoins(parts: seq<seq<byte>>)
    ensures Joined(CutAll(parts)) == Joined(parts) && ChunkSizes(CutAll(parts))
    decreases |parts|
  {
    if parts != [] {
      CutAllJoins(parts[1..]);
      CutJoins(parts[0]);
      JoinedConcat(Cut(parts[0]), CutAll(parts[1..]));
    }
  }

  /** Staging loses nothing and reorders nothing. */
  lemma ChunksJoin(parts: seq<seq<byte>>)
    requires Joined(parts) != []
    ensures Joined(Chunks(parts)) == Joined(parts) && ChunkSizes(Chunks(parts)) && Chunks(parts) != []
    ensures |Joined(parts)| <= PIPE_BUF ==> Chunks(parts) == [Joined(parts)]
  {
    CutAllJoins(parts);
    assert [Joined(parts)][1..] == [];
  }

  // ----- the state -----

  /** A byte and the call it came from or went to. */
  datatype Entry = Entry(call: nat, value: byte)

  datatype Error = Fault | Again | Interrupted | BrokenPipe | NoMemory | Invalid

  datatype Result = Count(n: nat) | Failed(error: Error)

  datatype Call =
    /** The chunks still to be written, the first from `offset` on; `done` bytes of `data` are in the pipe. */
    | Write(data: seq<byte>, done: nat, rest: seq<seq<byte>>, offset: nat, atomic: bool, nonblock: bool)
    | Written(data: seq<byte>, result: Result)
    | Read(v: seq<Iovec>, nonblock: bool)
    /** Has the pipe to itself while it faults the destination in. */
    | Fill(v: seq<Iovec>, available: nat)
    | ReadDone(v: seq<Iovec>, stored: map<nat, byte>, result: Result)

  /** `accepted` and `delivered` record every byte that has entered and left. */
  datatype State = State(contents: seq<byte>, readers: nat, writers: nat, busy: bool,
                         calls: map<nat, Call>, accepted: seq<Entry>, delivered: seq<Entry>)

  datatype Action =
    | StartWrite(c: nat, parts: seq<seq<byte>>, nonblock: bool)
    | StageFails(c: nat, error: Error)
    | WriteTurn(c: nat, interrupted: bool)
    | StartRead(c: nat, v: seq<Iovec>, nonblock: bool)
    | ReadTurn(c: nat, interrupted: bool)
    | PrefaultFails(c: nat)
    | ReadFinish(c: nat, target: Target)
    | CloseReader
    | CloseWriter

  function Tag(c: nat, b: seq<byte>): seq<Entry> {
    seq(|b|, i requires 0 <= i < |b| => Entry(c, b[i]))
  }

  function Values(log: seq<Entry>): seq<byte> {
    seq(|log|, i requires 0 <= i < |log| => log[i].value)
  }

  // ----- the steps -----

  function Begin(s: State, c: nat, call: Call): State { s.(calls := s.calls[c := call]) }

  /** What a write call returns when it stops early. */
  function Short(done: nat, error: Error): Result { if done > 0 then Count(done) else Failed(error) }

  function DoStartWrite(s: State, c: nat, parts: seq<seq<byte>>, nonblock: bool): State {
    var data := Joined(parts);
    if |data| > COUNT_LIMIT then Begin(s, c, Written(data, Failed(Invalid)))
    else if data == [] then Begin(s, c, Written(data, Count(0)))
    else Begin(s, c, Write(data, 0, Chunks(parts), 0, |data| <= PIPE_BUF, nonblock))
  }

  /** The call once `n` more bytes of its first chunk are in the pipe. */
  function Advance(w: Call, n: nat): Call
    requires w.Write? && w.rest != [] && w.offset + n <= |w.rest[0]|
  {
    if w.offset + n < |w.rest[0]| then w.(done := w.done + n, offset := w.offset + n)
    else if |w.rest| > 1 then w.(done := w.done + n, rest := w.rest[1..], offset := 0)
    else Written(w.data, Count(w.done + n))
  }

  /** The copy of `n` bytes of the first chunk into the pipe. */
  function Accept(s: State, c: nat, w: Call, n: nat): State
    requires w.Write? && w.rest != [] && w.offset + n <= |w.rest[0]|
  {
    var chunk := w.rest[0][w.offset..w.offset + n];
    s.(contents := s.contents + chunk, accepted := s.accepted + Tag(c, chunk), calls := s.calls[c := Advance(w, n)])
  }

  /** One turn of the loop of pipe_write_staged. */
  function DoWriteTurn(s: State, c: nat, w: Call, interrupted: bool): State
    requires w.Write? && w.rest != [] && w.offset <= |w.rest[0]| && |s.contents| <= CAPACITY
  {
    var available := CAPACITY - |s.contents|;
    if s.readers == 0 then Begin(s, c, Written(w.data, Short(w.done, BrokenPipe)))
    else if (w.atomic && available < |w.rest[0]|) || available == 0 then
      if w.nonblock then Begin(s, c, Written(w.data, Short(w.done, Again)))
      else if interrupted then Begin(s, c, Written(w.data, Short(w.done, Interrupted)))
      else s
    else Accept(s, c, w, Least(|w.rest[0]| - w.offset, available))
  }

  function DoStartRead(s: State, c: nat, v: seq<Iovec>, nonblock: bool): State {
    if Requested(v) > COUNT_LIMIT then Begin(s, c, ReadDone(v, map[], Failed(Invalid)))
    else if Requested(v) == 0 then Begin(s, c, ReadDone(v, map[], Count(0)))
    else Begin(s, c, Read(v, nonblock))
  }

  /** One turn of the waiting loop of pipe_readv. */
  function DoReadTurn(s: State, c: nat, r: Call, interrupted: bool): State
    requires r.Read?
  {
    if s.contents == [] || s.busy then
      if s.contents == [] && s.writers == 0 && !s.busy then Begin(s, c, ReadDone(r.v, map[], Count(0)))
      else if r.nonblock then Begin(s, c, ReadDone(r.v, map[], Failed(Again)))
      else if interrupted then Begin(s, c, ReadDone(r.v, map[], Failed(Interrupted)))
      else s
    else Begin(s, c, Fill(r.v, Least(|s.contents|, Requested(r.v)))).(busy := true)
  }

  /** The copy at the end of pipe_readv. */
  function DoReadFinish(s: State, c: nat, r: Call, target: Target): State
    requires r.Fill? && r.available <= |s.contents|
  {
    var o := Scatter(target, r.v, s.contents[..r.available], map[]);
    var n := Least(o.total, |s.contents|);
    var result := if o.total > 0 then Count(o.total) else if o.fault then Failed(Fault) else Count(0);
    s.(contents := s.contents[n..], delivered := s.delivered + Tag(c, s.contents[..n]),
       calls := s.calls[c := ReadDone(r.v, o.memory, result)], busy := false)
  }

  predicate Writing(s: State, c: nat) {
    c in s.calls && s.calls[c].Write? && s.calls[c].rest != [] && s.calls[c].offset <= |s.calls[c].rest[0]|
  }

  /** The file of a call stays open until the call returns. */
  predicate NoWriteRuns(s: State) { forall c | c in s.calls :: !s.calls[c].Write? }
  predicate NoReadRuns(s: State) { forall c | c in s.calls :: !s.calls[c].Read? && !s.calls[c].Fill? }

  predicate Enabled(s: State, a: Action) {
    match a
    case StartWrite(c, _, _) => c !in s.calls && s.writers > 0
    case StageFails(c, e) => Writing(s, c) && s.calls[c].offset == 0 && (e == Fault || e == NoMemory)
    case WriteTurn(c, _) => Writing(s, c) && |s.contents| <= CAPACITY
    case StartRead(c, _, _) => c !in s.calls && s.readers > 0
    case ReadTurn(c, _) => c in s.calls && s.calls[c].Read?
    case PrefaultFails(c) => c in s.calls && s.calls[c].Fill?
    case ReadFinish(c, _) => c in s.calls && s.calls[c].Fill? && s.calls[c].available <= |s.contents|
    case CloseReader => s.readers > 0 && NoReadRuns(s)
    case CloseWriter => s.writers > 0 && NoWriteRuns(s)
  }

  function Step(s: State, a: Action): State
    requires Enabled(s, a)
  {
    match a
    case StartWrite(c, parts, nonblock) => DoStartWrite(s, c, parts, nonblock)
    case StageFails(c, e) => Begin(s, c, Written(s.calls[c].data, Short(s.calls[c].done, e)))
    case WriteTurn(c, interrupted) => DoWriteTurn(s, c, s.calls[c], interrupted)
    case StartRead(c, v, nonblock) => DoStartRead(s, c, v, nonblock)
    case ReadTurn(c, interrupted) => DoReadTurn(s, c, s.calls[c], interrupted)
    case PrefaultFails(c) => Begin(s, c, ReadDone(s.calls[c].v, map[], Failed(Fault))).(busy := false)
    case ReadFinish(c, target) => DoReadFinish(s, c, s.calls[c], target)
    case CloseReader => s.(readers := s.readers - 1)
    case CloseWriter => s.(writers := s.writers - 1)
  }

  // ----- the invariant -----

  /** The bytes of one call, in order. */
  function Of(log: seq<Entry>, c: nat): seq<byte> {
    if log == [] then []
    else Of(log[..|log| - 1], c) + if log[|log| - 1].call == c then [log[|log| - 1].value] else []
  }

  /** The bytes stand next to each other in the log, with no other call's byte between them. */
  ghost predicate Together(log: seq<Entry>, c: nat, b: seq<byte>) {
    exists p: nat :: TogetherAt(log, c, b, p)
  }

  predicate TogetherAt(log: seq<Entry>, c: nat, b: seq<byte>, p: nat) {
    p + |b| <= |log| && log[p..p + |b|] == Tag(c, b)
  }

  /** First in, first out; nothing lost, nothing made up; never more than the capacity. */
  ghost predicate Fifo(s: State) {
    Values(s.accepted) == Values(s.delivered) + s.contents && |s.contents| <= CAPACITY
  }

  ghost predicate Known(log: seq<Entry>, calls: map<nat, Call>) {
    forall i | 0 <= i < |log| :: log[i].call in calls
  }

  ghost predicate OneFill(s: State) {
    && (s.busy <==> exists c :: c in s.calls && s.calls[c].Fill?)
    && forall c, d | c in s.calls && d in s.calls && s.calls[c].Fill? && s.calls[d].Fill? :: c == d
  }

  /** A running write has put a prefix of its data in the pipe. */
  ghost predicate WriteOk(w: Call, mine: seq<byte>)
    requires w.Write?
  {
    && w.rest != [] && ChunkSizes(w.rest) && w.offset < |w.rest[0]| && w.done <= |w.data| && mine == w.data[..w.done]
    && w.data[w.done..] == w.rest[0][w.offset..] + Joined(w.rest[1..])
    && (w.atomic <==> |w.data| <= PIPE_BUF)
    && (w.atomic ==> |w.rest| == 1 && w.done == w.offset == 0)
  }

  /** A finished write has put in exactly what it reports; a small one all or nothing, in one piece. */
  ghost predicate WrittenOk(w: Call, log: seq<Entry>, c: nat)
    requires w.Written?
  {
    match w.result
    case Count(n) => n <= |w.data| && Of(log, c) == w.data[..n] && (|w.data| <= PIPE_BUF ==> n == |w.data| && Together(log, c, w.data))
    case Failed(_) => Of(log, c) == []
  }

  /** A finished read has taken exactly what it reports, in one piece, and stored it byte for byte. */
  ghost predicate ReadOk(r: Call, s: State, c: nat)
    requires r.ReadDone?
  {
    match r.result
    case Count(n) =>
      && |Of(s.delivered, c)| == n && Together(s.delivered, c, Of(s.delivered, c))
      && n <= Requested(r.v) && (Apart(r.v) ==> forall k | 0 <= k < n :: Look(r.stored, Address(r.v, k)) == Holds(Of(s.delivered, c)[k]))
      && (n == 0 ==> Requested(r.v) == 0 || (s.writers == 0 && s.contents == []))
    case Failed(_) => Of(s.delivered, c) == []
  }

  ghost predicate CallOk(s: State, c: nat)
    requires c in s.calls
  {
    match s.calls[c]
    case Write(_, _, _, _, _, _) => s.writers > 0 && WriteOk(s.calls[c], Of(s.accepted, c)) && Of(s.delivered, c) == []
    case Written(_, _) => WrittenOk(s.calls[c], s.accepted, c) && Of(s.delivered, c) == []
    case Read(v, _) => s.readers > 0 && Requested(v) > 0 && Of(s.accepted, c) == Of(s.delivered, c) == []
    case Fill(v, n) => s.readers > 0 && 0 < n <= |s.contents| && n <= Requested(v) && Of(s.accepted, c) == Of(s.delivered, c) == []
    case ReadDone(_, _, _) => ReadOk(s.calls[c], s, c) && Of(s.accepted, c) == []
  }

  ghost predicate Inv(s: State) {
    && Fifo(s) && OneFill(s) && Known(s.accepted, s.calls) && Known(s.delivered, s.calls)
    && forall c | c in s.calls :: CallOk(s, c)
  }

  // ----- logs -----

  lemma {:induction false} OfConcat(a: seq<Entry>, b: seq<Entry>, c: nat)
    ensures Of(a + b, c) == Of(a, c) + Of(b, c)
    decreases |b|
  {
    if b == [] {
      assert a + b == a;
    } else {
      OfConcat(a, b[..|b| - 1], c);
      assert (a + b)[..|a + b| - 1] == a + b[..|b| - 1];
    }
  }

  lemma {:induction false} OfTag(c: nat, b: seq<byte>, d: nat)
    ensures Of(Tag(c, b), d) == if c == d then b else []
    decreases |b|
  {
    if b != [] {
      var n := |b| - 1;
      OfTag(c, b[..n], d);
      assert Tag(c, b)[..n] == Tag(c, b[..n]);
      assert b == b[..n] + [b[n]];
    }
  }

  lemma OfMore(log: seq<Entry>, c: nat, b: seq<byte>, d: nat)
    ensures Of(log + Tag(c, b), d) == if c == d then Of(log, d) + b else Of(log, d)
  {
    OfConcat(log, Tag(c, b), d);
    OfTag(c, b, d);
    assert Of(log, d) + [] == Of(log, d);
  }

  lemma {:induction false} OfUnknown(log: seq<Entry>, calls: map<nat, Call>, c: nat)
    requires Known(log, calls) && c !in calls
    ensures Of(log, c) == []
    decreases |log|
  {
    if log != [] { OfUnknown(log[..|log| - 1], calls, c); }
  }

  lemma KnownMore(log: seq<Entry>, calls: map<nat, Call>, c: nat, b: seq<byte>, call: Call)
    requires Known(log, calls)
    ensures Known(log + Tag(c, b), calls[c := call]) && Known(log, calls[c := call])
  {
  }

  lemma TogetherMore(log: seq<Entry>, c: nat, b: seq<byte>, more: seq<Entry>)
    requires Together(log, c, b)
    ensures Together(log + more, c, b)
  {
    var p: nat :| TogetherAt(log, c, b, p);
    assert (log + more)[p..p + |b|] == log[p..p + |b|];
    assert TogetherAt(log + more, c, b, p);
  }

  lemma TogetherLast(log: seq<Entry>, c: nat, b: seq<byte>)
    ensures Together(log + Tag(c, b), c, b)
  {
    assert TogetherAt(log + Tag(c, b), c, b, |log|);
  }

  lemma ValuesMore(log: seq<Entry>, c: nat, b: seq<byte>)
    ensures Values(log + Tag(c, b)) == Values(log) + b
  {
  }

  // ----- what a step of call `c` leaves alone -----

  /** Only call `c` moves; it may add `x` to what was accepted and `y` to what was delivered. */
  ghost predicate Moves(s: State, t: State, c: nat, x: seq<byte>, y: seq<byte>) {
    && t.calls.Keys == s.calls.Keys + {c} && (forall d | d in s.calls && d != c :: t.calls[d] == s.calls[d])
    && t.accepted == s.accepted + Tag(c, x) && t.delivered == s.delivered + Tag(c, y)
    && t.readers == s.readers && t.writers == s.writers
    && (s.writers == 0 && s.contents == [] ==> t.contents == [])
  }

  lemma OtherKeeps(s: State, t: State, c: nat, x: seq<byte>, y: seq<byte>, d: nat)
    requires Moves(s, t, c, x, y) && d in s.calls && d != c && CallOk(s, d)
    requires s.calls[d].Fill? ==> |s.contents| <= |t.contents|
    ensures CallOk(t, d)
  {
    OfMore(s.accepted, c, x, d);
    OfMore(s.delivered, c, y, d);
    if s.calls[d].Written? && s.calls[d].result.Count? && |s.calls[d].data| <= PIPE_BUF {
      TogetherMore(s.accepted, d, s.calls[d].data, Tag(c, x));
    }
    if s.calls[d].ReadDone? && s.calls[d].result.Count? {
      TogetherMore(s.delivered, d, Of(s.delivered, d), Tag(c, y));
    }
  }

  lemma TagNothing(log: seq<Entry>, c: nat)
    ensures log + Tag(c, []) == log
  {
  }

  /** A step that only changes the state of a call. */
  lemma BeginKeeps(s: State, c: nat, call: Call)
    requires Inv(s) && !call.Fill? && (c in s.calls ==> !s.calls[c].Fill?) && CallOk(Begin(s, c, call), c)
    ensures Inv(Begin(s, c, call))
  {
    hide CallOk, Fifo, OneFill, Known;
    var t := Begin(s, c, call);
    forall d | d in t.calls ensures CallOk(t, d) {
      if d != c { StillOk(s, t, c, d); }
    }
    KnownMore(s.accepted, s.calls, c, [], call);
    KnownMore(s.delivered, s.calls, c, [], call);
    OneFillSame(s, t, c, call);
    FifoSame(s, t);
  }

  lemma FifoSame(s: State, t: State)
    requires Fifo(s) && t.contents == s.contents && t.accepted == s.accepted && t.delivered == s.delivered
    ensures Fifo(t)
  {
  }

  /** The logs and the contents stay; only call `c` changes. */
  lemma StillOk(s: State, t: State, c: nat, d: nat)
    requires d in s.calls && d != c && CallOk(s, d) && t.calls.Keys == s.calls.Keys + {c}
    requires forall e | e in s.calls && e != c :: t.calls[e] == s.calls[e]
    requires t.accepted == s.accepted && t.delivered == s.delivered && t.contents == s.contents && t.readers == s.readers && t.writers == s.writers
    ensures CallOk(t, d)
  {
    hide CallOk, Tag;
    TagNothing(s.accepted, c);
    TagNothing(s.delivered, c);
    OtherKeeps(s, t, c, [], [], d);
  }

  lemma NoBytes(s: State, c: nat)
    requires Known(s.accepted, s.calls) && Known(s.delivered, s.calls) && c !in s.calls
    ensures Of(s.accepted, c) == Of(s.delivered, c) == []
  {
    OfUnknown(s.accepted, s.calls, c);
    OfUnknown(s.delivered, s.calls, c);
  }

  lemma TogetherNone(log: seq<Entry>, c: nat)
    ensures Together(log, c, [])
  {
    assert TogetherAt(log, c, [], 0);
  }

  // ----- the write steps -----

  lemma StartWriteKeeps(s: State, c: nat, parts: seq<seq<byte>>, nonblock: bool)
    requires Inv(s) && c !in s.calls && s.writers > 0
    ensures Inv(DoStartWrite(s, c, parts, nonblock))
  {
    NoBytes(s, c);
    TogetherNone(s.accepted, c);
    var data := Joined(parts);
    if data != [] { ChunksJoin(parts); }
    assert [] == data[..0] && data == data[0..];
    var t := DoStartWrite(s, c, parts, nonblock);
    if data != [] && |data| <= COUNT_LIMIT {
      var chunks := Chunks(parts);
      assert chunks[0][0..] == chunks[0];
      assert WriteOk(t.calls[c], []);
    }
    assert CallOk(t, c);
    BeginKeeps(s, c, t.calls[c]);
  }

  /** Any early end of a write reports what is already in the pipe. */
  lemma ShortKeeps(s: State, c: nat, error: Error)
    requires Inv(s) && c in s.calls && s.calls[c].Write?
    ensures Inv(Begin(s, c, Written(s.calls[c].data, Short(s.calls[c].done, error))))
  {
    assert CallOk(s, c);
    assert CallOk(Begin(s, c, Written(s.calls[c].data, Short(s.calls[c].done, error))), c);
    BeginKeeps(s, c, Written(s.calls[c].data, Short(s.calls[c].done, error)));
  }

  /** The written part grows by exactly the bytes copied. */
  lemma PrefixGrows(w: Call, n: nat)
    requires w.Write? && w.rest != [] && w.offset + n <= |w.rest[0]| && w.done <= |w.data|
    requires w.data[w.done..] == w.rest[0][w.offset..] + Joined(w.rest[1..])
    ensures w.done + n <= |w.data| && w.data[..w.done] + w.rest[0][w.offset..w.offset + n] == w.data[..w.done + n]
    ensures w.data[w.done + n..] == w.rest[0][w.offset + n..] + Joined(w.rest[1..])
  {
    var tail := w.rest[0][w.offset..] + Joined(w.rest[1..]);
    assert w.data == w.data[..w.done] + tail;
    assert tail[..n] == w.rest[0][w.offset..w.offset + n];
    assert tail[n..] == w.rest[0][w.offset + n..] + Joined(w.rest[1..]);
    assert w.data[w.done..][..n] == w.data[w.done..w.done + n];
    assert w.data[w.done..][n..] == w.data[w.done + n..];
  }

  lemma AdvanceOk(w: Call, mine: seq<byte>, n: nat)
    requires w.Write? && WriteOk(w, mine) && 0 < n <= |w.rest[0]| - w.offset && (w.atomic ==> n == |w.rest[0]|)
    ensures var t, now := Advance(w, n), mine + w.rest[0][w.offset..w.offset + n];
      && (t.Write? ==> WriteOk(t, now))
      && (t.Written? ==> now == w.data && t.result == Count(|w.data|) && (|w.data| <= PIPE_BUF ==> mine == []))
  {
    PrefixGrows(w, n);
    if w.offset + n == |w.rest[0]| {
      assert w.rest[0][w.offset + n..] == [];
      if |w.rest| > 1 {
        assert w.rest[1..][0][0..] == w.rest[1..][0];
      } else {
        assert w.data[..w.done + n] == w.data;
      }
    }
  }

  predicate Offers(s: State, c: nat, n: nat) {
    Writing(s, c) && 0 < n <= |s.calls[c].rest[0]| - s.calls[c].offset && (s.calls[c].atomic ==> n == |s.calls[c].rest[0]|)
  }

  lemma AcceptCall(s: State, c: nat, n: nat)
    requires Inv(s) && Offers(s, c, n)
    ensures CallOk(Accept(s, c, s.calls[c], n), c)
  {
    hide WriteOk, Together, Of, Tag;
    assert CallOk(s, c);
    var w := s.calls[c];
    var chunk := w.rest[0][w.offset..w.offset + n];
    AdvanceOk(w, Of(s.accepted, c), n);
    OfMore(s.accepted, c, chunk, c);
    TogetherLast(s.accepted, c, chunk);
    if Advance(w, n).Written? {
      assert w.data[..|w.data|] == w.data;
      if |w.data| <= PIPE_BUF { assert [] + chunk == chunk; }
    }
  }

  lemma AcceptOthers(s: State, c: nat, n: nat, d: nat)
    requires Inv(s) && Offers(s, c, n) && s.writers > 0
    requires d in s.calls && d != c
    ensures CallOk(Accept(s, c, s.calls[c], n), d)
  {
    hide CallOk, Fifo, OneFill, Known, Tag;
    var w := s.calls[c];
    TagNothing(s.delivered, c);
    OtherKeeps(s, Accept(s, c, w, n), c, w.rest[0][w.offset..w.offset + n], [], d);
  }

  lemma FifoAccepts(s: State, t: State, c: nat, b: seq<byte>)
    requires Fifo(s) && |s.contents| + |b| <= CAPACITY
    requires t.contents == s.contents + b && t.accepted == s.accepted + Tag(c, b) && t.delivered == s.delivered
    ensures Fifo(t)
  {
    ValuesMore(s.accepted, c, b);
  }

  lemma OneFillSame(s: State, t: State, c: nat, call: Call)
    requires OneFill(s) && t.calls == s.calls[c := call] && t.busy == s.busy && !call.Fill? && (c in s.calls ==> !s.calls[c].Fill?)
    ensures OneFill(t)
  {
    if s.busy {
      var f :| f in s.calls && s.calls[f].Fill?;
      assert f in t.calls && t.calls[f].Fill?;
    }
  }

  lemma AcceptKeeps(s: State, c: nat, n: nat)
    requires Inv(s) && Offers(s, c, n)
    requires n <= CAPACITY - |s.contents|
    ensures Inv(Accept(s, c, s.calls[c], n))
  {
    hide CallOk, Fifo, OneFill, Known, Tag;
    var w := s.calls[c];
    var t := Accept(s, c, w, n);
    var chunk := w.rest[0][w.offset..w.offset + n];
    AcceptCall(s, c, n);
    WritersOpen(s, c);
    forall d | d in t.calls ensures CallOk(t, d) {
      if d != c { AcceptOthers(s, c, n, d); }
    }
    KnownMore(s.accepted, s.calls, c, chunk, t.calls[c]);
    KnownMore(s.delivered, s.calls, c, [], t.calls[c]);
    FifoAccepts(s, t, c, chunk);
    OneFillSame(s, t, c, t.calls[c]);
  }

  lemma WritersOpen(s: State, c: nat)
    requires c in s.calls && s.calls[c].Write? && CallOk(s, c)
    ensures s.writers > 0
  {
  }

  lemma WritingSome(s: State, c: nat)
    requires Inv(s) && Writing(s, c)
    ensures s.calls[c].offset < |s.calls[c].rest[0]| && (s.calls[c].atomic ==> s.calls[c].offset == 0) && |s.contents| <= CAPACITY
  {
    assert CallOk(s, c);
  }

  lemma WriteTurnKeeps(s: State, c: nat, interrupted: bool)
    requires Inv(s) && Writing(s, c) && |s.contents| <= CAPACITY
    ensures Inv(DoWriteTurn(s, c, s.calls[c], interrupted))
  {
    hide Inv, Accept;
    WritingSome(s, c);
    var w := s.calls[c];
    var available := CAPACITY - |s.contents|;
    if s.readers == 0 {
      ShortKeeps(s, c, BrokenPipe);
    } else if (w.atomic && available < |w.rest[0]|) || available == 0 {
      ShortKeeps(s, c, Again);
      ShortKeeps(s, c, Interrupted);
    } else {
      AcceptKeeps(s, c, Least(|w.rest[0]| - w.offset, available));
    }
  }

  // ----- the read steps -----

  lemma StartReadKeeps(s: State, c: nat, v: seq<Iovec>, nonblock: bool)
    requires Inv(s) && c !in s.calls && s.readers > 0
    ensures Inv(DoStartRead(s, c, v, nonblock))
  {
    hide Fifo, OneFill, Known, Of, Together, Requested, Apart, Address;
    NoBytes(s, c);
    TogetherNone(s.delivered, c);
    var t := DoStartRead(s, c, v, nonblock);
    assert CallOk(t, c);
    BeginKeeps(s, c, t.calls[c]);
  }

  lemma ReadStops(s: State, c: nat, result: Result)
    requires Inv(s) && c in s.calls && s.calls[c].Read?
    requires result.Failed? || (result == Count(0) && s.writers == 0 && s.contents == [])
    ensures Inv(Begin(s, c, ReadDone(s.calls[c].v, map[], result)))
  {
    assert CallOk(s, c);
    TogetherNone(s.delivered, c);
    assert CallOk(Begin(s, c, ReadDone(s.calls[c].v, map[], result)), c);
    BeginKeeps(s, c, ReadDone(s.calls[c].v, map[], result));
  }

  lemma ClaimKeeps(s: State, c: nat)
    requires Inv(s) && c in s.calls && s.calls[c].Read? && s.contents != [] && !s.busy
    ensures Inv(Begin(s, c, Fill(s.calls[c].v, Least(|s.contents|, Requested(s.calls[c].v)))).(busy := true))
  {
    hide CallOk, Fifo, OneFill, Known;
    var call := Fill(s.calls[c].v, Least(|s.contents|, Requested(s.calls[c].v)));
    var t := Begin(s, c, call).(busy := true);
    FillOk(s, c, call.available);
    forall d | d in t.calls ensures CallOk(t, d) {
      if d != c { StillOk(s, t, c, d); }
    }
    KnownMore(s.accepted, s.calls, c, [], call);
    KnownMore(s.delivered, s.calls, c, [], call);
    OneFillNew(s, t, c, call);
    FifoSame(s, t);
  }

  lemma FillOk(s: State, c: nat, n: nat)
    requires c in s.calls && s.calls[c].Read? && CallOk(s, c) && s.contents != [] && n == Least(|s.contents|, Requested(s.calls[c].v))
    ensures CallOk(Begin(s, c, Fill(s.calls[c].v, n)).(busy := true), c)
  {
    hide Of;
  }

  lemma OneFillNew(s: State, t: State, c: nat, call: Call)
    requires OneFill(s) && !s.busy && t.busy && t.calls == s.calls[c := call] && call.Fill?
    ensures OneFill(t)
  {
    assert c in t.calls && t.calls[c].Fill?;
  }

  lemma ReadTurnKeeps(s: State, c: nat, interrupted: bool)
    requires Inv(s) && c in s.calls && s.calls[c].Read?
    ensures Inv(DoReadTurn(s, c, s.calls[c], interrupted))
  {
    if s.contents == [] || s.busy {
      if s.contents == [] && s.writers == 0 && !s.busy { ReadStops(s, c, Count(0)); }
      ReadStops(s, c, Failed(Again));
      ReadStops(s, c, Failed(Interrupted));
    } else {
      ClaimKeeps(s, c);
    }
  }

  lemma PrefaultFailsKeeps(s: State, c: nat)
    requires Inv(s) && c in s.calls && s.calls[c].Fill?
    ensures Inv(Begin(s, c, ReadDone(s.calls[c].v, map[], Failed(Fault))).(busy := false))
  {
    hide CallOk, Fifo, OneFill, Known;
    var call := ReadDone(s.calls[c].v, map[], Failed(Fault));
    var t := Begin(s, c, call).(busy := false);
    FaultOk(s, c);
    forall d | d in t.calls ensures CallOk(t, d) {
      if d != c { StillOk(s, t, c, d); }
    }
    KnownMore(s.accepted, s.calls, c, [], call);
    KnownMore(s.delivered, s.calls, c, [], call);
    OneFillDone(s, t, c, call);
    FifoSame(s, t);
  }

  lemma FaultOk(s: State, c: nat)
    requires c in s.calls && s.calls[c].Fill? && CallOk(s, c)
    ensures CallOk(Begin(s, c, ReadDone(s.calls[c].v, map[], Failed(Fault))).(busy := false), c)
  {
    hide Of;
  }

  lemma FifoDelivers(s: State, t: State, c: nat, n: nat)
    requires Fifo(s) && n <= |s.contents|
    requires t.contents == s.contents[n..] && t.accepted == s.accepted && t.delivered == s.delivered + Tag(c, s.contents[..n])
    ensures Fifo(t)
  {
    ValuesMore(s.delivered, c, s.contents[..n]);
    assert s.contents == s.contents[..n] + s.contents[n..];
    assert Values(s.delivered) + (s.contents[..n] + s.contents[n..]) == (Values(s.delivered) + s.contents[..n]) + s.contents[n..];
  }

  /** What the finished read reports is what left the pipe and what is in its memory. */
  lemma FinishCall(s: State, c: nat, target: Target)
    requires Inv(s) && c in s.calls && s.calls[c].Fill?
    ensures s.calls[c].available <= |s.contents| && CallOk(DoReadFinish(s, c, s.calls[c], target), c)
  {
    hide Together, Of, Tag, Scatter, Apart, Address, Look, Requested, Takes;
    FillFacts(s, c);
    var r := s.calls[c];
    var b := s.contents[..r.available];
    ScatterExact(target, r.v, b, map[]);
    var o := Scatter(target, r.v, b, map[]);
    var mine := b[..o.total];
    assert s.contents[..o.total] == mine;
    OfMore(s.delivered, c, mine, c);
    TogetherLast(s.delivered, c, mine);
    assert [] + mine == mine;
    MemoryHolds(target, r.v, b);
    TagNothing(s.accepted, c);
  }

  lemma FillFacts(s: State, c: nat)
    requires Inv(s) && c in s.calls && s.calls[c].Fill?
    ensures CallOk(s, c) && 0 < s.calls[c].available <= |s.contents| && s.calls[c].available <= Requested(s.calls[c].v)
    ensures Of(s.accepted, c) == Of(s.delivered, c) == []
  {}

  lemma MemoryHolds(target: Target, v: seq<Iovec>, b: seq<byte>)
    requires |b| <= Requested(v)
    ensures var o := Scatter(target, v, b, map[]);
      && o.total <= |b| && (Apart(v) ==> forall k | 0 <= k < o.total :: Look(o.memory, Address(v, k)) == Holds(b[..o.total][k]))
  {
    ScatterExact(target, v, b, map[]);
    var o := Scatter(target, v, b, map[]);
    if Apart(v) {
      forall k | 0 <= k < o.total ensures Look(o.memory, Address(v, k)) == Holds(b[..o.total][k]) { ScatterAt(target, v, b, map[], k); }
    }
  }

  lemma FinishOthers(s: State, c: nat, target: Target, d: nat)
    requires Inv(s) && c in s.calls && s.calls[c].Fill? && s.calls[c].available <= |s.contents| && d in s.calls && d != c
    ensures CallOk(DoReadFinish(s, c, s.calls[c], target), d)
  {
    hide CallOk, Fifo, Known, Tag, Scatter;
    var t := DoReadFinish(s, c, s.calls[c], target);
    var n := Least(Scatter(target, s.calls[c].v, s.contents[..s.calls[c].available], map[]).total, |s.contents|);
    TagNothing(s.accepted, c);
    OtherKeeps(s, t, c, [], s.contents[..n], d);
  }

  lemma OneFillDone(s: State, t: State, c: nat, call: Call)
    requires OneFill(s) && t.calls == s.calls[c := call] && !t.busy && !call.Fill? && c in s.calls && s.calls[c].Fill?
    ensures OneFill(t)
  {
  }

  lemma ReadFinishKeeps(s: State, c: nat, target: Target)
    requires Inv(s) && c in s.calls && s.calls[c].Fill? && s.calls[c].available <= |s.contents|
    ensures Inv(DoReadFinish(s, c, s.calls[c], target))
  {
    hide CallOk, Fifo, OneFill, Known, Tag, Scatter;
    var t := DoReadFinish(s, c, s.calls[c], target);
    var n := Least(Scatter(target, s.calls[c].v, s.contents[..s.calls[c].available], map[]).total, |s.contents|);
    FinishCall(s, c, target);
    forall d | d in t.calls ensures CallOk(t, d) {
      if d != c { FinishOthers(s, c, target, d); }
    }
    KnownMore(s.accepted, s.calls, c, [], t.calls[c]);
    KnownMore(s.delivered, s.calls, c, s.contents[..n], t.calls[c]);
    FifoDelivers(s, t, c, n);
    OneFillDone(s, t, c, t.calls[c]);
  }

  lemma CloseReaderKeeps(s: State)
    requires Inv(s) && s.readers > 0 && NoReadRuns(s)
    ensures Inv(s.(readers := s.readers - 1))
  {
    var t := s.(readers := s.readers - 1);
    forall c | c in t.calls ensures CallOk(t, c) { assert CallOk(s, c); }
  }

  lemma CloseWriterKeeps(s: State)
    requires Inv(s) && s.writers > 0 && NoWriteRuns(s)
    ensures Inv(s.(writers := s.writers - 1))
  {
    var t := s.(writers := s.writers - 1);
    forall c | c in t.calls ensures CallOk(t, c) { assert CallOk(s, c); }
  }

  // ----- runs -----

  lemma StepKeeps(s: State, a: Action)
    requires Inv(s) && Enabled(s, a)
    ensures Inv(Step(s, a))
  {
    hide Inv;
    match a
    case StartWrite(c, parts, nonblock) => StartWriteKeeps(s, c, parts, nonblock);
    case StageFails(c, e) => ShortKeeps(s, c, e);
    case WriteTurn(c, interrupted) => WriteTurnKeeps(s, c, interrupted);
    case StartRead(c, v, nonblock) => StartReadKeeps(s, c, v, nonblock);
    case ReadTurn(c, interrupted) => ReadTurnKeeps(s, c, interrupted);
    case PrefaultFails(c) => PrefaultFailsKeeps(s, c);
    case ReadFinish(c, target) => ReadFinishKeeps(s, c, target);
    case CloseReader => CloseReaderKeeps(s);
    case CloseWriter => CloseWriterKeeps(s);
  }

  function Initial(): State { State([], 1, 1, false, map[], [], []) }

  datatype Trace = Start | Then(before: Trace, action: Action)

  datatype Reached = At(state: State) | Impossible

  ghost function Reaches(r: Trace): Reached {
    match r
    case Start => At(Initial())
    case Then(before, a) =>
      var b := Reaches(before);
      if b.At? && Enabled(b.state, a) then At(Step(b.state, a)) else Impossible
  }

  lemma {:induction false} Safe(r: Trace)
    requires Reaches(r).At?
    ensures Inv(Reaches(r).state)
    decreases r
  {
    match r
    case Start => assert Inv(Initial());
    case Then(before, a) =>
      Safe(before);
      hide Inv;
      StepKeeps(Reaches(before).state, a);
  }

  /** What has been read is a prefix of what has been written, and the pipe holds the rest. */
  lemma ReadsArePrefix(r: Trace)
    requires Reaches(r).At?
    ensures var s := Reaches(r).state;
      && Values(s.delivered) <= Values(s.accepted) && Values(s.accepted)[|s.delivered|..] == s.contents && |s.contents| <= CAPACITY
  {
    Safe(r);
    var s := Reaches(r).state;
    assert |Values(s.delivered)| == |s.delivered|;
  }

  /** A write of at most PIPE_BUF bytes is all or nothing, and no other write's bytes come between. */
  lemma SmallWritesAtomic(r: Trace, c: nat)
    requires Reaches(r).At? && c in Reaches(r).state.calls && Reaches(r).state.calls[c].Written?
    requires |Reaches(r).state.calls[c].data| <= PIPE_BUF
    ensures var s := Reaches(r).state; var w := s.calls[c];
      if w.result.Count? then w.result.n == |w.data| && Of(s.accepted, c) == w.data && Together(s.accepted, c, w.data)
      else Of(s.accepted, c) == []
  {
    Safe(r);
    var w := Reaches(r).state.calls[c];
    assert CallOk(Reaches(r).state, c);
    assert w.data[..|w.data|] == w.data;
  }

  /** Every finished write has put in exactly the prefix of its data that it reports, in order. */
  lemma WritesReport(r: Trace, c: nat)
    requires Reaches(r).At? && c in Reaches(r).state.calls && Reaches(r).state.calls[c].Written?
    ensures var s := Reaches(r).state; var w := s.calls[c];
      if w.result.Count? then w.result.n <= |w.data| && Of(s.accepted, c) == w.data[..w.result.n] else Of(s.accepted, c) == []
  {
    Safe(r);
    assert CallOk(Reaches(r).state, c);
  }

  /** Every finished read has taken exactly the bytes it reports, in one piece, and its memory holds them in order. */
  lemma ReadsReport(r: Trace, c: nat)
    requires Reaches(r).At? && c in Reaches(r).state.calls && Reaches(r).state.calls[c].ReadDone?
    ensures var s := Reaches(r).state; var d := s.calls[c]; var mine := Of(s.delivered, c);
      if d.result.Failed? then mine == [] else
        && |mine| == d.result.n <= Requested(d.v) && Together(s.delivered, c, mine)
        && (Apart(d.v) ==> forall k | 0 <= k < |mine| :: Look(d.stored, Address(d.v, k)) == Holds(mine[k]))
  {
    Safe(r);
    assert CallOk(Reaches(r).state, c);
  }

  /** A read returns 0 only when nothing was asked for, or the stream has ended and every accepted byte has been read. */
  lemma EndOfStream(r: Trace, c: nat)
    requires Reaches(r).At? && c in Reaches(r).state.calls
    requires var call := Reaches(r).state.calls[c]; call.ReadDone? && call.result == Count(0) && Requested(call.v) > 0
    ensures var s := Reaches(r).state; s.writers == 0 && Values(s.delivered) == Values(s.accepted)
  {
    Safe(r);
    assert CallOk(Reaches(r).state, c);
  }
}
