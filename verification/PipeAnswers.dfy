/** The answer of every turn of a pipe call and when it comes: what is claimed, moved and reported, and when a call stops
with an error, waits or ends. */
module PipeAnswers {
  import opened Common
  import opened Pipe
  import opened PipeRuns

  /** Only call `c` has gone on. */
  ghost predicate OnlyCall(s: State, t: State, c: nat) {
    && c in t.calls && t.calls.Keys == s.calls.Keys + {c} && (forall d | d in s.calls && d != c :: t.calls[d] == s.calls[d])
    && t.readers == s.readers && t.writers == s.writers
  }

  /** No byte has moved and nobody has claimed or released the pipe. */
  ghost predicate Still(s: State, t: State) {
    t.contents == s.contents && t.accepted == s.accepted && t.delivered == s.delivered && t.busy == s.busy
  }

  /** A turn of the waiting loop of pipe_readv.  A pipe that holds bytes and that no other reader has is claimed, for as many
      bytes as it holds and the call wants; at the end of the stream the call returns 0; otherwise it answers that it would
      block, that it was interrupted, or waits on. */
  lemma ReadTurnExact(s: State, c: nat, interrupted: bool)
    requires c in s.calls && s.calls[c].Read?
    ensures var t, r := DoReadTurn(s, c, s.calls[c], interrupted), s.calls[c];
      var ready, ended := s.contents != [] && !s.busy, s.contents == [] && s.writers == 0 && !s.busy;
      && OnlyCall(s, t, c)
      && (t.calls[c].Fill? <==> ready) && (ready ==> t.busy && t.calls[c].v == r.v && t == s.(busy := true, calls := t.calls))
      && (ready ==> t.calls[c].available <= |s.contents| && t.calls[c].available <= Requested(r.v)
                    && (t.calls[c].available == |s.contents| || t.calls[c].available == Requested(r.v)))
      && (!ready ==> Still(s, t))
      && (t.calls[c].ReadDone? ==> t.calls[c].v == r.v && t.calls[c].stored == map[] && t.calls[c].result in {Count(0), Failed(Again), Failed(Interrupted)})
      && (t.calls[c].ReadDone? && t.calls[c].result == Count(0) <==> ended)
      && (t.calls[c].ReadDone? && t.calls[c].result == Failed(Again) <==> !ready && !ended && r.nonblock)
      && (t.calls[c].ReadDone? && t.calls[c].result == Failed(Interrupted) <==> !ready && !ended && !r.nonblock && interrupted)
      && (t.calls[c].Read? <==> !ready && !ended && !r.nonblock && !interrupted) && (t.calls[c].Read? ==> t == s)
  {}

  /** The end of pipe_readv.  Every byte up to the first address that faults leaves the pipe and is reported; a fault at the
      first address is an error. */
  lemma ReadFinishExact(s: State, c: nat, target: Target)
    requires Inv(s) && c in s.calls && s.calls[c].Fill?
    ensures s.calls[c].available <= |s.contents| && s.calls[c].available <= Requested(s.calls[c].v)
    ensures var t, r := DoReadFinish(s, c, s.calls[c], target), s.calls[c];
      && OnlyCall(s, t, c) && !t.busy && t.accepted == s.accepted && t.calls[c].ReadDone? && t.calls[c].v == r.v
      && |t.contents| <= |s.contents|
      && var n := |s.contents| - |t.contents|;
        && n <= r.available && t.contents == s.contents[n..] && t.delivered == s.delivered + Tag(c, s.contents[..n])
        && (forall k | 0 <= k < n :: Takes(target, Address(r.v, k))) && (n < r.available ==> !Takes(target, Address(r.v, n)))
        && t.calls[c].result == if n > 0 then Count(n) else Failed(Fault)
  {
    hide Inv, CallOk, Of, Scatter, Tag, Requested, Address, Takes;
    FillFacts(s, c);
    ScatterExact(target, s.calls[c].v, s.contents[..s.calls[c].available], map[]);
  }

  /** No room for what the write wants: an atomic write needs all of its bytes, any other at least one. */
  predicate Blocked(s: State, w: Call)
    requires w.Write?
  {
    |s.contents| >= CAPACITY || (w.atomic && CAPACITY - |s.contents| < |w.data|)
  }

  /** How the call goes on when `n` more bytes of its data are in the pipe. */
  predicate GoesOn(w: Call, u: Call, n: nat)
    requires w.Write?
  {
    if w.done + n == |w.data| then u == Written(w.data, Count(|w.data|))
    else u.Write? && u.data == w.data && u.done == w.done + n && u.atomic == w.atomic && u.nonblock == w.nonblock
  }

  /** A turn of pipe_write_staged.  With room and a reader the next bytes of the data enter the pipe, as many as fit, up to the
      end of the staged page; a call that stops reports the bytes it has put in, or the error when there are none. */
  lemma WriteTurnExact(s: State, c: nat, interrupted: bool)
    requires Inv(s) && Writing(s, c) && |s.contents| <= CAPACITY
    ensures var t, w := DoWriteTurn(s, c, s.calls[c], interrupted), s.calls[c];
      && OnlyCall(s, t, c) && t.busy == s.busy && t.delivered == s.delivered
      && (s.readers == 0 ==> Still(s, t) && t.calls[c] == Written(w.data, if w.done > 0 then Count(w.done) else Failed(BrokenPipe)))
      && (s.readers > 0 && Blocked(s, w) ==>
            && Still(s, t)
            && t.calls[c] == (if w.nonblock then Written(w.data, if w.done > 0 then Count(w.done) else Failed(Again))
                              else if interrupted then Written(w.data, if w.done > 0 then Count(w.done) else Failed(Interrupted))
                              else w))
      && (s.readers > 0 && !Blocked(s, w) ==>
            exists n: nat :: Moved(s, t, c, n))
  {
    hide Inv, CallOk, Of, Tag, Joined, Accept, Moved, WriteOk;
    WriteFacts(s, c);
    var w := s.calls[c];
    if s.readers > 0 && !Blocked(s, w) {
      var n := Least(|w.rest[0]| - w.offset, CAPACITY - |s.contents|);
      AcceptMoves(s, c, n);
      assert Moved(s, Accept(s, c, w, n), c, n);
    }
  }

  /** The next `n` bytes of the data have entered the pipe: as many as fit, or up to the end of the staged page. */
  ghost predicate Moved(s: State, t: State, c: nat, n: nat)
    requires Writing(s, c) && c in t.calls
  {
    var w := s.calls[c];
    && 0 < n && w.done + n <= |w.data| && |s.contents| + n <= CAPACITY
    && t.contents == s.contents + w.data[w.done..w.done + n] && t.accepted == s.accepted + Tag(c, w.data[w.done..w.done + n])
    && GoesOn(w, t.calls[c], n)
    && (n == CAPACITY - |s.contents| || w.offset + n == |w.rest[0]|)
  }

  lemma AcceptMoves(s: State, c: nat, n: nat)
    requires Inv(s) && Writing(s, c) && 0 < n == Least(|s.calls[c].rest[0]| - s.calls[c].offset, CAPACITY - |s.contents|)
    ensures var t := Accept(s, c, s.calls[c], n);
      OnlyCall(s, t, c) && t.busy == s.busy && t.delivered == s.delivered && Moved(s, t, c, n)
  {
    hide Inv, CallOk, Of, Tag, Joined;
    WriteFacts(s, c);
    SameBytes(s.calls[c], n);
  }

  lemma WriteFacts(s: State, c: nat)
    requires Inv(s) && Writing(s, c)
    ensures WriteOk(s.calls[c], Of(s.accepted, c))
    ensures s.calls[c].atomic ==> s.calls[c].rest[0] == s.calls[c].data
    ensures |s.calls[c].rest| == 1 ==> |s.calls[c].data| - s.calls[c].done == |s.calls[c].rest[0]| - s.calls[c].offset
    ensures s.calls[c].offset < |s.calls[c].rest[0]|
    ensures |s.calls[c].rest| > 1 ==> |s.calls[c].data| - s.calls[c].done > |s.calls[c].rest[0]| - s.calls[c].offset
  {
    assert CallOk(s, c);
    var w := s.calls[c];
    assert |w.data[w.done..]| == |w.rest[0][w.offset..]| + |Joined(w.rest[1..])|;
    if |w.rest| > 1 { JoinedSome(w.rest[1..]); }
  }

  lemma JoinedSome(parts: seq<seq<byte>>)
    requires parts != [] && ChunkSizes(parts)
    ensures |Joined(parts)| > 0
  {}

  lemma SameBytes(w: Call, n: nat)
    requires w.Write? && w.rest != [] && w.offset + n <= |w.rest[0]| && w.done <= |w.data|
    requires w.data[w.done..] == w.rest[0][w.offset..] + Joined(w.rest[1..])
    ensures w.done + n <= |w.data| && w.rest[0][w.offset..w.offset + n] == w.data[w.done..w.done + n]
  {
    assert w.data[w.done..][..n] == w.rest[0][w.offset..][..n];
  }

  /** The start of a call: too much is refused, nothing is answered with 0, and anything else is staged in order. */
  lemma StartWriteExact(s: State, c: nat, parts: seq<seq<byte>>, nonblock: bool)
    requires c !in s.calls
    ensures var t, data := DoStartWrite(s, c, parts, nonblock), Joined(parts);
      && OnlyCall(s, t, c) && Still(s, t)
      && if |data| > 0x7fff_ffff then t.calls[c] == Written(data, Failed(Invalid))
         else if data == [] then t.calls[c] == Written(data, Count(0))
         else t.calls[c].Write? && Joined(t.calls[c].rest) == data && t.calls[c] == Write(data, 0, t.calls[c].rest, 0, |data| <= PIPE_BUF, nonblock)
  {
    hide Chunks, Joined, OnlyCall, Still;
    if Joined(parts) != [] { ChunksJoin(parts); }
    BeginOnly(s, c, DoStartWrite(s, c, parts, nonblock).calls[c]);
  }

  lemma BeginOnly(s: State, c: nat, call: Call)
    ensures OnlyCall(s, Begin(s, c, call), c) && Still(s, Begin(s, c, call))
  {}

  lemma StartReadExact(s: State, c: nat, v: seq<Iovec>, nonblock: bool)
    requires c !in s.calls
    ensures var t := DoStartRead(s, c, v, nonblock);
      && OnlyCall(s, t, c) && Still(s, t)
      && t.calls[c] == (if Requested(v) > 0x7fff_ffff then ReadDone(v, map[], Failed(Invalid))
                        else if Requested(v) == 0 then ReadDone(v, map[], Count(0)) else Read(v, nonblock))
  { hide Requested; }
}
