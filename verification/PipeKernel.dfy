/** struct vfs_pipe as it is: a ring in one page, updated in place under the pipe lock. */
module PipeKernel {
  import opened Common
  import opened Pipe
  import opened PipeRuns

  /** The `n` bytes of the ring from place `r` on. */
  function Ring(b: seq<byte>, r: nat, n: nat): seq<byte>
    requires |b| == CAPACITY && r < CAPACITY && n <= CAPACITY
  {
    if r + n <= CAPACITY then b[r..r + n] else b[r..] + b[..r + n - CAPACITY]
  }

  /** The place `n` further on. */
  function On(r: nat, n: nat): nat
    requires r < CAPACITY && n <= CAPACITY
  {
    if r + n < CAPACITY then r + n else r + n - CAPACITY
  }

  lemma OnIsMod(r: nat, n: nat)
    requires r < CAPACITY && n <= CAPACITY
    ensures On(r, n) == (r + n) % CAPACITY < CAPACITY
  {
  }

  lemma RingDrops(b: seq<byte>, r: nat, n: nat, c: nat)
    requires |b| == CAPACITY && r < CAPACITY && n <= CAPACITY && c <= n && r + c <= CAPACITY
    ensures Ring(b, r, n)[..c] == b[r..r + c] && Ring(b, On(r, c), n - c) == Ring(b, r, n)[c..]
    ensures On(On(r, c), n - c) == On(r, n)
  {
    hide Ring;
    RingLength(b, r, n);
    RingLength(b, On(r, c), n - c);
    forall i | 0 <= i < c ensures Ring(b, r, n)[i] == b[r + i] { RingAt(b, r, n, i); }
    forall i | 0 <= i < n - c ensures Ring(b, On(r, c), n - c)[i] == Ring(b, r, n)[c..][i] {
      RingAt(b, r, n, c + i);
      RingAt(b, On(r, c), n - c, i);
    }
  }

  lemma RingAt(b: seq<byte>, r: nat, n: nat, i: nat)
    requires |b| == CAPACITY && r < CAPACITY && i < n <= CAPACITY
    ensures |Ring(b, r, n)| == n && Ring(b, r, n)[i] == b[On(r, i)]
  {
  }

  predicate Between(a: int, n: int, i: int) { a <= i < a + n }

  /** The two moves of pipe_copy_in: the new bytes go behind the ones in use, which stay. */
  ghost predicate Moved(b: seq<byte>, b': seq<byte>, w: nat, source: seq<byte>, first: nat) {
    && |b| == |b'| == CAPACITY && w < CAPACITY && first == Least(|source|, CAPACITY - w) && |source| <= CAPACITY
    && (forall i | Between(w, first, i) :: b'[i] == source[i - w])
    && (forall i | Between(0, |source| - first, i) :: b'[i] == source[first + i])
    && (forall i | 0 <= i < CAPACITY && !Between(w, first, i) && !Between(0, |source| - first, i) :: b'[i] == b[i])
  }

  lemma MovedAt(b: seq<byte>, b': seq<byte>, r: nat, n: nat, source: seq<byte>, first: nat, i: nat)
    requires r < CAPACITY && n + |source| <= CAPACITY && i < n + |source|
    requires Moved(b, b', On(r, n), source, first)
    ensures b'[On(r, i)] == if i < n then b[On(r, i)] else source[i - n]
  {
    if i < n {
      assert !Between(On(r, n), first, On(r, i)) && !Between(0, |source| - first, On(r, i));
    } else if i - n < first {
      assert Between(On(r, n), first, On(r, i));
    } else {
      assert Between(0, |source| - first, On(r, i));
    }
  }

  lemma RingAppends(b: seq<byte>, b': seq<byte>, r: nat, n: nat, source: seq<byte>, first: nat)
    requires r < CAPACITY && n + |source| <= CAPACITY && |b| == |b'| == CAPACITY && Moved(b, b', On(r, n), source, first)
    ensures Ring(b', r, n + |source|) == Ring(b, r, n) + source
  {
    hide On, Ring, Moved;
    RingLength(b, r, n);
    RingLength(b', r, n + |source|);
    forall i | 0 <= i < n + |source| ensures Ring(b', r, n + |source|)[i] == (Ring(b, r, n) + source)[i] {
      MovedAt(b, b', r, n, source, first, i);
      RingAt(b', r, n + |source|, i);
      if i < n { RingAt(b, r, n, i); }
    }
  }

  lemma RingLength(b: seq<byte>, r: nat, n: nat)
    requires |b| == CAPACITY && r < CAPACITY && n <= CAPACITY
    ensures |Ring(b, r, n)| == n
  {
  }

  lemma SamePage(a: nat, n: nat, k: nat)
    requires a % PAGE + n <= PAGE && a <= k < a + n
    ensures k / PAGE == a / PAGE
  {
  }

  /** copyout_nofault fails on a chunk that lies in one page. */
  predicate Refuses(target: Target, a: nat) {
    target.User? && (!target.process || a / PAGE !in target.writable)
  }

  /** The bytes from `a` on do not leave its page. */
  predicate InPage(a: nat, n: nat) { a % PAGE + n <= PAGE }

  /** After `copied` of at most `n` bytes: the rest is still in the pipe, and no fault so far. */
  ghost predicate Copied(target: Target, to: nat, n: nat, memory: map<nat, byte>, all: seq<byte>, copied: nat, now: seq<byte>, m: map<nat, byte>) {
    && copied <= n <= |all| && now == all[copied..] && m == Stored(memory, to, all[..copied])
    && Reach(target, to, n) == copied + Reach(target, to + copied, n - copied)
  }

  lemma CopiedNone(target: Target, to: nat, n: nat, memory: map<nat, byte>, all: seq<byte>)
    requires n <= |all|
    ensures Copied(target, to, n, memory, all, 0, all, memory)
  {
    assert all[..0] == [];
  }

  lemma CopiedMore(target: Target, to: nat, n: nat, memory: map<nat, byte>, all: seq<byte>, copied: nat, now: seq<byte>, m: map<nat, byte>, chunk: nat)
    requires Copied(target, to, n, memory, all, copied, now, m) && copied + chunk <= n && chunk <= |now|
    requires !Refuses(target, to + copied) && (target.User? ==> InPage(to + copied, chunk))
    ensures Copied(target, to, n, memory, all, copied + chunk, now[chunk..], Stored(m, to + copied, now[..chunk]))
  {
    var a := to + copied;
    forall k | a <= k < a + chunk ensures Takes(target, k) { if target.User? { SamePage(a, chunk, k); } }
    ReachSkip(target, a, n - copied, chunk);
    StoredMore(memory, to, all[..copied], now[..chunk]);
    assert all[..copied] + now[..chunk] == all[..copied + chunk];
  }

  lemma CopiedAll(target: Target, to: nat, n: nat, memory: map<nat, byte>, all: seq<byte>, copied: nat, now: seq<byte>, m: map<nat, byte>)
    requires Copied(target, to, n, memory, all, copied, now, m) && (copied < n ==> Refuses(target, to + copied))
    ensures copied == Reach(target, to, n) <= |all| && now == all[copied..] && m == Stored(memory, to, all[..copied])
  {
  }

  /** After `index` vectors and `total` bytes: what is left of the scatter is the scatter of what is left. */
  ghost predicate Scattering(target: Target, v: seq<Iovec>, b: seq<byte>, memory: map<nat, byte>, index: nat, total: nat, m: map<nat, byte>) {
    && index <= |v| && total <= |b|
    && var o, rest := Scatter(target, v, b, memory), Scatter(target, v[index..], b[total..], m);
      o == Out(total + rest.total, rest.fault, rest.memory)
  }

  lemma ScatterNone(target: Target, v: seq<Iovec>, b: seq<byte>, memory: map<nat, byte>)
    ensures Scattering(target, v, b, memory, 0, 0, memory)
  {
    assert v[0..] == v && b[0..] == b;
  }

  lemma ScatterNext(target: Target, v: seq<Iovec>, b: seq<byte>, memory: map<nat, byte>, index: nat, total: nat, m: map<nat, byte>)
    requires Scattering(target, v, b, memory, index, total, m) && index < |v| && total < |b|
    ensures var length := Least(v[index].length, |b| - total);
      var n := Reach(target, v[index].base, length);
      && n <= length && total + n <= |b|
      && var stored := Stored(m, v[index].base, b[total..total + n]);
        && (n < length ==> Scatter(target, v, b, memory) == Out(total + n, true, stored))
        && (n == length ==> Scattering(target, v, b, memory, index + 1, total + n, stored))
  {
    hide Scatter, Stored, Reach;
    ScatterUnfold(target, v[index..], b[total..], m);
    var length := Least(v[index].length, |b| - total);
    var n := Reach(target, v[index].base, length);
    assert b[total..][..n] == b[total..total + n];
    assert n == length ==> b[total..][length..] == b[total + n..];
    assert v[index..][1..] == v[index + 1..];
  }

  lemma ScatterUnfold(target: Target, v: seq<Iovec>, b: seq<byte>, m: map<nat, byte>)
    requires v != [] && b != []
    ensures var length := Least(v[0].length, |b|);
      var n := Reach(target, v[0].base, length);
      && n <= length
      && var stored := Stored(m, v[0].base, b[..n]);
        && (n < length ==> Scatter(target, v, b, m) == Out(n, true, stored))
        && (n == length ==> var rest := Scatter(target, v[1..], b[length..], stored);
                            Scatter(target, v, b, m) == Out(length + rest.total, rest.fault, rest.memory))
  {
    ReachIs(target, v[0].base, Least(v[0].length, |b|));
  }

  lemma ScatterLast(target: Target, v: seq<Iovec>, b: seq<byte>, memory: map<nat, byte>, index: nat, total: nat, m: map<nat, byte>)
    requires Scattering(target, v, b, memory, index, total, m) && (index == |v| || total == |b|)
    ensures Scatter(target, v, b, memory) == Out(total, false, m)
  {
  }

  lemma TurnContents(s: State, c: nat, w: Call, interrupted: bool)
    requires w.Write? && w.rest != [] && w.offset <= |w.rest[0]| && |s.contents| <= CAPACITY
    ensures var t := DoWriteTurn(s, c, w, interrupted); var space := CAPACITY - |s.contents|;
      && t.readers == s.readers && t.writers == s.writers && t.busy == s.busy
      && t.contents == s.contents + w.rest[0][w.offset..w.offset + if s.readers == 0 || (w.atomic && space < |w.rest[0]|) then 0 else Least(|w.rest[0]| - w.offset, space)]
  {
  }

  /** What one turn of the waiting loop of pipe_readv does. */
  datatype ReadOutcome = Claimed(available: nat) | ReadReturns(result: Result) | ReadSleeps

  /** What the loop of pipe_write_staged does before it gives the lock up. */
  datatype WriteOutcome = WriteReturns(result: Result) | WriteSleeps

  /** The gathering loop of pipe_writev. */
  method Gather(parts: seq<seq<byte>>) returns (staging: seq<byte>)
    ensures staging == Joined(parts)
  {
    staging := [];
    var index := 0;
    while index < |parts|
      invariant index <= |parts| && Joined(parts) == staging + Joined(parts[index..])
    {
      assert parts[index..][1..] == parts[index + 1..];
      staging := staging + parts[index];
      index := index + 1;
    }
  }

  /** The staging loop of pipe_write_user. */
  method StagePart(part: seq<byte>) returns (chunks: seq<seq<byte>>)
    ensures chunks == Cut(part)
  {
    chunks := [];
    var total := 0;
    while total < |part|
      invariant total <= |part| && Cut(part) == chunks + Cut(part[total..])
    {
      var chunk := if |part| - total > PAGE then PAGE else |part| - total;
      var here := part[total..total + chunk];
      assert part[total..][..chunk] == here && part[total..][chunk..] == part[total + chunk..];
      if |part| - total <= PAGE { assert part[total..] == here && part[total + chunk..] == []; }
      chunks := chunks + [here];
      total := total + chunk;
    }
    assert part[total..] == [];
  }

  class Ringed {
    const buffer: array<byte>
    var readPosition: nat
    var writePosition: nat
    var used: nat
    var readers: nat
    var writers: nat
    var readBusy: bool

    ghost predicate Valid()
      reads this, buffer
    {
      buffer.Length == CAPACITY && readPosition < CAPACITY && used <= CAPACITY && writePosition == On(readPosition, used)
    }

    ghost function Contents(): seq<byte>
      requires Valid()
      reads this, buffer
    {
      Ring(buffer[..], readPosition, used)
    }

    /** The pipe is the one of the state machine. */
    ghost predicate Shows(s: State)
      reads this, buffer
    {
      Valid() && s.contents == Contents() && s.readers == readers && s.writers == writers && s.busy == readBusy
    }

    constructor ()
      ensures Shows(Initial()) && fresh(buffer)
    {
      buffer := new byte[CAPACITY](_ => 0);
      readPosition, writePosition, used, readers, writers, readBusy := 0, 0, 0, 1, 1, false;
    }

    /** The next bytes of the ring, up to its wrap. */
    method Take(chunk: nat) returns (bytes: seq<byte>)
      requires Valid() && chunk <= used && readPosition + chunk <= CAPACITY
      modifies this`readPosition, this`used
      ensures Valid() && used == old(used) - chunk
      ensures bytes == old(Contents())[..chunk] && Contents() == old(Contents())[chunk..]
    {
      RingDrops(buffer[..], readPosition, used, chunk);
      OnIsMod(readPosition, chunk);
      bytes := buffer[readPosition..readPosition + chunk];
      readPosition := (readPosition + chunk) % CAPACITY;
      used := used - chunk;
    }

    /** How much one turn of pipe_copy_out moves: up to the wrap, and within one page of the destination. */
    method NextChunk(target: Target, a: nat, want: nat) returns (chunk: nat)
      requires Valid() && want > 0 && used > 0
      ensures 0 < chunk <= Least(want, used) && readPosition + chunk <= CAPACITY
      ensures target.User? ==> InPage(a, chunk)
    {
      chunk := want;
      var contiguous := CAPACITY - readPosition;
      if chunk > used { chunk := used; }
      if chunk > contiguous { chunk := contiguous; }
      if target.User? && chunk > PAGE - a % PAGE { chunk := PAGE - a % PAGE; }
    }

    /** pipe_copy_out: the bytes taken are the bytes stored, also when the copy stops at a fault. */
    method CopyOut(target: Target, destination: nat, count: nat, memory: map<nat, byte>) returns (copied: nat, fault: bool, m: map<nat, byte>)
      requires Valid()
      modifies this`readPosition, this`used
      ensures Valid() && used == old(used) - copied
      ensures copied == Reach(target, destination, Least(count, old(used))) <= old(used)
      ensures fault <==> copied < Least(count, old(used))
      ensures Contents() == old(Contents())[copied..] && m == Stored(memory, destination, old(Contents())[..copied])
    {
      hide Ring, On, Stored, Takes, Refuses, InPage, Reach, Copied;
      ghost var all, n := Contents(), Least(count, used);
      copied, fault, m := 0, false, memory;
      RingLength(buffer[..], readPosition, used);
      CopiedNone(target, destination, n, memory, all);
      while copied < count && used > 0
        invariant Valid() && copied <= n && used == |all| - copied == |Contents()| && !fault
        invariant Copied(target, destination, n, memory, all, copied, Contents(), m)
        decreases n - copied
      {
        var chunk := NextChunk(target, destination + copied, count - copied);
        if Refuses(target, destination + copied) {
          fault := true;
          break;
        }
        CopiedMore(target, destination, n, memory, all, copied, Contents(), m, chunk);
        var bytes := Take(chunk);
        m := Stored(m, destination + copied, bytes);
        copied := copied + chunk;
      }
      CopiedAll(target, destination, n, memory, all, copied, Contents(), m);
    }

    /** memmove into the ring at `position`. */
    method Move(position: nat, source: seq<byte>)
      requires buffer.Length == CAPACITY && position + |source| <= CAPACITY
      modifies buffer
      ensures forall i | Between(position, |source|, i) :: buffer[i] == source[i - position]
      ensures forall i | 0 <= i < CAPACITY && !Between(position, |source|, i) :: buffer[i] == old(buffer[i])
    {
      var k := 0;
      while k < |source|
        invariant k <= |source| && (forall i | Between(position, k, i) :: buffer[i] == source[i - position])
        invariant forall i | 0 <= i < CAPACITY && !Between(position, k, i) :: buffer[i] == old(buffer[i])
      {
        buffer[position + k] := source[k];
        k := k + 1;
      }
    }

    /** pipe_copy_in. */
    method CopyIn(source: seq<byte>)
      requires Valid() && used + |source| <= CAPACITY
      modifies this`writePosition, this`used, buffer
      ensures Valid() && Contents() == old(Contents()) + source && used == old(used) + |source|
    {
      hide Ring;
      var first := |source|;
      if first > CAPACITY - writePosition { first := CAPACITY - writePosition; }
      Move(writePosition, source[..first]);
      if first < |source| { Move(0, source[first..]); }
      assert Moved(old(buffer[..]), buffer[..], writePosition, source, first);
      RingAppends(old(buffer[..]), buffer[..], readPosition, used, source, first);
      OnIsMod(writePosition, |source|);
      writePosition := (writePosition + |source|) % CAPACITY;
      used := used + |source|;
    }

    /** The copy loop of pipe_readv. */
    method CopyVectors(target: Target, v: seq<Iovec>, available: nat, memory: map<nat, byte>) returns (total: nat, fault: bool, m: map<nat, byte>)
      requires Valid() && available <= used
      modifies this`readPosition, this`used
      ensures Valid() && total <= available && Contents() == old(Contents())[total..]
      ensures Out(total, fault, m) == Scatter(target, v, old(Contents())[..available], memory)
    {
      hide Ring, On, Stored, Takes, Reach, Scatter, Scattering;
      RingLength(buffer[..], readPosition, used);
      ghost var all, b := Contents(), Contents()[..available];
      total, fault, m := 0, false, memory;
      var index := 0;
      ScatterNone(target, v, b, memory);
      while index < |v| && total < available
        invariant Valid() && index <= |v| && total <= available && used == |all| - total && Contents() == all[total..] && !fault
        invariant Scattering(target, v, b, memory, index, total, m)
      {
        var length := v[index].length;
        if length > available - total { length := available - total; }
        ScatterNext(target, v, b, memory, index, total, m);
        var copied;
        copied, fault, m := CopyOut(target, v[index].base, length, m);
        assert all[total..][..copied] == b[total..total + copied] && all[total..][copied..] == all[total + copied..];
        total := total + copied;
        if fault || copied != length { return; }
        index := index + 1;
      }
      ScatterLast(target, v, b, memory, index, total, m);
    }

    /** One turn of the waiting loop of pipe_readv. */
    method ReadTurn(v: seq<Iovec>, nonblock: bool, interrupted: bool, ghost s: State, ghost c: nat) returns (outcome: ReadOutcome)
      requires Shows(s)
      modifies this`readBusy
      ensures var t := DoReadTurn(s, c, Read(v, nonblock), interrupted);
        && Shows(t)
        && match outcome
           case Claimed(n) => c in t.calls && t.calls[c] == Fill(v, n)
           case ReadReturns(r) => c in t.calls && t.calls[c] == ReadDone(v, map[], r)
           case ReadSleeps => t == s
    {
      RingLength(buffer[..], readPosition, used);
      if used == 0 || readBusy {
        if used == 0 && writers == 0 && !readBusy { return ReadReturns(Count(0)); }
        if nonblock { return ReadReturns(Failed(Again)); }
        if interrupted { return ReadReturns(Failed(Interrupted)); }
        return ReadSleeps;
      }
      readBusy := true;
      outcome := Claimed(Least(used, Requested(v)));
    }

    /** The end of pipe_readv: the result is the number of bytes that left the pipe, or the fault if there were none. */
    method ReadFinish(target: Target, v: seq<Iovec>, available: nat, ghost s: State, ghost c: nat) returns (result: Result, m: map<nat, byte>)
      requires Shows(s) && available <= |s.contents|
      modifies this`readPosition, this`used, this`readBusy
      ensures var t := DoReadFinish(s, c, Fill(v, available), target); Shows(t) && t.calls[c] == ReadDone(v, m, result)
    {
      hide Ring, On, Stored, Takes, Scatter;
      RingLength(buffer[..], readPosition, used);
      var total, fault;
      total, fault, m := CopyVectors(target, v, available, map[]);
      readBusy := false;
      result := if total > 0 then Count(total) else if fault then Failed(Fault) else Count(0);
    }

    /** The loop of pipe_write_staged from one sleep to the next. */
    method WriteStaged(source: seq<byte>, from: nat, atomic: bool, nonblock: bool, interrupted: bool,
                       ghost s: State, ghost c: nat, ghost w: Call) returns (total: nat, outcome: WriteOutcome)
      requires Shows(s) && from < |source| && (atomic ==> from == 0)
      requires w.Write? && w.rest != [] && w.rest[0] == source && w.offset == from && w.atomic == atomic && w.nonblock == nonblock
      modifies this`writePosition, this`used, buffer
      ensures Valid() && Shows(DoWriteTurn(s, c, w, interrupted))
      ensures var space := CAPACITY - old(used);
        total == from + if readers == 0 || (atomic && space < |source|) then 0 else Least(|source| - from, space)
      ensures Contents() == old(Contents()) + source[from..total]
      ensures outcome ==
        if total == |source| then WriteReturns(Count(total))
        else if readers == 0 then WriteReturns(Short(total, BrokenPipe))
        else if nonblock then WriteReturns(Short(total, Again))
        else if interrupted then WriteReturns(Short(total, Interrupted))
        else WriteSleeps
    {
      hide Ring, On;
      RingLength(buffer[..], readPosition, used);
      TurnContents(s, c, w, interrupted);
      total := from;
      while total < |source|
        invariant Valid() && from <= total <= |source|
        invariant total == from || (readers > 0 && total - from == Least(|source| - from, CAPACITY - old(used)) && !(atomic && CAPACITY - old(used) < |source|))
        invariant used == old(used) + total - from && Contents() == old(Contents()) + source[from..total]
      {
        if readers == 0 { return total, WriteReturns(Short(total, BrokenPipe)); }
        var available := CAPACITY - used;
        if (atomic && available < |source|) || available == 0 {
          if nonblock { return total, WriteReturns(Short(total, Again)); }
          if interrupted { return total, WriteReturns(Short(total, Interrupted)); }
          return total, WriteSleeps;
        }
        var chunk := |source| - total;
        if chunk > available { chunk := available; }
        CopyIn(source[total..total + chunk]);
        assert source[from..total] + source[total..total + chunk] == source[from..total + chunk];
        total := total + chunk;
      }
      outcome := WriteReturns(Count(total));
    }

    /** pipe_release of one end. */
    method Release(reading: bool, ghost s: State)
      requires Shows(s) && (if reading then readers > 0 else writers > 0)
      modifies this`readers, this`writers
      ensures Shows(if reading then s.(readers := s.readers - 1) else s.(writers := s.writers - 1))
    {
      if reading { readers := readers - 1; } else { writers := writers - 1; }
    }
  }
}
