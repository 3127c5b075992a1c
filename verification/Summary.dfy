/** The sliding window of a summary with objectives (prometheus/summary.go): the two
    buffers, their flushing in a goroutine, and the ring of streams.  Times and
    durations are integers (nanoseconds), a quantile stream is the multiset of what
    was inserted since its reset. */
module Summary {

  datatype Obs = Obs(time: int, value: real)

  type Stream = multiset<real>

  // ---------------------------------------------------------------- what is to be in a stream

  /** The observations made after bound, or all of them. */
  function Kept(log: seq<Obs>, all: bool, bound: int): Stream {
    if log == [] then multiset{}
    else
      var o := log[|log| - 1];
      Kept(log[..|log| - 1], all, bound) + if all || o.time > bound then multiset{o.value} else multiset{}
  }

  function Sum(log: seq<Obs>): real {
    if log == [] then 0.0 else Sum(log[..|log| - 1]) + log[|log| - 1].value
  }

  lemma KeptAppend(log: seq<Obs>, o: Obs, all: bool, bound: int)
    ensures Kept(log + [o], all, bound) == Kept(log, all, bound) + if all || o.time > bound then multiset{o.value} else multiset{}
    ensures Sum(log + [o]) == Sum(log) + o.value
  {
    assert (log + [o])[..|log|] == log;
  }

  lemma {:induction false} KeptNone(log: seq<Obs>, bound: int)
    requires forall i :: 0 <= i < |log| ==> log[i].time <= bound
    ensures Kept(log, false, bound) == multiset{}
  {
    if log != [] { KeptNone(log[..|log| - 1], bound); }
  }

  /** What is kept lies between what a later and what an earlier bound keep. */
  lemma {:induction false} KeptIsBetween(log: seq<Obs>, all: bool, bound: int, early: int, late: int)
    requires early <= bound <= late
    requires all ==> forall i :: 0 <= i < |log| ==> log[i].time >= early + 1
    ensures Kept(log, false, late) <= Kept(log, all, bound) <= Kept(log, false, early)
  {
    if log != [] { KeptIsBetween(log[..|log| - 1], all, bound, early, late); }
  }

  /** The index of the stream p places behind the head one in the ring. */
  function Place(head: nat, p: nat, n: nat): nat
    requires head < n && p < n
  {
    if head + p < n then head + p else head + p - n
  }

  /** Stream s, p places behind the head one of n, has what was made since its last
      reset: after the head one's expiry minus n - p durations, or everything if it
      was not reset yet. */
  ghost predicate Holds(s: Stream, p: nat, n: nat, log: seq<Obs>, rotations: nat, exp: int, d: int)
    requires p <= n
  {
    s == Kept(log, rotations < n - p, exp - (n - p) * d)
  }

  ghost predicate HoldsAt(streams: seq<Stream>, head: nat, p: nat, log: seq<Obs>, rotations: nat, exp: int, d: int)
    requires head < |streams| && p < |streams|
  {
    Holds(streams[Place(head, p, |streams|)], p, |streams|, log, rotations, exp, d)
  }

  ghost predicate Ring(streams: seq<Stream>, head: nat, log: seq<Obs>, rotations: nat, exp: int, d: int) {
    head < |streams| && forall p :: 0 <= p < |streams| ==> HoldsAt(streams, head, p, log, rotations, exp, d)
  }

  /** Made while the head stream was the one to expire next. */
  ghost predicate Current(o: Obs, rotations: nat, exp: int, d: int) {
    o.time <= exp && (o.time > exp - d || rotations == 0)
  }

  lemma Durations(n: nat, p: nat, d: int)
    requires p < n && d > 0
    ensures (n - p) * d >= d && (n - p) * d == (n - p - 1) * d + d
  {
    assert (n - p - 1) * d >= 0;
  }

  /** Inserting a current observation everywhere. */
  lemma RingInserts(streams: seq<Stream>, streams': seq<Stream>, head: nat, log: seq<Obs>, o: Obs, rotations: nat, exp: int, d: int)
    requires Ring(streams, head, log, rotations, exp, d) && Current(o, rotations, exp, d) && d > 0
    requires |streams'| == |streams| && forall i :: 0 <= i < |streams| ==> streams'[i] == streams[i] + multiset{o.value}
    ensures Ring(streams', head, log + [o], rotations, exp, d)
  {
    var n := |streams|;
    forall p | 0 <= p < n ensures HoldsAt(streams', head, p, log + [o], rotations, exp, d) {
      assert HoldsAt(streams, head, p, log, rotations, exp, d);
      KeptAppend(log, o, rotations < n - p, exp - (n - p) * d);
      Durations(n, p, d);
    }
  }

  function Next(head: nat, n: nat): nat { if head + 1 >= n then 0 else head + 1 }

  /** Resetting the head stream and moving on to the next one. */
  lemma RingRotates(streams: seq<Stream>, head: nat, log: seq<Obs>, rotations: nat, exp: int, d: int)
    requires Ring(streams, head, log, rotations, exp, d) && d > 0
    requires forall i :: 0 <= i < |log| ==> log[i].time <= exp
    ensures Ring(streams[head := multiset{}], Next(head, |streams|), log, rotations + 1, exp + d, d)
  {
    var n := |streams|;
    var streams', head', r', exp' := streams[head := multiset{}], Next(head, n), rotations + 1, exp + d;
    forall p | 0 <= p < n ensures HoldsAt(streams', head', p, log, r', exp', d) {
      if p == n - 1 {
        assert (n - p) * d == d;
        KeptNone(log, exp);
      } else {
        assert Place(Next(head, n), p, n) == Place(head, p + 1, n) != head;
        assert HoldsAt(streams, head, p + 1, log, rotations, exp, d);
        Durations(n, p, d);
      }
    }
  }

  /** The head stream has exactly what was made after its expiry minus n durations,
      or everything before n rotations. */
  lemma HeadWindow(streams: seq<Stream>, head: nat, log: seq<Obs>, rotations: nat, exp: int, d: int)
    requires Ring(streams, head, log, rotations, exp, d)
    ensures streams[head] == Kept(log, rotations < |streams|, exp - |streams| * d)
  {
    assert HoldsAt(streams, head, 0, log, rotations, exp, d);
  }

  /** The inner loop of flushColdBuf. */
  method InsertInto(streams: seq<Stream>, v: real) returns (r: seq<Stream>)
    ensures |r| == |streams| && forall i :: 0 <= i < |streams| ==> r[i] == streams[i] + multiset{v}
  {
    r := streams;
    for i := 0 to |streams|
      invariant |r| == |streams|
      invariant forall k :: 0 <= k < |r| ==> r[k] == if k < i then streams[k] + multiset{v} else streams[k]
    {
      r := r[i := r[i] + multiset{v}];
    }
  }

  /** buf has the values of the observations in log from first on. */
  ghost predicate HasFrom(buf: seq<real>, log: seq<Obs>, first: nat) {
    first + |buf| <= |log| && forall i :: first <= i < first + |buf| ==> buf[i - first] == log[i].value
  }

  /** The observations from lo to hi were made while exp was the next expiry, the
      first of all or one that started before them. */
  ghost predicate AllWithin(log: seq<Obs>, lo: nat, hi: nat, exp: int, d: int, first: bool) {
    lo <= hi <= |log| && forall i :: lo <= i < hi ==> log[i].time <= exp && (log[i].time > exp - d || first)
  }

  /** What was flushed is in the streams, the count and the sum. */
  ghost predicate Flushed(streams: seq<Stream>, head: nat, log: seq<Obs>, flushed: nat, rotations: nat, exp: int, d: int,
                          cnt: nat, sum: real) {
    && flushed <= |log| && Ring(streams, head, log[..flushed], rotations, exp, d)
    && (forall i :: 0 <= i < flushed ==> log[i].time <= exp)
    && cnt == flushed && sum == Sum(log[..flushed])
  }

  lemma FlushedRotates(streams: seq<Stream>, head: nat, log: seq<Obs>, flushed: nat, rotations: nat, exp: int, d: int, cnt: nat, sum: real)
    requires Flushed(streams, head, log, flushed, rotations, exp, d, cnt, sum) && d > 0
    ensures Flushed(streams[head := multiset{}], Next(head, |streams|), log, flushed, rotations + 1, exp + d, d, cnt, sum)
  {
    RingRotates(streams, head, log[..flushed], rotations, exp, d);
  }

  lemma FlushedInserts(streams: seq<Stream>, streams': seq<Stream>, head: nat, log: seq<Obs>, flushed: nat, rotations: nat, exp: int,
                       d: int, cnt: nat, sum: real)
    requires Flushed(streams, head, log, flushed, rotations, exp, d, cnt, sum) && flushed < |log| && d > 0
    requires Current(log[flushed], rotations, exp, d)
    requires |streams'| == |streams| && forall i :: 0 <= i < |streams| ==> streams'[i] == streams[i] + multiset{log[flushed].value}
    ensures Flushed(streams', head, log, flushed + 1, rotations, exp, d, cnt + 1, sum + log[flushed].value)
  {
    var o := log[flushed];
    assert log[..flushed + 1] == log[..flushed] + [o];
    KeptAppend(log[..flushed], o, true, 0);
    RingInserts(streams, streams', head, log[..flushed], o, rotations, exp, d);
  }

  lemma FlushedStays(streams: seq<Stream>, head: nat, log: seq<Obs>, o: Obs, flushed: nat, rotations: nat, exp: int, d: int, cnt: nat, sum: real)
    requires Flushed(streams, head, log, flushed, rotations, exp, d, cnt, sum)
    ensures Flushed(streams, head, log + [o], flushed, rotations, exp, d, cnt, sum)
  {
    assert (log + [o])[..flushed] == log[..flushed];
  }

  lemma OneLess(ahead: nat, d: int)
    requires ahead > 0
    ensures ahead * d == (ahead - 1) * d + d
  {
  }

  lemma NoneAhead(ahead: nat, d: int)
    requires d > 0
    ensures ahead * d == 0 <==> ahead == 0
  {
    if ahead > 0 { assert ahead * d == (ahead - 1) * d + d; }
  }

  class Summary {
    const streamDuration: int
    const bufCap: nat
    var sum: real
    var cnt: nat
    var hotBuf: seq<real>
    var coldBuf: seq<real>
    var streams: seq<Stream>
    var headStreamIdx: nat
    var headStreamExpTime: int
    var hotBufExpTime: int
    /** asyncFlush's goroutine holds mtx, and has coldBuf to flush. */
    var flushing: bool
    /** All observations, how many of them the streams have got, how often the streams
        were rotated, and by how many durations hotBuf is ahead of them. */
    ghost var log: seq<Obs>
    ghost var flushed: nat
    ghost var rotations: nat
    ghost var ahead: nat
    ghost var last: int
    ghost const start: int

    ghost predicate Valid()
      reads this
    {
      && streamDuration > 0 && Streams() && Buffers()
      && hotBufExpTime == headStreamExpTime + ahead * streamDuration
      && (!flushing ==> coldBuf == [] && ahead == 0)
      && headStreamExpTime == start + (rotations + 1) * streamDuration && start <= last
      && forall i :: 0 <= i < |log| ==> start <= log[i].time
    }

    ghost predicate Streams()
      reads this
    {
      Flushed(streams, headStreamIdx, log, flushed, rotations, headStreamExpTime, streamDuration, cnt, sum)
    }

    /** What was not is in the buffers, in order. */
    ghost predicate Buffers()
      reads this
    {
      && flushed + |coldBuf| + |hotBuf| == |log| && |hotBuf| <= bufCap && bufCap > 0
      && HasFrom(coldBuf, log, flushed) && HasFrom(hotBuf, log, flushed + |coldBuf|)
      && AllWithin(log, flushed, flushed + |coldBuf|, headStreamExpTime, streamDuration, rotations == 0)
      && AllWithin(log, flushed + |coldBuf|, |log|, hotBufExpTime, streamDuration, FirstBuffer())
      && (hotBufExpTime - streamDuration < last || FirstBuffer())
    }

    /** hotBuf still has its first expiry. */
    ghost predicate FirstBuffer()
      reads this
    {
      rotations == 0 && ahead == 0
    }

    /** newSummary, with a positive stream duration: MaxAge is at least AgeBuckets. */
    constructor (streamDuration: int, ageBuckets: nat, bufCap: nat, now: int)
      requires streamDuration > 0 && ageBuckets > 0 && bufCap > 0
      ensures Valid() && log == [] && last == now && |streams| == ageBuckets && !flushing
      ensures this.streamDuration == streamDuration && this.bufCap == bufCap
    {
      this.streamDuration, this.bufCap := streamDuration, bufCap;
      sum, cnt, hotBuf, coldBuf := 0.0, 0, [], [];
      streams := seq(ageBuckets, i => multiset{});
      headStreamIdx, headStreamExpTime, hotBufExpTime := 0, now + streamDuration, now + streamDuration;
      flushing, log, flushed, rotations, ahead, last, start := false, [], 0, 0, 0, now, now;
    }

    /** swapBufs; without the mutex, coldBuf would not be empty. */
    method SwapBufs(now: int)
      requires Valid() && !flushing && last <= now
      modifies this`hotBuf, this`coldBuf, this`hotBufExpTime, this`flushing, this`last, this`ahead
      ensures Valid() && flushing && last == now && hotBuf == [] && now <= hotBufExpTime
      ensures hotBufExpTime - streamDuration < now || FirstBuffer()
    {
      assert coldBuf == [];
      hotBuf, coldBuf := [], hotBuf;
      flushing, last := true, now;
      while now > hotBufExpTime
        invariant hotBuf == [] && coldBuf == old(hotBuf) && flushing && last == now
        invariant hotBufExpTime == headStreamExpTime + ahead * streamDuration
        invariant hotBufExpTime - streamDuration < now || FirstBuffer()
        decreases now - hotBufExpTime
      {
        hotBufExpTime := hotBufExpTime + streamDuration;
        ahead := ahead + 1;
      }
    }

    /** The first loop of flushColdBuf: every stream gets every value. */
    method InsertColdBuf()
      requires Valid() && flushing
      modifies this`coldBuf, this`streams, this`cnt, this`sum, this`flushed
      ensures Valid() && coldBuf == [] && |streams| == old(|streams|)
    {
      ghost var first := flushed;
      for i := 0 to |coldBuf|
        invariant coldBuf == old(coldBuf) && |streams| == old(|streams|)
        invariant flushed == first + i && Streams()
      {
        assert log[flushed].value == coldBuf[flushed - first];
        InsertOne(coldBuf[i]);
      }
      coldBuf := [];
    }

    /** Every stream, the count and the sum get one value. */
    method InsertOne(v: real)
      requires Streams() && streamDuration > 0 && flushed < |log| && v == log[flushed].value
      requires Current(log[flushed], rotations, headStreamExpTime, streamDuration)
      modifies this`streams, this`cnt, this`sum, this`flushed
      ensures Streams() && flushed == old(flushed) + 1 && |streams| == old(|streams|)
    {
      var inserted := InsertInto(streams, v);
      FlushedInserts(streams, inserted, headStreamIdx, log, flushed, rotations, headStreamExpTime, streamDuration, cnt, sum);
      streams, cnt, sum, flushed := inserted, cnt + 1, sum + v, flushed + 1;
    }

    /** maybeRotateStreams: it ends, and with the expiries equal. */
    method MaybeRotateStreams()
      requires Valid() && coldBuf == []
      modifies this`streams, this`headStreamIdx, this`headStreamExpTime, this`rotations, this`ahead
      ensures Valid() && ahead == 0 && headStreamExpTime == hotBufExpTime && |streams| == old(|streams|)
      ensures rotations == old(rotations) + old(ahead)
    {
      while hotBufExpTime != headStreamExpTime
        invariant Valid() && coldBuf == [] && |streams| == old(|streams|) && rotations + ahead == old(rotations) + old(ahead)
        decreases ahead
      {
        Rotate();
      }
      NoneAhead(ahead, streamDuration);
    }

    /** One rotation. */
    method Rotate()
      requires Valid() && coldBuf == [] && ahead > 0
      modifies this`streams, this`headStreamIdx, this`headStreamExpTime, this`rotations, this`ahead
      ensures Valid() && |streams| == old(|streams|) && rotations == old(rotations) + 1 && ahead == old(ahead) - 1
    {
      FlushedRotates(streams, headStreamIdx, log, flushed, rotations, headStreamExpTime, streamDuration, cnt, sum);
      OneLess(ahead, streamDuration);
      OneLess(rotations + 2, streamDuration);
      streams := streams[headStreamIdx := multiset{}];
      headStreamIdx := headStreamIdx + 1;
      if headStreamIdx >= |streams| { headStreamIdx := 0; }
      headStreamExpTime := headStreamExpTime + streamDuration;
      rotations, ahead := rotations + 1, ahead - 1;
    }

    /** flushColdBuf, in the goroutine or in Write; then mtx is free again. */
    method Flush()
      requires Valid() && flushing
      modifies this`coldBuf, this`streams, this`cnt, this`sum, this`flushed, this`headStreamIdx, this`headStreamExpTime,
        this`rotations, this`ahead, this`flushing
      ensures Valid() && !flushing && |streams| == old(|streams|)
      ensures rotations == old(rotations) + old(ahead)
    {
      InsertColdBuf();
      MaybeRotateStreams();
      flushing := false;
    }

    /** asyncFlush, which first waits for mtx. */
    method AsyncFlush(now: int)
      requires Valid() && last <= now
      modifies this
      ensures Valid() && flushing && log == old(log) && last == now && hotBuf == [] && now <= hotBufExpTime
      ensures |streams| == old(|streams|) && (hotBufExpTime - streamDuration < now || FirstBuffer())
    {
      if flushing { Flush(); }
      SwapBufs(now);
    }

    method Observe(v: real, now: int)
      requires Valid() && |hotBuf| < bufCap && last <= now
      modifies this
      ensures Valid() && |hotBuf| < bufCap && log == old(log) + [Obs(now, v)] && last == now
      ensures |streams| == old(|streams|)
    {
      if now > hotBufExpTime { AsyncFlush(now); }
      Append(v, now);
      if |hotBuf| == bufCap { AsyncFlush(now); }
    }

    method Append(v: real, now: int)
      requires Valid() && |hotBuf| < bufCap && last <= now <= hotBufExpTime && (hotBufExpTime - streamDuration < now || FirstBuffer())
      modifies this`hotBuf, this`last, this`log
      ensures Valid() && log == old(log) + [Obs(now, v)] && last == now
    {
      FlushedStays(streams, headStreamIdx, log, Obs(now, v), flushed, rotations, headStreamExpTime, streamDuration, cnt, sum);
      last := now;
      hotBuf := hotBuf + [v];
      log := log + [Obs(now, v)];
    }

    /** Write's start: wait for mtx, swap the buffers and flush. */
    method Settle(now: int)
      requires Valid() && last <= now
      modifies this
      ensures Valid() && hotBuf == [] && log == old(log) && last == now && |streams| == old(|streams|) && flushed == |log|
      ensures headStreamExpTime - streamDuration <= now <= headStreamExpTime
    {
      if flushing { Flush(); }
      SwapBufs(now);
      Flush();
      assert rotations == 0 ==> (rotations + 1) * streamDuration == streamDuration;
    }

    /** Write: what it reads of the count, the sum and the head stream. */
    method Write(now: int) returns (count: nat, total: real, head: Stream)
      requires Valid() && |hotBuf| < bufCap && last <= now
      modifies this
      ensures Valid() && |hotBuf| < bufCap && log == old(log) && last == now && |streams| == old(|streams|)
      ensures count == |log| && total == Sum(log)
      ensures now <= headStreamExpTime
      ensures IsWindow(head, log, rotations, headStreamExpTime, streamDuration, |streams|, now)
    {
      Settle(now);
      Window(streams, headStreamIdx, log, flushed, rotations, headStreamExpTime, streamDuration, cnt, sum, start, now);
      count, total, head := cnt, sum, streams[headStreamIdx];
    }
  }

  /** swapBufs's loop, over a buffer that has expired, ends exactly if the stream
      duration is positive: MaxAge / AgeBuckets is 0 for a MaxAge of fewer
      nanoseconds than there are age buckets. */
  lemma SwapEndsIff(exp: int, d: int, now: int)
    requires now > exp && d >= 0
    ensures (exists k: nat :: Expiry(exp, d, k) >= now) <==> d > 0
  {
    if d > 0 {
      var k := now - exp;
      assert k * d >= k by { NotLess(k, d); }
      assert Expiry(exp, d, k) >= now;
    }
  }

  /** The buffer's expiry after k rounds of the loop. */
  function Expiry(exp: int, d: int, k: nat): int { exp + k * d }

  lemma NotLess(k: nat, d: int)
    requires d > 0
    ensures k * d >= k
  {
    assert k * (d - 1) >= 0;
  }

  /** The head stream of n: exactly the observations made after its expiry minus n
      durations, or all of them before n rotations.  Whatever the rotations, those
      younger than n - 1 durations are in it, and none older than n. */
  ghost predicate IsWindow(head: Stream, log: seq<Obs>, rotations: nat, exp: int, d: int, n: nat, now: int) {
    && head == Kept(log, rotations < n, exp - n * d)
    && Kept(log, false, now - (n - 1) * d) <= head <= Kept(log, false, now - n * d - 1)
  }

  /** The window, once all is flushed: what is younger than n - 1 durations is in, and
      what is older than n durations is not. */
  lemma Window(streams: seq<Stream>, head: nat, log: seq<Obs>, flushed: nat, rotations: nat, exp: int, d: int, cnt: nat, sum: real,
               start: int, now: int)
    requires Flushed(streams, head, log, flushed, rotations, exp, d, cnt, sum) && flushed == |log| && d > 0
    requires exp - d <= now <= exp && exp == start + (rotations + 1) * d && forall i :: 0 <= i < |log| ==> start <= log[i].time
    ensures cnt == |log| && sum == Sum(log) && head < |streams|
    ensures IsWindow(streams[head], log, rotations, exp, d, |streams|, now)
  {
    assert log[..flushed] == log;
    HeadWindow(streams, head, log, rotations, exp, d);
    Ages(|streams|, rotations, d);
    KeptIsBetween(log, rotations < |streams|, exp - |streams| * d, now - |streams| * d - 1, now - (|streams| - 1) * d);
  }

  lemma Ages(n: nat, rotations: nat, d: int)
    requires n > 0 && d > 0
    ensures n * d == (n - 1) * d + d && n * d >= d
    ensures rotations < n ==> (rotations + 1) * d <= n * d
  {
    assert (n - 1) * d >= 0;
    if rotations < n { assert (n - rotations - 1) * d >= 0; }
  }
}
