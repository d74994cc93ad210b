/**
 * The cache of codec-config bytes that the server sends to new clients and before keyframes: a
 * buffer that grows by doubling and starts over when a packet would take it past 256 KiB.
 */
module ConfigCache {
  import opened Bytes

  const LIMIT: nat := 256 * 1024

  /** The packets whose bytes the cache holds, oldest first, and the buffer's capacity. */
  datatype Cache = Cache(run: seq<seq<byte>>, cap: nat)

  function Contents(c: Cache): (b: seq<byte>) { Concat(c.run) }

  /** The doubling loop: from `cap`, until there is room for `need`. */
  function Grow(cap: nat, need: nat): (g: nat)
    requires cap > 0
    ensures g >= need && g >= cap
    decreases need - cap
  {
    if cap >= need then cap else Grow(cap * 2, need)
  }

  /** What is kept of the cache when `data` arrives. */
  function Kept(c: Cache, data: seq<byte>): (run: seq<seq<byte>>) {
    if |Contents(c)| + |data| > LIMIT then [] else c.run
  }

  /** One call with `data`; `allocates` is what realloc does if it is needed. */
  function Step(c: Cache, data: seq<byte>, allocates: bool): (c': Cache) {
    if data == [] then c
    else
      var run := Kept(c, data);
      var need := |Concat(run)| + |data|;
      if need <= c.cap then Cache(run + [data], c.cap)
      else if allocates then Cache(run + [data], Grow(if c.cap > 0 then c.cap * 2 else 4096, need))
      else Cache([], 0)
  }

  /** Doubling stops below twice the need exactly when it starts below that. */
  lemma {:induction false} GrowStopsEarly(cap: nat, need: nat)
    requires cap > 0
    ensures Grow(cap, need) < 2 * need <==> cap < 2 * need
    decreases need - cap
  {
    if cap < need { GrowStopsEarly(cap * 2, need); }
  }

  /**
   * When the buffer has to grow, its new capacity is below twice the bytes it must hold, except
   * exactly when it is the first one and they are at most 2048 bytes.
   */
  lemma StepStopsEarly(c: Cache, data: seq<byte>)
    requires data != [] && |Concat(Kept(c, data))| + |data| > c.cap
    ensures var need := |Concat(Kept(c, data))| + |data|;
      Step(c, data, true).cap >= 2 * need <==> c.cap == 0 && need <= 2048
  {
    var need := |Concat(Kept(c, data))| + |data|;
    GrowStopsEarly(if c.cap > 0 then c.cap * 2 else 4096, need);
    hide Concat, Grow, Kept;
  }

  /** One byte takes a buffer of 4096. */
  lemma FirstBufferIsLarge()
    ensures Step(EMPTY, [7], true).cap == 4096
  {
    assert |Concat(Kept(EMPTY, [7]))| == 0;
  }

  datatype Arrival = Arrival(data: seq<byte>, allocates: bool)

  function After(c: Cache, history: seq<Arrival>): (c': Cache) {
    if history == [] then c
    else Step(After(c, Front(history)), Last(history).data, Last(history).allocates)
  }

  const EMPTY := Cache([], 0)

  function Packets(history: seq<Arrival>): (ps: seq<seq<byte>>) {
    if history == [] then []
    else Packets(Front(history)) + (if Last(history).data == [] then [] else [Last(history).data])
  }

  predicate Bounded(c: Cache) {
    && |Contents(c)| <= c.cap
    && |Contents(c)| <= (if |c.run| == 1 && |c.run[0]| > LIMIT then |c.run[0]| else LIMIT)
    && forall d | d in c.run :: d != []
  }

  lemma StepBounded(c: Cache, data: seq<byte>, allocates: bool)
    requires Bounded(c)
    ensures Bounded(Step(c, data, allocates))
  {
    if data != [] {
      var run := Kept(c, data);
      ConcatSnoc(run, data);
      assert run == [] ==> run + [data] == [data];
      hide Concat, Grow;
    }
  }

  /**
   * New bytes are put behind the old ones exactly when all of them fit 256 KiB; otherwise they
   * alone are left, however long they are.
   */
  lemma AppendsIff(c: Cache, data: seq<byte>)
    requires data != []
    ensures var kept := Contents(Step(c, data, true));
      && (kept == Contents(c) + data <==> Contents(c) == [] || |Contents(c)| + |data| <= 262144)
      && (kept == Contents(c) + data || kept == data)
  {
    ConcatSnoc(c.run, data);
    assert [data] == [] + [data] && Concat([data]) == data + [];
    hide Concat, Grow;
  }

  /** `run` is the end of `ps`, from packet `k` on. */
  predicate EndOf(run: seq<seq<byte>>, ps: seq<seq<byte>>, k: nat) {
    k <= |ps| && run == ps[k..]
  }

  lemma StepRun(c: Cache, data: seq<byte>, allocates: bool, ps: seq<seq<byte>>, j: nat) returns (k: nat)
    requires EndOf(c.run, ps, j) && data != []
    ensures EndOf(Step(c, data, allocates).run, ps + [data], k)
    ensures allocates ==> k <= |ps|
  {
    hide Concat, Grow;
    var c' := Step(c, data, allocates);
    k := if c'.run == [] then |ps| + 1 else if Kept(c, data) == [] then |ps| else j;
  }

  /**
   * Over every history from start-up: the contents never exceed 256 KiB unless a single packet
   * does alone, and always fit the buffer.
   */
  lemma {:induction false} CacheIsBounded(history: seq<Arrival>)
    ensures Bounded(After(EMPTY, history))
  {
    if history != [] {
      CacheIsBounded(Front(history));
      StepBounded(After(EMPTY, Front(history)), Last(history).data, Last(history).allocates);
    }
  }

  /**
   * Over every history from start-up: the contents are the concatenation of a contiguous run of the
   * most recent config packets, ending with the newest unless its allocation failed.
   */
  lemma {:induction false} CacheHoldsRecentRun(history: seq<Arrival>) returns (k: nat)
    ensures EndOf(After(EMPTY, history).run, Packets(history), k)
    ensures history != [] && Last(history).allocates && Last(history).data != [] ==> k < |Packets(history)|
  {
    if history == [] {
      k := 0;
    } else {
      var j := CacheHoldsRecentRun(Front(history));
      k := RunAfter(history, j);
    }
  }

  lemma RunAfter(history: seq<Arrival>, j: nat) returns (k: nat)
    requires history != [] && EndOf(After(EMPTY, Front(history)).run, Packets(Front(history)), j)
    ensures EndOf(After(EMPTY, history).run, Packets(history), k)
    ensures Last(history).allocates && Last(history).data != [] ==> k < |Packets(history)|
  {
    var c, last := After(EMPTY, Front(history)), Last(history);
    if last.data == [] {
      EmptyStep(c, last.allocates);
      k := j;
    } else {
      k := StepRun(c, last.data, last.allocates, Packets(Front(history)), j);
    }
  }

  lemma EmptyStep(c: Cache, allocates: bool)
    ensures Step(c, [], allocates) == c
  {
  }

  /** The globals h264_config_cache, h264_config_cache_len and h264_config_cache_cap. */
  class ConfigStore {
    var cache: array?<byte>
    var len: nat
    var cap: nat
    ghost var run: seq<seq<byte>>

    /** After a failed realloc the old block is still there but its capacity is forgotten. */
    ghost predicate Valid()
      reads this, if cache != null then {cache} else {}
    {
      && len <= cap
      && (if cache == null then cap == 0 && run == [] else cap <= cache.Length && cache[..len] == Concat(run))
      && (cap == 0 ==> run == [])
    }

    constructor ()
      ensures Valid() && Cache(run, cap) == EMPTY
    {
      cache, len, cap, run := null, 0, 0, [];
    }

    method CacheConfigBytes(data: seq<byte>, allocates: bool)
      requires Valid()
      modifies this, if cache != null then {cache} else {}
      ensures Valid() && Cache(run, cap) == Step(Cache(old(run), old(cap)), data, allocates)
      ensures cache == old(cache) || fresh(cache)
    {
      if data == [] { return; }
      if len + |data| > LIMIT {
        len, run := 0, [];
      }
      if len + |data| > cap {
        var newCap := if cap > 0 then cap * 2 else 4096;
        newCap := Double(newCap, len + |data|);
        if !allocates {
          len, cap, run := 0, 0, [];
          return;
        }
        Reallocate(newCap);
      }
      Append(data);
    }

    method Double(start: nat, need: nat) returns (newCap: nat)
      requires start > 0
      ensures newCap == Grow(start, need)
    {
      newCap := start;
      while newCap < need
        invariant newCap > 0 && Grow(newCap, need) == Grow(start, need)
        decreases need - newCap
      {
        newCap := newCap * 2;
      }
    }

    /** realloc: the bytes in use move to a block of the new size. */
    method Reallocate(newCap: nat)
      requires Valid() && len <= newCap && newCap > 0
      modifies this`cache, this`cap
      ensures Valid() && fresh(cache) && cap == newCap
    {
      var newBuf := new byte[newCap](_ => 0);
      if cache != null {
        for i := 0 to len
          invariant Valid() && cache == old(cache) && cap == old(cap) && newBuf[..i] == cache[..i]
        {
          newBuf[i] := cache[i];
        }
      }
      cache, cap := newBuf, newCap;
    }

    method Append(data: seq<byte>)
      requires Valid() && cache != null && len + |data| <= cap && data != []
      modifies this`len, this`run, cache
      ensures Valid() && run == old(run) + [data]
    {
      ghost var head := cache[..len];
      for i := 0 to |data|
        invariant len == old(len) && run == old(run) && cache[..len + i] == head + data[..i]
      {
        cache[len + i] := data[i];
      }
      ConcatSnoc(run, data);
      assert data[..|data|] == data;
      len, run := len + |data|, run + [data];
    }
  }
}
