/** The Windows side of the video link: win_video_server.py reading packets off a TCP connection. */
module WinReceiver {
  import opened Bytes
  import opened Avc1

  /**
   * A TCP connection as `recv` sees it: the bytes that arrive before the peer closes or the link
   * is cut, handed over in pieces whose sizes the network chooses.
   */
  class TcpConnection {
    var data: seq<byte>
    var sizes: seq<nat>

    constructor (data: seq<byte>, sizes: seq<nat>)
      ensures this.data == data
    {
      this.data, this.sizes := data, sizes;
    }

    method Recv(max: nat) returns (chunk: seq<byte>)
      modifies this
      ensures |chunk| <= max && old(data) == chunk + data
      ensures chunk == [] <==> max == 0 || old(data) == []
    {
      var most := if max < |data| then max else |data|;
      var want := if sizes == [] then most else sizes[0];
      if sizes != [] { sizes := sizes[1..]; }
      var n := if want > most then most else if want == 0 && most > 0 then 1 else want;
      chunk := data[..n];
      data := data[n..];
    }

    method ReadExact(n: nat) returns (r: Option<seq<byte>>)
      modifies this
      ensures r.Some? <==> |old(data)| >= n
      ensures r.Some? ==> r.value == old(data)[..n] && data == old(data)[n..]
      ensures r.None? ==> data == []
    {
      var chunks: seq<seq<byte>>, remaining := [], n;
      while remaining > 0
        invariant 0 <= remaining <= n
        invariant old(data) == Concat(chunks) + data && |Concat(chunks)| == n - remaining
        decreases remaining
      {
        var chunk := Recv(remaining);
        if chunk == [] { return None; }
        ConcatSnoc(chunks, chunk);
        chunks, remaining := chunks + [chunk], remaining - |chunk|;
      }
      r := Some(Concat(chunks));
    }

    /** The header and body that follow a magic; `again` after a bad length. */
    method ReadFramed() returns (r: Option<seq<byte>>, again: bool)
      modifies this
      ensures |data| <= |old(data)|
      ensures again ==> AttemptAtMagic(MAGIC + old(data)) == Rejected(data)
      ensures !again ==> Returned(r, data, AttemptAtMagic(MAGIC + old(data)))
    {
      r, again := None, false;
      var rest := ReadExact(24);
      if rest.None? { return; }
      var header := MAGIC + rest.value;
      HeaderAttempt(old(data), header);
      var n := ReadBe32(header[24..28]);
      if n == 0 || n > MAX_DATA { return None, true; }
      var payload := ReadExact(n);
      BodyAttempt(old(data), header, n);
      if payload.None? { return; }
      r := Some(header + payload.value);
    }

    /**
     * The window is not cleared after a rejected header: it still holds the magic and keeps sliding.
     * Only because the magic has no border does it match again no earlier than a fresh scan would.
     */
    method ReadAvc1Packet() returns (r: Option<seq<byte>>)
      modifies this
      ensures Returned(r, data, Next(old(data)))
    {
      var window: seq<byte> := [];
      ghost var stale: seq<byte>, seen: seq<byte> := [], [];
      assert [] + data == data;
      while true
        invariant Watching(window, stale, seen) && Next(seen + data) == Next(old(data))
        decreases |data|
      {
        hide Next, Watching;
        var done;
        r, done, window, stale, seen := Turn(window, stale, seen);
        if done { return; }
      }
    }

    /** One turn of that loop: a byte, and what follows if the window then shows the magic. */
    method Turn(window: seq<byte>, ghost stale: seq<byte>, ghost seen: seq<byte>)
      returns (r: Option<seq<byte>>, done: bool, window': seq<byte>, ghost stale': seq<byte>, ghost seen': seq<byte>)
      requires Watching(window, stale, seen)
      modifies this
      ensures done ==> Returned(r, data, Next(seen + old(data)))
      ensures !done ==> Watching(window', stale', seen') && Next(seen' + data) == Next(seen + old(data))
      ensures !done ==> |data| < |old(data)|
    {
      r, done, window', stale', seen' := None, true, window, stale, seen;
      var b := Recv(1);
      hide NoMagic, Next, AttemptAtMagic, Resume, Slid, LastFour;
      if b == [] {
        NothingFound(seen, old(data));
        return;
      }
      ghost var ahead := data;
      assert old(data) == [b[0]] + ahead;
      window' := Slid(window, b[0]);
      WindowTurn(window, stale, seen, b[0], ahead);
      hide *;
      if window' == MAGIC {
        var again;
        r, again := ReadFramed();
        Restarted(r, again, data, AttemptAtMagic(MAGIC + ahead));
        done, stale', seen' := !again, MAGIC, [];
      } else {
        done, seen' := false, seen + [b[0]];
      }
    }

    /** The connection handler: everything it publishes is everything the bytes parse to. */
    method Handle() returns (published: seq<seq<byte>>)
      modifies this
      ensures published == ParseAll(old(data))
    {
      published := [];
      while true
        invariant published + ParseAll(data) == ParseAll(old(data))
        decreases |data|
      {
        var packet := ReadAvc1Packet();
        if packet.None? { return; }
        published := published + [packet.value];
      }
    }
  }

  /** What a call returns, and what it leaves of the connection's data. */
  predicate Returned(r: Option<seq<byte>>, data: seq<byte>, next: Attempt) {
    match next
    case Found(p, rest) => r == Some(p) && data == rest
    case Incomplete => r == None && data == []
    case Rejected(_) => false
  }

  /** The window shows the last bytes, and no magic begins in those read since the last restart. */
  predicate Watching(window: seq<byte>, stale: seq<byte>, seen: seq<byte>) {
    Stale(stale) && window == LastFour(stale + seen) && NoMagic(seen)
  }

  predicate Stale(s: seq<byte>) { s == [] || s == MAGIC }

  function LastFour(s: seq<byte>): (w: seq<byte>) {
    if |s| <= 4 then s else s[|s| - 4..]
  }

  lemma Slide(s: seq<byte>, b: byte)
    ensures LastFour(s + [b]) == Slid(LastFour(s), b)
  {
  }

  /** The byte enters the window, and the oldest of five leaves it. */
  function Slid(window: seq<byte>, b: byte): (w: seq<byte>) {
    if |window + [b]| > 4 then (window + [b])[1..] else window + [b]
  }

  /**
   * One turn of the loop: the window goes on showing the last bytes, and it shows the magic exactly
   * when four bytes read since the last restart are the magic.
   */
  lemma WindowTurn(window: seq<byte>, stale: seq<byte>, seen: seq<byte>, b: byte, rest: seq<byte>)
    requires Watching(window, stale, seen)
    ensures var s := seen + ([b] + rest);
      if Slid(window, b) == MAGIC then Next(s) == Resume(AttemptAtMagic(MAGIC + rest)) && Watching(MAGIC, MAGIC, [])
      else Watching(Slid(window, b), stale, seen + [b]) && s == (seen + [b]) + rest
  {
    Slide(stale + seen, b);
    assert stale + seen + [b] == stale + (seen + [b]);
    assert seen + ([b] + rest) == seen + [b] + rest;
    StaleWindow(stale, seen, b);
    hide LastFour, MagicAt, AttemptAtMagic;
    if Slid(window, b) == MAGIC {
      TryAfterScan(seen, b, rest);
      hide Try;
      MagicWatched();
    } else {
      StillNoMagic(seen, b);
    }
  }

  lemma MagicWatched()
    ensures Watching(MAGIC, MAGIC, [])
  {
    assert MAGIC + [] == MAGIC;
  }

  lemma Restarted(r: Option<seq<byte>>, again: bool, data: seq<byte>, a: Attempt)
    requires again ==> a == Rejected(data)
    requires !again ==> Returned(r, data, a)
    ensures again ==> Next([] + data) == Resume(a)
    ensures !again ==> Returned(r, data, Resume(a))
  {
    assert [] + data == data;
    hide Next;
  }

  lemma StaleWindow(stale: seq<byte>, seen: seq<byte>, b: byte)
    requires Stale(stale)
    ensures LastFour(stale + (seen + [b])) == MAGIC <==> |seen| >= 3 && MagicAt(seen + [b], |seen| - 3)
  {
    var s, t := stale + (seen + [b]), seen + [b];
    var w := LastFour(s);
    if w == MAGIC {
      assert MagicAt(s, |s| - 4);
      if stale == MAGIC {
        assert MagicAt(s, 0);
        MagicHasNoBorder(s, 0, |s| - 4);
      }
      assert t == s[|s| - |t|..];
    }
    if |seen| >= 3 && MagicAt(t, |seen| - 3) {
      assert w == t[|t| - 4..] == [t[|t| - 4], t[|t| - 3], t[|t| - 2], t[|t| - 1]];
    }
  }
}
