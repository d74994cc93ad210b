/**
 * The client lists of the server: singly linked nodes, edited through a pointer to the link that
 * leads to the current node while a broadcast walks the list.
 */
module Broadcast {
  import opened Bytes

  /** What the server does to sockets, in order. A failed send closes the socket next. */
  datatype Effect = Sent(fd: int, data: seq<byte>, ok: bool) | Closed(fd: int)

  /** The sockets: results of the sends to come, and what has been done. */
  class Network {
    var outcomes: seq<bool>
    var log: seq<Effect>

    constructor (outcomes: seq<bool>)
      ensures this.outcomes == outcomes && log == []
    {
      this.outcomes, log := outcomes, [];
    }

    method Send(fd: int, data: seq<byte>) returns (ok: bool)
      modifies this
      ensures ok == Outcome(old(outcomes)) && outcomes == Later(old(outcomes))
      ensures log == old(log) + [Sent(fd, data, ok)]
    {
      ok := outcomes != [] && outcomes[0];
      outcomes := if outcomes == [] then [] else outcomes[1..];
      log := log + [Sent(fd, data, ok)];
    }

    method Close(fd: int)
      modifies this`log
      ensures log == old(log) + [Closed(fd)]
    {
      log := log + [Closed(fd)];
    }
  }

  function Outcome(outcomes: seq<bool>): (ok: bool) { outcomes != [] && outcomes[0] }

  function Later(outcomes: seq<bool>): (rest: seq<bool>) { if outcomes == [] then [] else outcomes[1..] }

  class Client {
    const fd: int
    var next: Client?

    constructor (fd: int, next: Client?)
      ensures this.fd == fd && this.next == next
    {
      this.fd, this.next := fd, next;
    }
  }

  // ---------- the list as a sequence ----------

  function Survivors(clients: seq<Client>, outcomes: seq<bool>): (rest: seq<Client>) {
    if clients == [] then []
    else (if Outcome(outcomes) then [clients[0]] else []) + Survivors(clients[1..], Later(outcomes))
  }

  function Trace(clients: seq<Client>, outcomes: seq<bool>, data: seq<byte>): (log: seq<Effect>) {
    if clients == [] then []
    else
      var later := Trace(clients[1..], Later(outcomes), data);
      if Outcome(outcomes) then [Sent(clients[0].fd, data, true)] + later
      else [Sent(clients[0].fd, data, false)] + ([Closed(clients[0].fd)] + later)
  }

  function Remaining(n: nat, outcomes: seq<bool>): (rest: seq<bool>) {
    if n == 0 then outcomes else Remaining(n - 1, Later(outcomes))
  }

  function Fds(clients: seq<Client>): (fds: seq<int>)
    ensures |fds| == |clients| && forall i | 0 <= i < |fds| :: fds[i] == clients[i].fd
  {
    if clients == [] then [] else [clients[0].fd] + Fds(clients[1..])
  }

  function Attempts(log: seq<Effect>): (fds: seq<int>) {
    if log == [] then [] else (if log[0].Sent? then [log[0].fd] else []) + Attempts(log[1..])
  }

  function Closes(log: seq<Effect>): (fds: seq<int>) {
    if log == [] then [] else (if log[0].Closed? then [log[0].fd] else []) + Closes(log[1..])
  }

  function Successes(log: seq<Effect>): (fds: seq<int>) {
    if log == [] then [] else (if log[0].Sent? && log[0].ok then [log[0].fd] else []) + Successes(log[1..])
  }

  lemma TraceHead(clients: seq<Client>, outcomes: seq<bool>, data: seq<byte>)
    requires clients != []
    ensures var log := Trace(clients, outcomes, data);
      var log' := Trace(clients[1..], Later(outcomes), data);
      var fd := clients[0].fd;
      && Attempts(log) == [fd] + Attempts(log')
      && Successes(log) == (if Outcome(outcomes) then [fd] else []) + Successes(log')
      && Closes(log) == (if Outcome(outcomes) then [] else [fd]) + Closes(log')
  {
    var fd, log := clients[0].fd, Trace(clients[1..], Later(outcomes), data);
    var sent, failed, closed := Sent(fd, data, true), Sent(fd, data, false), Closed(fd);
    assert Trace(clients, outcomes, data) == if Outcome(outcomes) then [sent] + log else [failed] + ([closed] + log);
    hide *;
    if Outcome(outcomes) {
      LogHead(sent, log);
    } else {
      LogHead(closed, log);
      LogHead(failed, [closed] + log);
    }
    assert [] + Successes(log) == Successes(log) && [] + Closes(log) == Closes(log);
  }

  lemma LogHead(e: Effect, log: seq<Effect>)
    ensures Attempts([e] + log) == if e.Sent? then [e.fd] + Attempts(log) else Attempts(log)
    ensures Closes([e] + log) == if e.Closed? then [e.fd] + Closes(log) else Closes(log)
    ensures Successes([e] + log) == if e.Sent? && e.ok then [e.fd] + Successes(log) else Successes(log)
  {
    assert ([e] + log)[1..] == log;
  }

  lemma {:induction false} EachAttemptedOnce(clients: seq<Client>, outcomes: seq<bool>, data: seq<byte>)
    ensures Attempts(Trace(clients, outcomes, data)) == Fds(clients)
    ensures Successes(Trace(clients, outcomes, data)) == Fds(Survivors(clients, outcomes))
  {
    if clients != [] {
      TraceHead(clients, outcomes, data);
      EachAttemptedOnce(clients[1..], Later(outcomes), data);
      SurvivorsHead(clients, outcomes);
      hide Trace, Attempts, Successes, Fds, Survivors;
    }
  }

  lemma MultisetStep(x: int, ok: bool, closes: seq<int>, rest: seq<int>, all: seq<int>)
    requires multiset(closes) + multiset(rest) == multiset(all)
    ensures multiset((if ok then [] else [x]) + closes) + multiset((if ok then [x] else []) + rest)
        == multiset([x] + all)
  {
    assert multiset([x] + all) == multiset{x} + multiset(all);
    if ok {
      assert multiset([x] + rest) == multiset{x} + multiset(rest);
      assert [] + closes == closes;
    } else {
      assert multiset([x] + closes) == multiset{x} + multiset(closes);
      assert [] + rest == rest;
    }
  }

  lemma FdsCons(c: Client, s: seq<Client>)
    ensures Fds([c] + s) == [c.fd] + Fds(s)
  {
    assert ([c] + s)[1..] == s;
  }

  lemma SurvivorsHead(clients: seq<Client>, outcomes: seq<bool>)
    requires clients != []
    ensures var rest := Survivors(clients[1..], Later(outcomes));
      && Survivors(clients, outcomes) == (if Outcome(outcomes) then [clients[0]] else []) + rest
      && Fds(Survivors(clients, outcomes)) == (if Outcome(outcomes) then [clients[0].fd] else []) + Fds(rest)
      && Fds(clients) == [clients[0].fd] + Fds(clients[1..])
  {
    var rest := Survivors(clients[1..], Later(outcomes));
    FdsCons(clients[0], rest);
    hide Fds;
    assert [] + rest == rest && [] + Fds(rest) == Fds(rest);
    assert Fds(clients) == [clients[0].fd] + Fds(clients[1..]) by {
      FdsCons(clients[0], clients[1..]);
      assert clients == [clients[0]] + clients[1..];
    }
  }

  lemma {:induction false} ClosedOrKept(clients: seq<Client>, outcomes: seq<bool>, data: seq<byte>)
    ensures multiset(Closes(Trace(clients, outcomes, data))) + multiset(Fds(Survivors(clients, outcomes)))
      == multiset(Fds(clients))
  {
    if clients != [] {
      var tail, later := clients[1..], Later(outcomes);
      ClosedOrKept(tail, later, data);
      hide Trace, Closes, Fds, Survivors;
      TraceHead(clients, outcomes, data);
      SurvivorsHead(clients, outcomes);
      var closes, rest := Closes(Trace(tail, later, data)), Fds(Survivors(tail, later));
      MultisetStep(clients[0].fd, Outcome(outcomes), closes, rest, Fds(tail));
    }
  }

  lemma SurvivorsInOrder(clients: seq<Client>, outcomes: seq<bool>)
    ensures Subsequence(Survivors(clients, outcomes), clients)
  {
    if clients != [] {
      SurvivorsInOrder(clients[1..], Later(outcomes));
      var s := Survivors(clients, outcomes);
      SurvivorsHead(clients, outcomes);
      hide Survivors;
      if Outcome(outcomes) {
        assert s[0] == clients[0] && s[1..] == Survivors(clients[1..], Later(outcomes));
      } else {
        assert s == Survivors(clients[1..], Later(outcomes));
      }
    }
  }

  /**
   * Every client is attempted exactly once, in list order; those whose send failed are the ones
   * closed, once each; those whose send succeeded are the ones that stay, in order.
   */
  lemma BroadcastFilters(clients: seq<Client>, outcomes: seq<bool>, data: seq<byte>)
    ensures var log, rest := Trace(clients, outcomes, data), Survivors(clients, outcomes);
      && Attempts(log) == Fds(clients)
      && Successes(log) == Fds(rest)
      && multiset(Closes(log)) + multiset(Fds(rest)) == multiset(Fds(clients))
      && Subsequence(rest, clients)
  {
    EachAttemptedOnce(clients, outcomes, data);
    ClosedOrKept(clients, outcomes, data);
    SurvivorsInOrder(clients, outcomes);
  }

  // ---------- the linked list ----------

  class ClientList {
    var head: Client?
    ghost var spine: seq<Client>

    /** The nodes reached from `head` are `spine`, without repetition: in particular no cycle. */
    ghost predicate Valid()
      reads this, spine
    {
      && head == At(spine, 0)
      && (forall i: nat | i < |spine| :: spine[i].next == At(spine, i + 1))
      && (forall i: nat, j: nat | i < j < |spine| :: spine[i] != spine[j])
    }

    constructor ()
      ensures Valid() && spine == []
    {
      head, spine := null, [];
    }

    /** The end of serve_h264 and serve_video_ws set-up: the new client goes to the front. */
    method Join(fd: int)
      requires Valid()
      modifies this
      ensures Valid() && spine != [] && fresh(spine[0]) && spine[0].fd == fd && spine[1..] == old(spine)
    {
      var c := new Client(fd, head);
      head, spine := c, [c] + spine;
    }

    /** `*pp` where `pp` points to `head` or to the link of `prev`. */
    function Current(prev: Client?): (c: Client?)
      reads this, if prev != null then {prev} else {}
    {
      if prev == null then head else prev.next
    }

    /** remove_h264_client_locked: `*pp = dead->next`, then the socket is closed. */
    method RemoveAt(net: Network, prev: Client?, ghost k: nat)
      requires Valid() && k < |spine| && prev == (if k == 0 then null else spine[k - 1])
      modifies this, spine, net`log
      ensures Valid() && spine == old(spine[..k] + spine[k + 1..])
      ensures net.log == old(net.log) + [Closed(old(spine)[k].fd)]
    {
      var dead := Current(prev);
      Unlink(prev, k);
      net.Close(dead.fd);
    }

    method Unlink(prev: Client?, ghost k: nat)
      requires Valid() && k < |spine| && prev == (if k == 0 then null else spine[k - 1])
      modifies this, spine
      ensures Valid() && spine == old(spine[..k] + spine[k + 1..])
    {
      var dead := Current(prev);
      ghost var s := spine;
      if prev == null { head := dead.next; } else { prev.next := dead.next; }
      spine := s[..k] + s[k + 1..];
      Spliced(s, k);
      forall i: nat | i < |spine|
        ensures spine[i].next == At(spine, i + 1)
      {
        if i >= k {
          assert spine[i] == s[i + 1] && At(spine, i + 1) == At(s, i + 2);
        } else if i + 1 < k {
          assert spine[i] == s[i] && At(spine, i + 1) == At(s, i + 1) && s[i] != s[k - 1];
        }
      }
    }

    /** The loop body: send to the current client and either unlink it or move on. */
    method Attempt(net: Network, data: seq<byte>, prev: Client?, ghost k: nat,
                   ghost spine0: seq<Client>, ghost outcomes0: seq<bool>, ghost log0: seq<Effect>)
      returns (prev': Client?, ghost k': nat)
      requires Valid() && k < |spine| && prev == (if k == 0 then null else spine[k - 1])
      requires Progress(spine0, outcomes0, log0, data, spine, k, net.outcomes, net.log) && AllIn(spine, spine0)
      modifies this, spine, net
      ensures Valid() && k' <= |spine| && prev' == (if k' == 0 then null else spine[k' - 1])
      ensures Progress(spine0, outcomes0, log0, data, spine, k', net.outcomes, net.log) && AllIn(spine, spine0)
      ensures |spine| - k' == old(|spine|) - k - 1
    {
      hide Progress, AllIn, Outcome, Later;
      var c := Current(prev);
      Turn(spine0, outcomes0, log0, data, spine, k, net.outcomes, net.log);
      SplicedMembers(spine, k, spine0);
      var ok := net.Send(c.fd, data);
      if !ok {
        RemoveAt(net, prev, k);
        prev', k' := prev, k;
      } else {
        prev', k' := c, k + 1;
      }
    }

    method Broadcast(net: Network, data: seq<byte>)
      requires Valid()
      modifies this, spine, net
      ensures Valid() && spine == Survivors(old(spine), old(net.outcomes))
      ensures net.log == old(net.log) + Trace(old(spine), old(net.outcomes), data)
      ensures net.outcomes == Remaining(|old(spine)|, old(net.outcomes))
    {
      hide Survivors, Trace, Remaining, Progress;
      var prev: Client? := null;
      ghost var k: nat := 0;
      Begin(spine, net.outcomes, net.log, data);
      while Current(prev) != null
        invariant Valid() && k <= |spine| && prev == (if k == 0 then null else spine[k - 1])
        invariant Progress(old(spine), old(net.outcomes), old(net.log), data, spine, k, net.outcomes, net.log)
        invariant AllIn(spine, old(spine))
        decreases |spine| - k
      {
        prev, k := Attempt(net, data, prev, k, old(spine), old(net.outcomes), old(net.log));
      }
      Finish(old(spine), old(net.outcomes), old(net.log), data, spine, k, net.outcomes, net.log);
    }

    /** The end of serve_h264: the client's own node, if it is still listed. */
    method Leave(c: Client)
      requires Valid()
      modifies this, spine
      ensures Valid()
      ensures c !in spine && (c !in old(spine) ==> spine == old(spine))
      ensures forall k: nat | k < |old(spine)| && old(spine)[k] == c :: spine == old(spine[..k] + spine[k + 1..])
    {
      var prev: Client? := null;
      ghost var k: nat := 0;
      while Current(prev) != null
        invariant Valid() && spine == old(spine) && k <= |spine| && prev == (if k == 0 then null else spine[k - 1])
        invariant c !in spine[..k]
        decreases |spine| - k
      {
        if Current(prev) == c {
          OnlyPlace(spine, k);
          Unlink(prev, k);
          return;
        }
        prev, k := Current(prev), k + 1;
      }
    }
  }

  ghost function At(s: seq<Client>, i: nat): (c: Client?) {
    if i < |s| then s[i] else null
  }

  /** Clients before `k` are done, those from `k` on are still to be tried. */
  ghost predicate Progress(spine0: seq<Client>, outcomes0: seq<bool>, log0: seq<Effect>, data: seq<byte>,
                           spine: seq<Client>, k: nat, outcomes: seq<bool>, log: seq<Effect>)
  {
    && k <= |spine|
    && spine[..k] + Survivors(spine[k..], outcomes) == Survivors(spine0, outcomes0)
    && log + Trace(spine[k..], outcomes, data) == log0 + Trace(spine0, outcomes0, data)
    && Remaining(|spine| - k, outcomes) == Remaining(|spine0|, outcomes0)
  }

  lemma OnlyPlace(s: seq<Client>, k: nat)
    requires k < |s| && forall i: nat, j: nat | i < j < |s| :: s[i] != s[j]
    ensures s[k] !in s[..k] + s[k + 1..]
    ensures forall i: nat | i < |s| && s[i] == s[k] :: i == k
  {
  }

  lemma Spliced(s: seq<Client>, k: nat)
    requires k < |s|
    ensures var t := s[..k] + s[k + 1..];
      && |t| == |s| - 1
      && (forall i: nat | i < |t| :: t[i] == if i < k then s[i] else s[i + 1])
      && (forall i: nat :: At(t, i) == if i < k then s[i] else At(s, i + 1))
  {
  }

  ghost predicate AllIn(s: seq<Client>, t: seq<Client>) {
    forall i: nat | i < |s| :: s[i] in t
  }

  lemma SplicedMembers(s: seq<Client>, k: nat, t: seq<Client>)
    requires k < |s| && AllIn(s, t)
    ensures AllIn(s[..k] + s[k + 1..], t)
  {
  }

  lemma Begin(spine: seq<Client>, outcomes: seq<bool>, log: seq<Effect>, data: seq<byte>)
    ensures Progress(spine, outcomes, log, data, spine, 0, outcomes, log) && AllIn(spine, spine)
  {
    assert spine[..0] == [] && spine[0..] == spine;
  }

  lemma Turn(spine0: seq<Client>, outcomes0: seq<bool>, log0: seq<Effect>, data: seq<byte>,
             spine: seq<Client>, k: nat, outcomes: seq<bool>, log: seq<Effect>)
    requires k < |spine| && Progress(spine0, outcomes0, log0, data, spine, k, outcomes, log)
    ensures var c := spine[k];
      if Outcome(outcomes) then
        Progress(spine0, outcomes0, log0, data, spine, k + 1, Later(outcomes), log + [Sent(c.fd, data, true)])
      else
        Progress(spine0, outcomes0, log0, data, spine[..k] + spine[k + 1..], k, Later(outcomes),
                 log + [Sent(c.fd, data, false)] + [Closed(c.fd)])
  {
    var c, later := spine[k], Later(outcomes);
    var rest := spine[k + 1..];
    assert spine[k..][0] == c && spine[k..][1..] == rest;
    var t := Trace(rest, later, data);
    if Outcome(outcomes) {
      assert spine[..k + 1] == spine[..k] + [c];
      assert log + ([Sent(c.fd, data, true)] + t) == log + [Sent(c.fd, data, true)] + t;
      assert spine[..k] + ([c] + Survivors(rest, later)) == spine[..k] + [c] + Survivors(rest, later);
    } else {
      var s := spine[..k] + rest;
      assert s[..k] == spine[..k] && s[k..] == rest;
      assert log + ([Sent(c.fd, data, false)] + ([Closed(c.fd)] + t))
          == log + [Sent(c.fd, data, false)] + [Closed(c.fd)] + t;
      assert [] + Survivors(rest, later) == Survivors(rest, later);
    }
  }

  lemma Finish(spine0: seq<Client>, outcomes0: seq<bool>, log0: seq<Effect>, data: seq<byte>,
               spine: seq<Client>, k: nat, outcomes: seq<bool>, log: seq<Effect>)
    requires k == |spine| && Progress(spine0, outcomes0, log0, data, spine, k, outcomes, log)
    ensures spine == Survivors(spine0, outcomes0) && log == log0 + Trace(spine0, outcomes0, data)
    ensures outcomes == Remaining(|spine0|, outcomes0)
  {
    assert spine[..k] == spine && spine[k..] == [];
  }
}
