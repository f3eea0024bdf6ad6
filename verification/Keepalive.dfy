/** The keepalive of docker.Hub.handleConnections: a read deadline that every pong
    pushes back, and the read loop that gives a connection up when it passes. Times
    are nanoseconds. */
module Keepalive {

  const PING_PERIOD: int := 30_000_000_000
  const PONG_WAIT: int := 60_000_000_000

  /** What arrives on a connection: the answer to a ping, any other frame, or the end. */
  datatype Inbound = Pong(at: int) | Message(at: int) | Broken(at: int)

  predicate InOrder(events: seq<Inbound>) {
    forall i, j | 0 <= i < j < |events| :: events[i].at <= events[j].at
  }

  /** When the connection is unregistered. */
  function GoneAt(deadline: int, wait: int, events: seq<Inbound>): int
    decreases |events|
  {
    if events == [] || events[0].at >= deadline then deadline
    else match events[0]
      case Pong(at) => GoneAt(at + wait, wait, events[1..])
      case Message(_) => GoneAt(deadline, wait, events[1..])
      case Broken(at) => at
  }

  /** The read loop, from the moment `start` the deadline is first set. */
  method ReadLoop(start: int, wait: int, events: seq<Inbound>) returns (gone: int)
    ensures gone == GoneAt(start + wait, wait, events)
  {
    var deadline := start + wait;
    for i := 0 to |events|
      invariant GoneAt(deadline, wait, events[i..]) == GoneAt(start + wait, wait, events)
    {
      assert events[i..][0] == events[i] && events[i..][1..] == events[i + 1..];
      if events[i].at >= deadline {
        return deadline;
      }
      match events[i]
      case Pong(at) => deadline := at + wait;
      case Message(_) =>
      case Broken(at) => return at;
    }
    return deadline;
  }

  // ----- one event more -----

  /** What is not given up by then goes on from the event: a pong puts the deadline `wait`
      later, another frame leaves it, and the end of the connection ends it at once. What is
      given up before an event does not see it. */
  lemma {:induction false} OneEventMore(deadline: int, wait: int, before: seq<Inbound>, e: Inbound)
    requires forall b | b in before :: b.at <= e.at
    ensures var gone := GoneAt(deadline, wait, before);
            GoneAt(deadline, wait, before + [e]) ==
            if e.at >= gone then gone
            else match e case Pong(at) => at + wait case Message(_) => gone case Broken(at) => at
    decreases |before|
  {
    if before == [] {
      assert before + [e] == [e] && [e][1..] == [];
    } else {
      assert (before + [e])[0] == before[0] && (before + [e])[1..] == before[1..] + [e];
      if before[0].at < deadline && !before[0].Broken? {
        OneEventMore(if before[0].Pong? then before[0].at + wait else deadline, wait, before[1..], e);
      }
    }
  }

  /** A connection that breaks before it is given up is gone at that moment. */
  lemma {:induction false} BrokenIsGoneAtOnce(deadline: int, wait: int, before: seq<Inbound>, at: int, later: seq<Inbound>)
    requires (forall e | e in before :: e.at <= at && !e.Broken?) && at < GoneAt(deadline, wait, before)
    ensures GoneAt(deadline, wait, before + [Broken(at)] + later) == at
    decreases |before|
  {
    var all := before + [Broken(at)] + later;
    if before == [] {
      assert all[0] == Broken(at);
    } else {
      var d := if before[0].Pong? then before[0].at + wait else deadline;
      assert all[0] == before[0] && all[1..] == before[1..] + [Broken(at)] + later;
      assert before[0] in before;
      if before[0].at < deadline {
        BrokenIsGoneAtOnce(d, wait, before[1..], at, later);
      }
    }
  }

  /** Without pongs and without a break, the connection is gone at the deadline. */
  lemma {:induction false} NothingHeard(deadline: int, wait: int, events: seq<Inbound>)
    requires forall e | e in events :: e.Message?
    ensures GoneAt(deadline, wait, events) == deadline
    decreases |events|
  {
    if events != [] {
      assert events[0] in events;
      NothingHeard(deadline, wait, events[1..]);
    }
  }

  lemma FirstIsFirst(events: seq<Inbound>)
    requires InOrder(events)
    ensures forall e | e in events :: events[0].at <= e.at
    ensures events != [] ==> InOrder(events[1..]) && forall e | e in events[1..] :: e in events
    ensures events != [] ==> forall e | e in events :: e == events[0] || e in events[1..]
  {
  }

  /** The last pong before a connection that did not break is given up, or the start:
      it was `wait` earlier, and no pong came in between. */
  lemma {:induction false} LastHeard(last: int, wait: int, events: seq<Inbound>) returns (heard: int)
    requires InOrder(events) && (forall e | e in events :: last <= e.at && !e.Broken?)
    ensures last <= heard && GoneAt(last + wait, wait, events) == heard + wait
    ensures forall e | e in events && e.Pong? :: !(heard < e.at < heard + wait)
    decreases |events|
  {
    heard := last;
    FirstIsFirst(events);
    if events != [] && events[0].at < last + wait {
      var rest := events[1..];
      match events[0]
      case Pong(at) => heard := LastHeard(at, wait, rest);
      case Message(at) => heard := LastHeard(last, wait, rest);
    }
  }

  /** The peer answers: the k-th ping leaves within `d` of its tick and is answered
      within `r`, for every tick after the deadline was first set whose answer is due by
      `until`. The ticker starts at a time of its own. */
  ghost predicate Answers(start: int, ticker: int, period: int, d: int, r: int, until: int, pings: seq<int>, events: seq<Inbound>) {
    forall k: nat | k >= 1 && start < ticker + k * period && ticker + k * period + d + r <= until ::
      && k <= |pings| && ticker + k * period <= pings[k - 1] <= ticker + k * period + d
      && exists e | e in events :: e.Pong? && pings[k - 1] <= e.at <= pings[k - 1] + r
  }

  /** A connection that does not break, to a peer that answers. */
  ghost predicate Lives(start: int, ticker: int, period: int, d: int, r: int, until: int, pings: seq<int>, events: seq<Inbound>) {
    && InOrder(events) && (forall e | e in events :: start <= e.at && !e.Broken?)
    && Answers(start, ticker, period, d, r, until, pings, events)
  }

  /** A peer that answers is not given up while it does, if the ticker starts at most
      `late` after the deadline is first set. */
  lemma LivePeerIsKept(start: int, ticker: int, late: int, period: int, wait: int, d: int, r: int, until: int, pings: seq<int>, events: seq<Inbound>)
    requires 0 < period && 0 <= late && 0 <= d && 0 <= r && late + period + d + r < wait && ticker <= start + late
    requires Lives(start, ticker, period, d, r, until, pings, events)
    ensures GoneAt(start + wait, wait, events) > until
  {
    var heard := LastHeard(start, wait, events);
    if heard + wait <= until {
      PongInTime(start, ticker, late, period, wait, d, r, until, pings, events, heard);
    }
  }

  /** The ping of the first tick after `heard` is answered before `heard + wait`. */
  lemma PongInTime(start: int, ticker: int, late: int, period: int, wait: int, d: int, r: int, until: int, pings: seq<int>, events: seq<Inbound>, heard: int)
    requires 0 < period && 0 <= late && 0 <= d && 0 <= r && late + period + d + r < wait && ticker <= start + late
    requires start <= heard && heard + wait <= until
    requires Answers(start, ticker, period, d, r, until, pings, events)
    ensures exists e | e in events :: e.Pong? && heard < e.at < heard + wait
  {
    var k := NextTick(ticker, period, if heard < ticker then ticker else heard);
    assert start < ticker + k * period && ticker + k * period + d + r <= until;
    var e :| e in events && e.Pong? && pings[k - 1] <= e.at <= pings[k - 1] + r;
    assert heard < e.at < heard + wait;
  }

  /** The first tick after `t`. */
  lemma NextTick(ticker: int, period: int, t: int) returns (k: nat)
    requires 0 < period && ticker <= t
    ensures k >= 1 && t < ticker + k * period <= t + period
  {
    k := 1;
    while ticker + k * period <= t
      invariant k >= 1 && ticker + k * period <= t + period
      decreases t + period - (ticker + k * period)
    {
      assert (k + 1) * period == k * period + period;
      k := k + 1;
    }
  }

  lemma OnePeriod(k: nat, period: int)
    requires 0 < period && k * period <= period
    ensures k <= 1
  {
  }

  /** A peer that is given up although it answers: its first answer comes too late. */
  lemma TardyPeer(late: int, period: int, wait: int, d: int, r: int) returns (pings: seq<int>, events: seq<Inbound>)
    requires 0 < period && 0 <= late && 0 <= d && 0 <= r && late + period + d + r >= wait
    ensures var until := late + period + d + r;
            Lives(0, late, period, d, r, until, pings, events) && GoneAt(0 + wait, wait, events) <= until
  {
    var until := late + period + d + r;
    pings, events := [late + period + d], [Pong(until)];
    forall k: nat | k >= 1 && 0 < late + k * period && late + k * period + d + r <= until ensures k == 1 {
      OnePeriod(k, period);
    }
    assert events[0] in events && 1 * period == period;
  }

  /** The timings suffice for every peer that answers, exactly if the wait exceeds the
      lateness of the ticker, a period, the delay of a ping and the delay of its answer
      together. */
  lemma TimingsAreExact(late: int, period: int, wait: int, d: int, r: int)
    requires 0 < period && 0 <= late && 0 <= d && 0 <= r
    ensures late + period + d + r < wait <==>
            forall start, ticker, until, pings, events |
              Lives(start, ticker, period, d, r, until, pings, events) && ticker <= start + late ::
              GoneAt(start + wait, wait, events) > until
  {
    if late + period + d + r < wait {
      forall start, ticker, until, pings, events |
        Lives(start, ticker, period, d, r, until, pings, events) && ticker <= start + late
        ensures GoneAt(start + wait, wait, events) > until
      {
        LivePeerIsKept(start, ticker, late, period, wait, d, r, until, pings, events);
      }
    } else {
      var pings, events := TardyPeer(late, period, wait, d, r);
      assert Lives(0, late, period, d, r, late + period + d + r, pings, events);
    }
  }

  /** The server's own timings leave 30 seconds for all of that but the period. */
  lemma DefaultTimings(late: int, d: int, r: int)
    requires 0 <= late && 0 <= d && 0 <= r
    ensures late + d + r < 30_000_000_000 <==>
            forall start, ticker, until, pings, events |
              Lives(start, ticker, PING_PERIOD, d, r, until, pings, events) && ticker <= start + late ::
              GoneAt(start + PONG_WAIT, PONG_WAIT, events) > until
    ensures PING_PERIOD == 30_000_000_000 && PONG_WAIT == 60_000_000_000
  {
    TimingsAreExact(late, PING_PERIOD, PONG_WAIT, d, r);
  }

  /** A peer whose last pong came at `last` is gone `wait` later at the latest, whatever
      else it sends. */
  lemma {:induction false} SilentPeerIsReaped(deadline: int, wait: int, events: seq<Inbound>, last: int)
    requires 0 <= wait && deadline <= last + wait
    requires forall e | e in events && e.Pong? :: e.at <= last
    ensures GoneAt(deadline, wait, events) <= last + wait
    decreases |events|
  {
    if events != [] && events[0].at < deadline {
      match events[0]
      case Pong(at) => SilentPeerIsReaped(at + wait, wait, events[1..], last);
      case Message(_) => SilentPeerIsReaped(deadline, wait, events[1..], last);
      case Broken(_) =>
    }
  }

  function WithoutMessages(events: seq<Inbound>): seq<Inbound> {
    if events == [] then []
    else (if events[0].Message? then [] else [events[0]]) + WithoutMessages(events[1..])
  }

  lemma {:induction false} WithoutMessagesLater(events: seq<Inbound>, t: int)
    requires forall e | e in events :: t <= e.at
    ensures forall e | e in WithoutMessages(events) :: t <= e.at
  {
    if events != [] {
      WithoutMessagesLater(events[1..], t);
    }
  }

  /** Only pongs extend the deadline: other frames make no difference. */
  lemma {:induction false} MessagesDoNotCount(deadline: int, wait: int, events: seq<Inbound>)
    requires InOrder(events)
    ensures GoneAt(deadline, wait, WithoutMessages(events)) == GoneAt(deadline, wait, events)
    decreases |events|
  {
    if events != [] {
      var e, rest := events[0], events[1..];
      FirstIsFirst(events);
      if e.at >= deadline {
        WithoutMessagesLater(events, deadline);
      } else {
        MessagesDoNotCount(if e.Pong? then e.at + wait else deadline, wait, rest);
        if e.Message? {
          assert WithoutMessages(events) == WithoutMessages(rest);
        } else {
          assert WithoutMessages(events)[1..] == WithoutMessages(rest);
        }
      }
    }
  }
}
