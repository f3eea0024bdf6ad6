/** The per-address limiters of oauth.Authenticator: a table of token buckets from
    which a sweep evicts the idle ones. Each bucket is an ideal one of burst 5 and
    one token every 12 seconds; times are seconds. */
module RateLimit {

  const BURST: real := 5.0
  const PERIOD: real := 12.0
  const IDLE: real := 600.0

  datatype Bucket = Bucket(tokens: real, last: real)

  datatype Entry = Entry(bucket: Bucket, lastSeen: real)

  type Table = map<string, Entry>

  function Min(a: real, b: real): real {
    if a < b then a else b
  }

  /** The tokens in a bucket at a later time. */
  function Level(b: Bucket, now: real): real {
    Min(BURST, b.tokens + (now - b.last) / PERIOD)
  }

  predicate Allows(b: Bucket, now: real) {
    Level(b, now) >= 1.0
  }

  function Spend(b: Bucket, now: real): Bucket {
    if Allows(b, now) then Bucket(Level(b, now) - 1.0, now) else b
  }

  // ----- one request, one sweep -----

  function EntryFor(t: Table, ip: string, now: real): Entry {
    if ip in t then t[ip] else Entry(Bucket(BURST, now), now)
  }

  function Serve(t: Table, ip: string, now: real): Table {
    t[ip := Entry(Spend(EntryFor(t, ip, now).bucket, now), now)]
  }

  function Swept(t: Table, now: real, idle: real): Table {
    map ip | ip in t && now - t[ip].lastSeen <= idle :: t[ip]
  }

  class Authenticator {
    var limiters: Table

    constructor ()
      ensures limiters == map[]
    {
      limiters := map[];
    }

    /** authLimiter followed by Allow. */
    method Allow(ip: string, now: real) returns (ok: bool)
      modifies this
      ensures ok <==> Allows(EntryFor(old(limiters), ip, now).bucket, now)
      ensures limiters == Serve(old(limiters), ip, now)
    {
      if ip !in limiters {
        limiters := limiters[ip := Entry(Bucket(BURST, now), now)];
      }
      limiters := limiters[ip := limiters[ip].(lastSeen := now)];
      var bucket := limiters[ip].bucket;
      ok := Allows(bucket, now);
      limiters := limiters[ip := limiters[ip].(bucket := Spend(bucket, now))];
    }

    /** One round of cleanupLimiters. */
    method CleanupLimiters(now: real)
      modifies this
      ensures limiters == Swept(old(limiters), now, IDLE)
    {
      var ips := limiters.Keys;
      while ips != {}
        invariant ips <= old(limiters).Keys
        invariant limiters == map ip | ip in old(limiters) && (ip in ips || now - old(limiters)[ip].lastSeen <= IDLE) :: old(limiters)[ip]
        decreases ips
      {
        var ip :| ip in ips;
        if now - limiters[ip].lastSeen > IDLE {
          limiters := limiters - {ip};
        }
        ips := ips - {ip};
      }
    }
  }

  // ----- runs -----

  datatype Event = Request(ip: string, now: real) | Sweep(now: real)

  /** The clock never goes back. */
  predicate InOrder(events: seq<Event>) {
    forall i, j | 0 <= i < j < |events| :: events[i].now <= events[j].now
  }

  /** The table after an event; `evicts` tells whether sweeps evict at all. */
  function Next(t: Table, e: Event, idle: real, evicts: bool): Table {
    match e
    case Request(ip, now) => Serve(t, ip, now)
    case Sweep(now) => if evicts then Swept(t, now, idle) else t
  }

  function Answer(t: Table, e: Event): bool {
    e.Request? && Allows(EntryFor(t, e.ip, e.now).bucket, e.now)
  }

  /** What every event of a run was answered; a sweep counts as a refusal. */
  function Answers(t: Table, events: seq<Event>, idle: real, evicts: bool): (r: seq<bool>)
    ensures |r| == |events|
    decreases |events|
  {
    if events == [] then []
    else [Answer(t, events[0])] + Answers(Next(t, events[0], idle, evicts), events[1..], idle, evicts)
  }

  // ----- eviction cannot be observed -----

  /** Buckets hold no debt and have not been touched after they were last seen. */
  predicate Sound(t: Table, now: real) {
    forall ip | ip in t :: t[ip].bucket.tokens >= 0.0 && t[ip].bucket.last <= t[ip].lastSeen <= now
  }

  /** `t` is `u` without some buckets that have refilled. */
  predicate Thinned(t: Table, u: Table, now: real) {
    && (forall ip | ip in t :: ip in u && t[ip] == u[ip])
    && (forall ip | ip in u && ip !in t :: Level(u[ip].bucket, now) == BURST)
  }

  lemma LevelGrows(b: Bucket, now: real, later: real)
    requires now <= later
    ensures Level(b, now) <= Level(b, later) <= Level(b, now) + (later - now) / PERIOD
  {
  }

  lemma ThinnedLater(t: Table, u: Table, now: real, later: real)
    requires Thinned(t, u, now) && now <= later
    ensures Thinned(t, u, later)
  {
  }

  lemma SweepThins(t: Table, u: Table, now: real, idle: real)
    requires Thinned(t, u, now) && Sound(u, now) && idle >= BURST * PERIOD
    ensures Thinned(Swept(t, now, idle), u, now)
  {
  }

  lemma ServeSound(u: Table, ip: string, now: real)
    requires Sound(u, now)
    ensures Sound(Serve(u, ip, now), now)
  {
  }

  lemma ServeThinned(t: Table, u: Table, ip: string, now: real)
    requires Thinned(t, u, now)
    ensures Allows(EntryFor(t, ip, now).bucket, now) == Allows(EntryFor(u, ip, now).bucket, now)
    ensures Thinned(Serve(t, ip, now), Serve(u, ip, now), now)
  {
  }

  lemma SoundLater(u: Table, now: real, later: real)
    requires Sound(u, now) && now <= later
    ensures Sound(u, later)
  {
  }

  lemma {:induction false} SameAnswers(t: Table, u: Table, events: seq<Event>, start: real, idle: real)
    requires Thinned(t, u, start) && Sound(u, start) && idle >= BURST * PERIOD
    requires InOrder(events) && forall e | e in events :: start <= e.now
    ensures Answers(t, events, idle, true) == Answers(u, events, idle, false)
    decreases |events|
  {
    if events != [] {
      var e := events[0];
      ThinnedLater(t, u, start, e.now);
      SoundLater(u, start, e.now);
      match e {
        case Request(ip, now) =>
          ServeThinned(t, u, ip, now);
          ServeSound(u, ip, now);
        case Sweep(now) =>
          SweepThins(t, u, now, idle);
      }
      forall d | d in events[1..] ensures e.now <= d.now {
        var i :| 0 <= i < |events[1..]| && events[1..][i] == d;
        assert events[i + 1] == d;
      }
      SameAnswers(Next(t, e, idle, true), Next(u, e, idle, false), events[1..], e.now, idle);
    }
  }

  /** For every run, the answers are those of a table that never evicts: the code's ten
      minutes are long enough. */
  lemma EvictionIsInvisible(events: seq<Event>)
    requires InOrder(events)
    ensures Answers(map[], events, IDLE, true) == Answers(map[], events, IDLE, false)
  {
    LongIdleIsInvisible(events, IDLE);
  }

  // ----- how much a window admits -----

  /** How many requests of `ip` were allowed. */
  function Admitted(events: seq<Event>, answers: seq<bool>, ip: string): nat
    requires |events| == |answers|
  {
    if events == [] then 0
    else (if events[0].Request? && events[0].ip == ip && answers[0] then 1 else 0) + Admitted(events[1..], answers[1..], ip)
  }

  function Credit(u: Table, ip: string, now: real): real {
    if ip in u then Level(u[ip].bucket, now) else BURST
  }

  /** Every admission is paid for by tokens present at the start or refilled since. */
  lemma {:induction false} AdmissionsArePaid(u: Table, events: seq<Event>, ip: string, start: real, end: real)
    requires Sound(u, start) && start <= end
    requires InOrder(events) && forall e | e in events :: start <= e.now <= end
    ensures Admitted(events, Answers(u, events, IDLE, false), ip) as real <= Credit(u, ip, start) + (end - start) / PERIOD
    decreases |events|
  {
    if events == [] {
      assert Credit(u, ip, start) >= 0.0;
    } else {
      var e, rest := events[0], events[1..];
      var v := Next(u, e, IDLE, false);
      SoundLater(u, start, e.now);
      if e.Request? {
        ServeSound(u, e.ip, e.now);
      }
      forall d | d in rest ensures e.now <= d.now <= end {
        var i :| 0 <= i < |rest| && rest[i] == d;
        assert events[i + 1] == d && d in events;
      }
      AdmissionsArePaid(v, rest, ip, e.now, end);
      assert Answers(u, events, IDLE, false)[1..] == Answers(v, rest, IDLE, false);
      PaidStep(u, e, ip, start);
    }
  }

  lemma PaidStep(u: Table, e: Event, ip: string, start: real)
    requires Sound(u, start) && start <= e.now
    ensures (if e.Request? && e.ip == ip && Answer(u, e) then 1.0 else 0.0) + Credit(Next(u, e, IDLE, false), ip, e.now)
            <= Credit(u, ip, start) + (e.now - start) / PERIOD
  {
  }

  function After(t: Table, events: seq<Event>, idle: real, evicts: bool): Table
    decreases |events|
  {
    if events == [] then t else After(Next(t, events[0], idle, evicts), events[1..], idle, evicts)
  }

  lemma {:induction false} AnswersOfRest(t: Table, events: seq<Event>, i: nat, idle: real, evicts: bool)
    requires i <= |events|
    ensures Answers(t, events, idle, evicts)[i..] == Answers(After(t, events[..i], idle, evicts), events[i..], idle, evicts)
    decreases i
  {
    if i > 0 {
      AnswersOfRest(Next(t, events[0], idle, evicts), events[1..], i - 1, idle, evicts);
      assert events[..i][1..] == events[1..][..i - 1] && events[i..] == events[1..][i - 1..];
    }
  }

  lemma {:induction false} AnswersOfFirst(t: Table, events: seq<Event>, i: nat, idle: real, evicts: bool)
    requires i <= |events|
    ensures Answers(t, events, idle, evicts)[..i] == Answers(t, events[..i], idle, evicts)
    decreases i
  {
    if i > 0 {
      AnswersOfFirst(Next(t, events[0], idle, evicts), events[1..], i - 1, idle, evicts);
      assert events[..i][1..] == events[1..][..i - 1];
    }
  }

  lemma {:induction false} AfterSound(t: Table, events: seq<Event>, start: real, end: real)
    requires Sound(t, start) && start <= end && InOrder(events) && forall e | e in events :: start <= e.now <= end
    ensures Sound(After(t, events, IDLE, false), end)
    decreases |events|
  {
    if events == [] {
      SoundLater(t, start, end);
    } else {
      var e, rest := events[0], events[1..];
      SoundLater(t, start, e.now);
      if e.Request? {
        ServeSound(t, e.ip, e.now);
      }
      forall d | d in rest ensures e.now <= d.now <= end {
        var i :| 0 <= i < |rest| && rest[i] == d;
        assert events[i + 1] == d && d in events;
      }
      AfterSound(Next(t, e, IDLE, false), rest, e.now, end);
    }
  }

  /** The answers within a run, as those of the table at that point. */
  lemma AnswersWithin(events: seq<Event>, i: nat, j: nat)
    requires i <= j <= |events|
    ensures Answers(map[], events, IDLE, false)[i..j] ==
            Answers(After(map[], events[..i], IDLE, false), events[i..j], IDLE, false)
  {
    var u := After(map[], events[..i], IDLE, false);
    AnswersOfRest(map[], events, i, IDLE, false);
    AnswersOfFirst(u, events[i..], j - i, IDLE, false);
    SliceOfRest(events, i, j);
    SliceOfRest(Answers(map[], events, IDLE, false), i, j);
  }

  lemma SliceOfRest<T>(xs: seq<T>, i: nat, j: nat)
    requires i <= j <= |xs|
    ensures xs[i..][..j - i] == xs[i..j]
  {
  }

  lemma Within(events: seq<Event>, i: nat, j: nat)
    requires InOrder(events) && i < j <= |events|
    ensures InOrder(events[i..j]) && forall e | e in events[i..j] :: events[i].now <= e.now <= events[j - 1].now
    ensures InOrder(events[..i]) && forall e | e in events[..i] :: events[0].now <= e.now <= events[i].now
  {
  }

  /** In any run, the requests of one address that fall into a window of length T are
      allowed at most 5 + T/12 times. */
  lemma WindowBound(events: seq<Event>, i: nat, j: nat, ip: string, window: real)
    requires InOrder(events) && i < j <= |events| && events[j - 1].now - events[i].now <= window
    ensures Admitted(events[i..j], Answers(map[], events, IDLE, true)[i..j], ip) as real <= BURST + window / PERIOD
  {
    EvictionIsInvisible(events);
    var mid, end := events[i].now, events[j - 1].now;
    Within(events, i, j);
    AfterSound(map[], events[..i], events[0].now, mid);
    AnswersWithin(events, i, j);
    AdmissionsArePaid(After(map[], events[..i], IDLE, false), events[i..j], ip, mid, end);
    assert (end - mid) / PERIOD <= window / PERIOD;
  }

  // ----- how long is long enough -----

  function Requests(ip: string, now: real, k: nat): seq<Event> {
    seq(k, _ => Request(ip, now))
  }

  lemma {:induction false} AfterAppend(t: Table, events: seq<Event>, more: seq<Event>, idle: real, evicts: bool)
    ensures After(t, events + more, idle, evicts) == After(After(t, events, idle, evicts), more, idle, evicts)
    decreases |events|
  {
    if events == [] {
      assert events + more == more;
    } else {
      assert (events + more)[1..] == events[1..] + more;
      AfterAppend(Next(t, events[0], idle, evicts), events[1..], more, idle, evicts);
    }
  }

  /** `k` requests at one moment take `k` tokens, as far as there are any. */
  lemma {:induction false} RequestsSpend(t: Table, ip: string, now: real, k: nat, idle: real, evicts: bool)
    requires Credit(t, ip, now) >= 0.0
    ensures var before, after := Credit(t, ip, now), Credit(After(t, Requests(ip, now, k), idle, evicts), ip, now);
            && (before >= k as real ==> after == before - k as real)
            && (before < k as real + 1.0 ==> 0.0 <= after < 1.0)
    ensures k > 0 ==> var u := After(t, Requests(ip, now, k), idle, evicts); ip in u && u[ip].lastSeen == now
    decreases k
  {
    if k > 0 {
      assert Requests(ip, now, k)[1..] == Requests(ip, now, k - 1);
      var u := Serve(t, ip, now);
      assert Credit(u, ip, now) == if Credit(t, ip, now) >= 1.0 then Credit(t, ip, now) - 1.0 else Credit(t, ip, now);
      RequestsSpend(u, ip, now, k - 1, idle, evicts);
    }
  }

  /** Five requests, a sweep at `s`, and four more. */
  function Probe(ip: string, s: real): seq<Event> {
    Requests(ip, 0.0, 5) + ([Sweep(s)] + Requests(ip, s, 4))
  }

  lemma ProbeOutcome(ip: string, s: real, idle: real, evicts: bool)
    requires 0.0 <= idle < s < BURST * PERIOD
    ensures Allows(EntryFor(After(map[], Probe(ip, s), idle, evicts), ip, s).bucket, s) <==> evicts
  {
    var empty := After(map[], Requests(ip, 0.0, 5), idle, evicts);
    RequestsSpend(map[], ip, 0.0, 5, idle, evicts);
    assert Level(empty[ip].bucket, 0.0) == 0.0 && empty[ip].lastSeen == 0.0;
    var swept := Next(empty, Sweep(s), idle, evicts);
    var tail := [Sweep(s)] + Requests(ip, s, 4);
    assert tail[1..] == Requests(ip, s, 4) && tail[0] == Sweep(s);
    AfterAppend(map[], Requests(ip, 0.0, 5), tail, idle, evicts);
    assert After(empty, tail, idle, evicts) == After(swept, Requests(ip, s, 4), idle, evicts);
    LevelGrows(empty[ip].bucket, 0.0, s);
    assert evicts ==> ip !in swept;
    RequestsSpend(swept, ip, s, 4, idle, evicts);
  }

  /** Any shorter time than a full refill would show: sixty seconds is the exact bound. */
  lemma ShortIdleShows(ip: string, idle: real)
    requires 0.0 <= idle < BURST * PERIOD
    ensures exists events :: InOrder(events) && Answers(map[], events, idle, true) != Answers(map[], events, idle, false)
  {
    var s := (idle + BURST * PERIOD) / 2.0;
    var first := Probe(ip, s);
    var events := first + [Request(ip, s)];
    assert |first| == 10 && events[..10] == first && events[10..] == [Request(ip, s)];
    forall evicts: bool ensures Answers(map[], events, idle, evicts)[10] == evicts {
      ProbeOutcome(ip, s, idle, evicts);
      AnswersOfRest(map[], events, 10, idle, evicts);
      var u := After(map[], first, idle, evicts);
      assert Answers(u, events[10..], idle, evicts)[0] == Answer(u, Request(ip, s));
      assert Answers(map[], events, idle, evicts)[10..][0] == Answers(map[], events, idle, evicts)[10];
    }
    assert InOrder(events);
  }

  lemma LongIdleIsInvisible(events: seq<Event>, idle: real)
    requires InOrder(events) && idle >= BURST * PERIOD
    ensures Answers(map[], events, idle, true) == Answers(map[], events, idle, false)
  {
    if events != [] {
      forall e | e in events ensures events[0].now <= e.now {
        var i :| 0 <= i < |events| && events[i] == e;
      }
      SameAnswers(map[], map[], events, events[0].now, idle);
    }
  }

  /** Eviction after `idle` cannot be observed exactly when a bucket refills within it. */
  lemma IdleBoundIsExact(idle: real)
    requires 0.0 <= idle
    ensures idle >= BURST * PERIOD <==>
            forall events :: InOrder(events) ==> Answers(map[], events, idle, true) == Answers(map[], events, idle, false)
  {
    if idle >= BURST * PERIOD {
      forall events | InOrder(events) ensures Answers(map[], events, idle, true) == Answers(map[], events, idle, false) {
        LongIdleIsInvisible(events, idle);
      }
    } else {
      ShortIdleShows("", idle);
    }
  }

  // ----- who is refused, told from the requests alone -----

  lemma {:induction false} AdmittedAppend(events: seq<Event>, answers: seq<bool>, e: Event, a: bool, ip: string)
    requires |events| == |answers|
    ensures Admitted(events + [e], answers + [a], ip) ==
            Admitted(events, answers, ip) + if e.Request? && e.ip == ip && a then 1 else 0
  {
    if events == [] {
      assert ([e])[1..] == [] && ([a])[1..] == [] && events + [e] == [e] && answers + [a] == [a];
    } else {
      assert (events + [e])[1..] == events[1..] + [e] && (answers + [a])[1..] == answers[1..] + [a];
      AdmittedAppend(events[1..], answers[1..], e, a, ip);
    }
  }

  /** The table before event `j` of a run that never evicts. */
  function Before(events: seq<Event>, j: nat): Table
    requires j <= |events|
  {
    After(map[], events[..j], IDLE, false)
  }

  lemma BeforeNext(events: seq<Event>, j: nat)
    requires j < |events|
    ensures Before(events, j + 1) == Next(Before(events, j), events[j], IDLE, false)
    ensures Answers(map[], events, IDLE, false)[j] == Answer(Before(events, j), events[j])
  {
    assert events[..j + 1] == events[..j] + [events[j]];
    AfterAppend(map[], events[..j], [events[j]], IDLE, false);
    assert [events[j]][1..] == [];
    AnswersOfRest(map[], events, j, IDLE, false);
  }

  /** How many requests of `ip` from `i` on, before `j`, were allowed. */
  function Allowed(events: seq<Event>, i: nat, j: nat, ip: string): nat
    requires i <= j <= |events|
  {
    Admitted(events[i..j], Answers(map[], events, IDLE, false)[i..j], ip)
  }

  lemma AllowedNext(events: seq<Event>, i: nat, j: nat, ip: string)
    requires i <= j < |events|
    ensures Allowed(events, i, j + 1, ip) ==
            Allowed(events, i, j, ip) + if events[j].Request? && events[j].ip == ip && Answer(Before(events, j), events[j]) then 1 else 0
  {
    var answers := Answers(map[], events, IDLE, false);
    BeforeNext(events, j);
    assert events[i..j + 1] == events[i..j] + [events[j]] && answers[i..j + 1] == answers[i..j] + [answers[j]];
    AdmittedAppend(events[i..j], answers[i..j], events[j], answers[j], ip);
  }

  lemma NoneAllowedYet(events: seq<Event>, j: nat, ip: string)
    requires j <= |events|
    ensures Allowed(events, j, j, ip) == 0
  {
    assert events[j..j] == [];
  }

  /** A bucket that is not full was full at some request, and has lost a token to every
      request allowed since. */
  lemma {:induction false} CreditTraced(events: seq<Event>, j: nat, ip: string, t: real) returns (i: nat)
    requires InOrder(events) && j <= |events| && (forall k | 0 <= k < j :: events[k].now <= t)
    requires Credit(Before(events, j), ip, t) < BURST
    ensures i < j && events[i].Request? && events[i].ip == ip
    ensures Credit(Before(events, j), ip, t) == BURST + (t - events[i].now) / PERIOD - Allowed(events, i, j, ip) as real
    decreases j
  {
    assert j > 0;
    var e, u := events[j - 1], Before(events, j - 1);
    BeforeNext(events, j - 1);
    if e.Request? && e.ip == ip && Credit(u, ip, e.now) == BURST {
      i := j - 1;
      NoneAllowedYet(events, j - 1, ip);
    } else {
      i := CreditTraced(events, j - 1, ip, if e.Request? && e.ip == ip then e.now else t);
    }
    AllowedNext(events, i, j - 1, ip);
  }

  /** Since request `i` of the same address, request `j` would be one more than five, and
      one for every twelve seconds. */
  predicate Spent(events: seq<Event>, answers: seq<bool>, i: nat, j: nat)
    requires i < j < |events| == |answers| && events[j].Request?
  {
    && events[i].Request? && events[i].ip == events[j].ip
    && Admitted(events[i..j], answers[i..j], events[j].ip) as real + 1.0 > 5.0 + (events[j].now - events[i].now) / 12.0
  }

  lemma RefusedIsSpent(events: seq<Event>, j: nat) returns (i: nat)
    requires InOrder(events) && j < |events| && events[j].Request? && !Answers(map[], events, IDLE, false)[j]
    ensures i < j && Spent(events, Answers(map[], events, IDLE, false), i, j)
  {
    BeforeNext(events, j);
    i := CreditTraced(events, j, events[j].ip, events[j].now);
  }

  lemma AllowedIsNotSpent(events: seq<Event>, i: nat, j: nat)
    requires InOrder(events) && i < j < |events| && events[j].Request? && Answers(map[], events, IDLE, false)[j]
    ensures !Spent(events, Answers(map[], events, IDLE, false), i, j)
  {
    BeforeNext(events, j);
    AllowedNext(events, i, j, events[j].ip);
    AllowedWithin(events, i, j, events[j].ip);
  }

  lemma AllowedWithin(events: seq<Event>, i: nat, j: nat, ip: string)
    requires InOrder(events) && i <= j < |events|
    ensures Allowed(events, i, j + 1, ip) as real <= BURST + (events[j].now - events[i].now) / PERIOD
  {
    EvictionIsInvisible(events);
    WindowBound(events, i, j + 1, ip, events[j].now - events[i].now);
  }

  /** In every run with sweeps, a request is refused if and only if, since some earlier
      request of the same address, admitting it would make more than five requests and
      one more for every twelve seconds. */
  lemma RefusedExactlyWhenSpent(events: seq<Event>, j: nat)
    requires InOrder(events) && j < |events| && events[j].Request?
    ensures var answers := Answers(map[], events, 600.0, true);
            !answers[j] <==> exists i: nat :: i < j && Spent(events, answers, i, j)
  {
    EvictionIsInvisible(events);
    if Answers(map[], events, IDLE, false)[j] {
      forall i: nat | i < j ensures !Spent(events, Answers(map[], events, IDLE, false), i, j) {
        AllowedIsNotSpent(events, i, j);
      }
    } else {
      var i := RefusedIsSpent(events, j);
    }
  }

  // ----- what the sweep removes -----

  predicate Asks(e: Event, ip: string) {
    e.Request? && e.ip == ip
  }

  /** The table knows of every address when it last asked, unless that is more than ten
      minutes ago. */
  predicate Remembers(t: Table, events: seq<Event>, ip: string, now: real) {
    if ip in t then
      && (exists e | e in events :: Asks(e, ip) && e.now == t[ip].lastSeen)
      && (forall e | e in events && Asks(e, ip) :: e.now <= t[ip].lastSeen)
    else forall e | e in events && Asks(e, ip) :: now - e.now > 600.0
  }

  lemma {:induction false} TableRemembers(events: seq<Event>, ip: string, now: real)
    requires InOrder(events) && forall e | e in events :: e.now <= now
    ensures Remembers(After(map[], events, IDLE, true), events, ip, now)
    decreases |events|
  {
    if events != [] {
      var init, e := events[..|events| - 1], events[|events| - 1];
      assert events == init + [e] && [e][1..] == [];
      AfterAppend(map[], init, [e], IDLE, true);
      forall d | d in init ensures d.now <= e.now {
        var i :| 0 <= i < |init| && init[i] == d;
        assert events[i] == d;
      }
      TableRemembers(init, ip, e.now);
      RemembersNext(After(map[], init, IDLE, true), init, e, ip, now);
    }
  }

  lemma RemembersNext(t: Table, init: seq<Event>, e: Event, ip: string, now: real)
    requires Remembers(t, init, ip, e.now) && e.now <= now && forall d | d in init :: d.now <= e.now
    ensures Remembers(Next(t, e, IDLE, true), init + [e], ip, now)
  {
    var events, u := init + [e], Next(t, e, IDLE, true);
    assert e in events && forall d | d in init :: d in events;
    assert forall d | d in events :: d in init || d == e;
    if Asks(e, ip) {
      assert u[ip].lastSeen == e.now;
    }
  }

  /** After a sweep the table holds exactly the addresses that asked in the last ten
      minutes. */
  lemma SweepKeepsExactlyTheRecent(events: seq<Event>, now: real, ip: string)
    requires InOrder(events) && forall e | e in events :: e.now <= now
    ensures ip in After(map[], events + [Sweep(now)], 600.0, true) <==> exists e | e in events :: Asks(e, ip) && now - e.now <= 600.0
  {
    TableRemembers(events, ip, now);
    AfterAppend(map[], events, [Sweep(now)], IDLE, true);
    assert [Sweep(now)][1..] == [];
  }
}
