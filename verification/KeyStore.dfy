/** oauth.keyStore: signing keys that requests look up, a background loop replaces,
    and an unknown key id refreshes on demand. Every lock section is one action, so
    other goroutines run between any two of them. Times are nanoseconds. */
module KeyStore {
  import opened Text

  const THROTTLE: int := 60_000_000_000

  type Kid = string
  type Key = nat
  type Keys = map<Kid, Key>
  type Tid = nat

  // ----- the key set of a document -----

  /** What decoding the first entry of an x5c member comes to. */
  datatype Cert = BadBase64 | BadCertificate | NotRsa | Rsa(key: Key)

  datatype Jwk = Jwk(kid: Kid, x5c: seq<Cert>)

  predicate Usable(e: Jwk) {
    |e.x5c| > 0 && e.x5c[0].Rsa?
  }

  /** A later usable entry replaces an earlier one with the same key id. */
  function KeySet(doc: seq<Jwk>): Keys {
    if doc == [] then map[]
    else
      var e := doc[|doc| - 1];
      if Usable(e) then KeySet(doc[..|doc| - 1])[e.kid := e.x5c[0].key] else KeySet(doc[..|doc| - 1])
  }

  /** The last usable entry of `doc` for a key id is the one at `i`. */
  predicate LastUsable(doc: seq<Jwk>, kid: Kid, i: nat) {
    && i < |doc| && doc[i].kid == kid && |doc[i].x5c| > 0 && doc[i].x5c[0].Rsa?
    && forall j | i < j < |doc| :: doc[j].kid == kid ==> doc[j].x5c == [] || !doc[j].x5c[0].Rsa?
  }

  /** A key id is known exactly if some usable entry has it, and the last such wins. */
  lemma {:induction false} KeySetMeaning(doc: seq<Jwk>, kid: Kid)
    ensures kid in KeySet(doc) <==> exists i: nat :: LastUsable(doc, kid, i)
    ensures forall i: nat | LastUsable(doc, kid, i) :: kid in KeySet(doc) && KeySet(doc)[kid] == doc[i].x5c[0].key
  {
    if doc != [] {
      var init, n := doc[..|doc| - 1], |doc| - 1;
      KeySetMeaning(init, kid);
      if doc[n].kid == kid && Usable(doc[n]) {
        assert LastUsable(doc, kid, n);
      } else {
        assert forall i: nat :: LastUsable(doc, kid, i) <==> LastUsable(init, kid, i);
      }
    }
  }

  /** The loop of refresh that decodes a document. */
  method BuildKeys(doc: seq<Jwk>) returns (keys: Keys)
    ensures keys == KeySet(doc)
  {
    keys := map[];
    for i := 0 to |doc|
      invariant keys == KeySet(doc[..i])
    {
      var key := doc[i];
      assert doc[..i + 1][..i] == doc[..i];
      if |key.x5c| == 0 {
        continue;
      }
      match key.x5c[0]
      case BadBase64 => continue;
      case BadCertificate => continue;
      case NotRsa => continue;
      case Rsa(k) => keys := keys[key.kid := k];
    }
    assert doc[..|doc|] == doc;
  }

  // ----- the store on its own, undisturbed by other goroutines -----

  /** The store's fields; the outcome of the one fetch a call may make is a parameter,
      None for a fetch or decoding error. */
  class SigningKeys {
    var keys: Keys
    var lastRefresh: Option<int>

    constructor ()
      ensures keys == map[] && lastRefresh == None
    {
      keys, lastRefresh := map[], None;
    }

    /** Stamps the attempt first, and replaces the keys only by a set that is not empty. */
    method Refresh(now: int, fetched: Option<seq<Jwk>>) returns (ok: bool)
      modifies this
      ensures lastRefresh == Some(now)
      ensures ok <==> fetched.Some? && KeySet(fetched.value) != map[]
      ensures keys == if ok then KeySet(fetched.value) else old(keys)
    {
      lastRefresh := Some(now);
      if fetched.None? {
        return false;
      }
      var newKeys := BuildKeys(fetched.value);
      if newKeys == map[] {
        return false;
      }
      keys := newKeys;
      return true;
    }

    method RefreshIfStale(now: int, fetched: Option<seq<Jwk>>) returns (attempted: bool)
      modifies this
      ensures attempted <==> (old(lastRefresh).None? || now - old(lastRefresh).value >= THROTTLE)
      ensures lastRefresh == if attempted then Some(now) else old(lastRefresh)
      ensures keys == if attempted && fetched.Some? && KeySet(fetched.value) != map[] then KeySet(fetched.value) else old(keys)
    {
      if lastRefresh != None && now - lastRefresh.value < THROTTLE {
        return false;
      }
      var _ := Refresh(now, fetched);
      return true;
    }

    /** A known key id never causes a fetch. An unknown one causes one exactly if the last
        attempt is a minute old or there was none. A document with usable keys then
        replaces the keys, and its last usable entry for the key id is the answer. */
    method Key(kid: Kid, now: int, fetched: Option<seq<Jwk>>) returns (key: Option<Key>)
      modifies this
      ensures key.Some? <==> kid in keys
      ensures key.Some? ==> key.value == keys[kid]
      ensures kid in old(keys) ==> keys == old(keys) && lastRefresh == old(lastRefresh) && key == Some(old(keys)[kid])
      ensures var due := old(lastRefresh).None? || now - old(lastRefresh).value >= 60_000_000_000;
              kid !in old(keys) && !due ==> keys == old(keys) && lastRefresh == old(lastRefresh) && key == None
      ensures var due := old(lastRefresh).None? || now - old(lastRefresh).value >= 60_000_000_000;
              kid !in old(keys) && due ==>
                && lastRefresh == Some(now)
                && keys == (if fetched.Some? && KeySet(fetched.value) != map[] then KeySet(fetched.value) else old(keys))
                && (fetched.None? ==> key == None)
                && (fetched.Some? ==> forall i: nat | LastUsable(fetched.value, kid, i) :: key == Some(fetched.value[i].x5c[0].key))
                && (fetched.Some? && (forall i: nat :: !LastUsable(fetched.value, kid, i)) ==> key == None)
    {
      if kid in keys {
        return Some(keys[kid]);
      }
      if fetched.Some? {
        KeySetMeaning(fetched.value, kid);
      }
      var attempted := RefreshIfStale(now, fetched);
      if !attempted {
        return None;
      }
      return if kid in keys then Some(keys[kid]) else None;
    }
  }

  // ----- the protocol -----

  /** Who refreshes: the hourly loop (and start-up), or a request for `kid` that found
      `seen` attempts on record when it checked. */
  datatype Origin = Periodic | OnDemand(kid: Kid, seen: nat)

  /** The next lock section, or library call, of a goroutine. */
  datatype Pc =
    | Idle
    | Lookup(kid: Kid)
    | Check(kid: Kid)
    | Stamp(origin: Origin)
    | Fetch(origin: Origin)
    | Install(origin: Origin, keys: Keys)
    | Retry(kid: Kid)
    | Answered(kid: Kid, key: Option<Key>)

  /** `lastRefresh` is None for the zero time. `attempts` are the times stamped so far
      and `docs` the documents fetched, with usable keys or without. */
  datatype Store = Store(
    keys: Keys, lastRefresh: Option<int>, now: int,
    threads: map<Tid, Pc>, attempts: seq<int>, docs: set<seq<Jwk>>)

  function NewStore(now: int): Store {
    Store(map[], None, now, map[], [], {})
  }

  datatype Action =
    | Tick(later: int)
    | Request(tid: Tid, kid: Kid)
    | Refresh(tid: Tid)
    | Step(tid: Tid)
    | Fetched(tid: Tid, doc: seq<Jwk>)
    | FetchFailed(tid: Tid)

  function PcOf(s: Store, tid: Tid): Pc {
    if tid in s.threads then s.threads[tid] else Idle
  }

  predicate Enabled(s: Store, a: Action) {
    match a
    case Tick(later) => s.now <= later
    case Request(tid, _) => PcOf(s, tid).Idle? || PcOf(s, tid).Answered?
    case Refresh(tid) => PcOf(s, tid).Idle? || PcOf(s, tid).Answered?
    case Step(tid) =>
      var pc := PcOf(s, tid);
      pc.Lookup? || pc.Check? || pc.Stamp? || pc.Install? || pc.Retry?
    case Fetched(tid, _) => PcOf(s, tid).Fetch?
    case FetchFailed(tid) => PcOf(s, tid).Fetch?
  }

  function Goto(s: Store, tid: Tid, pc: Pc): Store {
    s.(threads := s.threads[tid := pc])
  }

  /** Where a refresh returns to: an on-demand one retries the lookup. */
  function Resume(origin: Origin): Pc {
    match origin
    case Periodic => Idle
    case OnDemand(kid, _) => Retry(kid)
  }

  function Find(keys: Keys, kid: Kid): Option<Key> {
    if kid in keys then Some(keys[kid]) else None
  }

  predicate Stale(s: Store) {
    s.lastRefresh.None? || s.now - s.lastRefresh.value >= THROTTLE
  }

  /** One lock section. */
  function DoStep(s: Store, tid: Tid): Store {
    match PcOf(s, tid)
    case Lookup(kid) => Goto(s, tid, if kid in s.keys then Answered(kid, Some(s.keys[kid])) else Check(kid))
    case Check(kid) => Goto(s, tid, if Stale(s) then Stamp(OnDemand(kid, |s.attempts|)) else Answered(kid, None))
    case Stamp(origin) => Goto(s, tid, Fetch(origin)).(lastRefresh := Some(s.now), attempts := s.attempts + [s.now])
    case Install(origin, keys) => Goto(s, tid, Resume(origin)).(keys := keys)
    case Retry(kid) => Goto(s, tid, Answered(kid, Find(s.keys, kid)))
    case _ => s
  }

  function Next(s: Store, a: Action): Store
    requires Enabled(s, a)
  {
    match a
    case Tick(later) => s.(now := later)
    case Request(tid, kid) => Goto(s, tid, Lookup(kid))
    case Refresh(tid) => Goto(s, tid, Stamp(Periodic))
    case Step(tid) => DoStep(s, tid)
    case Fetched(tid, doc) =>
      var origin, keys := PcOf(s, tid).origin, KeySet(doc);
      Goto(s, tid, if keys == map[] then Resume(origin) else Install(origin, keys)).(docs := s.docs + {doc})
    case FetchFailed(tid) => Goto(s, tid, Resume(PcOf(s, tid).origin))
  }

  // ----- what every reachable state satisfies -----

  /** The keys are those of one complete document. */
  ghost predicate FromDocument(docs: set<seq<Jwk>>, keys: Keys) {
    keys != map[] && exists doc | doc in docs :: keys == KeySet(doc)
  }

  /** A key that was handed out comes from some document that was fetched. */
  ghost predicate KeyFetched(docs: set<seq<Jwk>>, kid: Kid, key: Key) {
    exists doc | doc in docs :: kid in KeySet(doc) && KeySet(doc)[kid] == key
  }

  ghost predicate PcInv(s: Store, pc: Pc) {
    match pc
    case Install(_, keys) => FromDocument(s.docs, keys)
    case Answered(kid, Some(key)) => KeyFetched(s.docs, kid, key)
    case Stamp(OnDemand(_, seen)) =>
      seen <= |s.attempts| && forall i | 0 <= i < seen :: s.now - s.attempts[i] >= THROTTLE
    case _ => true
  }

  ghost predicate Inv(s: Store) {
    && (s.keys == map[] || FromDocument(s.docs, s.keys))
    && s.lastRefresh == (if s.attempts == [] then None else Some(s.attempts[|s.attempts| - 1]))
    && (forall i, j | 0 <= i < j < |s.attempts| :: s.attempts[i] <= s.attempts[j])
    && (forall i | 0 <= i < |s.attempts| :: s.attempts[i] <= s.now)
    && (forall tid | tid in s.threads :: PcInv(s, s.threads[tid]))
  }

  /** More documents, more attempts and a later clock keep what a goroutine relies on. */
  lemma PcInvLater(s: Store, t: Store, pc: Pc)
    requires PcInv(s, pc) && s.docs <= t.docs && s.attempts <= t.attempts && s.now <= t.now
    ensures PcInv(t, pc)
  {
  }

  lemma OthersKeepInv(s: Store, t: Store, tid: Tid)
    requires Inv(s) && s.docs <= t.docs && s.attempts <= t.attempts && s.now <= t.now
    requires tid in t.threads && t.threads == s.threads[tid := t.threads[tid]] && PcInv(t, t.threads[tid])
    ensures forall k | k in t.threads :: PcInv(t, t.threads[k])
  {
  }

  lemma FoundIsFetched(s: Store, kid: Kid)
    requires Inv(s) && kid in s.keys
    ensures KeyFetched(s.docs, kid, s.keys[kid])
  {
    var doc :| doc in s.docs && s.keys == KeySet(doc);
    assert kid in KeySet(doc) && KeySet(doc)[kid] == s.keys[kid];
  }

  /** A step that only moves its goroutine on. */
  lemma GotoKeepsInv(s: Store, tid: Tid, pc: Pc)
    requires Inv(s) && PcInv(s, pc)
    ensures Inv(Goto(s, tid, pc))
  {
    OthersKeepInv(s, Goto(s, tid, pc), tid);
  }

  lemma CheckKeepsInv(s: Store, tid: Tid, kid: Kid)
    requires Inv(s) && PcOf(s, tid) == Check(kid)
    ensures Inv(DoStep(s, tid))
  {
    if Stale(s) {
      assert forall i | 0 <= i < |s.attempts| :: s.attempts[i] <= s.attempts[|s.attempts| - 1];
      GotoKeepsInv(s, tid, Stamp(OnDemand(kid, |s.attempts|)));
    } else {
      GotoKeepsInv(s, tid, Answered(kid, None));
    }
  }

  lemma StampKeepsInv(s: Store, tid: Tid)
    requires Inv(s) && PcOf(s, tid).Stamp?
    ensures Inv(DoStep(s, tid))
  {
    OthersKeepInv(s, DoStep(s, tid), tid);
  }

  lemma InstallKeepsInv(s: Store, tid: Tid)
    requires Inv(s) && PcOf(s, tid).Install?
    ensures Inv(DoStep(s, tid))
  {
    assert PcInv(s, PcOf(s, tid));
    OthersKeepInv(s, DoStep(s, tid), tid);
  }

  lemma StepKeepsInv(s: Store, tid: Tid)
    requires Inv(s) && Enabled(s, Step(tid))
    ensures Inv(Next(s, Step(tid)))
  {
    match PcOf(s, tid)
    case Lookup(kid) =>
      if kid in s.keys {
        FoundIsFetched(s, kid);
      }
      GotoKeepsInv(s, tid, if kid in s.keys then Answered(kid, Some(s.keys[kid])) else Check(kid));
    case Retry(kid) =>
      if kid in s.keys {
        FoundIsFetched(s, kid);
      }
      GotoKeepsInv(s, tid, Answered(kid, Find(s.keys, kid)));
    case Check(kid) => CheckKeepsInv(s, tid, kid);
    case Stamp(_) => StampKeepsInv(s, tid);
    case Install(_, _) => InstallKeepsInv(s, tid);
  }

  lemma FetchKeepsInv(s: Store, tid: Tid, doc: seq<Jwk>)
    requires Inv(s) && Enabled(s, Fetched(tid, doc))
    ensures Inv(Next(s, Fetched(tid, doc)))
  {
  }

  /** Every action keeps the invariant. */
  lemma ActionKeepsInv(s: Store, a: Action)
    requires Inv(s) && Enabled(s, a)
    ensures Inv(Next(s, a))
  {
    match a
    case Tick(later) =>
      forall k | k in s.threads ensures PcInv(Next(s, a), s.threads[k]) {
        PcInvLater(s, Next(s, a), s.threads[k]);
      }
    case Request(tid, _) => OthersKeepInv(s, Next(s, a), tid);
    case Refresh(tid) => OthersKeepInv(s, Next(s, a), tid);
    case Step(tid) => StepKeepsInv(s, tid);
    case Fetched(tid, doc) => FetchKeepsInv(s, tid, doc);
    case FetchFailed(tid) => OthersKeepInv(s, Next(s, a), tid);
  }

  // ----- runs -----

  ghost predicate IsRun(start: int, states: seq<Store>, acts: seq<Action>) {
    && |states| == |acts| + 1 && states[0] == NewStore(start)
    && forall i {:trigger acts[i]} | 0 <= i < |acts| :: Enabled(states[i], acts[i]) && states[i + 1] == Next(states[i], acts[i])
  }

  lemma {:induction false} RunKeepsInv(start: int, states: seq<Store>, acts: seq<Action>, i: nat)
    requires IsRun(start, states, acts) && i < |states|
    ensures Inv(states[i])
    decreases i
  {
    if i > 0 {
      RunKeepsInv(start, states, acts, i - 1);
      ActionKeepsInv(states[i - 1], acts[i - 1]);
    }
  }

  /** In every interleaving, the keys are at all times those of one complete fetched
      document, or none have been installed yet. */
  lemma KeysOfOneDocument(start: int, states: seq<Store>, acts: seq<Action>, i: nat)
    requires IsRun(start, states, acts) && i < |states|
    ensures states[i].keys == map[] || exists doc | doc in states[i].docs :: states[i].keys == KeySet(doc)
  {
    RunKeepsInv(start, states, acts, i);
  }

  /** Once there are keys, there always are. */
  lemma {:induction false} NeverEmptyAgain(start: int, states: seq<Store>, acts: seq<Action>, i: nat, j: nat)
    requires IsRun(start, states, acts) && i <= j < |states| && states[i].keys != map[]
    ensures states[j].keys != map[]
    decreases j
  {
    if i < j {
      NeverEmptyAgain(start, states, acts, i, j - 1);
      RunKeepsInv(start, states, acts, j - 1);
      assert Enabled(states[j - 1], acts[j - 1]);
    }
  }

  /** A key handed to a request is the one some fetched document gives its key id. */
  lemma AnswersAreGenuine(start: int, states: seq<Store>, acts: seq<Action>, i: nat, tid: Tid)
    requires IsRun(start, states, acts) && i < |states|
    requires tid in states[i].threads && states[i].threads[tid].Answered? && states[i].threads[tid].key.Some?
    ensures KeyFetched(states[i].docs, states[i].threads[tid].kid, states[i].threads[tid].key.value)
  {
    RunKeepsInv(start, states, acts, i);
    assert PcInv(states[i], states[i].threads[tid]);
  }

  /** The goroutine is about to look `kid` up, for the first time or after a refresh, and
      the keys do not have it. */
  predicate Misses(s: Store, tid: Tid, kid: Kid) {
    tid in s.threads && (s.threads[tid] == Lookup(kid) || s.threads[tid] == Retry(kid)) && kid !in s.keys
  }

  /** Between its last look-up and its answer it looks nothing up. */
  predicate LooksNoMore(s: Store, tid: Tid, kid: Kid) {
    tid in s.threads && (s.threads[tid] == Check(kid) || s.threads[tid] == Answered(kid, None))
  }

  /** A request at its check came from a look-up that missed. */
  lemma {:induction false} CheckedAfterMiss(start: int, states: seq<Store>, acts: seq<Action>, i: nat, tid: Tid, kid: Kid) returns (j: nat)
    requires IsRun(start, states, acts) && i < |states| && tid in states[i].threads && states[i].threads[tid] == Check(kid)
    ensures j < i && acts[j] == Step(tid) && Misses(states[j], tid, kid) && states[j].threads[tid] == Lookup(kid)
    ensures forall k | j < k <= i :: tid in states[k].threads && states[k].threads[tid] == Check(kid)
    decreases i
  {
    assert i > 0;
    var s := states[i - 1];
    assert Enabled(s, acts[i - 1]) && states[i] == Next(s, acts[i - 1]);
    if tid in s.threads && s.threads[tid] == Check(kid) {
      j := CheckedAfterMiss(start, states, acts, i - 1, tid, kid);
    } else {
      j := i - 1;
    }
  }

  /** A request is answered that a key id is unknown only if the keys did not have it at
      its last look-up; and if that was its first, no refresh was due at its check. */
  lemma {:induction false} UnknownWasMissed(start: int, states: seq<Store>, acts: seq<Action>, i: nat, tid: Tid, kid: Kid) returns (j: nat)
    requires IsRun(start, states, acts) && i < |states|
    requires tid in states[i].threads && states[i].threads[tid] == Answered(kid, None)
    ensures j < i && acts[j] == Step(tid) && Misses(states[j], tid, kid)
    ensures forall k | j < k <= i :: LooksNoMore(states[k], tid, kid)
    ensures states[j].threads[tid] == Lookup(kid) ==>
              exists k :: j < k < i && acts[k] == Step(tid) && states[k].threads[tid] == Check(kid) &&
                states[k].lastRefresh.Some? && states[k].now - states[k].lastRefresh.value < 60_000_000_000
    decreases i
  {
    assert i > 0;
    var s := states[i - 1];
    assert Enabled(s, acts[i - 1]) && states[i] == Next(s, acts[i - 1]);
    if tid in s.threads && s.threads[tid] == Answered(kid, None) {
      j := UnknownWasMissed(start, states, acts, i - 1, tid, kid);
    } else if tid in s.threads && s.threads[tid] == Check(kid) {
      assert acts[i - 1] == Step(tid) && !Stale(s);
      j := CheckedAfterMiss(start, states, acts, i - 1, tid, kid);
    } else {
      j := i - 1;
    }
  }

  /** An on-demand attempt comes at least the throttle interval after every earlier
      attempt exactly if its check would still pass when it stamps: no attempt was
      stamped since, or the last one is as old as that again. */
  lemma ThrottleIsExact(start: int, states: seq<Store>, acts: seq<Action>, i: nat, tid: Tid)
    requires IsRun(start, states, acts) && i < |acts| && acts[i] == Step(tid)
    requires tid in states[i].threads && states[i].threads[tid].Stamp? && states[i].threads[tid].origin.OnDemand?
    ensures var s, seen := states[i], states[i].threads[tid].origin.seen;
            var throttled := forall k | 0 <= k < |s.attempts| :: s.now - s.attempts[k] >= THROTTLE;
            && states[i + 1].attempts == s.attempts + [s.now]
            && (throttled <==> Stale(s))
            && (Stale(s) <==> s.attempts == [] || seen == |s.attempts| || s.now - s.attempts[|s.attempts| - 1] >= THROTTLE)
  {
    RunKeepsInv(start, states, acts, i);
    var s := states[i];
    assert PcInv(s, s.threads[tid]);
    if s.attempts != [] {
      assert forall k | 0 <= k < |s.attempts| :: s.attempts[k] <= s.attempts[|s.attempts| - 1];
    }
  }

  /** In particular if no attempt was stamped since the check. */
  lemma ThrottledUnlessRaced(start: int, states: seq<Store>, acts: seq<Action>, i: nat, tid: Tid)
    requires IsRun(start, states, acts) && i < |acts| && acts[i] == Step(tid)
    requires tid in states[i].threads && states[i].threads[tid].Stamp? && states[i].threads[tid].origin.OnDemand?
    requires states[i].threads[tid].origin.seen == |states[i].attempts|
    ensures forall k | 0 <= k < |states[i].attempts| :: states[i].now - states[i].attempts[k] >= THROTTLE
  {
    ThrottleIsExact(start, states, acts, i, tid);
  }

  // ----- the race -----

  /** A run, by its states and actions. */
  datatype Trace = Trace(start: int, states: seq<Store>, acts: seq<Action>) {
    ghost predicate Ok() { IsRun(start, states, acts) }
    function Last(): Store requires |states| == |acts| + 1 { states[|acts|] }
  }

  /** A run may go on with any enabled action. */
  lemma GoOn(t: Trace, a: Action) returns (u: Trace)
    requires t.Ok() && Enabled(t.Last(), a)
    ensures u.Ok() && t.states <= u.states && t.acts <= u.acts && u.start == t.start && u.Last() == Next(t.Last(), a)
  {
    u := Trace(t.start, t.states + [Next(t.Last(), a)], t.acts + [a]);
    forall i | 0 <= i < |u.acts|
      ensures Enabled(u.states[i], u.acts[i]) && u.states[i + 1] == Next(u.states[i], u.acts[i])
    {
      if i < |t.acts| {
        assert u.acts[i] == t.acts[i];
      }
    }
  }

  /** Two goroutines at the given points. */
  function Two(s: Store, a: Tid, pa: Pc, b: Tid, pb: Pc): Store {
    s.(threads := s.threads[a := pa][b := pb])
  }

  lemma TwoMove(s: Store, a: Tid, pa: Pc, b: Tid, pb: Pc, pc: Pc)
    requires a != b
    ensures Goto(Two(s, a, pa, b, pb), a, pc) == Two(s, a, pc, b, pb)
    ensures Goto(Two(s, a, pa, b, pb), b, pc) == Two(s, a, pa, b, pc)
  {
    var m := s.threads[a := pa][b := pb];
    assert m[a := pc] == s.threads[a := pc][b := pb];
    assert m[b := pc] == s.threads[a := pa][b := pc];
  }

  predicate Free(s: Store, tid: Tid) {
    PcOf(s, tid).Idle? || PcOf(s, tid).Answered?
  }

  /** Two requests for an unknown key id both get as far as the check. */
  lemma BothCheck(t: Trace, kid: Kid, a: Tid, b: Tid) returns (u: Trace)
    requires t.Ok() && kid !in t.Last().keys && a != b && Free(t.Last(), a) && Free(t.Last(), b)
    ensures u.Ok() && t.states <= u.states && t.acts <= u.acts && u.start == t.start
    ensures u.Last() == Two(t.Last(), a, Check(kid), b, Check(kid))
  {
    var s, look, check := t.Last(), Lookup(kid), Check(kid);
    u := GoOn(t, Request(a, kid));
    u := GoOn(u, Request(b, kid));
    assert u.Last() == Two(s, a, look, b, look);
    u := GoOn(u, Step(a));
    TwoMove(s, a, look, b, look, check);
    assert u.Last() == Two(s, a, check, b, look);
    u := GoOn(u, Step(b));
    TwoMove(s, a, check, b, look, check);
  }

  /** Both find the keys stale before either stamps. */
  lemma BothPass(t: Trace, s: Store, kid: Kid, a: Tid, b: Tid) returns (u: Trace)
    requires t.Ok() && t.Last() == Two(s, a, Check(kid), b, Check(kid)) && a != b && Stale(s)
    ensures u.Ok() && t.states <= u.states && t.acts <= u.acts && u.start == t.start
    ensures var p := Stamp(OnDemand(kid, |s.attempts|)); u.Last() == Two(s, a, p, b, p)
  {
    var check, stamp := Check(kid), Stamp(OnDemand(kid, |s.attempts|));
    u := GoOn(t, Step(a));
    TwoMove(s, a, check, b, check, stamp);
    assert u.Last() == Two(s, a, stamp, b, check);
    u := GoOn(u, Step(b));
    TwoMove(s, a, stamp, b, check, stamp);
  }

  /** From every state a run can reach with stale keys, two requests for an unknown key
      id can start two fetches at the same moment. */
  lemma RaceDefeatsThrottle(t: Trace, kid: Kid, a: Tid, b: Tid) returns (u: Trace)
    requires t.Ok() && Stale(t.Last()) && kid !in t.Last().keys
    requires a != b && Free(t.Last(), a) && Free(t.Last(), b)
    ensures u.Ok() && t.states <= u.states && t.acts <= u.acts && u.start == t.start
    ensures var s := t.Last(); u.Last().attempts == s.attempts + [s.now, s.now]
  {
    var s := t.Last();
    u := BothCheck(t, kid, a, b);
    u := BothPass(u, s, kid, a, b);
    u := GoOn(u, Step(a));
    u := GoOn(u, Step(b));
  }

  /** A request that misses fetches, if a refresh is due. */
  lemma MissFetches(t: Trace, tid: Tid, kid: Kid) returns (u: Trace)
    requires t.Ok() && Stale(t.Last()) && kid !in t.Last().keys && Free(t.Last(), tid)
    ensures u.Ok() && t.states <= u.states && u.Last().attempts == t.Last().attempts + [t.Last().now]
    ensures PcOf(u.Last(), tid) == Fetch(OnDemand(kid, |t.Last().attempts|))
  {
    u := GoOn(t, Request(tid, kid));
    u := GoOn(u, Step(tid));
    assert PcOf(u.Last(), tid) == Check(kid) && Stale(u.Last());
    u := GoOn(u, Step(tid));
    u := GoOn(u, Step(tid));
  }

  /** A key rotation is followed: from every state a run can reach in which a refresh is due,
      a request for a new key id that the provider's document has is answered with the
      key of its last usable entry. */
  lemma RotationIsFollowed(t: Trace, tid: Tid, doc: seq<Jwk>, kid: Kid, i: nat) returns (u: Trace)
    requires t.Ok() && (t.Last().lastRefresh == None || t.Last().now - t.Last().lastRefresh.value >= 60_000_000_000)
    requires kid !in t.Last().keys && Free(t.Last(), tid) && LastUsable(doc, kid, i)
    ensures u.Ok() && t.states <= u.states && u.Last().attempts == t.Last().attempts + [t.Last().now]
    ensures tid in u.Last().threads && u.Last().threads[tid] == Answered(kid, Some(doc[i].x5c[0].key))
  {
    var s := t.Last();
    KeySetMeaning(doc, kid);
    u := MissFetches(t, tid, kid);
    u := GoOn(u, Fetched(tid, doc));
    assert PcOf(u.Last(), tid) == Install(OnDemand(kid, |s.attempts|), KeySet(doc));
    u := GoOn(u, Step(tid));
    u := GoOn(u, Step(tid));
  }

  /** The refresh at start-up. */
  lemma StartUp(doc: seq<Jwk>, later: int) returns (t: Trace)
    requires KeySet(doc) != map[] && later >= THROTTLE
    ensures t.Ok() && t.Last().keys == KeySet(doc) && t.Last().attempts == [0] && t.Last().now == later
    ensures Stale(t.Last()) && Free(t.Last(), 1) && Free(t.Last(), 2)
  {
    t := Trace(0, [NewStore(0)], []);
    t := GoOn(t, Refresh(0));
    t := GoOn(t, Step(0));
    t := GoOn(t, Fetched(0, doc));
    t := GoOn(t, Step(0));
    t := GoOn(t, Tick(later));
  }

  /** Such states are reached in service: after the refresh at start-up and a minute, two
      requests for a key id the document does not have fetch at once. */
  lemma RaceInService(doc: seq<Jwk>, kid: Kid, later: int) returns (u: Trace)
    requires KeySet(doc) != map[] && kid !in KeySet(doc) && later >= THROTTLE
    ensures u.Ok() && u.Last().attempts == [0, later, later]
  {
    var t := StartUp(doc, later);
    u := RaceDefeatsThrottle(t, kid, 1, 2);
  }
}
