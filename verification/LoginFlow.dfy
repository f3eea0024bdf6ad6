/** The login flow of oauth.Authenticator as one browser sees it: handlers answer
    with cookies to set or expire, and the browser's jar changes through these
    answers only. */
module LoginFlow {
  import opened Text

  datatype CookieOp = Put(name: string, value: string) | Expire(name: string)

  type Jar = map<string, string>

  function Apply(jar: Jar, op: CookieOp): Jar {
    match op
    case Put(name, value) => jar[name := value]
    case Expire(name) => jar - {name}
  }

  function ApplyAll(jar: Jar, ops: seq<CookieOp>): Jar
    decreases |ops|
  {
    if ops == [] then jar else ApplyAll(Apply(jar, ops[0]), ops[1..])
  }

  /** What the identity provider's token endpoint and the token check come to: the
      exchange fails, brings no ID token, one that does not validate, or one with a
      nonce claim ("" if the claim is missing or not a string). */
  datatype Exchange = Failed | NoToken | Invalid(raw: string) | Valid(raw: string, nonce: string)

  datatype Status = Redirect | BadRequest | Unauthorized | ServerError

  const FLOW: seq<CookieOp> := [Expire("state"), Expire("nonce")]

  // ----- the handlers -----

  /** The two random strings; None is a failure of the random source. */
  method HandleLogin(state: Option<string>, nonce: Option<string>) returns (ops: seq<CookieOp>, status: Status)
    ensures forall jar :: ops == Ops(jar, Login(state, nonce))
    ensures ops == if state.Some? && nonce.Some? then [Put("state", state.value), Put("nonce", nonce.value)] else []
    ensures status == if state.Some? && nonce.Some? then Redirect else ServerError
  {
    if state.None? {
      return [], ServerError;
    }
    if nonce.None? {
      return [], ServerError;
    }
    ops := [];
    ops := ops + [Put("state", state.value)];
    ops := ops + [Put("nonce", nonce.value)];
    status := Redirect;
  }

  method ClearFlowCookies(ops: seq<CookieOp>) returns (ops': seq<CookieOp>)
    ensures ops' == ops + FLOW == ops + [Expire("state"), Expire("nonce")]
  {
    ops' := ops;
    var names := ["state", "nonce"];
    for i := 0 to |names|
      invariant ops' == ops + FLOW[..i]
    {
      ops' := ops' + [Expire(names[i])];
    }
  }

  /** The callback would establish a session. */
  predicate Accepts(jar: Jar, query: string, x: Exchange) {
    && "state" in jar && jar["state"] == query
    && x.Valid?
    && "nonce" in jar && x.nonce != "" && x.nonce == jar["nonce"]
  }

  method HandleCallback(jar: Jar, query: string, x: Exchange) returns (ops: seq<CookieOp>, status: Status)
    ensures ops == Ops(jar, Callback(query, x))
    ensures status == Redirect <==> Accepts(jar, query, x)
    ensures ops == [Expire("state"), Expire("nonce")] + if status == Redirect && x.Valid? then [Put("id_token", x.raw)] else []
    ensures status ==
            if "state" !in jar || jar["state"] != query then BadRequest
            else match x
              case Failed => ServerError
              case NoToken => ServerError
              case Invalid(_) => Unauthorized
              case Valid(_, nonce) => if "nonce" in jar && nonce != "" && nonce == jar["nonce"] then Redirect else BadRequest
  {
    ops := [];
    if "state" !in jar || jar["state"] != query {
      ops := ClearFlowCookies(ops);
      return ops, BadRequest;
    }
    if x.Failed? {
      ops := ClearFlowCookies(ops);
      return ops, ServerError;
    }
    if x.NoToken? {
      ops := ClearFlowCookies(ops);
      return ops, ServerError;
    }
    if x.Invalid? {
      ops := ClearFlowCookies(ops);
      return ops, Unauthorized;
    }
    if "nonce" !in jar {
      ops := ClearFlowCookies(ops);
      return ops, BadRequest;
    }
    if x.nonce == "" || x.nonce != jar["nonce"] {
      ops := ClearFlowCookies(ops);
      return ops, BadRequest;
    }
    ops := ClearFlowCookies(ops);
    ops := ops + [Put("id_token", x.raw)];
    status := Redirect;
  }

  // ----- runs of one browser -----

  /** What the browser does. A request refused by the rate limiter reaches no handler. */
  datatype Event =
    | Login(state: Option<string>, nonce: Option<string>)
    | Callback(query: string, x: Exchange)
    | Logout
    | Refused

  /** How the handlers answer. */
  function Ops(jar: Jar, e: Event): seq<CookieOp> {
    match e
    case Login(s, n) => if s.Some? && n.Some? then [Put("state", s.value), Put("nonce", n.value)] else []
    case Callback(q, x) => FLOW + if Accepts(jar, q, x) then [Put("id_token", x.raw)] else []
    case Logout => [Expire("id_token")]
    case Refused => []
  }

  /** The jar after a series of events. */
  function JarAfter(events: seq<Event>): Jar {
    if events == [] then map[]
    else
      var jar := JarAfter(events[..|events| - 1]);
      ApplyAll(jar, Ops(jar, events[|events| - 1]))
  }

  datatype Flow = Flow(state: string, nonce: string)

  predicate StartsFlow(e: Event) {
    e.Login? && e.state.Some? && e.nonce.Some?
  }

  /** The most recent login whose state and nonce were issued, unless a callback has been
      processed since. This looks at the events only, not at cookies. */
  function Pending(events: seq<Event>): Option<Flow> {
    if events == [] then None
    else
      var e := events[|events| - 1];
      if StartsFlow(e) then Some(Flow(e.state.value, e.nonce.value))
      else if e.Callback? then None
      else Pending(events[..|events| - 1])
  }

  /** The session cookie set by the most recent accepted callback since any logout. */
  function Session(events: seq<Event>): Option<string> {
    if events == [] then None
    else
      var init, e := events[..|events| - 1], events[|events| - 1];
      if e.Callback? && Establishes(init, e) then Some(e.x.raw)
      else if e.Logout? then None
      else Session(init)
  }

  /** A callback that establishes a session, in terms of the events before it. */
  predicate Establishes(before: seq<Event>, e: Event)
    requires e.Callback?
  {
    var p := Pending(before);
    p.Some? && e.query == p.value.state && e.x.Valid? && e.x.nonce != "" && e.x.nonce == p.value.nonce
  }

  lemma ApplyFlow(jar: Jar, more: seq<CookieOp>)
    ensures ApplyAll(jar, FLOW + more) == ApplyAll(jar - {"state", "nonce"}, more)
  {
    var ops := FLOW + more;
    assert ops[0] == Expire("state") && ops[1..][0] == Expire("nonce") && ops[1..][1..] == more;
    assert jar - {"state"} - {"nonce"} == jar - {"state", "nonce"};
  }

  lemma ApplyTwo(jar: Jar, a: CookieOp, b: CookieOp)
    ensures ApplyAll(jar, [a, b]) == Apply(Apply(jar, a), b)
  {
    assert [a, b][1..] == [b];
    ApplyOne(Apply(jar, a), b);
  }

  lemma ApplyOne(jar: Jar, a: CookieOp)
    ensures ApplyAll(jar, [a]) == Apply(jar, a)
  {
  }

  predicate Holds(jar: Jar, name: string, value: Option<string>) {
    if value.None? then name !in jar else name in jar && jar[name] == value.value
  }

  /** The cookies say exactly what the history says: which login is pending, and which
      session is open. */
  lemma {:induction false} CookiesTellTheFlow(events: seq<Event>)
    ensures var jar, p := JarAfter(events), Pending(events);
            && Holds(jar, "state", if p.None? then None else Some(p.value.state))
            && Holds(jar, "nonce", if p.None? then None else Some(p.value.nonce))
            && Holds(jar, "id_token", Session(events))
  {
    if events != [] {
      var init, e := events[..|events| - 1], events[|events| - 1];
      CookiesTellTheFlow(init);
      var jar := JarAfter(init);
      match e
      case Login(s, n) =>
        if StartsFlow(e) {
          ApplyTwo(jar, Put("state", s.value), Put("nonce", n.value));
        }
      case Callback(q, x) =>
        ApplyFlow(jar, if Accepts(jar, q, x) then [Put("id_token", x.raw)] else []);
        if Accepts(jar, q, x) {
          ApplyOne(jar - {"state", "nonce"}, Put("id_token", x.raw));
        }
      case Logout => ApplyOne(jar, Expire("id_token"));
      case Refused =>
    }
  }

  /** In every run, a callback is accepted exactly if a login is pending, the callback
      brings its state, and a valid token carries its nonce. */
  lemma AcceptedExactlyForPendingLogin(events: seq<Event>, e: Event)
    requires e.Callback?
    ensures Accepts(JarAfter(events), e.query, e.x) <==> Establishes(events, e)
  {
    CookiesTellTheFlow(events);
  }

  lemma {:induction false} PendingIsALogin(events: seq<Event>)
    requires Pending(events).Some?
    ensures exists k :: 0 <= k < |events| && PendingSince(events, k)
  {
    var n := |events| - 1;
    if StartsFlow(events[n]) {
      assert PendingSince(events, n);
    } else {
      PendingIsALogin(events[..n]);
      var k :| 0 <= k < n && PendingSince(events[..n], k);
      assert PendingSince(events, k);
    }
  }

  /** The login at `k` is the most recent, and no callback has been processed since. */
  predicate PendingSince(events: seq<Event>, k: nat) {
    && k < |events| && StartsFlow(events[k])
    && Pending(events) == Some(Flow(events[k].state.value, events[k].nonce.value))
    && forall j | k < j < |events| :: !StartsFlow(events[j]) && !events[j].Callback?
  }

  /** A session is established only with a token carrying the nonce of the browser's
      most recent login, answered with that login's state. */
  lemma SessionNeedsLatestLogin(events: seq<Event>, i: nat)
    requires i < |events| && events[i].Callback?
    requires Accepts(JarAfter(events[..i]), events[i].query, events[i].x)
    ensures exists k :: 0 <= k < i && StartsFlow(events[k]) &&
              events[i].query == events[k].state.value && events[i].x.nonce == events[k].nonce.value &&
              forall j | k < j < i :: !StartsFlow(events[j]) && !events[j].Callback?
  {
    AcceptedExactlyForPendingLogin(events[..i], events[i]);
    PendingIsALogin(events[..i]);
    var k :| 0 <= k < i && PendingSince(events[..i], k);
    assert events[..i][k] == events[k];
    assert forall j | k < j < i :: events[..i][j] == events[j];
  }

  /** A processed callback consumes the login: without a new one, no second callback is
      accepted, whatever it carries. */
  lemma SecondCallbackFails(events: seq<Event>, i: nat, j: nat)
    requires i < j < |events| && events[i].Callback? && events[j].Callback?
    requires forall k | i < k < j :: !StartsFlow(events[k])
    ensures !Accepts(JarAfter(events[..j]), events[j].query, events[j].x)
  {
    if Accepts(JarAfter(events[..j]), events[j].query, events[j].x) {
      SessionNeedsLatestLogin(events, j);
    }
  }

  // ----- in terms of the events alone -----

  /** Event `k` starts a login, and no other login and no callback has come since. */
  predicate LoginOpen(events: seq<Event>, k: nat) {
    && k < |events| && events[k].Login? && events[k].state.Some? && events[k].nonce.Some?
    && forall j | k < j < |events| :: !events[j].Callback? && !(events[j].Login? && events[j].state.Some? && events[j].nonce.Some?)
  }

  lemma {:induction false} OpenIsPending(events: seq<Event>, k: nat)
    requires LoginOpen(events, k)
    ensures Pending(events) == Some(Flow(events[k].state.value, events[k].nonce.value))
    decreases |events|
  {
    var n := |events| - 1;
    if k < n {
      var init := events[..n];
      assert forall j | 0 <= j < n :: init[j] == events[j];
      OpenIsPending(init, k);
      assert !events[n].Callback? && !StartsFlow(events[n]);
    }
  }

  /** A callback is accepted if and only if a login is open, it brings that login's state,
      and its token is valid and carries that login's nonce, which is not empty. */
  lemma AcceptedExactlyForOpenLogin(events: seq<Event>, query: string, x: Exchange)
    ensures Accepts(JarAfter(events), query, x) <==>
            x.Valid? && x.nonce != "" &&
            exists k: nat :: LoginOpen(events, k) && query == events[k].state.value && x.nonce == events[k].nonce.value
  {
    AcceptedExactlyForPendingLogin(events, Callback(query, x));
    if Pending(events).Some? {
      PendingIsALogin(events);
      var k :| 0 <= k < |events| && PendingSince(events, k);
      assert LoginOpen(events, k);
    }
    forall k: nat | LoginOpen(events, k) ensures Pending(events) == Some(Flow(events[k].state.value, events[k].nonce.value)) {
      OpenIsPending(events, k);
    }
  }

  /** Event `k` is a callback that is accepted. */
  predicate Opens(events: seq<Event>, k: nat)
    requires k < |events|
  {
    events[k].Callback? && Accepts(JarAfter(events[..k]), events[k].query, events[k].x)
  }

  /** The session that `events` leave open was opened at `k`. */
  predicate OpenedAt(events: seq<Event>, k: nat) {
    && k < |events| && Opens(events, k)
    && forall j | k < j < |events| :: !events[j].Logout? && !Opens(events, j)
  }

  lemma OpensInPrefix(events: seq<Event>, n: nat, k: nat)
    requires k < n <= |events|
    ensures Opens(events[..n], k) == Opens(events, k)
  {
    assert events[..n][..k] == events[..k];
  }

  lemma OpenedEarlier(events: seq<Event>, n: nat, k: nat)
    requires k < n <= |events| && OpenedAt(events, k)
    ensures OpenedAt(events[..n], k)
  {
    OpensInPrefix(events, n, k);
    forall j | k < j < n ensures !events[..n][j].Logout? && !Opens(events[..n], j) {
      OpensInPrefix(events, n, j);
      assert !events[j].Logout? && !Opens(events, j);
    }
  }

  lemma OpenedLater(events: seq<Event>, k: nat)
    requires events != [] && OpenedAt(events[..|events| - 1], k)
    requires !events[|events| - 1].Logout? && !Opens(events, |events| - 1)
    ensures OpenedAt(events, k)
  {
    var n := |events| - 1;
    OpensInPrefix(events, n, k);
    forall j | k < j < n ensures !events[j].Logout? && !Opens(events, j) {
      OpensInPrefix(events, n, j);
      assert !events[..n][j].Logout? && !Opens(events[..n], j);
    }
  }

  lemma OpenedGrows(events: seq<Event>, k: nat)
    requires events != []
    ensures var n := |events| - 1;
            OpenedAt(events, k) <==> if Opens(events, n) then k == n else !events[n].Logout? && OpenedAt(events[..n], k)
  {
    var n := |events| - 1;
    if OpenedAt(events, k) && k < n {
      OpenedEarlier(events, n, k);
    }
    if OpenedAt(events[..n], k) && !Opens(events, n) && !events[n].Logout? {
      OpenedLater(events, k);
    }
  }

  lemma {:induction false} SessionWasOpened(events: seq<Event>)
    ensures Session(events).Some? ==> exists k: nat :: OpenedAt(events, k) && Session(events).value == events[k].x.raw
    ensures forall k: nat | OpenedAt(events, k) :: Session(events) == Some(events[k].x.raw)
  {
    if events != [] {
      var n := |events| - 1;
      var init, e := events[..n], events[n];
      SessionWasOpened(init);
      if e.Callback? {
        AcceptedExactlyForPendingLogin(init, e);
      }
      assert Opens(events, n) == (e.Callback? && Establishes(init, e));
      forall k: nat ensures OpenedAt(events, k) <==> if Opens(events, n) then k == n else !e.Logout? && OpenedAt(init, k) {
        OpenedGrows(events, k);
      }
      if Opens(events, n) {
        assert OpenedAt(events, n);
      } else if Session(events).Some? {
        var k: nat :| OpenedAt(init, k) && Session(init).value == init[k].x.raw;
        assert OpenedAt(events, k);
      }
    }
  }

  /** The session cookie is that of the last accepted callback, unless a logout came
      after it, and there is none otherwise. */
  lemma SessionExactly(events: seq<Event>, raw: string)
    ensures var jar := JarAfter(events);
            "id_token" in jar && jar["id_token"] == raw <==> exists k: nat :: OpenedAt(events, k) && events[k].x.raw == raw
  {
    CookiesTellTheFlow(events);
    SessionWasOpened(events);
  }
}
