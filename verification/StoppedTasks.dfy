/** docker.getTasksInfo: the running tasks, plus for a grace period the newest
    stopped task of every slot, out of a cache that each poll updates. Times are
    nanoseconds. */
module StoppedTasks {
  import opened Text

  const SECOND: int := 1_000_000_000
  const GRACE: int := 30 * SECOND

  datatype TaskState = Running | Accepted | Failed | Complete | Other(name: string)

  /** The object that a fetch returned: the poll that fetched, and the index there. */
  datatype ObjectId = ObjectId(poll: nat, index: nat)

  datatype Task = Task(
    id: string, serviceId: string, nodeId: string, slot: int,
    desired: TaskState, state: TaskState,
    createdAt: int, updatedAt: int, obj: ObjectId)

  datatype Cached = Cached(task: Task, firstSeen: int)

  type Cache = map<string, Cached>

  // ----- what a poll does to the cache -----

  predicate HasStopped(t: Task) {
    t.state.Failed? || t.state.Complete?
  }

  predicate IsLive(t: Task) {
    t.desired.Running? || t.desired.Accepted?
  }

  function Note(cache: Cache, t: Task, now: int): Cache {
    if !HasStopped(t) then cache
    else if t.id in cache then cache[t.id := Cached(t, cache[t.id].firstSeen)]
    else if now - t.updatedAt < GRACE then cache[t.id := Cached(t, now)]
    else cache
  }

  function NoteAll(cache: Cache, tasks: seq<Task>, now: int): Cache {
    if tasks == [] then cache
    else Note(NoteAll(cache, tasks[..|tasks| - 1], now), tasks[|tasks| - 1], now)
  }

  function Evict(cache: Cache, now: int): Cache {
    map id | id in cache && now - cache[id].firstSeen < GRACE :: cache[id]
  }

  function Polled(cache: Cache, tasks: seq<Task>, now: int): Cache {
    Evict(NoteAll(cache, tasks, now), now)
  }

  predicate Keyed(cache: Cache) {
    forall id | id in cache :: cache[id].task.id == id
  }

  // ----- what a poll shows -----

  function Live(tasks: seq<Task>): seq<Task> {
    if tasks == [] then []
    else Live(tasks[..|tasks| - 1]) + (if IsLive(tasks[|tasks| - 1]) then [tasks[|tasks| - 1]] else [])
  }

  function Ids(tasks: seq<Task>): set<string> {
    set t | t in tasks :: t.id
  }

  /** The slot a task occupies: its number for a replicated service, its node for a
      global one. */
  function SlotKey(t: Task): string {
    if t.slot > 0 then t.serviceId + ":" + Itoa(t.slot) else t.serviceId + ":" + t.nodeId
  }

  /** The cached tasks that are not running. */
  function Candidates(cache: Cache, live: set<string>): set<Task> {
    set id | id in cache && cache[id].task.id !in live :: cache[id].task
  }

  predicate ShowsSlot(shown: seq<Task>, key: string) {
    exists t | t in shown :: SlotKey(t) == key
  }

  /** One task for every slot that has a candidate, and no candidate of that slot is
      newer. */
  predicate NewestPerSlot(candidates: set<Task>, shown: seq<Task>) {
    && (forall t | t in shown :: t in candidates)
    && (forall t, u | t in shown && u in candidates && SlotKey(u) == SlotKey(t) :: u.createdAt <= t.createdAt)
    && (forall u {:trigger ShowsSlot(shown, SlotKey(u))} | u in candidates :: ShowsSlot(shown, SlotKey(u)))
    && (forall i, j | 0 <= i < j < |shown| :: SlotKey(shown[i]) != SlotKey(shown[j]))
  }

  // ----- what a slot is, in the fields of a task -----

  /** The same slot of a replicated service, or the same node of a global one. */
  predicate SameSlot(t: Task, u: Task) {
    && t.serviceId == u.serviceId && (t.slot > 0 <==> u.slot > 0)
    && if t.slot > 0 then t.slot == u.slot else t.nodeId == u.nodeId
  }

  lemma {:induction false} FirstColon(a: string, b: string, x: string, y: string)
    requires ':' !in a && ':' !in b && a + ":" + x == b + ":" + y
    ensures a == b && x == y
  {
    var s, t := a + ":" + x, b + ":" + y;
    assert s == a + ([':'] + x) && t == b + ([':'] + y);
    SplitStep(a, x, ':');
    SplitStep(b, y, ':');
    assert Split(s, ':')[0] == a && Split(t, ':')[0] == b;
    assert x == s[|a| + 1..] && y == t[|b| + 1..];
  }

  /** Tasks compete for a place exactly if they have the same slot; the identifiers of
      services hold no colon. */
  lemma SlotKeyMeaning(t: Task, u: Task)
    requires ':' !in t.serviceId && ':' !in u.serviceId
    ensures t.slot > 0 && u.slot > 0 ==> (SlotKey(t) == SlotKey(u) <==> t.serviceId == u.serviceId && t.slot == u.slot)
    ensures t.slot <= 0 && u.slot <= 0 ==> (SlotKey(t) == SlotKey(u) <==> t.serviceId == u.serviceId && t.nodeId == u.nodeId)
    ensures (t.slot > 0 <==> u.slot > 0) ==> (SlotKey(t) == SlotKey(u) <==> SameSlot(t, u))
  {
    if SlotKey(t) == SlotKey(u) {
      FirstColon(t.serviceId, u.serviceId, SlotKey(t)[|t.serviceId| + 1..], SlotKey(u)[|u.serviceId| + 1..]);
      if t.slot > 0 && u.slot > 0 {
        ItoaInjective(t.slot, u.slot);
      }
    }
  }

  /** Identifiers as Docker gives them: services have no colon in theirs, and are
      replicated or global, so their tasks are all numbered or all not. */
  predicate Consistent(ts: set<Task>) {
    && (forall t | t in ts :: ':' !in t.serviceId)
    && (forall t, u | t in ts && u in ts && t.serviceId == u.serviceId :: t.slot > 0 <==> u.slot > 0)
  }

  /** `t` stands for `u`: it has the same slot and is not older. */
  predicate StandsFor(t: Task, u: Task) {
    SameSlot(t, u) && u.createdAt <= t.createdAt
  }

  /** One newest task of every slot, and no other. */
  ghost predicate OneOfEachSlot(candidates: set<Task>, shown: seq<Task>) {
    && (forall t | t in shown :: t in candidates)
    && (forall u | u in candidates :: exists t | t in shown :: StandsFor(t, u))
    && (forall i, j | 0 <= i < j < |shown| :: !SameSlot(shown[i], shown[j]))
  }

  lemma KeysAreSlots(candidates: set<Task>, t: Task, u: Task)
    requires Consistent(candidates) && t in candidates && u in candidates
    ensures SlotKey(t) == SlotKey(u) <==> SameSlot(t, u)
  {
    SlotKeyMeaning(t, u);
    if SlotKey(t) == SlotKey(u) {
      FirstColon(t.serviceId, u.serviceId, SlotKey(t)[|t.serviceId| + 1..], SlotKey(u)[|u.serviceId| + 1..]);
    }
  }

  /** What is shown is a newest task of every slot that has a candidate. */
  lemma SlotsAreShown(candidates: set<Task>, shown: seq<Task>)
    requires Consistent(candidates) && NewestPerSlot(candidates, shown)
    ensures OneOfEachSlot(candidates, shown)
  {
    forall u | u in candidates ensures exists t | t in shown :: StandsFor(t, u) {
      assert ShowsSlot(shown, SlotKey(u));
      var t :| t in shown && SlotKey(t) == SlotKey(u);
      KeysAreSlots(candidates, t, u);
      assert StandsFor(t, u);
    }
    forall i, j | 0 <= i < j < |shown| ensures !SameSlot(shown[i], shown[j]) {
      assert shown[i] in shown && shown[j] in shown;
      KeysAreSlots(candidates, shown[i], shown[j]);
    }
  }

  // ----- the code -----

  method GetTasksInfo(cache: Cache, tasks: seq<Task>, now: int) returns (cache': Cache, result: seq<Task>)
    ensures cache' == Polled(cache, tasks, now)
    ensures Live(tasks) <= result
    ensures NewestPerSlot(Candidates(cache', Ids(Live(tasks))), result[|Live(tasks)|..])
    ensures var candidates := Candidates(cache', Ids(Live(tasks)));
            Consistent(candidates) ==> OneOfEachSlot(candidates, result[|Live(tasks)|..])
  {
    cache' := cache;
    result := [];
    var resultIDs: set<string> := {};
    for i := 0 to |tasks|
      invariant cache' == NoteAll(cache, tasks[..i], now)
      invariant result == Live(tasks[..i])
      invariant resultIDs == Ids(result)
    {
      var t := tasks[i];
      assert tasks[..i + 1][..i] == tasks[..i];
      if t.state.Failed? || t.state.Complete? {
        if t.id in cache' {
          cache' := cache'[t.id := Cached(t, cache'[t.id].firstSeen)];
        } else if now - t.updatedAt < GRACE {
          cache' := cache'[t.id := Cached(t, now)];
        }
      }
      if t.desired.Running? || t.desired.Accepted? {
        result := result + [t];
        resultIDs := resultIDs + {t.id};
      }
    }
    assert tasks[..|tasks|] == tasks;
    cache' := EvictExpired(cache', now);
    var newestStopped := NewestStopped(cache', resultIDs);
    var stopped := SlotTasks(Candidates(cache', resultIDs), newestStopped);
    result := result + stopped;
    if Consistent(Candidates(cache', resultIDs)) {
      SlotsAreShown(Candidates(cache', resultIDs), stopped);
      assert result[|Live(tasks)|..] == stopped;
    }
  }

  method EvictExpired(cache: Cache, now: int) returns (left: Cache)
    ensures left == Evict(cache, now)
  {
    left := cache;
    var ids := cache.Keys;
    while ids != {}
      invariant ids <= cache.Keys
      invariant left == map id | id in cache && (id in ids || now - cache[id].firstSeen < GRACE) :: cache[id]
      decreases ids
    {
      var id :| id in ids;
      if now - cache[id].firstSeen >= GRACE {
        left := left - {id};
      }
      ids := ids - {id};
    }
  }

  /** `newest` holds, by slot, the newest of the candidates seen. */
  ghost predicate Picks(seen: set<Task>, newest: map<string, Task>) {
    && (forall key | key in newest :: newest[key] in seen && SlotKey(newest[key]) == key)
    && (forall t | t in seen :: SlotKey(t) in newest && t.createdAt <= newest[SlotKey(t)].createdAt)
  }

  method NewestStopped(cache: Cache, live: set<string>) returns (newest: map<string, Task>)
    ensures Picks(Candidates(cache, live), newest)
  {
    newest := map[];
    var ids := cache.Keys;
    ghost var seen: set<Task> := {};
    while ids != {}
      invariant ids <= cache.Keys
      invariant seen == set id | id in cache && id !in ids && cache[id].task.id !in live :: cache[id].task
      invariant Picks(seen, newest)
      decreases ids
    {
      var id :| id in ids;
      var t := cache[id].task;
      ids := ids - {id};
      if t.id in live {
        continue;
      }
      var key: string;
      if t.slot > 0 {
        key := t.serviceId + ":" + Itoa(t.slot);
      } else {
        key := t.serviceId + ":" + t.nodeId;
      }
      if key !in newest || t.createdAt > newest[key].createdAt {
        newest := newest[key := t];
      }
      seen := seen + {t};
    }
  }

  method SlotTasks(ghost candidates: set<Task>, newest: map<string, Task>) returns (shown: seq<Task>)
    requires Picks(candidates, newest)
    ensures NewestPerSlot(candidates, shown)
  {
    shown := [];
    var keys := newest.Keys;
    while keys != {}
      invariant keys <= newest.Keys
      invariant forall t | t in shown :: SlotKey(t) in newest && SlotKey(t) !in keys && newest[SlotKey(t)] == t
      invariant forall key | key in newest && key !in keys :: newest[key] in shown
      invariant forall i, j | 0 <= i < j < |shown| :: SlotKey(shown[i]) != SlotKey(shown[j])
      decreases keys
    {
      var key :| key in keys;
      assert forall i | 0 <= i < |shown| :: shown[i] in shown;
      shown := shown + [newest[key]];
      keys := keys - {key};
    }
    forall u | u in candidates ensures ShowsSlot(shown, SlotKey(u)) {
      assert newest[SlotKey(u)] in shown;
    }
  }

  // ----- what a single poll guarantees -----

  lemma {:induction false} NoteAllEntry(cache: Cache, tasks: seq<Task>, now: int, id: string)
    ensures id in cache ==>
              id in NoteAll(cache, tasks, now) && NoteAll(cache, tasks, now)[id].firstSeen == cache[id].firstSeen
    ensures id !in cache && id in NoteAll(cache, tasks, now) ==>
              NoteAll(cache, tasks, now)[id].firstSeen == now &&
              exists t | t in tasks :: t.id == id && now - t.updatedAt < GRACE
  {
    if tasks != [] {
      var init := tasks[..|tasks| - 1];
      NoteAllEntry(cache, init, now, id);
      var t := tasks[|tasks| - 1];
      assert t in tasks && forall u | u in init :: u in tasks;
    }
  }

  lemma {:induction false} NoteAllKeyed(cache: Cache, tasks: seq<Task>, now: int)
    requires Keyed(cache)
    ensures Keyed(NoteAll(cache, tasks, now))
    ensures forall id | id in NoteAll(cache, tasks, now) ::
              NoteAll(cache, tasks, now)[id].task in tasks ||
              (id in cache && NoteAll(cache, tasks, now)[id] == cache[id])
  {
    if tasks != [] {
      NoteAllKeyed(cache, tasks[..|tasks| - 1], now);
    }
  }

  lemma {:induction false} LiveFacts(tasks: seq<Task>)
    ensures forall t :: t in Live(tasks) <==> t in tasks && IsLive(t)
    ensures (forall i, j | 0 <= i < j < |tasks| :: tasks[i].id != tasks[j].id) ==>
              forall i, j | 0 <= i < j < |Live(tasks)| :: Live(tasks)[i].id != Live(tasks)[j].id
  {
    if tasks != [] {
      var init, t := tasks[..|tasks| - 1], tasks[|tasks| - 1];
      LiveFacts(init);
      assert tasks == init + [t];
      assert forall i | 0 <= i < |Live(init)| :: Live(init)[i] in init;
    }
  }

  /** The running tasks are those whose desired state is running or accepted, in the order
      in which they are listed. */
  lemma {:induction false} LiveMeaning(tasks: seq<Task>) returns (at: seq<nat>)
    ensures |at| == |Live(tasks)| && forall k | 0 <= k < |at| :: at[k] < |tasks| && Live(tasks)[k] == tasks[at[k]]
    ensures forall k, m | 0 <= k < m < |at| :: at[k] < at[m]
    ensures forall i | 0 <= i < |tasks| :: i in at <==> tasks[i].desired == Running || tasks[i].desired == Accepted
  {
    at := [];
    if tasks != [] {
      var init, t := tasks[..|tasks| - 1], tasks[|tasks| - 1];
      at := LiveMeaning(init);
      if t.desired == Running || t.desired == Accepted {
        at := at + [|tasks| - 1];
      }
    }
  }

  /** What stopped, in the fields of a task. */
  predicate JustStopped(t: Task, id: string) {
    t.id == id && (t.state == Failed || t.state == Complete)
  }

  /** A task with that identifier stopped less than 30 s ago. */
  ghost predicate StoppedLately(tasks: seq<Task>, now: int, id: string) {
    exists t | t in tasks :: JustStopped(t, id) && now - t.updatedAt < 30_000_000_000
  }

  lemma {:induction false} NotedIfStopped(cache: Cache, tasks: seq<Task>, now: int, id: string)
    ensures id in NoteAll(cache, tasks, now) <==> id in cache || StoppedLately(tasks, now, id)
  {
    if tasks != [] {
      var init, t := tasks[..|tasks| - 1], tasks[|tasks| - 1];
      NotedIfStopped(cache, init, now, id);
      assert tasks == init + [t] && t in tasks;
      assert StoppedLately(tasks, now, id) <==> StoppedLately(init, now, id) || (JustStopped(t, id) && now - t.updatedAt < 30_000_000_000);
    }
  }

  /** Whatever does not stop in this poll stays as it is in the cache. */
  lemma {:induction false} NotNoted(cache: Cache, tasks: seq<Task>, now: int, id: string)
    requires forall t | t in tasks :: !JustStopped(t, id)
    ensures var noted := NoteAll(cache, tasks, now); (id in noted <==> id in cache) && (id in cache ==> noted[id] == cache[id])
  {
    if tasks != [] {
      NotNoted(cache, tasks[..|tasks| - 1], now, id);
      assert !JustStopped(tasks[|tasks| - 1], id);
    }
  }

  lemma {:induction false} NotedAsListed(cache: Cache, tasks: seq<Task>, now: int, t: Task)
    requires forall i, j | 0 <= i < j < |tasks| :: tasks[i].id != tasks[j].id
    requires t in tasks && JustStopped(t, t.id) && t.id in NoteAll(cache, tasks, now)
    ensures NoteAll(cache, tasks, now)[t.id].task == t
  {
    var init, last := tasks[..|tasks| - 1], tasks[|tasks| - 1];
    if t != last {
      var i :| 0 <= i < |tasks| && tasks[i] == t;
      assert init[i] == t && last.id != t.id;
      NotedAsListed(cache, init, now, t);
    }
  }

  /** What is in the cache after a poll: the tasks that were, and those listed as failed or
      completed that were modified less than 30 s ago, as long as they were first seen
      less than 30 s ago; each as it was listed last, with the time it was first seen. */
  lemma CacheAfterPoll(cache: Cache, tasks: seq<Task>, now: int, id: string)
    requires forall i, j | 0 <= i < j < |tasks| :: tasks[i].id != tasks[j].id
    ensures var left := Polled(cache, tasks, now);
            && (id in left <==>
                  if id in cache then now - cache[id].firstSeen < 30_000_000_000
                  else StoppedLately(tasks, now, id))
            && (forall t | t in tasks && JustStopped(t, id) && id in left ::
                  left[id] == Cached(t, if id in cache then cache[id].firstSeen else now))
            && (id in left && (forall t | t in tasks :: !JustStopped(t, id)) ==> id in cache && left[id] == cache[id])
  {
    NotedIfStopped(cache, tasks, now, id);
    NoteAllEntry(cache, tasks, now, id);
    forall t | t in tasks && JustStopped(t, id) && id in NoteAll(cache, tasks, now) ensures NoteAll(cache, tasks, now)[id].task == t {
      NotedAsListed(cache, tasks, now, t);
    }
    if forall t | t in tasks :: !JustStopped(t, id) {
      NotNoted(cache, tasks, now, id);
    }
  }

  /** No task is shown twice, if the source lists no identifier twice. */
  lemma NoTaskTwice(cache: Cache, tasks: seq<Task>, now: int, result: seq<Task>)
    requires Keyed(cache) && Live(tasks) <= result
    requires NewestPerSlot(Candidates(Polled(cache, tasks, now), Ids(Live(tasks))), result[|Live(tasks)|..])
    requires forall i, j | 0 <= i < j < |tasks| :: tasks[i].id != tasks[j].id
    ensures forall i, j | 0 <= i < j < |result| :: result[i].id != result[j].id
  {
    LiveFacts(tasks);
    NoteAllKeyed(cache, tasks, now);
    var n, shown := |Live(tasks)|, result[|Live(tasks)|..];
    forall i, j | 0 <= i < j < |result| ensures result[i].id != result[j].id {
      if j >= n {
        assert shown[j - n] == result[j] && shown[j - n] in shown;
        if i < n {
          assert result[i] == Live(tasks)[i] && result[i] in Live(tasks);
        } else {
          assert shown[i - n] == result[i] && shown[i - n] in shown;
        }
      } else {
        assert result[i] == Live(tasks)[i] && result[j] == Live(tasks)[j];
      }
    }
  }

  /** Which stopped tasks are shown does not depend on the order in which the maps
      are walked, if no two candidates of a slot were created at the same time. */
  lemma ShownSetIsDetermined(candidates: set<Task>, shown: seq<Task>, shown': seq<Task>)
    requires NewestPerSlot(candidates, shown) && NewestPerSlot(candidates, shown')
    requires forall t, u | t in candidates && u in candidates && SlotKey(t) == SlotKey(u) && t != u :: t.createdAt != u.createdAt
    ensures forall t :: t in shown <==> t in shown'
    ensures multiset(shown) == multiset(shown')
  {
    ShownSetIncluded(candidates, shown, shown');
    ShownSetIncluded(candidates, shown', shown);
    ShownOnce(shown);
    ShownOnce(shown');
  }

  lemma ShownSetIncluded(candidates: set<Task>, shown: seq<Task>, shown': seq<Task>)
    requires NewestPerSlot(candidates, shown) && NewestPerSlot(candidates, shown')
    requires forall t, u | t in candidates && u in candidates && SlotKey(t) == SlotKey(u) && t != u :: t.createdAt != u.createdAt
    ensures forall t | t in shown :: t in shown'
  {
    forall t | t in shown ensures t in shown' {
      assert ShowsSlot(shown', SlotKey(t));
      var u :| u in shown' && SlotKey(u) == SlotKey(t);
      assert u.createdAt <= t.createdAt && t.createdAt <= u.createdAt;
    }
  }

  lemma {:induction false} ShownOnce(shown: seq<Task>)
    requires forall i, j | 0 <= i < j < |shown| :: SlotKey(shown[i]) != SlotKey(shown[j])
    ensures forall t :: multiset(shown)[t] == if t in shown then 1 else 0
  {
    if shown != [] {
      var init, last := shown[..|shown| - 1], shown[|shown| - 1];
      assert shown == init + [last];
      ShownOnce(init);
      assert last !in init;
    }
  }

  // ----- runs of polls -----

  /** One tick: the time, and the tasks fetched unless the fetch failed. */
  datatype Poll = Poll(now: int, fetched: Option<seq<Task>>)

  function AfterPoll(cache: Cache, p: Poll): Cache {
    if p.fetched.None? then cache else Polled(cache, p.fetched.value, p.now)
  }

  /** The cache before each poll and after the last, with a clock that never goes back. */
  ghost predicate IsRun(polls: seq<Poll>, caches: seq<Cache>) {
    && |caches| == |polls| + 1
    && caches[0] == map[]
    && (forall i {:trigger polls[i]} | 0 <= i < |polls| :: caches[i + 1] == AfterPoll(caches[i], polls[i]))
    && (forall i, j | 0 <= i < j < |polls| :: polls[i].now <= polls[j].now)
  }

  /** A cached task keeps the time it was first seen for as long as it is cached. */
  lemma FirstSeenIsKept(polls: seq<Poll>, caches: seq<Cache>, i: nat, id: string)
    requires IsRun(polls, caches) && i < |polls|
    requires id in caches[i] && id in caches[i + 1]
    ensures caches[i + 1][id].firstSeen == caches[i][id].firstSeen
  {
    var p := polls[i];
    if p.fetched.Some? {
      NoteAllEntry(caches[i], p.fetched.value, p.now, id);
    }
  }

  lemma {:induction false} SeenInThePast(polls: seq<Poll>, caches: seq<Cache>, i: nat, id: string)
    requires IsRun(polls, caches) && i < |caches| && id in caches[i]
    ensures i > 0 && caches[i][id].firstSeen <= polls[i - 1].now
    decreases i
  {
    if i > 0 {
      var p := polls[i - 1];
      if id in caches[i - 1] {
        SeenInThePast(polls, caches, i - 1, id);
        FirstSeenIsKept(polls, caches, i - 1, id);
      } else if p.fetched.Some? {
        NoteAllEntry(caches[i - 1], p.fetched.value, p.now, id);
      }
    }
  }

  lemma {:induction false} RunKeyed(polls: seq<Poll>, caches: seq<Cache>, i: nat)
    requires IsRun(polls, caches) && i < |caches|
    ensures Keyed(caches[i])
    decreases i
  {
    if i > 0 {
      RunKeyed(polls, caches, i - 1);
      var p := polls[i - 1];
      if p.fetched.Some? {
        NoteAllKeyed(caches[i - 1], p.fetched.value, p.now);
      }
    }
  }

  /** A successful poll leaves nothing in the cache first seen 30 s ago or earlier. */
  lemma KeptWithinGrace(polls: seq<Poll>, caches: seq<Cache>, i: nat, id: string)
    requires IsRun(polls, caches) && i < |polls| && polls[i].fetched.Some?
    requires id in caches[i + 1]
    ensures 0 <= polls[i].now - caches[i + 1][id].firstSeen < GRACE
  {
    SeenInThePast(polls, caches, i + 1, id);
  }

  /** So it shows no stopped task first seen 30 s ago or earlier. */
  lemma ShownWithinGrace(polls: seq<Poll>, caches: seq<Cache>, i: nat, shown: seq<Task>, t: Task)
    requires IsRun(polls, caches) && i < |polls| && polls[i].fetched.Some?
    requires NewestPerSlot(Candidates(caches[i + 1], Ids(Live(polls[i].fetched.value))), shown) && t in shown
    ensures t.id in caches[i + 1] && caches[i + 1][t.id].task == t
    ensures 0 <= polls[i].now - caches[i + 1][t.id].firstSeen < GRACE
  {
    RunKeyed(polls, caches, i + 1);
    assert t in Candidates(caches[i + 1], Ids(Live(polls[i].fetched.value)));
    KeptWithinGrace(polls, caches, i, t.id);
  }

  /** The source never changes the task's modification time. */
  ghost predicate StampedAt(polls: seq<Poll>, id: string, stamp: int) {
    forall i | 0 <= i < |polls| && polls[i].fetched.Some? ::
      forall t | t in polls[i].fetched.value && t.id == id :: t.updatedAt == stamp
  }

  /** A task cached at poll `i`, not stamped in the future then, is at every later
      point `j` either cached since, or evicted and past caching for good. */
  lemma {:induction false} CachedOnce(polls: seq<Poll>, caches: seq<Cache>, i: nat, j: nat, id: string, stamp: int)
    requires IsRun(polls, caches) && StampedAt(polls, id, stamp)
    requires i < j < |caches| && id !in caches[i] && id in caches[i + 1]
    requires stamp <= polls[i].now
    ensures polls[i].now - stamp < GRACE
    ensures if id in caches[j] then caches[j][id].firstSeen == polls[i].now
            else polls[j - 1].now - polls[i].now >= GRACE
    decreases j
  {
    var p := polls[j - 1];
    assert polls[i].fetched.Some?;
    NoteAllEntry(caches[i], polls[i].fetched.value, polls[i].now, id);
    if j > i + 1 {
      CachedOnce(polls, caches, i, j - 1, id, stamp);
      assert polls[j - 2].now <= p.now;
      if p.fetched.Some? {
        NoteAllEntry(caches[j - 1], p.fetched.value, p.now, id);
      }
    }
  }

  /** So it is never cached again once evicted, and never shown from the cache 60 s
      or more after its modification time. */
  lemma NeverRecached(polls: seq<Poll>, caches: seq<Cache>, i: nat, j: nat, k: nat, id: string, stamp: int)
    requires IsRun(polls, caches) && StampedAt(polls, id, stamp)
    requires i < j <= k < |caches| && id !in caches[i] && id in caches[i + 1]
    requires stamp <= polls[i].now
    ensures id !in caches[j] ==> id !in caches[k]
    ensures id in caches[k] && polls[k - 1].fetched.Some? ==> polls[k - 1].now - stamp < 2 * GRACE
    decreases k
  {
    CachedOnce(polls, caches, i, k, id, stamp);
    if id in caches[k] && polls[k - 1].fetched.Some? {
      KeptWithinGrace(polls, caches, k - 1, id);
    }
    if j < k && id !in caches[j] {
      NeverRecached(polls, caches, i, j, k - 1, id, stamp);
      CachedOnce(polls, caches, i, k - 1, id, stamp);
      if polls[k - 1].fetched.Some? {
        NoteAllEntry(caches[k - 1], polls[k - 1].fetched.value, polls[k - 1].now, id);
      }
    }
  }

  /** The condition is exact: a task that is cached when first polled can be cached
      again as soon as it has been evicted if and only if it was stamped in the
      future when first polled. */
  lemma RecachedExactlyIfFuture(t: Task, now: int)
    requires HasStopped(t) && now - t.updatedAt < GRACE
    ensures var first := Polled(map[], [t], now);
            var evicted := Polled(first, [t], now + GRACE);
            var again := Polled(evicted, [t], now + GRACE);
            t.id in first && t.id !in evicted && (t.id in again <==> t.updatedAt > now)
  {
    var first := Polled(map[], [t], now);
    NoteOne(map[], t, now);
    NoteOne(first, t, now + GRACE);
    NoteOne(Polled(first, [t], now + GRACE), t, now + GRACE);
  }

  lemma NoteOne(cache: Cache, t: Task, now: int)
    ensures NoteAll(cache, [t], now) == Note(cache, t, now)
  {
  }
}
