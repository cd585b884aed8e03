/**
 * The delivery scheduler of lib/scheduler.js: a list of scheduled items kept
 * in memory and mirrored to a snapshot, with adding, lookup, cancellation,
 * status updates, retention cleanup and the polling cycle that dispatches
 * due items.
 */
module Scheduling {
  import opened Wrappers
  import opened Seqs
  import Poster

  const Pending := "pending"
  const Published := "published"
  const Failed := "failed"
  const Cancelled := "cancelled"

  /** What was scheduled: an article, or the object `scheduleTextPost` builds. */
  datatype Payload =
    | Article(article: Poster.Post)
    | TextPost(fields: map<string, Poster.Text>)

  /**
   * One scheduled item (lib/scheduler.js:83-92). Timestamps are integers;
   * `updatedAt` and `error` are absent until a status change writes them.
   */
  datatype Item = Item(
    id: string,
    post: Payload,
    scheduledAt: int,
    status: string,
    createdAt: int,
    updatedAt: Option<int>,
    threadId: Option<string>,
    publishedAt: Option<int>,
    retryCount: nat,
    error: Option<string>)

  /** The optional metadata of `updatePostStatus`; a missing key is None. */
  datatype Meta = Meta(threadId: Option<string>, publishedAt: Option<int>, error: Option<string>)

  /** JavaScript truthiness of an optional string: present and non-empty. */
  predicate Truthy(o: Option<string>) {
    o.Some? && o.value != ""
  }

  /** The schedule file: absent, unreadable or not JSON, or holding a list. */
  datatype Snapshot = Missing | Unreadable | Stored(items: seq<Item>)

  /** How an operation that ends by saving finished: normally, or by the save throwing. */
  datatype Completion<+T> = Returned(value: T) | SaveFailed

  /** The whole persistent-relevant state: the in-memory list and the file. */
  datatype Store = Store(posts: seq<Item>, snapshot: Snapshot)

  predicate UniqueIds(posts: seq<Item>) {
    forall a, b :: 0 <= a < b < |posts| ==> posts[a].id != posts[b].id
  }

  /** The snapshot after `saveSchedule`: the list when the file is writable, else untouched. */
  function Saved(posts: seq<Item>, snapshot: Snapshot, writable: bool): (r: Snapshot)
    ensures writable ==> Loaded(r) == posts
    ensures !writable ==> r == snapshot
  {
    if writable then Stored(posts) else snapshot
  }

  /** The list `loadSchedule` ends with (lib/scheduler.js:39-55). */
  function Loaded(snapshot: Snapshot): (r: seq<Item>)
    ensures snapshot.Stored? ==> r == snapshot.items
    ensures !snapshot.Stored? ==> r == []
  {
    match snapshot
    case Stored(items) => items
    case _ => []
  }

  /** A freshly scheduled item (lib/scheduler.js:83-92). */
  function NewItem(id: string, post: Payload, scheduledAt: int, now: int): (r: Item)
    ensures r.id == id && r.post == post && r.scheduledAt == scheduledAt && r.createdAt == now
    ensures r.status == Pending && r.retryCount == 0
    ensures r.threadId == None && r.publishedAt == None && r.updatedAt == None && r.error == None
  {
    Item(id, post, scheduledAt, Pending, now, None, None, None, 0, None)
  }

  /** `findIndex` by id: the first position holding `id`, if any. */
  function FindIndex(posts: seq<Item>, id: string): (r: Option<nat>)
    ensures r.Some? ==> r.value < |posts| && posts[r.value].id == id
    ensures r.Some? ==> forall k :: 0 <= k < r.value ==> posts[k].id != id
    ensures r.None? <==> forall k :: 0 <= k < |posts| ==> posts[k].id != id
    decreases |posts|
  {
    if posts == [] then None
    else if posts[0].id == id then Some(0)
    else match FindIndex(posts[1..], id)
      case None => None
      case Some(j) => Some(j + 1)
  }

  /** Lists with the same ids at the same positions answer every lookup alike. */
  lemma {:induction false} FindIndexSameIds(p: seq<Item>, q: seq<Item>, id: string)
    requires |p| == |q|
    requires forall k :: 0 <= k < |p| ==> p[k].id == q[k].id
    ensures FindIndex(p, id) == FindIndex(q, id)
    decreases |p|
  {
    if p != [] && p[0].id != id {
      FindIndexSameIds(p[1..], q[1..], id);
    }
  }

  /** With unique ids, the lookup of an item's id finds that item. */
  lemma FindUnique(posts: seq<Item>, i: nat)
    requires UniqueIds(posts) && i < |posts|
    ensures FindIndex(posts, posts[i].id) == Some(i)
  {
  }

  /**
   * An item scheduled under a fresh id is found by that id at the end of the
   * list, pending, and the ids stay unique.
   */
  lemma ScheduledIsFound(posts: seq<Item>, id: string, post: Payload, scheduledAt: int, now: int)
    requires UniqueIds(posts)
    requires forall k :: 0 <= k < |posts| ==> posts[k].id != id
    ensures var after := posts + [NewItem(id, post, scheduledAt, now)];
      && UniqueIds(after)
      && FindIndex(after, id) == Some(|posts|)
      && after[|posts|].status == Pending
  {
    var after := posts + [NewItem(id, post, scheduledAt, now)];
    assert UniqueIds(after);
    FindUnique(after, |posts|);
  }

  /** The item after `updatePostStatus` (lib/scheduler.js:210-223). */
  function Touched(item: Item, status: string, meta: Meta, now: int): (r: Item)
    ensures r.status == status && r.updatedAt == Some(now)
    ensures r.threadId == if Truthy(meta.threadId) then meta.threadId else item.threadId
    ensures r.publishedAt == if meta.publishedAt.Some? then meta.publishedAt else item.publishedAt
    ensures r.error == if Truthy(meta.error) then meta.error else item.error
    ensures r.id == item.id && r.post == item.post && r.scheduledAt == item.scheduledAt
    ensures r.createdAt == item.createdAt && r.retryCount == item.retryCount
  {
    item.(status := status, updatedAt := Some(now),
          threadId := if Truthy(meta.threadId) then meta.threadId else item.threadId,
          publishedAt := if meta.publishedAt.Some? then meta.publishedAt else item.publishedAt,
          error := if Truthy(meta.error) then meta.error else item.error)
  }

  /**
   * The list after `updatePostStatus(id, status, meta)`, or None when no item
   * has that id: the first item with the id is overwritten, whatever its
   * previous status, and every other item is untouched.
   */
  function StatusUpdated(posts: seq<Item>, id: string, status: string, meta: Meta, now: int): (r: Option<seq<Item>>)
    ensures r.None? <==> FindIndex(posts, id).None?
    ensures r.Some? ==> |r.value| == |posts|
    ensures r.Some? ==> var j := FindIndex(posts, id).value;
      r.value[j] == Touched(posts[j], status, meta, now)
      && forall k :: 0 <= k < |posts| && k != j ==> r.value[k] == posts[k]
  {
    match FindIndex(posts, id)
    case None => None
    case Some(j) => Some(posts[j := Touched(posts[j], status, meta, now)])
  }

  /**
   * The list after `cancelScheduledPost(id)`, or None when the call returns
   * false: the id is unknown or its item is no longer pending.
   */
  function CancelOutcome(posts: seq<Item>, id: string, now: int): (r: Option<seq<Item>>)
    ensures r.Some? <==> FindIndex(posts, id).Some? && posts[FindIndex(posts, id).value].status == Pending
    ensures r.Some? ==> var j := FindIndex(posts, id).value;
      |r.value| == |posts|
      && r.value[j] == posts[j].(status := Cancelled, updatedAt := Some(now))
      && forall k :: 0 <= k < |posts| && k != j ==> r.value[k] == posts[k]
  {
    match FindIndex(posts, id)
    case None => None
    case Some(j) =>
      if posts[j].status != Pending then None
      else Some(posts[j := posts[j].(status := Cancelled, updatedAt := Some(now))])
  }

  /** Cancelling the same id a second time returns false. */
  lemma CancelTwice(posts: seq<Item>, id: string, now: int, later: int)
    requires CancelOutcome(posts, id, now).Some?
    ensures CancelOutcome(CancelOutcome(posts, id, now).value, id, later).None?
  {
    var after := CancelOutcome(posts, id, now).value;
    FindIndexSameIds(posts, after, id);
  }

  /** `getDuePosts`' test: pending and scheduled no later than `now` (lib/scheduler.js:155). */
  predicate IsDue(item: Item, now: int) {
    item.status == Pending && item.scheduledAt <= now
  }

  function DueAt(now: int): Item -> bool {
    (item: Item) => IsDue(item, now)
  }

  function HasStatus(status: string): Item -> bool {
    (item: Item) => item.status == status
  }

  /** The timestamp `cleanupOldPosts` ages a finished item by: `updatedAt || publishedAt || createdAt`. */
  function LastTouched(item: Item): (r: int)
    ensures item.updatedAt.Some? ==> r == item.updatedAt.value
    ensures item.updatedAt.None? && item.publishedAt.Some? ==> r == item.publishedAt.value
    ensures item.updatedAt.None? && item.publishedAt.None? ==> r == item.createdAt
  {
    match item.updatedAt
    case Some(t) => t
    case None => if item.publishedAt.Some? then item.publishedAt.value else item.createdAt
  }

  /**
   * Whether `cleanupOldPosts` keeps an item, given the cutoff time
   * (lib/scheduler.js:169-185).
   */
  predicate Retained(item: Item, cutoff: int)
    ensures item.status == Failed ==> (Retained(item, cutoff) <==> cutoff <= item.createdAt)
    ensures item.status == Published || item.status == Cancelled ==>
      (Retained(item, cutoff) <==> cutoff <= LastTouched(item))
    ensures item.status != Failed && item.status != Published && item.status != Cancelled ==> Retained(item, cutoff)
  {
    if item.status == Pending then true
    else if item.status == Failed && item.createdAt < cutoff then false
    else if (item.status == Published || item.status == Cancelled) && LastTouched(item) < cutoff then false
    else true
  }

  function RetainedAt(cutoff: int): Item -> bool {
    (item: Item) => Retained(item, cutoff)
  }

  /** The list `cleanupOldPosts` leaves: the retained items in their original order. */
  function Survivors(posts: seq<Item>, cutoff: int): (r: seq<Item>)
    ensures |r| <= |posts|
  {
    Filter(posts, RetainedAt(cutoff))
  }

  /** An item survives the cleanup iff it was there and is retained. */
  lemma SurvivorsRetained(posts: seq<Item>, cutoff: int)
    ensures forall x :: x in Survivors(posts, cutoff) <==> x in posts && Retained(x, cutoff)
  {
    FilterMembers(posts, RetainedAt(cutoff));
  }

  /** Cleaning up twice with the same cutoff removes nothing more. */
  lemma CleanupIdempotent(posts: seq<Item>, cutoff: int)
    ensures Survivors(Survivors(posts, cutoff), cutoff) == Survivors(posts, cutoff)
  {
    FilterFilter(posts, RetainedAt(cutoff), RetainedAt(cutoff), RetainedAt(cutoff));
  }

  /**
   * The state after `cleanupOldPosts`: exactly the retained items remain, in
   * order, and the file is written only when something was deleted.
   */
  function Cleaned(st: Store, cutoff: int, writable: bool): (r: Store)
    ensures r.posts == Survivors(st.posts, cutoff)
    ensures forall x :: x in r.posts <==> x in st.posts && Retained(x, cutoff)
    ensures |r.posts| == |st.posts| ==> r.snapshot == st.snapshot
    ensures |r.posts| < |st.posts| && writable ==> Loaded(r.snapshot) == r.posts
    ensures !writable ==> r.snapshot == st.snapshot
  {
    var kept := Survivors(st.posts, cutoff);
    SurvivorsRetained(st.posts, cutoff);
    if |kept| < |st.posts| then Store(kept, Saved(kept, st.snapshot, writable)) else Store(kept, st.snapshot)
  }

  /** One `updatePostStatus` call made by the dispatch callback. */
  datatype StatusUpdate = StatusUpdate(status: string, meta: Meta)

  /**
   * What the dispatch callback (`onPostDue`) does with one due item: the
   * status updates it makes through the scheduler, in order, and the message
   * of the exception it ends by throwing, if it throws.
   */
  datatype Dispatch = Dispatch(updates: seq<StatusUpdate>, raised: Option<string>)

  /** The state after the callback's status updates on item `id`; each update that finds the id saves. */
  function Applied(st: Store, id: string, updates: seq<StatusUpdate>, now: int, writable: bool): (r: Store)
    ensures |r.posts| == |st.posts|
    ensures forall k :: 0 <= k < |st.posts| ==> r.posts[k].id == st.posts[k].id
    decreases |updates|
  {
    if updates == [] then st
    else
      var s := Applied(st, id, updates[..|updates| - 1], now, writable);
      var u := updates[|updates| - 1];
      match StatusUpdated(s.posts, id, u.status, u.meta, now)
      case None => s
      case Some(p) => Store(p, Saved(p, s.snapshot, writable))
  }

  /** With unique ids, the callback's updates on the item at `i` leave every other item alone. */
  lemma {:induction false} AppliedLocal(st: Store, i: nat, updates: seq<StatusUpdate>, now: int, writable: bool)
    requires UniqueIds(st.posts) && i < |st.posts|
    ensures var r := Applied(st, st.posts[i].id, updates, now, writable);
      forall k :: 0 <= k < |st.posts| && k != i ==> r.posts[k] == st.posts[k]
    decreases |updates|
  {
    if updates != [] {
      var id := st.posts[i].id;
      var init := updates[..|updates| - 1];
      AppliedLocal(st, i, init, now, writable);
      var s := Applied(st, id, init, now, writable);
      assert UniqueIds(s.posts);
      FindUnique(s.posts, i);
    }
  }

  /** The outcome of dispatching the item at position `i`. */
  datatype Step = Step(store: Store, aborted: bool)

  /**
   * One iteration of the loop in `checkSchedule` (lib/scheduler.js:255-272):
   * the callback runs; if it throws, the item's retry count goes up by one
   * and, at `maxRetries`, the item is marked failed with the thrown message.
   * A save failure during that escalation escapes the loop.
   */
  function DueStep(st: Store, i: nat, dispatch: Item -> Dispatch, maxRetries: int, writable: bool, now: int): (r: Step)
    requires i < |st.posts|
    ensures |r.store.posts| == |st.posts|
    ensures forall k :: 0 <= k < |st.posts| ==> r.store.posts[k].id == st.posts[k].id
  {
    var item := st.posts[i];
    var d := dispatch(item);
    var s1 := Applied(st, item.id, d.updates, now, writable);
    if d.raised.None? then Step(s1, false)
    else
      var count := s1.posts[i].retryCount + 1;
      var p2 := s1.posts[i := s1.posts[i].(retryCount := count)];
      if count < maxRetries then Step(Store(p2, s1.snapshot), false)
      else match StatusUpdated(p2, item.id, Failed, Meta(None, None, d.raised), now)
        case None => Step(Store(p2, s1.snapshot), false)
        case Some(p3) => Step(Store(p3, Saved(p3, s1.snapshot, writable)), !writable)
  }

  /** The callback's status updates never move a retry counter. */
  lemma {:induction false} AppliedKeepsRetries(st: Store, id: string, updates: seq<StatusUpdate>, now: int, writable: bool)
    ensures var r := Applied(st, id, updates, now, writable);
      forall k :: 0 <= k < |st.posts| ==> r.posts[k].retryCount == st.posts[k].retryCount
    decreases |updates|
  {
    if updates != [] {
      AppliedKeepsRetries(st, id, updates[..|updates| - 1], now, writable);
    }
  }

  /**
   * A callback that throws, whatever status updates it made first: the retry
   * counter rises by exactly one over its value before the dispatch, and at
   * the threshold the item is marked failed with the thrown message, the loop
   * being escaped iff that save fails. Below the threshold the item is as the
   * callback left it, and a callback that made no update changes nothing else.
   * No other item changes in either case.
   */
  lemma ThrowingDispatch(st: Store, i: nat, dispatch: Item -> Dispatch, maxRetries: int, writable: bool, now: int,
                         message: string)
    requires UniqueIds(st.posts) && i < |st.posts|
    requires dispatch(st.posts[i]).raised == Some(message)
    ensures var r := DueStep(st, i, dispatch, maxRetries, writable, now);
      var before := st.posts[i];
      var updated := Applied(st, before.id, dispatch(before).updates, now, writable);
      && r.store.posts[i].retryCount == before.retryCount + 1
      && (before.retryCount + 1 >= maxRetries ==>
            r.store.posts[i].status == Failed
            && r.store.posts[i].error == (if message != "" then Some(message) else updated.posts[i].error)
            && r.aborted == !writable)
      && (before.retryCount + 1 < maxRetries ==>
            r.store.posts[i] == updated.posts[i].(retryCount := before.retryCount + 1)
            && r.store.snapshot == updated.snapshot && !r.aborted)
      && (dispatch(before).updates == [] && before.retryCount + 1 < maxRetries ==>
            r.store.posts[i] == before.(retryCount := before.retryCount + 1) && r.store.snapshot == st.snapshot)
      && forall k :: 0 <= k < |st.posts| && k != i ==> r.store.posts[k] == st.posts[k]
  {
    var before := st.posts[i];
    var d := dispatch(before);
    var s1 := Applied(st, before.id, d.updates, now, writable);
    AppliedKeepsRetries(st, before.id, d.updates, now, writable);
    AppliedLocal(st, i, d.updates, now, writable);
    var p2 := s1.posts[i := s1.posts[i].(retryCount := before.retryCount + 1)];
    assert UniqueIds(p2);
    FindUnique(p2, i);
  }

  /** The loop state of `checkSchedule`: the store, the ids dispatched so far, and whether the loop was escaped. */
  datatype CycleState = CycleState(store: Store, dispatched: seq<string>, aborted: bool)

  predicate ValidPositions(due: seq<nat>, n: nat) {
    forall k :: 0 <= k < |due| ==> due[k] < n
  }

  /** The dispatch loop over the due positions `due`, in order; after an escape nothing more happens. */
  function RunCycle(st: Store, due: seq<nat>, dispatch: Item -> Dispatch, maxRetries: int, writable: bool,
                    now: int): (r: CycleState)
    requires ValidPositions(due, |st.posts|)
    ensures |r.store.posts| == |st.posts|
    ensures forall k :: 0 <= k < |st.posts| ==> r.store.posts[k].id == st.posts[k].id
    ensures |r.dispatched| <= |due|
    ensures forall k :: 0 <= k < |r.dispatched| ==> r.dispatched[k] == st.posts[due[k]].id
    ensures !r.aborted ==> |r.dispatched| == |due|
    decreases |due|
  {
    if due == [] then CycleState(st, [], false)
    else
      var c := RunCycle(st, due[..|due| - 1], dispatch, maxRetries, writable, now);
      if c.aborted then c
      else
        var i := due[|due| - 1];
        var s := DueStep(c.store, i, dispatch, maxRetries, writable, now);
        CycleState(s.store, c.dispatched + [c.store.posts[i].id], s.aborted)
  }

  /** Once the loop has been escaped, the remaining due items are not dispatched. */
  lemma {:induction false} AbortSticks(st: Store, due: seq<nat>, j: nat, dispatch: Item -> Dispatch, maxRetries: int,
                                       writable: bool, now: int)
    requires ValidPositions(due, |st.posts|) && j <= |due|
    requires RunCycle(st, due[..j], dispatch, maxRetries, writable, now).aborted
    ensures RunCycle(st, due, dispatch, maxRetries, writable, now) == RunCycle(st, due[..j], dispatch, maxRetries, writable, now)
    decreases |due|
  {
    if j < |due| {
      assert due[..|due| - 1][..j] == due[..j];
      AbortSticks(st, due[..|due| - 1], j, dispatch, maxRetries, writable, now);
    } else {
      assert due[..j] == due;
    }
  }

  /** When every save succeeds, the loop is never escaped. */
  lemma {:induction false} WritableNeverAborts(st: Store, due: seq<nat>, dispatch: Item -> Dispatch, maxRetries: int,
                                               writable: bool, now: int)
    requires ValidPositions(due, |st.posts|)
    ensures RunCycle(st, due, dispatch, maxRetries, writable, now).aborted ==> !writable
    decreases |due|
  {
    if due != [] {
      WritableNeverAborts(st, due[..|due| - 1], dispatch, maxRetries, writable, now);
    }
  }

  /** With unique ids, dispatching the item at `i` changes no other item and keeps the ids unique. */
  lemma DueStepLocal(st: Store, i: nat, dispatch: Item -> Dispatch, maxRetries: int, writable: bool, now: int)
    requires UniqueIds(st.posts) && i < |st.posts|
    ensures var r := DueStep(st, i, dispatch, maxRetries, writable, now);
      UniqueIds(r.store.posts) && forall k :: 0 <= k < |st.posts| && k != i ==> r.store.posts[k] == st.posts[k]
  {
    var item := st.posts[i];
    var d := dispatch(item);
    AppliedLocal(st, i, d.updates, now, writable);
    var s1 := Applied(st, item.id, d.updates, now, writable);
    assert UniqueIds(s1.posts);
    var p2 := s1.posts[i := s1.posts[i].(retryCount := s1.posts[i].retryCount + 1)];
    assert UniqueIds(p2);
    FindUnique(p2, i);
  }

  /** The loop over `due` is the loop over all but the last position, then that one. */
  lemma RunCycleSnoc(st: Store, due: seq<nat>, k: nat, dispatch: Item -> Dispatch, maxRetries: int, writable: bool,
                     now: int)
    requires ValidPositions(due, |st.posts|) && k < |due|
    ensures var c := RunCycle(st, due[..k], dispatch, maxRetries, writable, now);
      RunCycle(st, due[..k + 1], dispatch, maxRetries, writable, now)
      == if c.aborted then c
         else var s := DueStep(c.store, due[k], dispatch, maxRetries, writable, now);
           CycleState(s.store, c.dispatched + [c.store.posts[due[k]].id], s.aborted)
  {
    assert due[..k + 1][..k] == due[..k];
  }

  /** With unique ids, the loop changes no item outside the due positions. */
  lemma {:induction false} CycleLocal(st: Store, due: seq<nat>, dispatch: Item -> Dispatch, maxRetries: int,
                                      writable: bool, now: int)
    requires ValidPositions(due, |st.posts|) && UniqueIds(st.posts)
    ensures var r := RunCycle(st, due, dispatch, maxRetries, writable, now);
      UniqueIds(r.store.posts)
      && forall k :: 0 <= k < |st.posts| && k !in due ==> r.store.posts[k] == st.posts[k]
    decreases |due|
  {
    if due != [] {
      var init := due[..|due| - 1];
      CycleLocal(st, init, dispatch, maxRetries, writable, now);
      var c := RunCycle(st, init, dispatch, maxRetries, writable, now);
      if !c.aborted {
        DueStepLocal(c.store, due[|due| - 1], dispatch, maxRetries, writable, now);
        var r := RunCycle(st, due, dispatch, maxRetries, writable, now);
        forall k | 0 <= k < |st.posts| && k !in due ensures r.store.posts[k] == st.posts[k] {
          assert k !in init;
        }
      }
    }
  }

  /** The time `days` days before `now`, for a day of `dayLength` time units. */
  function Cutoff(now: int, days: int, dayLength: int): int {
    now - days * dayLength
  }

  /** The days of history the cycle keeps (lib/scheduler.js:276). */
  const CycleRetentionDays := 7

  /**
   * One whole check cycle: the dispatch loop over the items due at `now`,
   * then the cleanup unless the loop was escaped. Only an unwritable file
   * escapes the loop, and a cycle that completes leaves only items the
   * week-long retention keeps.
   */
  function Cycle(st: Store, now: int, dayLength: int, dispatch: Item -> Dispatch, maxRetries: int, writable: bool): (r: CycleState)
    ensures r.aborted ==> !writable
    ensures !r.aborted ==> forall x :: x in r.store.posts ==> Retained(x, Cutoff(now, CycleRetentionDays, dayLength))
  {
    var due := Indices(st.posts, DueAt(now));
    WritableNeverAborts(st, due, dispatch, maxRetries, writable, now);
    var c := RunCycle(st, due, dispatch, maxRetries, writable, now);
    if c.aborted then c else c.(store := Cleaned(c.store, Cutoff(now, CycleRetentionDays, dayLength), writable))
  }

  /** A cycle dispatches the due items, each once, in list order, and all of them unless a save failed. */
  lemma CycleDispatchesDue(st: Store, now: int, dayLength: int, dispatch: Item -> Dispatch, maxRetries: int, writable: bool)
    ensures var r := Cycle(st, now, dayLength, dispatch, maxRetries, writable);
      var due := Filter(st.posts, DueAt(now));
      && |r.dispatched| <= |due|
      && (forall k :: 0 <= k < |r.dispatched| ==> r.dispatched[k] == due[k].id)
      && (writable ==> |r.dispatched| == |due|)
  {
  }

  /** `{...DEFAULT_CONFIG, ...config}` for the numeric settings (lib/scheduler.js:17-22, 29). */
  datatype Overrides = Overrides(checkInterval: Option<int>, maxRetries: Option<int>, retryDelay: Option<int>)

  function Setting(given: Option<int>, default: int): (r: int)
    ensures given.Some? ==> r == given.value
    ensures given.None? ==> r == default
  {
    if given.Some? then given.value else default
  }

  class Scheduler {
    var posts: seq<Item>
    var snapshot: Snapshot
    var isRunning: bool
    /** Whether the periodic `setInterval` timer is armed. */
    var timerArmed: bool
    /** Whether saving the schedule file succeeds. */
    const writable: bool
    const checkInterval: int
    const maxRetries: int
    const retryDelay: int

    constructor(overrides: Overrides, stored: Snapshot, writable: bool)
      ensures posts == [] && snapshot == stored && !isRunning && !timerArmed && this.writable == writable
      ensures checkInterval == Setting(overrides.checkInterval, 60000)
      ensures maxRetries == Setting(overrides.maxRetries, 3)
      ensures retryDelay == Setting(overrides.retryDelay, 5000)
    {
      posts := [];
      snapshot := stored;
      isRunning := false;
      timerArmed := false;
      this.writable := writable;
      checkInterval := Setting(overrides.checkInterval, 60000);
      maxRetries := Setting(overrides.maxRetries, 3);
      retryDelay := Setting(overrides.retryDelay, 5000);
    }

    /** `saveSchedule`: write the list out; false stands for the write throwing. */
    method Save() returns (ok: bool)
      modifies this`snapshot
      ensures ok == writable
      ensures snapshot == Saved(posts, old(snapshot), writable)
    {
      if writable {
        snapshot := Stored(posts);
      }
      ok := writable;
    }

    /** `loadSchedule`: a missing file gives an empty list that is saved; an unreadable one an empty list. */
    method LoadSchedule()
      modifies this`posts, this`snapshot
      ensures posts == Loaded(old(snapshot))
      ensures snapshot == if old(snapshot).Missing? then Saved([], old(snapshot), writable) else old(snapshot)
    {
      match snapshot
      case Missing =>
        posts := [];
        var _ := Save();
      case Unreadable =>
        posts := [];
      case Stored(items) =>
        posts := items;
    }

    /** `schedulePost`: append a new pending item and save. */
    method SchedulePost(id: string, post: Payload, scheduledAt: int, now: int) returns (r: Completion<Item>)
      modifies this`posts, this`snapshot
      ensures posts == old(posts) + [NewItem(id, post, scheduledAt, now)]
      ensures snapshot == Saved(posts, old(snapshot), writable)
      ensures r == if writable then Returned(NewItem(id, post, scheduledAt, now)) else SaveFailed
    {
      var item := NewItem(id, post, scheduledAt, now);
      posts := posts + [item];
      var ok := Save();
      r := if ok then Returned(item) else SaveFailed;
    }

    /** `getScheduledPost`: the first item with the id, or null. */
    function GetScheduledPost(id: string): (r: Option<Item>)
      reads this`posts
      ensures r.None? <==> forall k :: 0 <= k < |posts| ==> posts[k].id != id
      ensures r.Some? ==> exists j :: 0 <= j < |posts| && posts[j] == r.value && r.value.id == id
                                      && forall k :: 0 <= k < j ==> posts[k].id != id
    {
      match FindIndex(posts, id)
      case None => None
      case Some(j) => Some(posts[j])
    }

    /** `getAllScheduledPosts`: the items with the given status in list order, or all items when no status is given. */
    function GetAllScheduledPosts(status: Option<string>): (r: seq<Item>)
      reads this`posts
      ensures !Truthy(status) ==> r == posts
      ensures Truthy(status) ==> r == Filter(posts, HasStatus(status.value))
      ensures Truthy(status) ==> forall x :: x in r <==> x in posts && x.status == status.value
    {
      if Truthy(status) then
        FilterMembers(posts, HasStatus(status.value));
        Filter(posts, HasStatus(status.value))
      else posts
    }

    /** `getDuePosts`: the pending items scheduled no later than `now`, in list order. */
    function GetDuePosts(now: int): (r: seq<Item>)
      reads this`posts
      ensures r == Filter(posts, DueAt(now))
      ensures forall x :: x in r <==> x in posts && x.status == Pending && x.scheduledAt <= now
    {
      FilterMembers(posts, DueAt(now));
      Filter(posts, DueAt(now))
    }

    /** `cancelScheduledPost`: only a pending item can be cancelled. */
    method CancelScheduledPost(id: string, now: int) returns (r: Completion<bool>)
      modifies this`posts, this`snapshot
      ensures var c := CancelOutcome(old(posts), id, now);
        && (c.None? ==> posts == old(posts) && snapshot == old(snapshot) && r == Returned(false))
        && (c.Some? ==> posts == c.value && snapshot == Saved(posts, old(snapshot), writable)
                        && r == if writable then Returned(true) else SaveFailed)
    {
      var j := FindIndex(posts, id);
      if j.None? {
        return Returned(false);
      }
      if posts[j.value].status != Pending {
        return Returned(false);
      }
      posts := posts[j.value := posts[j.value].(status := Cancelled, updatedAt := Some(now))];
      var ok := Save();
      r := if ok then Returned(true) else SaveFailed;
    }

    /** `updatePostStatus`: overwrite the status of the first item with the id, whatever it was. */
    method UpdatePostStatus(id: string, status: string, meta: Meta, now: int) returns (r: Completion<bool>)
      modifies this`posts, this`snapshot
      ensures var u := StatusUpdated(old(posts), id, status, meta, now);
        && (u.None? ==> posts == old(posts) && snapshot == old(snapshot) && r == Returned(false))
        && (u.Some? ==> posts == u.value && snapshot == Saved(posts, old(snapshot), writable)
                        && r == if writable then Returned(true) else SaveFailed)
    {
      var j := FindIndex(posts, id);
      if j.None? {
        return Returned(false);
      }
      posts := posts[j.value := Touched(posts[j.value], status, meta, now)];
      var ok := Save();
      r := if ok then Returned(true) else SaveFailed;
    }

    /** `cleanupOldPosts(days)`: drop finished items older than `days` days; the result is the number dropped. */
    method CleanupOldPosts(days: int, now: int, dayLength: int) returns (r: Completion<nat>)
      modifies this`posts, this`snapshot
      ensures Store(posts, snapshot) == Cleaned(old(Store(posts, snapshot)), Cutoff(now, days, dayLength), writable)
      ensures r.Returned? ==> r.value == |old(posts)| - |posts|
      ensures r.SaveFailed? <==> !writable && |posts| < |old(posts)|
    {
      var before := |posts|;
      posts := Survivors(posts, Cutoff(now, days, dayLength));
      var deleted := before - |posts|;
      r := Returned(deleted);
      if deleted > 0 {
        var ok := Save();
        if !ok {
          r := SaveFailed;
        }
      }
    }

    /** The status updates the callback makes on item `id`, in order. */
    method ApplyUpdates(id: string, updates: seq<StatusUpdate>, now: int)
      modifies this`posts, this`snapshot
      ensures Store(posts, snapshot) == Applied(old(Store(posts, snapshot)), id, updates, now, writable)
    {
      ghost var start := Store(posts, snapshot);
      var j := 0;
      while j < |updates|
        invariant 0 <= j <= |updates|
        invariant Store(posts, snapshot) == Applied(start, id, updates[..j], now, writable)
      {
        assert updates[..j + 1][..j] == updates[..j];
        var _ := UpdatePostStatus(id, updates[j].status, updates[j].meta, now);
        j := j + 1;
      }
      assert updates[..j] == updates;
    }

    /** One pass of the dispatch loop on the item at `i`; true when a save failure escapes the loop. */
    method DispatchOne(i: nat, now: int, dispatch: Item -> Dispatch) returns (aborted: bool)
      requires i < |posts|
      modifies this`posts, this`snapshot
      ensures Step(Store(posts, snapshot), aborted)
              == DueStep(old(Store(posts, snapshot)), i, dispatch, maxRetries, writable, now)
    {
      var item := posts[i];
      var d := dispatch(item);
      ApplyUpdates(item.id, d.updates, now);
      aborted := false;
      if d.raised.Some? {
        var count := posts[i].retryCount + 1;
        posts := posts[i := posts[i].(retryCount := count)];
        if count >= maxRetries {
          var done := UpdatePostStatus(item.id, Failed, Meta(None, None, d.raised), now);
          aborted := done.SaveFailed?;
        }
      }
    }

    /** The dispatch loop of `checkSchedule` over the positions `due`, in order. */
    method DispatchAll(due: seq<nat>, now: int, dispatch: Item -> Dispatch) returns (dispatched: seq<string>, aborted: bool)
      requires ValidPositions(due, |posts|)
      modifies this`posts, this`snapshot
      ensures CycleState(Store(posts, snapshot), dispatched, aborted)
              == RunCycle(old(Store(posts, snapshot)), due, dispatch, maxRetries, writable, now)
    {
      ghost var start := Store(posts, snapshot);
      dispatched, aborted := [], false;
      var k := 0;
      while k < |due|
        invariant 0 <= k <= |due|
        invariant |posts| == |start.posts|
        invariant RunCycle(start, due[..k], dispatch, maxRetries, writable, now)
                  == CycleState(Store(posts, snapshot), dispatched, false)
      {
        RunCycleSnoc(start, due, k, dispatch, maxRetries, writable, now);
        var i := due[k];
        var id := posts[i].id;
        aborted := DispatchOne(i, now, dispatch);
        dispatched := dispatched + [id];
        if aborted {
          AbortSticks(start, due, k + 1, dispatch, maxRetries, writable, now);
          return;
        }
        k := k + 1;
      }
      assert due[..k] == due;
    }

    /**
     * `checkSchedule` (lib/scheduler.js:246-281): nothing while stopped;
     * otherwise the items due at `now` go to the callback in list order and
     * the week-old history is cleaned up. The result lists the dispatched ids.
     */
    method CheckSchedule(now: int, dayLength: int, dispatch: Item -> Dispatch) returns (dispatched: seq<string>)
      modifies this`posts, this`snapshot
      ensures !isRunning ==> posts == old(posts) && snapshot == old(snapshot) && dispatched == []
      ensures isRunning ==>
        var c := Cycle(old(Store(posts, snapshot)), now, dayLength, dispatch, maxRetries, writable);
        Store(posts, snapshot) == c.store && dispatched == c.dispatched
    {
      dispatched := [];
      if !isRunning {
        return;
      }
      ghost var start := Store(posts, snapshot);
      var due := Indices(posts, DueAt(now));
      ghost var c := RunCycle(start, due, dispatch, maxRetries, writable, now);
      var aborted;
      dispatched, aborted := DispatchAll(due, now, dispatch);
      assert c.store == Store(posts, snapshot) && c.aborted == aborted;
      if !aborted {
        ghost var looped := Store(posts, snapshot);
        var _ := CleanupOldPosts(CycleRetentionDays, now, dayLength);
        assert Store(posts, snapshot) == Cleaned(looped, Cutoff(now, CycleRetentionDays, dayLength), writable);
      }
    }

    /** `start`: a no-op while running; otherwise load, set the flag, run one cycle and arm the timer. */
    method Start(now: int, dayLength: int, dispatch: Item -> Dispatch) returns (dispatched: seq<string>)
      modifies this`posts, this`snapshot, this`isRunning, this`timerArmed
      ensures old(isRunning) ==> posts == old(posts) && snapshot == old(snapshot) && isRunning
                                 && timerArmed == old(timerArmed) && dispatched == []
      ensures !old(isRunning) ==>
        var loaded := Store(Loaded(old(snapshot)),
                            if old(snapshot).Missing? then Saved([], old(snapshot), writable) else old(snapshot));
        var c := Cycle(loaded, now, dayLength, dispatch, maxRetries, writable);
        && isRunning && timerArmed && Store(posts, snapshot) == c.store && dispatched == c.dispatched
    {
      if isRunning {
        return [];
      }
      LoadSchedule();
      isRunning := true;
      dispatched := CheckSchedule(now, dayLength, dispatch);
      timerArmed := true;
    }

    /** `stop`: clear the running flag and disarm the timer; a no-op when not running. */
    method Stop()
      modifies this`isRunning, this`timerArmed
      ensures !isRunning
      ensures old(isRunning) ==> !timerArmed
      ensures !old(isRunning) ==> timerArmed == old(timerArmed)
    {
      if !isRunning {
        return;
      }
      isRunning := false;
      timerArmed := false;
    }

    /** `isActive`. */
    function IsActive(): (r: bool)
      reads this`isRunning
      ensures r == isRunning
    {
      isRunning
    }
  }
}
