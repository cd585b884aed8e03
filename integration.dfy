/**
 * SchedulerIntegration of scheduler-integration.js: it owns a Scheduler,
 * turns the outcome of posting a due item into status updates, schedules
 * article and text posts with a notice, and reports statistics.
 */
module Integration {
  import opened Wrappers
  import opened Seqs
  import Poster
  import opened Scheduling

  /** The TypeError `generateFallbackPost` throws when the payload has no `tags`. */
  const SliceOfUndefined := "Cannot read properties of undefined (reading 'slice')"

  /** The TypeError it throws when `tags` is a string: strings have `slice` but no `map`. */
  const MapNotFunction := "tags.slice(...).map is not a function"

  /** The message of the exception a failed save of the schedule file throws. */
  const WriteError := "the schedule file could not be written"

  /**
   * The thread text `postToThreads` generates for a payload, as written
   * (scheduler-integration.js:108-110): both branches end in
   * `generateFallbackPost`, which needs an article's `tags` list, so every
   * text post throws.
   */
  function ContentAsWritten(payload: Payload, baseUrl: string): (r: Result<Poster.Text>)
    ensures payload.Article? ==>
      r == Success(Poster.FallbackPost(payload.article, Poster.PostUrl(baseUrl, payload.article)))
    ensures payload.TextPost? ==> r.Failure?
  {
    match payload
    case Article(post) => Success(Poster.FallbackPost(post, Poster.PostUrl(baseUrl, post)))
    case TextPost(fields) => Failure(if "tags" in fields then MapNotFunction else SliceOfUndefined)
  }

  /** As written, a scheduled text post is never published, whatever the API would do. */
  lemma TextPostsNeverPost(fields: map<string, Poster.Text>, baseUrl: string, delivery: Poster.Delivery)
    ensures Poster.Publish(ContentAsWritten(TextPost(fields), baseUrl), delivery).NotPosted?
  {
  }

  /** The intended thread text: an article's fallback text, or a text post's own text, cut to the 500-unit limit. */
  function Content(payload: Payload, baseUrl: string): (r: Result<Poster.Text>)
    ensures payload.Article? ==> r == ContentAsWritten(payload, baseUrl)
    ensures payload.TextPost? && "text" in payload.fields ==> r == Success(Poster.Limit(payload.fields["text"]))
    ensures r.Success? ==> |r.value| <= Poster.MaxLength
  {
    match payload
    case Article(_) => ContentAsWritten(payload, baseUrl)
    case TextPost(fields) =>
      if "text" in fields then Success(Poster.Limit(fields["text"])) else ContentAsWritten(payload, baseUrl)
  }

  /**
   * `postToThreads` as written: generate the text, then create and publish
   * the thread; it never throws, and a text post always comes back failed.
   */
  function PostPayload(payload: Payload, baseUrl: string, delivery: Poster.Delivery): (r: Poster.PostResult)
    ensures r.Posted? <==> payload.Article? && delivery.Accepted?
    ensures r.Posted? ==> r.content == ContentAsWritten(payload, baseUrl).value && r.threadId == delivery.threadId
    ensures r.NotPosted? && payload.TextPost? ==> r.error == ContentAsWritten(payload, baseUrl).error
  {
    Poster.Publish(ContentAsWritten(payload, baseUrl), delivery)
  }

  /** `postToThreads` with the intended content: a text post sends its own text. */
  function PostPayloadIntended(payload: Payload, baseUrl: string, delivery: Poster.Delivery): (r: Poster.PostResult)
    ensures r.Posted? <==> Content(payload, baseUrl).Success? && delivery.Accepted?
    ensures r.Posted? ==> r.content == Content(payload, baseUrl).value && r.threadId == delivery.threadId
  {
    Poster.Publish(Content(payload, baseUrl), delivery)
  }

  /**
   * What `executeScheduledPost` does with the outcome of posting
   * (scheduler-integration.js:59-95): mark the item published with the thread
   * id and time, or failed with the error. When that save throws, the catch
   * marks the item failed with the save's message, whose save throws again
   * out of the callback.
   */
  function ExecutionEffect(result: Poster.PostResult, writable: bool, now: int): (r: Dispatch)
    ensures |r.updates| >= 1
    ensures result.Posted? ==> r.updates[0] == StatusUpdate(Published, Meta(result.threadId, Some(now), None))
    ensures result.NotPosted? ==> r.updates[0] == StatusUpdate(Failed, Meta(None, None, Some(result.error)))
    ensures writable ==> |r.updates| == 1 && r.raised.None?
    ensures !writable ==> r.updates == [r.updates[0], StatusUpdate(Failed, Meta(None, None, Some(WriteError)))]
                          && r.raised == Some(WriteError)
  {
    var first := match result
      case Posted(threadId, _) => StatusUpdate(Published, Meta(threadId, Some(now), None))
      case NotPosted(error) => StatusUpdate(Failed, Meta(None, None, Some(error)));
    if writable then Dispatch([first], None)
    else Dispatch([first, StatusUpdate(Failed, Meta(None, None, Some(WriteError)))], Some(WriteError))
  }

  /**
   * The callback `start` hands the scheduler: execute the item with the API's
   * answer for it. The item's first update publishes it exactly when it is an
   * article the API accepted, and the callback throws exactly when the
   * schedule file cannot be written.
   */
  function Executor(baseUrl: string, network: Item -> Poster.Delivery, writable: bool, now: int): (r: Item -> Dispatch)
    ensures forall item: Item ::
      && |r(item).updates| >= 1
      && (r(item).updates[0].status == Published <==> item.post.Article? && network(item).Accepted?)
      && (r(item).raised.None? <==> writable)
  {
    var f := (item: Item) => ExecutionEffect(PostPayload(item.post, baseUrl, network(item)), writable, now);
    assert forall item: Item :: f(item) == ExecutionEffect(PostPayload(item.post, baseUrl, network(item)), writable, now);
    f
  }

  /**
   * With a writable schedule file, executing a due item settles it in one
   * step: it becomes published exactly when the text was generated and the
   * API accepted it, and failed otherwise; its retry counter never moves and
   * no other item changes. As written, a text post therefore always ends
   * failed.
   */
  lemma ExecutionSettles(st: Store, i: nat, baseUrl: string, network: Item -> Poster.Delivery, maxRetries: int,
                         now: int)
    requires UniqueIds(st.posts) && i < |st.posts|
    ensures var r := DueStep(st, i, Executor(baseUrl, network, true, now), maxRetries, true, now);
      var item := st.posts[i];
      var result := PostPayload(item.post, baseUrl, network(item));
      && !r.aborted
      && r.store.posts[i].status == (if result.Posted? then Published else Failed)
      && (item.post.TextPost? ==> r.store.posts[i].status == Failed)
      && r.store.posts[i].retryCount == item.retryCount
      && (result.Posted? ==> r.store.posts[i].publishedAt == Some(now))
      && (result.NotPosted? && result.error != "" ==> r.store.posts[i].error == Some(result.error))
      && r.store.snapshot == Stored(r.store.posts)
      && forall k :: 0 <= k < |st.posts| && k != i ==> r.store.posts[k] == st.posts[k]
  {
    var item := st.posts[i];
    var result := PostPayload(item.post, baseUrl, network(item));
    var d := ExecutionEffect(result, true, now);
    assert Executor(baseUrl, network, true, now)(item) == d;
    FindUnique(st.posts, i);
    var p := StatusUpdated(st.posts, item.id, d.updates[0].status, d.updates[0].meta, now).value;
    AppliedSingle(st, item.id, d.updates[0], now, true);
    assert Applied(st, item.id, d.updates, now, true) == Store(p, Stored(p));
  }

  /**
   * With an unwritable schedule file, executing a due item throws after its
   * two status updates: the item ends failed with the write error, its retry
   * counter rises by one, the file keeps its contents, and the loop is
   * escaped exactly when the counter reaches `maxRetries`. No other item
   * changes.
   */
  lemma UnwritableExecution(st: Store, i: nat, baseUrl: string, network: Item -> Poster.Delivery, maxRetries: int,
                            now: int)
    requires UniqueIds(st.posts) && i < |st.posts|
    ensures var r := DueStep(st, i, Executor(baseUrl, network, false, now), maxRetries, false, now);
      var item := st.posts[i];
      && r.store.posts[i].status == Failed
      && r.store.posts[i].error == Some(WriteError)
      && r.store.posts[i].retryCount == item.retryCount + 1
      && r.store.snapshot == st.snapshot
      && (r.aborted <==> item.retryCount + 1 >= maxRetries)
      && forall k :: 0 <= k < |st.posts| && k != i ==> r.store.posts[k] == st.posts[k]
  {
    var item := st.posts[i];
    var d := ExecutionEffect(PostPayload(item.post, baseUrl, network(item)), false, now);
    assert Executor(baseUrl, network, false, now)(item) == d;
    FindUnique(st.posts, i);
    AppliedSingle(st, item.id, d.updates[0], now, false);
    var s1 := Applied(st, item.id, [d.updates[0]], now, false);
    assert d.updates[..1] == [d.updates[0]];
    assert s1.posts[i].id == item.id;
    AppliedLocal(st, i, [d.updates[0]], now, false);
    assert UniqueIds(s1.posts);
    FindUnique(s1.posts, i);
    ThrowingDispatch(st, i, Executor(baseUrl, network, false, now), maxRetries, false, now, WriteError);
  }

  /** A single status update on a known id is that update, followed by a save. */
  lemma AppliedSingle(st: Store, id: string, u: StatusUpdate, now: int, writable: bool)
    requires FindIndex(st.posts, id).Some?
    ensures var p := StatusUpdated(st.posts, id, u.status, u.meta, now).value;
      Applied(st, id, [u], now, writable) == Store(p, Saved(p, st.snapshot, writable))
  {
    assert [u][..0] == [];
  }

  /** The object `scheduleTextPost` schedules: `{type: 'text', text, ...metadata}`. */
  function TextPayload(text: Poster.Text, metadata: map<string, Poster.Text>): (r: map<string, Poster.Text>)
    ensures r.Keys == metadata.Keys + {"type", "text"}
    ensures forall k :: k in metadata ==> r[k] == metadata[k]
    ensures "text" !in metadata ==> r["text"] == text
    ensures "type" !in metadata ==> r["type"] == Poster.Utf16("text")
  {
    map["type" := Poster.Utf16("text"), "text" := text] + metadata
  }

  /** With the fix, a text post with no metadata publishes its own text when the API accepts it. */
  lemma TextPostDelivered(text: Poster.Text, baseUrl: string, threadId: Option<string>)
    ensures PostPayloadIntended(TextPost(TextPayload(text, map[])), baseUrl, Poster.Accepted(threadId))
            == Poster.Posted(threadId, Poster.Limit(text))
  {
    assert TextPayload(text, map[])["text"] == text;
  }

  /** The preview in the text-post notice: the first 50 code units, and "..." only when there were more. */
  function Preview(text: Poster.Text): (r: Poster.Text)
    ensures |text| <= 50 ==> r == text
    ensures |text| > 50 ==> |r| == 53 && r[..50] == text[..50] && r[50..] == Poster.Ellipsis
  {
    if |text| > 50 then text[..50] + Poster.Ellipsis else text
  }

  /** The messages sent to the chat channel; whether sending succeeds is never observed. */
  datatype Notice =
    | ArticleScheduled(title: string, id: string)
    | TextScheduled(preview: Poster.Text, id: string)
    | CancelNotice(id: string)

  /** The items with exactly `status`. */
  function CountStatus(posts: seq<Item>, status: string): nat {
    |Filter(posts, HasStatus(status))|
  }

  predicate KnownStatus(item: Item) {
    item.status == Pending || item.status == Published || item.status == Failed || item.status == Cancelled
  }

  /** `getStats`' figures (scheduler-integration.js:240-247). */
  datatype Stats = Stats(total: nat, pending: nat, published: nat, failed: nat, cancelled: nat, isActive: bool)

  /**
   * The four per-status counts never exceed the total, and add up to it
   * exactly when every item has one of the four statuses.
   */
  lemma {:induction false} StatsBalance(posts: seq<Item>)
    ensures var sum := CountStatus(posts, Pending) + CountStatus(posts, Published)
                       + CountStatus(posts, Failed) + CountStatus(posts, Cancelled);
      sum <= |posts| && (sum == |posts| <==> forall k :: 0 <= k < |posts| ==> KnownStatus(posts[k]))
    decreases |posts|
  {
    if posts != [] {
      var init := posts[..|posts| - 1];
      StatsBalance(init);
      if forall k :: 0 <= k < |posts| ==> KnownStatus(posts[k]) {
        assert forall k :: 0 <= k < |init| ==> KnownStatus(init[k]) by {
          forall k | 0 <= k < |init| ensures KnownStatus(init[k]) {
            assert init[k] == posts[k];
          }
        }
      } else if forall k :: 0 <= k < |init| ==> KnownStatus(init[k]) {
        assert !KnownStatus(posts[|posts| - 1]) by {
          forall k | 0 <= k < |posts| - 1 ensures KnownStatus(posts[k]) {
            assert init[k] == posts[k];
          }
        }
      }
    }
  }

  class SchedulerIntegration {
    const scheduler: Scheduler
    /** `config.portfolioSite.baseUrl`. */
    const baseUrl: string
    var notices: seq<Notice>

    /** The integration owns a scheduler with the default settings (scheduler-integration.js:25-29). */
    constructor(baseUrl: string, stored: Snapshot, writable: bool)
      ensures fresh(scheduler) && this.baseUrl == baseUrl && notices == []
      ensures scheduler.posts == [] && scheduler.snapshot == stored && !scheduler.isRunning && !scheduler.timerArmed
      ensures scheduler.writable == writable
      ensures scheduler.checkInterval == 60000 && scheduler.maxRetries == 3 && scheduler.retryDelay == 5000
    {
      scheduler := new Scheduler(Overrides(None, None, None), stored, writable);
      this.baseUrl := baseUrl;
      notices := [];
    }

    /** `start`: run the scheduler with `executeScheduledPost` as its callback. */
    method Start(now: int, dayLength: int, network: Item -> Poster.Delivery) returns (dispatched: seq<string>)
      modifies scheduler`posts, scheduler`snapshot, scheduler`isRunning, scheduler`timerArmed
      ensures old(scheduler.isRunning) ==>
        && scheduler.posts == old(scheduler.posts) && scheduler.snapshot == old(scheduler.snapshot)
        && scheduler.timerArmed == old(scheduler.timerArmed) && dispatched == []
      ensures !old(scheduler.isRunning) ==>
        var loaded := Store(Loaded(old(scheduler.snapshot)),
                            if old(scheduler.snapshot).Missing? then Saved([], old(scheduler.snapshot), scheduler.writable)
                            else old(scheduler.snapshot));
        var c := Cycle(loaded, now, dayLength, Executor(baseUrl, network, scheduler.writable, now),
                       scheduler.maxRetries, scheduler.writable);
        && scheduler.timerArmed && Store(scheduler.posts, scheduler.snapshot) == c.store && dispatched == c.dispatched
      ensures scheduler.isRunning
    {
      dispatched := scheduler.Start(now, dayLength, Executor(baseUrl, network, scheduler.writable, now));
    }

    /** `stop`: the owned scheduler stops and its timer is disarmed. */
    method Stop()
      modifies scheduler`isRunning, scheduler`timerArmed
      ensures !scheduler.isRunning
      ensures old(scheduler.isRunning) ==> !scheduler.timerArmed
      ensures !old(scheduler.isRunning) ==> scheduler.timerArmed == old(scheduler.timerArmed)
    {
      scheduler.Stop();
    }

    /**
     * `executeScheduledPost` called on one item: post it, then record the
     * outcome through `updatePostStatus`; the result is the message of the
     * exception that escapes, if any.
     */
    method ExecuteScheduledPost(item: Item, delivery: Poster.Delivery, now: int) returns (raised: Option<string>)
      requires FindIndex(scheduler.posts, item.id).Some?
      modifies scheduler`posts, scheduler`snapshot
      ensures var d := ExecutionEffect(PostPayload(item.post, baseUrl, delivery), scheduler.writable, now);
        Store(scheduler.posts, scheduler.snapshot)
          == Applied(old(Store(scheduler.posts, scheduler.snapshot)), item.id, d.updates, now, scheduler.writable)
        && raised == d.raised
    {
      ghost var start := Store(scheduler.posts, scheduler.snapshot);
      var result := PostPayload(item.post, baseUrl, delivery);
      ghost var d := ExecutionEffect(result, scheduler.writable, now);
      var first := if result.Posted? then StatusUpdate(Published, Meta(result.threadId, Some(now), None))
                   else StatusUpdate(Failed, Meta(None, None, Some(result.error)));
      var done := scheduler.UpdatePostStatus(item.id, first.status, first.meta, now);
      AppliedSingle(start, item.id, first, now, scheduler.writable);
      raised := None;
      if done.SaveFailed? {
        var second := StatusUpdate(Failed, Meta(None, None, Some(WriteError)));
        assert d.updates == [first, second] && d.updates[..1] == [first];
        var again := scheduler.UpdatePostStatus(item.id, second.status, second.meta, now);
        raised := Some(WriteError);
      } else {
        assert d.updates == [first];
      }
    }

    /** `schedulePost` for an article, with a notice once it is saved. */
    method SchedulePost(id: string, post: Poster.Post, scheduledAt: int, now: int) returns (r: Completion<Item>)
      modifies scheduler`posts, scheduler`snapshot, this`notices
      ensures scheduler.posts == old(scheduler.posts) + [NewItem(id, Article(post), scheduledAt, now)]
      ensures scheduler.snapshot == Saved(scheduler.posts, old(scheduler.snapshot), scheduler.writable)
      ensures r == if scheduler.writable then Returned(NewItem(id, Article(post), scheduledAt, now)) else SaveFailed
      ensures notices == old(notices) + if r.Returned? then [ArticleScheduled(post.title, id)] else []
    {
      r := scheduler.SchedulePost(id, Article(post), scheduledAt, now);
      if r.Returned? {
        notices := notices + [ArticleScheduled(post.title, id)];
      }
    }

    /** `scheduleTextPost`: schedule `{type: 'text', text, ...metadata}` and send its preview. */
    method ScheduleTextPost(id: string, text: Poster.Text, metadata: map<string, Poster.Text>, scheduledAt: int, now: int)
      returns (r: Completion<Item>)
      modifies scheduler`posts, scheduler`snapshot, this`notices
      ensures scheduler.posts == old(scheduler.posts) + [NewItem(id, TextPost(TextPayload(text, metadata)), scheduledAt, now)]
      ensures scheduler.snapshot == Saved(scheduler.posts, old(scheduler.snapshot), scheduler.writable)
      ensures r == if scheduler.writable then Returned(NewItem(id, TextPost(TextPayload(text, metadata)), scheduledAt, now))
                   else SaveFailed
      ensures notices == old(notices) + if r.Returned? then [TextScheduled(Preview(text), id)] else []
    {
      r := scheduler.SchedulePost(id, TextPost(TextPayload(text, metadata)), scheduledAt, now);
      if r.Returned? {
        notices := notices + [TextScheduled(Preview(text), id)];
      }
    }

    /** `cancelScheduledPost`: the scheduler's answer, unchanged, with a notice only on success. */
    method CancelScheduledPost(id: string, now: int) returns (r: Completion<bool>)
      modifies scheduler`posts, scheduler`snapshot, this`notices
      ensures var c := CancelOutcome(old(scheduler.posts), id, now);
        && (c.None? ==> scheduler.posts == old(scheduler.posts) && scheduler.snapshot == old(scheduler.snapshot)
                        && r == Returned(false))
        && (c.Some? ==> scheduler.posts == c.value && scheduler.snapshot == Saved(scheduler.posts, old(scheduler.snapshot), scheduler.writable)
                        && r == if scheduler.writable then Returned(true) else SaveFailed)
      ensures notices == old(notices) + if r == Returned(true) then [CancelNotice(id)] else []
    {
      r := scheduler.CancelScheduledPost(id, now);
      if r == Returned(true) {
        notices := notices + [CancelNotice(id)];
      }
    }

    /** `cleanupOldPosts`: delegated unchanged. */
    method CleanupOldPosts(days: int, now: int, dayLength: int) returns (r: Completion<nat>)
      modifies scheduler`posts, scheduler`snapshot
      ensures Store(scheduler.posts, scheduler.snapshot)
              == Cleaned(old(Store(scheduler.posts, scheduler.snapshot)), Cutoff(now, days, dayLength), scheduler.writable)
      ensures r.Returned? ==> r.value == |old(scheduler.posts)| - |scheduler.posts|
      ensures r.SaveFailed? <==> !scheduler.writable && |scheduler.posts| < |old(scheduler.posts)|
    {
      r := scheduler.CleanupOldPosts(days, now, dayLength);
    }

    /** `listScheduledPosts`: the scheduler's listing. */
    function ListScheduledPosts(status: Option<string>): (r: seq<Item>)
      reads scheduler`posts
      ensures !Truthy(status) ==> r == scheduler.posts
      ensures Truthy(status) ==> r == Filter(scheduler.posts, HasStatus(status.value))
      ensures Truthy(status) ==> forall x :: x in r <==> x in scheduler.posts && x.status == status.value
    {
      scheduler.GetAllScheduledPosts(status)
    }

    function IsActive(): (r: bool)
      reads scheduler`isRunning
      ensures r == scheduler.isRunning
    {
      scheduler.IsActive()
    }

    /** `getStats`: the item count, the count of each known status, and the running flag. */
    function GetStats(): (r: Stats)
      reads scheduler`posts, scheduler`isRunning
      ensures r.total == |scheduler.posts|
      ensures r.pending == CountStatus(scheduler.posts, Pending) && r.published == CountStatus(scheduler.posts, Published)
      ensures r.failed == CountStatus(scheduler.posts, Failed) && r.cancelled == CountStatus(scheduler.posts, Cancelled)
      ensures r.pending + r.published + r.failed + r.cancelled <= r.total
      ensures r.isActive == scheduler.isRunning
    {
      var posts := scheduler.GetAllScheduledPosts(None);
      StatsBalance(posts);
      Stats(|posts|, |scheduler.GetAllScheduledPosts(Some(Pending))|, |scheduler.GetAllScheduledPosts(Some(Published))|,
            |scheduler.GetAllScheduledPosts(Some(Failed))|, |scheduler.GetAllScheduledPosts(Some(Cancelled))|,
            scheduler.IsActive())
    }
  }
}
