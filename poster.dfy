/**
 * The article-posting logic of index.js: which markdown entries become posts,
 * the fallback thread text, which posts a run sends, and the posted-id history.
 */
module Poster {
  import opened Wrappers
  import opened Seqs

  /** One UTF-16 code unit: the unit in which JavaScript measures and slices strings. */
  newtype CodeUnit = x: int | 0 <= x < 0x1_0000

  /** A JavaScript string as the engine stores it. */
  type Text = seq<CodeUnit>

  /** UTF-16 encoding of one Unicode scalar value. */
  function EncodeChar(c: char): (r: Text)
    ensures |r| == if (c as int) < 0x1_0000 then 1 else 2
  {
    var v := c as int;
    if v < 0x1_0000 then [v as CodeUnit]
    else [(0xD800 + (v - 0x1_0000) / 0x400) as CodeUnit, (0xDC00 + (v - 0x1_0000) % 0x400) as CodeUnit]
  }

  /** The code units of a string; astral characters (emoji) take two. */
  function Utf16(s: string): (r: Text)
    ensures |s| <= |r| <= 2 * |s|
    decreases |s|
  {
    if s == [] then [] else Utf16(s[..|s| - 1]) + EncodeChar(s[|s| - 1])
  }

  /** An article as `getBlogPosts` returns it (index.js:46-54). */
  datatype Post = Post(
    id: string,
    title: string,
    description: string,   // "" when the front matter has none
    category: string,      // "" when the front matter has none
    tags: seq<string>,
    date: Option<int>,   // None when the front matter has no valid date
    slug: string)

  /**
   * The front matter of one markdown file; a date is a numeric timestamp, or
   * None when it is missing or does not parse (`new Date` gives NaN).
   */
  datatype FrontMatter = FrontMatter(
    published: Option<bool>,
    date: Option<int>,
    slug: string,          // "" when absent
    title: string,
    description: string,
    category: string,
    tags: Option<seq<string>>)

  predicate EndsWithMd(fileName: string) {
    |fileName| >= 3 && fileName[|fileName| - 3..] == ".md"
  }

  /**
   * The post a directory entry yields, or None when the entry is skipped:
   * not a `.md` file, marked `published: false`, or dated after `today`
   * (local midnight, index.js:37-42). An entry without a valid date is kept,
   * since a comparison with NaN is false.
   */
  function EntryPost(fileName: string, fm: FrontMatter, today: int): (r: Option<Post>)
    ensures r.Some? <==> EndsWithMd(fileName) && fm.published != Some(false) && (fm.date.None? || fm.date.value <= today)
    ensures r.Some? && fm.slug != "" ==> r.value.id == fm.slug
    ensures r.Some? && fm.slug == "" ==> r.value.id + ".md" == fileName
    ensures r.Some? ==> r.value.slug == r.value.id && r.value.title == fm.title
    ensures r.Some? ==> r.value.tags == (if fm.tags.Some? then fm.tags.value else []) && r.value.date == fm.date
  {
    if !EndsWithMd(fileName) then None
    else if fm.published == Some(false) then None
    else if fm.date.Some? && fm.date.value > today then None
    else
      var id := if fm.slug != "" then fm.slug else fileName[..|fileName| - 3];
      Some(Post(id, fm.title, fm.description, fm.category,
                if fm.tags.Some? then fm.tags.value else [], fm.date, id))
  }

  /** The category emoji table of index.js:143-150. */
  const CategoryEmoji: map<string, string> := map[
    "マインドセット" := "🧠",
    "AI" := "🤖",
    "テクノロジー" := "💻",
    "ビジネス" := "💼",
    "コーチング" := "🎯",
    "学習" := "📚"]

  const DefaultEmoji := "✨"

  function Emoji(category: string): (r: string)
    ensures category in CategoryEmoji ==> r == CategoryEmoji[category]
    ensures category !in CategoryEmoji ==> r == DefaultEmoji
    ensures |Utf16(r)| == 1 || |Utf16(r)| == 2
  {
    if category in CategoryEmoji then CategoryEmoji[category] else DefaultEmoji
  }

  /** The characters matched by JavaScript's `\s`. */
  predicate IsJsSpace(c: char) {
    c == ' ' || c == '\t' || c == '\n' || c == '\r' || c == '\U{000B}' || c == '\U{000C}'
    || c == '\U{00A0}' || c == '\U{1680}' || ('\U{2000}' <= c <= '\U{200A}')
    || c == '\U{2028}' || c == '\U{2029}' || c == '\U{202F}' || c == '\U{205F}'
    || c == '\U{3000}' || c == '\U{FEFF}'
  }

  /** `s.replace(/\s/g, '')`. */
  function StripSpaces(s: string): (r: string)
    ensures r == Filter(s, (c: char) => !IsJsSpace(c))
    ensures forall c :: c in r <==> c in s && !IsJsSpace(c)
    ensures |r| <= |s|
    decreases |s|
  {
    if s == [] then []
    else StripSpaces(s[..|s| - 1]) + (if IsJsSpace(s[|s| - 1]) then [] else [s[|s| - 1]])
  }

  /** The hashtags of a post: one per tag among the first three, in order. */
  function Hashtags(tags: seq<string>): (r: seq<string>)
    ensures |r| == if |tags| < 3 then |tags| else 3
    ensures forall k :: 0 <= k < |r| ==> r[k] == "#" + StripSpaces(tags[k])
  {
    var n := if |tags| < 3 then |tags| else 3;
    seq(n, k requires 0 <= k < n => "#" + StripSpaces(tags[k]))
  }

  /** `parts.join(sep)`. */
  function Join(parts: seq<string>, sep: string): string
    decreases |parts|
  {
    if parts == [] then ""
    else if |parts| == 1 then parts[0]
    else Join(parts[..|parts| - 1], sep) + sep + parts[|parts| - 1]
  }

  const MoreLink := "続きはこちら 👇\n"
  const MaxLength := 500

  /** "..." as code units. */
  const Ellipsis: Text := [0x2E, 0x2E, 0x2E]

  /** `${title} ${emoji}\n\n` */
  function TitleLine(post: Post): Text {
    Utf16(post.title + " " + Emoji(post.category) + "\n\n")
  }

  /** `${description}\n\n`, present only when the description is non-empty. */
  function DescriptionBlock(post: Post): Text {
    if post.description != "" then Utf16(post.description + "\n\n") else []
  }

  /** The link paragraph `続きはこちら 👇\n${postUrl}\n\n`. */
  function LinkBlock(url: string): Text {
    Utf16(MoreLink + url + "\n\n")
  }

  /** The space-separated hashtags, present only when the post has tags. */
  function HashtagLine(post: Post): Text {
    if |post.tags| > 0 then Utf16(Join(Hashtags(post.tags), " ")) else []
  }

  /** The thread text before the 500-unit limit is applied (index.js:157-173). */
  function FallbackBody(post: Post, url: string): Text {
    TitleLine(post) + DescriptionBlock(post) + LinkBlock(url) + HashtagLine(post)
  }

  /** The 500-unit limit of index.js:176-178. */
  function Limit(content: Text): (r: Text)
    ensures |r| <= MaxLength
    ensures |content| <= MaxLength ==> r == content
    ensures |content| > MaxLength ==> |r| == MaxLength && r[..497] == content[..497] && r[497..] == Ellipsis
  {
    if |content| > MaxLength then content[..497] + Ellipsis else content
  }

  /** The thread text generated for a post, as `generateFallbackPost` returns it. */
  function FallbackPost(post: Post, url: string): Text {
    Limit(FallbackBody(post, url))
  }

  /**
   * `generateFallbackPost`: the text is built piece by piece and then cut to
   * 497 code units plus "..." when it exceeds 500.
   */
  method GenerateFallbackPost(post: Post, url: string) returns (content: Text)
    ensures content == FallbackPost(post, url)
  {
    content := [];
    var title := TitleLine(post);
    assert content + title == title;
    content := content + title;
    if post.description != "" {
      content := content + DescriptionBlock(post);
    }
    content := content + LinkBlock(url);
    if |post.tags| > 0 {
      content := content + HashtagLine(post);
    }
    assert content == FallbackBody(post, url);
    if |content| > MaxLength {
      content := content[..497] + Ellipsis;
    }
  }

  /** What the remote API did with a thread: created and published it, or threw. */
  datatype Delivery = Accepted(threadId: Option<string>) | Refused(message: string)

  /** The object `postToThreads` resolves to; it never rejects. */
  datatype PostResult = Posted(threadId: Option<string>, content: Text) | NotPosted(error: string)

  /** Hand generated content to the remote API (index.js:262-281). */
  function Publish(content: Result<Text>, delivery: Delivery): (r: PostResult)
    ensures r.Posted? <==> content.Success? && delivery.Accepted?
    ensures r.Posted? ==> r.content == content.value && r.threadId == delivery.threadId
    ensures content.Failure? ==> r == NotPosted(content.error)
    ensures content.Success? && delivery.Refused? ==> r == NotPosted(delivery.message)
  {
    match content
    case Failure(e) => NotPosted(e)
    case Success(text) =>
      match delivery
      case Accepted(id) => Posted(id, text)
      case Refused(m) => NotPosted(m)
  }

  /**
   * The URL of an article on the portfolio site: the base URL, then the
   * `/blog/` path, then the slug, which can be read back from the URL.
   */
  function PostUrl(baseUrl: string, post: Post): (r: string)
    ensures |r| == |baseUrl| + 6 + |post.slug|
    ensures r[..|baseUrl|] == baseUrl
    ensures r[|baseUrl|..|baseUrl| + 6] == "/blog/"
    ensures r[|baseUrl| + 6..] == post.slug
  {
    baseUrl + "/blog/" + post.slug
  }

  /**
   * `postToThreads` for an article: the fallback text is generated (the AI
   * branch also falls back to it, index.js:120-126) and handed to the API.
   */
  function PostToThreads(post: Post, baseUrl: string, delivery: Delivery): (r: PostResult)
    ensures r.Posted? <==> delivery.Accepted?
    ensures r.Posted? ==> r.content == FallbackPost(post, PostUrl(baseUrl, post)) && |r.content| <= MaxLength
  {
    Publish(Success(FallbackPost(post, PostUrl(baseUrl, post))), delivery)
  }

  /** `Array.prototype.slice(0, end)`: a negative end counts from the back. */
  function SliceEnd(len: nat, end: int): (r: nat)
    ensures r <= len
    ensures end >= 0 ==> r == if end < len then end else len
  {
    if end < 0 then (if len + end < 0 then 0 else len + end)
    else if end < len then end else len
  }

  predicate Unposted(postedIds: set<string>, post: Post) {
    post.id !in postedIds
  }

  predicate Allowed(excludeCategories: seq<string>, post: Post) {
    post.category !in excludeCategories
  }

  /**
   * The posts one run sends (index.js:302-316): drop those already posted,
   * then those of excluded categories, then keep at most `maxPostsPerRun`;
   * when that setting is absent, `slice(0, undefined)` keeps them all.
   */
  function SelectPosts(posts: seq<Post>, postedIds: set<string>, excludeCategories: seq<string>,
                       maxPostsPerRun: Option<int>): (r: seq<Post>)
    ensures forall p :: p in r ==> p in posts && p.id !in postedIds && p.category !in excludeCategories
    ensures var eligible := Filter(posts, (p: Post) => p.id !in postedIds && p.category !in excludeCategories);
      && |r| <= |eligible| && r == eligible[..|r|]
      && (maxPostsPerRun.None? ==> r == eligible)
      && (maxPostsPerRun.Some? && maxPostsPerRun.value >= 0 ==>
            |r| == if maxPostsPerRun.value < |eligible| then maxPostsPerRun.value else |eligible|)
  {
    var unposted := Filter(posts, (p: Post) => Unposted(postedIds, p));
    var filtered := Filter(unposted, (p: Post) => Allowed(excludeCategories, p));
    FilterFilter(posts, (p: Post) => Unposted(postedIds, p), (p: Post) => Allowed(excludeCategories, p),
                 (p: Post) => p.id !in postedIds && p.category !in excludeCategories);
    FilterMembers(posts, (p: Post) => p.id !in postedIds && p.category !in excludeCategories);
    match maxPostsPerRun
    case None => filtered
    case Some(end) => filtered[..SliceEnd(|filtered|, end)]
  }

  /** The ids of the posts whose result (at the same position) is a success. */
  ghost function SucceededIds(toPost: seq<Post>, results: seq<PostResult>): set<string>
    requires |results| <= |toPost|
  {
    set k | 0 <= k < |results| && results[k].Posted? :: toPost[k].id
  }

  /** What posting each of `toPost` in turn produces. */
  function ResultsOf(toPost: seq<Post>, baseUrl: string, network: Post -> Delivery): (r: seq<PostResult>)
    ensures |r| == |toPost|
    decreases |toPost|
  {
    if toPost == [] then []
    else
      var last := toPost[|toPost| - 1];
      ResultsOf(toPost[..|toPost| - 1], baseUrl, network) + [PostToThreads(last, baseUrl, network(last))]
  }

  /** Result `k` is the outcome of posting article `k`, which succeeds iff the API accepted it. */
  lemma {:induction false} ResultsAt(toPost: seq<Post>, baseUrl: string, network: Post -> Delivery, k: nat)
    requires k < |toPost|
    ensures ResultsOf(toPost, baseUrl, network)[k] == PostToThreads(toPost[k], baseUrl, network(toPost[k]))
    ensures ResultsOf(toPost, baseUrl, network)[k].Posted? <==> network(toPost[k]).Accepted?
    decreases |toPost|
  {
    if k < |toPost| - 1 {
      ResultsAt(toPost[..|toPost| - 1], baseUrl, network, k);
    }
  }

  /**
   * The posting loop of `main` (index.js:326-338): each selected post is sent
   * in turn, its result recorded, and its id added to the history on success.
   */
  method PostAll(toPost: seq<Post>, baseUrl: string, network: Post -> Delivery, postedIds: set<string>)
    returns (results: seq<PostResult>, posted: set<string>)
    ensures results == ResultsOf(toPost, baseUrl, network)
    ensures posted == postedIds + SucceededIds(toPost, results)
  {
    results, posted := [], postedIds;
    var i := 0;
    while i < |toPost|
      invariant 0 <= i <= |toPost|
      invariant results == ResultsOf(toPost[..i], baseUrl, network)
      invariant posted == postedIds + SucceededIds(toPost, results)
    {
      var result := PostToThreads(toPost[i], baseUrl, network(toPost[i]));
      SucceededExtend(toPost, results, result);
      ResultsSnoc(toPost, baseUrl, network, i);
      results := results + [result];
      if result.Posted? {
        posted := posted + {toPost[i].id};
      }
      i := i + 1;
    }
    assert toPost[..i] == toPost;
  }

  lemma ResultsSnoc(toPost: seq<Post>, baseUrl: string, network: Post -> Delivery, i: nat)
    requires i < |toPost|
    ensures ResultsOf(toPost[..i + 1], baseUrl, network)
         == ResultsOf(toPost[..i], baseUrl, network) + [PostToThreads(toPost[i], baseUrl, network(toPost[i]))]
  {
    assert toPost[..i + 1][..i] == toPost[..i];
  }

  lemma SucceededExtend(toPost: seq<Post>, results: seq<PostResult>, result: PostResult)
    requires |results| < |toPost|
    ensures SucceededIds(toPost, results + [result])
         == SucceededIds(toPost, results) + (if result.Posted? then {toPost[|results|].id} else {})
  {
    var extended := results + [result];
    assert forall k :: 0 <= k < |results| ==> extended[k] == results[k];
  }
}
