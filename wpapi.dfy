/** The free-function twin of the loader in `wordpress/wp_api.py`. It shares the
    field mapper, the reference loops, the relation resolution, the post upsert
    and the orphan sweep with the loader; what differs is modelled here: the
    module-global warning flag of `get`, a watermark derived per call into a
    local (by post type only) and never kept, a `load_wp_post` that never fills
    the relation maps, the channel and slideshow helpers, and `load_wp_api`. */
module WpApi {
  import opened Values
  import opened FieldMapper
  import opened Api
  import opened Store
  import opened SyncEnv
  import opened RefSync
  import opened PostSync
  import opened PostPaging
  import opened SiteSync

  // ----- get and the public API warning -----

  /** The module-level state behind `get`: the global `public_api_warnings`,
      the warnings logged and the requests sent to the scripted transport. */
  class PublicApi {
    const token: Option<string>
    const script: seq<Response>
    var publicApiWarnings: bool
    var warnings: nat
    var sent: seq<Request>

    /** The warning is logged once, on the first token-less call: the flag is
        cleared exactly by that call, and never when a token is configured. */
    predicate WarnedAtMostOnce()
      reads this
    {
      (publicApiWarnings <==> token.Some? || sent == []) &&
      warnings == (if token.None? && sent != [] then 1 else 0)
    }

    /** At import time: the flag set, nothing logged or sent. */
    constructor (token: Option<string>, script: seq<Response>)
      ensures this.token == token && this.script == script
      ensures publicApiWarnings && warnings == 0 && sent == []
      ensures WarnedAtMostOnce()
    {
      this.token := token;
      this.script := script;
      publicApiWarnings := true;
      warnings := 0;
      sent := [];
    }

    /** `get(path, params)`: the Bearer header when a token is configured;
        otherwise a warning while the flag is set, which the call then clears. */
    method Get(path: string, params: Params) returns (res: Response)
      modifies this
      ensures res == ScriptAt(script, |old(sent)|)
      ensures sent == old(sent) + [Request(path, params, Auth(token))]
      ensures publicApiWarnings == (old(publicApiWarnings) && token.Some?)
      ensures warnings == old(warnings) + (if token.None? && old(publicApiWarnings) then 1 else 0)
      ensures old(WarnedAtMostOnce()) ==> WarnedAtMostOnce()
    {
      res := ScriptAt(script, |sent|);
      if token.None? {
        if publicApiWarnings {
          warnings := warnings + 1;
          publicApiWarnings := false;
        }
      }
      sent := sent + [Request(path, params, Auth(token))];
    }
  }

  /** The loader's `get` (whose `first_get` is cleared by every call) and this
      one (whose flag is cleared only by a token-less call) log the same
      warnings and send the same requests: when the flags agree on a token-less
      configuration, a call keeps them in agreement. So the loops of this
      module are the shared ones, written with the loader's `Fetch`. */
  lemma GetAgreesWithLoader(c: Config, e: Env, flag: bool, path: string, params: Params)
    requires c.token.None? ==> flag == e.firstGet
    ensures var (e', res) := Fetch(c, e, path, params);
            var flag' := flag && c.token.Some?;
            res == ScriptAt(c.script, |e.sent|) &&
            e'.sent == e.sent + [Request(path, params, Auth(c.token))] &&
            e'.warnings == e.warnings + (if c.token.None? && flag then 1 else 0) &&
            (c.token.None? ==> flag' == e'.firstGet)
  {
  }

  // ----- set_posts_param_modified_after -----

  /** The watermark of one `load_posts` call, a local: the argument when it is
      set; with no purge, no full run and no argument, the `modified` of the
      latest stored post of the type, whatever its status. */
  function WpWatermark(posts: map<Key, PostRecord>, purgeFirst: bool, full: bool, modifiedAfter: Option<int>,
                       postType: string): Option<int>
  {
    if !purgeFirst && !full && modifiedAfter.None? then LatestModified(posts, postType, None)
    else modifiedAfter
  }

  /** The derived watermark ignores the status: it is the latest `modified` of
      all the stored posts of the type, and None when there is none. */
  lemma WpWatermarkAnyStatus(posts: map<Key, PostRecord>, postType: string)
    ensures var m := WpWatermark(posts, false, false, None, postType);
            (m.None? <==> forall k :: k in posts ==> posts[k].postType != postType) &&
            (m.Some? ==> (exists k :: k in posts && posts[k].postType == postType && posts[k].modified == m.value) &&
                         forall k :: k in posts && posts[k].postType == postType ==> posts[k].modified <= m.value)
  {
    var m := LatestModified(posts, postType, None);
    assert forall k :: k in posts ==> (WatermarkMatch(posts[k], postType, None) <==> posts[k].postType == postType);
  }

  /** The first page's arguments: 100 posts of the type; no status. */
  function WpPostsParams(postType: string, m: Option<int>): (r: Params)
    ensures r.Keys == {"number", "type"} + (if m.Some? then {"modified_after"} else {})
    ensures r["number"] == VInt(100) && r["type"] == VStr(postType)
    ensures m.Some? ==> r["modified_after"] == VInt(m.value)
  {
    WithModifiedAfter(map["number" := VInt(100), "type" := VStr(postType)], m)
  }

  // ----- load_wp_post -----

  /** `load_wp_post`: the author, then the upsert of the post, then the sweep
      for posts of type "post"; the category, tag and attachment helpers are
      never called, so the relation maps are left as they were. */
  function WpLoadWpPost(c: Config, tb: Tables, e: Env, buf: Buffers, p: ApiPost, bulk: bool): (Env, Buffers)
  {
    var (author, e1) := PostAuthor(c, tb.author, e, p, bulk);
    var (e2, buf') := UpsertPost(c, tb.post, e1, buf, p, author, bulk);
    (if p.postType == "post" then Sweep(c, e2, p) else e2, buf')
  }

  /** Relation maps with no entry at all, as every buffer of this module has. */
  predicate NoRelations(buf: Buffers)
  {
    buf.categories == map[] && buf.tags == map[] && buf.attachments == map[]
  }

  /** The maps stay empty. */
  lemma WpLoadKeepsNoRelations(c: Config, tb: Tables, e: Env, buf: Buffers, p: ApiPost, bulk: bool)
    requires NoRelations(buf)
    ensures NoRelations(WpLoadWpPost(c, tb, e, buf, p, bulk).1)
  {
  }

  /** So an existing post loses all its categories, tags and attachments (in
      either mode), while its attributes are overwritten from the API. */
  lemma WpExistingPostLosesRelations(c: Config, tb: Tables, e: Env, buf: Buffers, p: ApiPost, bulk: bool)
    requires NoRelations(buf) && Key(c.site, p.id) in e.db.posts
    ensures var e' := WpLoadWpPost(c, tb, e, buf, p, bulk).0;
            var key := Key(c.site, p.id);
            key in e'.db.posts &&
            e'.db.posts[key].categories == {} && e'.db.posts[key].tags == {} && e'.db.posts[key].attachments == {} &&
            e'.db.posts[key].scalars == ObjectData(tb.post, p.data) && e'.db.posts[key].modified == p.modified
  {
    var key := Key(c.site, p.id);
    var (author, e1) := PostAuthor(c, tb.author, e, p, bulk);
    var (e2, buf') := UpsertPost(c, tb.post, e1, buf, p, author, bulk);
    assert e2.db.posts[key] == ExistingPost(tb.post, e1.db.posts[key], p, author, buf);
    if p.postType == "post" {
      SweepOnlyDeletesChildren(c, e2, p);
      assert !IsChildAttachment(e2.db.posts[key], p.id);
    }
  }

  /** A post loaded on its own (`load_wp_api_one_post`) is stored with its
      attributes and author but no category, tag or attachment, whatever the
      API lists. */
  lemma WpSingleLoadUnrelated(c: Config, tb: Tables, e: Env, p: ApiPost)
    ensures var e' := WpLoadWpPost(c, tb, e, NoBuffers, p, false).0;
            var key := Key(c.site, p.id);
            key in e'.db.posts &&
            e'.db.posts[key] == PostRecord(if p.author.id == 0 then None else Some(Key(c.site, p.author.id)),
                                           p.modified, p.postType, p.status, p.parent, ObjectData(tb.post, p.data), {}, {}, {})
  {
    var key := Key(c.site, p.id);
    var (author, e1) := PostAuthor(c, tb.author, e, p, false);
    SingleUpsertStores(c, tb.post, e1, NoBuffers, p, author);
    var e2 := UpsertPost(c, tb.post, e1, NoBuffers, p, author, false).0;
    if p.postType == "post" {
      SweepOnlyDeletesChildren(c, e2, p);
      assert !IsChildAttachment(e2.db.posts[key], p.id);
    }
  }

  /** `bulk_create_posts` with empty maps relates nothing: it only inserts. */
  lemma BulkCreateWithoutRelations(site: int, posts: map<Key, PostRecord>, buf: Buffers)
    requires NoRelations(buf)
    requires forall n :: n in buf.posts ==> n.record.categories == {} && n.record.tags == {} && n.record.attachments == {}
    ensures var r := BulkCreatePosts(site, posts, buf);
            r.Keys == posts.Keys + set n | n in buf.posts :: Key(site, n.wpId)
    ensures var r := BulkCreatePosts(site, posts, buf);
            forall k :: k in r && k !in posts ==> r[k].categories == {} && r[k].tags == {} && r[k].attachments == {}
  {
    var ins := InsertPosts(site, posts, buf.posts);
    InsertPostsSpec(site, posts, buf.posts);
    forall k | k in ins && k !in posts
      ensures ins[k].categories == {} && ins[k].tags == {} && ins[k].attachments == {}
    {
      InsertedFromBuffer(site, posts, buf.posts, k);
    }
  }

  /** A row that was not there before any insert comes from the buffer. */
  lemma {:induction false} InsertedFromBuffer(site: int, posts: map<Key, PostRecord>, news: seq<NewPost>, k: Key)
    requires k in InsertPosts(site, posts, news) && k !in posts
    ensures exists n :: n in news && InsertPosts(site, posts, news)[k] == n.record
    decreases |news|
  {
    var n := news[0];
    var posts1 := posts[Key(site, n.wpId) := n.record];
    if k in posts1 && k !in posts {
      if k in InsertPosts(site, posts1, news[1..]) && InsertPosts(site, posts1, news[1..])[k] == posts1[k] {
        assert InsertPosts(site, posts, news)[k] == n.record;
      } else {
        InsertedOrKept(site, posts1, news[1..], k);
        assert news[1..][0] in news;
        var m :| m in news[1..] && InsertPosts(site, posts1, news[1..])[k] == m.record;
        assert m in news;
      }
    } else {
      InsertedFromBuffer(site, posts1, news[1..], k);
      var m :| m in news[1..] && InsertPosts(site, posts1, news[1..])[k] == m.record;
      assert m in news;
    }
  }

  /** A row after the inserts is the earlier row or comes from the buffer. */
  lemma {:induction false} InsertedOrKept(site: int, posts: map<Key, PostRecord>, news: seq<NewPost>, k: Key)
    requires k in InsertPosts(site, posts, news)
    requires !(k in posts && InsertPosts(site, posts, news)[k] == posts[k])
    ensures exists n :: n in news && InsertPosts(site, posts, news)[k] == n.record
    decreases |news|
  {
    var n := news[0];
    var posts1 := posts[Key(site, n.wpId) := n.record];
    if k in posts1 && InsertPosts(site, posts1, news[1..])[k] == posts1[k] {
      assert k == Key(site, n.wpId);
    } else {
      InsertedOrKept(site, posts1, news[1..], k);
      var m :| m in news[1..] && InsertPosts(site, posts1, news[1..])[k] == m.record;
      assert m in news;
    }
  }

  // ----- process_posts and load_posts -----

  /** The posts of a page, each through `load_wp_post` in bulk mode. */
  function WpLoadAll(c: Config, tb: Tables, e: Env, buf: Buffers, ps: seq<ApiPost>): (Env, Buffers)
    decreases |ps|
  {
    if ps == [] then (e, buf)
    else
      var (e1, buf1) := WpLoadWpPost(c, tb, e, buf, ps[0], true);
      WpLoadAll(c, tb, e1, buf1, ps[1..])
  }

  /** One page of `process_posts`. */
  function WpLoadPostsPage(c: Config, tb: Tables, e: Env, ps: seq<ApiPost>): Env
  {
    var (e1, buf) := WpLoadAll(c, tb, e, NoBuffers, ps);
    if buf.posts != [] then e1.(db := e1.db.(posts := BulkCreatePosts(c.site, e1.db.posts, buf))) else e1
  }

  function WpPager(c: Config, tb: Tables): PostsApply
  {
    (e: Env, ps: seq<ApiPost>) => WpLoadPostsPage(c, tb, e, ps)
  }

  /** `load_posts(site_id, ref_data_map, max_pages, purge_first, full,
      modified_after, post_type)`: the arguments are the loading variables of
      `e`, which nothing here changes. */
  function WpLoadPosts(c: Config, tb: Tables, e: Env, postType: Option<string>, maxPages: nat): PostsEnd
  {
    var e1 := if e.purgeFirst then e.(db := e.db.(posts := PurgePosts(e.db.posts, c.site, postType))) else e;
    var pt := PostTypeOrDefault(postType);
    var params := WpPostsParams(pt, WpWatermark(e1.db.posts, e.purgeFirst, e.full, e.modifiedAfter, pt));
    var path := SitePath(c.site, "posts");
    var (e2, res) := Fetch(c, e1, path, params);
    PostsLoop(c, path, WpPager(c, tb), maxPages, res, 1, params, e2)
  }

  /** Each call derives its watermark afresh from its own post type and the
      store as it is then, and sends it with the first request; the loader's
      stored watermark is never consulted nor set. */
  lemma WpLoadPostsFirstRequest(c: Config, tb: Tables, e: Env, postType: Option<string>, maxPages: nat)
    ensures var r := WpLoadPosts(c, tb, e, postType, maxPages);
            var e1 := if e.purgeFirst then e.(db := e.db.(posts := PurgePosts(e.db.posts, c.site, postType))) else e;
            var pt := PostTypeOrDefault(postType);
            |e.sent| < |r.env.sent| &&
            r.env.sent[|e.sent|] ==
              Request(SitePath(c.site, "posts"), WpPostsParams(pt, WpWatermark(e1.db.posts, e.purgeFirst, e.full, e.modifiedAfter, pt)),
                      Auth(c.token)) &&
            r.env.modifiedAfter == e.modifiedAfter && |r.pages| <= (if maxPages > 1 then maxPages - 1 else 0)
  {
    var e1 := if e.purgeFirst then e.(db := e.db.(posts := PurgePosts(e.db.posts, c.site, postType))) else e;
    var pt := PostTypeOrDefault(postType);
    var params := WpPostsParams(pt, WpWatermark(e1.db.posts, e.purgeFirst, e.full, e.modifiedAfter, pt));
    var path := SitePath(c.site, "posts");
    var (e2, res) := Fetch(c, e1, path, params);
    WpPagerAppendsOnly(c, tb);
    PostsLoopExtends(c, path, WpPager(c, tb), maxPages, res, 1, params, e2);
    PostsLoopBudget(c, path, WpPager(c, tb), maxPages, res, 1, params, e2);
    WpPagerKeepsLoadingVars(c, tb);
    PostsLoopKeepsWatermark(c, path, WpPager(c, tb), maxPages, res, 1, params, e2);
    var after := PostsLoop(c, path, WpPager(c, tb), maxPages, res, 1, params, e2).env.sent;
    assert after[|e.sent|] == after[..|e2.sent|][|e.sent|];
  }

  /** The page processor only appends to the log. */
  lemma WpPagerAppendsOnly(c: Config, tb: Tables)
    ensures AppendsOnly(WpPager(c, tb))
  {
    forall e: Env, ps: seq<ApiPost> ensures Extends(e.sent, WpPager(c, tb)(e, ps).sent) {
      WpLoadAllExtends(c, tb, e, NoBuffers, ps);
    }
  }

  lemma {:induction false} WpLoadAllExtends(c: Config, tb: Tables, e: Env, buf: Buffers, ps: seq<ApiPost>)
    ensures Extends(e.sent, WpLoadAll(c, tb, e, buf, ps).0.sent)
    decreases |ps|
  {
    if ps == [] {
      assert e.sent[..|e.sent|] == e.sent;
    } else {
      var (e1, buf1) := WpLoadWpPost(c, tb, e, buf, ps[0], true);
      WpLoadWpPostFrame(c, tb, e, buf, ps[0]);
      WpLoadAllExtends(c, tb, e1, buf1, ps[1..]);
      ExtendsTrans(e.sent, e1.sent, WpLoadAll(c, tb, e1, buf1, ps[1..]).0.sent);
    }
  }

  /** The page processor keeps the loading variables. */
  lemma WpPagerKeepsLoadingVars(c: Config, tb: Tables)
    ensures KeepsLoadingVars(WpPager(c, tb))
  {
    forall e: Env, ps: seq<ApiPost>
      ensures var e' := WpPager(c, tb)(e, ps);
              e'.modifiedAfter == e.modifiedAfter && e'.purgeFirst == e.purgeFirst && e'.full == e.full
    {
      WpLoadAllKeepsLoadingVars(c, tb, e, NoBuffers, ps);
    }
  }

  lemma {:induction false} WpLoadAllKeepsLoadingVars(c: Config, tb: Tables, e: Env, buf: Buffers, ps: seq<ApiPost>)
    ensures var e' := WpLoadAll(c, tb, e, buf, ps).0;
            e'.modifiedAfter == e.modifiedAfter && e'.purgeFirst == e.purgeFirst && e'.full == e.full
    decreases |ps|
  {
    if ps != [] {
      var (e1, buf1) := WpLoadWpPost(c, tb, e, buf, ps[0], true);
      WpLoadWpPostFrame(c, tb, e, buf, ps[0]);
      WpLoadAllKeepsLoadingVars(c, tb, e1, buf1, ps[1..]);
    }
  }

  /** `load_wp_post` in bulk mode keeps the loading variables and only appends
      to the log. */
  lemma WpLoadWpPostFrame(c: Config, tb: Tables, e: Env, buf: Buffers, p: ApiPost)
    ensures var e' := WpLoadWpPost(c, tb, e, buf, p, true).0;
            e'.modifiedAfter == e.modifiedAfter && e'.purgeFirst == e.purgeFirst && e'.full == e.full &&
            Extends(e.sent, e'.sent)
  {
    var (author, e1) := PostAuthor(c, tb.author, e, p, true);
    var (e2, buf') := UpsertPost(c, tb.post, e1, buf, p, author, true);
    assert e.sent[..|e.sent|] == e.sent;
    if p.postType == "post" {
      SweepFrame(c, e2, p);
      SweepRequests(c, e2, p);
    }
  }

  // ----- the channel and slideshow helpers -----

  /** The resolved objects (their rows in the reference map) of a list, in
      order: the rows behind the keys `ResolveAll` collects. */
  function ResolvedRows(c: Config, kind: Kind, fs: seq<FieldSpec>, e: Env, rs: seq<ApiRef>, bulk: bool): (rows: seq<Fields>)
    ensures |rows| == |ResolveAll(c, kind, fs, e, rs, bulk).0|
    decreases |rs|
  {
    if rs == [] then []
    else
      var (k, e1) := ResolveRef(c, kind, fs, e, rs[0], bulk);
      (if k.Some? then [e1.refs.Table(kind)[rs[0].id]] else []) + ResolvedRows(c, kind, fs, e1, rs[1..], bulk)
  }

  /** One step of the resolution loops, from item `i`. */
  lemma ResolveUnfold(c: Config, kind: Kind, fs: seq<FieldSpec>, e: Env, rs: seq<ApiRef>, i: nat, bulk: bool)
    requires i < |rs|
    ensures var (k, e1) := ResolveRef(c, kind, fs, e, rs[i], bulk);
            (k.Some? ==> rs[i].id in e1.refs.Table(kind)) &&
            ResolveAll(c, kind, fs, e, rs[i..], bulk).0 ==
              (if k.Some? then [k.value] else []) + ResolveAll(c, kind, fs, e1, rs[i + 1..], bulk).0 &&
            ResolveAll(c, kind, fs, e, rs[i..], bulk).1 == ResolveAll(c, kind, fs, e1, rs[i + 1..], bulk).1 &&
            ResolvedRows(c, kind, fs, e, rs[i..], bulk) ==
              (if k.Some? then [e1.refs.Table(kind)[rs[i].id]] else []) + ResolvedRows(c, kind, fs, e1, rs[i + 1..], bulk)
  {
    assert rs[i..][0] == rs[i] && rs[i..][1..] == rs[i + 1..];
  }

  function Slug(row: Fields): Value
  {
    Get(row, "slug")
  }

  /** Some row carries the magic slug "slideshow". */
  predicate AnySlideshow(rows: seq<Fields>)
  {
    exists i :: 0 <= i < |rows| && Slug(rows[i]) == VStr("slideshow")
  }

  /** A resolved category the lookup is made for: anything but the root
      "channel" node. */
  predicate Candidate(row: Fields)
  {
    Slug(row) != VStr("channel")
  }

  /** `lookup.get(slug)`. */
  function LookupGet(lookup: map<Value, int>, slug: Value): Option<int>
  {
    if slug in lookup then Some(lookup[slug]) else None
  }

  /** Python truthiness of a looked-up channel: None and 0 are falsy. */
  predicate Truthy(ch: Option<int>)
  {
    ch.Some? && ch.value != 0
  }

  /** A category row that settles the channel: a candidate whose lookup is truthy. */
  predicate ChannelHit(row: Fields, lookup: map<Value, int>)
  {
    Candidate(row) && Truthy(LookupGet(lookup, Slug(row)))
  }

  predicate AnyCandidate(rows: seq<Fields>)
  {
    exists i :: 0 <= i < |rows| && Candidate(rows[i])
  }

  /** What `if not channel: channel = lookup.get(slug)` leaves after the rows,
      from an unset channel: the first truthy lookup; failing that, the lookup
      of the last candidate (None or a falsy 0); None without candidates. */
  function FirstChannel(rows: seq<Fields>, lookup: map<Value, int>): Option<int>
    decreases |rows|
  {
    if rows == [] then None
    else if ChannelHit(rows[0], lookup) then LookupGet(lookup, Slug(rows[0]))
    else if AnyCandidate(rows[1..]) then FirstChannel(rows[1..], lookup)
    else if Candidate(rows[0]) then LookupGet(lookup, Slug(rows[0]))
    else None
  }

  /** The channel is truthy exactly when some row hits, and then it is the
      lookup of the earliest hit; otherwise it is None or 0, and 0 exactly when
      the last candidate looks up 0. */
  lemma FirstChannelSpec(rows: seq<Fields>, lookup: map<Value, int>)
    ensures Truthy(FirstChannel(rows, lookup)) <==> exists i :: 0 <= i < |rows| && ChannelHit(rows[i], lookup)
    ensures Truthy(FirstChannel(rows, lookup)) ==>
              exists i :: 0 <= i < |rows| && ChannelHit(rows[i], lookup) &&
                          FirstChannel(rows, lookup) == LookupGet(lookup, Slug(rows[i])) &&
                          forall j :: 0 <= j < i ==> !ChannelHit(rows[j], lookup)
    ensures !Truthy(FirstChannel(rows, lookup)) ==>
              (FirstChannel(rows, lookup).None? || FirstChannel(rows, lookup) == Some(0)) &&
              (FirstChannel(rows, lookup) == Some(0) <==>
                 exists i :: 0 <= i < |rows| && Candidate(rows[i]) && LookupGet(lookup, Slug(rows[i])) == Some(0) &&
                             forall j :: i < j < |rows| ==> !Candidate(rows[j]))
  {
    FirstHitSpec(rows, lookup);
    FalsyChannelSpec(rows, lookup);
  }

  /** The truthy half of `FirstChannelSpec`. */
  lemma {:induction false} FirstHitSpec(rows: seq<Fields>, lookup: map<Value, int>)
    ensures Truthy(FirstChannel(rows, lookup)) <==> exists i :: 0 <= i < |rows| && ChannelHit(rows[i], lookup)
    ensures Truthy(FirstChannel(rows, lookup)) ==>
              exists i :: 0 <= i < |rows| && ChannelHit(rows[i], lookup) &&
                          FirstChannel(rows, lookup) == LookupGet(lookup, Slug(rows[i])) &&
                          forall j :: 0 <= j < i ==> !ChannelHit(rows[j], lookup)
    decreases |rows|
  {
    if rows != [] {
      var rest := rows[1..];
      FirstHitSpec(rest, lookup);
      assert forall i :: 1 <= i < |rows| ==> rows[i] == rest[i - 1];
      if !ChannelHit(rows[0], lookup) {
        if !AnyCandidate(rest) {
          forall i | 0 <= i < |rest| ensures !ChannelHit(rest[i], lookup) {
          }
        }
        if Truthy(FirstChannel(rows, lookup)) {
          assert AnyCandidate(rest);
          var i :| 0 <= i < |rest| && ChannelHit(rest[i], lookup) &&
                   FirstChannel(rest, lookup) == LookupGet(lookup, Slug(rest[i])) &&
                   forall j :: 0 <= j < i ==> !ChannelHit(rest[j], lookup);
          assert ChannelHit(rows[i + 1], lookup);
          assert forall j :: 0 <= j < i + 1 ==> !ChannelHit(rows[j], lookup) by {
            forall j | 0 <= j < i + 1 ensures !ChannelHit(rows[j], lookup) {
              if j > 0 {
                assert rows[j] == rest[j - 1];
              }
            }
          }
        }
      }
    }
  }

  /** The falsy half of `FirstChannelSpec`. */
  lemma {:induction false} FalsyChannelSpec(rows: seq<Fields>, lookup: map<Value, int>)
    ensures !Truthy(FirstChannel(rows, lookup)) ==>
              (FirstChannel(rows, lookup).None? || FirstChannel(rows, lookup) == Some(0)) &&
              (FirstChannel(rows, lookup) == Some(0) <==>
                 exists i :: 0 <= i < |rows| && Candidate(rows[i]) && LookupGet(lookup, Slug(rows[i])) == Some(0) &&
                             forall j :: i < j < |rows| ==> !Candidate(rows[j]))
    decreases |rows|
  {
    if rows != [] && !Truthy(FirstChannel(rows, lookup)) {
      var rest := rows[1..];
      FalsyChannelSpec(rest, lookup);
      assert forall i :: 1 <= i < |rows| ==> rows[i] == rest[i - 1];
      if !ChannelHit(rows[0], lookup) {
        if AnyCandidate(rest) {
          var k :| 0 <= k < |rest| && Candidate(rest[k]);
          assert Candidate(rows[k + 1]);
          if FirstChannel(rows, lookup) == Some(0) {
            var i :| 0 <= i < |rest| && Candidate(rest[i]) && LookupGet(lookup, Slug(rest[i])) == Some(0) &&
                     forall j :: i < j < |rest| ==> !Candidate(rest[j]);
            assert Candidate(rows[i + 1]) && forall j :: i + 1 < j < |rows| ==> !Candidate(rows[j]);
          } else {
            forall i | 0 <= i < |rows| && Candidate(rows[i]) && LookupGet(lookup, Slug(rows[i])) == Some(0)
              ensures exists j :: i < j < |rows| && Candidate(rows[j])
            {
              if i == 0 {
                assert Candidate(rows[k + 1]);
              } else {
                assert rest[i - 1] == rows[i];
                var j :| i - 1 < j < |rest| && Candidate(rest[j]);
                assert Candidate(rows[j + 1]);
              }
            }
          }
        } else {
          forall j | 0 < j < |rows| ensures !Candidate(rows[j]) {
            assert rows[j] == rest[j - 1];
          }
        }
      }
    }
  }

  lemma AnySlideshowCons(row: Fields, rest: seq<Fields>)
    ensures AnySlideshow([row] + rest) <==> Slug(row) == VStr("slideshow") || AnySlideshow(rest)
  {
    assert ([row] + rest)[0] == row;
    assert forall j :: 0 <= j < |rest| ==> ([row] + rest)[j + 1] == rest[j];
    if AnySlideshow([row] + rest) && Slug(row) != VStr("slideshow") {
      var j :| 0 <= j < |[row] + rest| && Slug(([row] + rest)[j]) == VStr("slideshow");
      assert rest[j - 1] == ([row] + rest)[j];
    }
  }

  lemma FirstChannelCons(row: Fields, rest: seq<Fields>, lookup: map<Value, int>)
    ensures FirstChannel([row] + rest, lookup) ==
            if ChannelHit(row, lookup) then LookupGet(lookup, Slug(row))
            else if AnyCandidate(rest) then FirstChannel(rest, lookup)
            else if Candidate(row) then LookupGet(lookup, Slug(row))
            else None
    ensures AnyCandidate([row] + rest) <==> Candidate(row) || AnyCandidate(rest)
  {
    assert ([row] + rest)[0] == row && ([row] + rest)[1..] == rest;
    assert forall j :: 0 <= j < |rest| ==> ([row] + rest)[j + 1] == rest[j];
    if AnyCandidate([row] + rest) && !Candidate(row) {
      var j :| 0 <= j < |[row] + rest| && Candidate(([row] + rest)[j]);
      assert rest[j - 1] == ([row] + rest)[j];
    }
  }

  /** A candidate that looks up 0 does not settle the channel: a later
      candidate with a truthy lookup still sets it. */
  lemma FalsyLookupKeepsSearching(a: Fields, b: Fields, lookup: map<Value, int>)
    requires Candidate(a) && LookupGet(lookup, Slug(a)) == Some(0)
    requires Candidate(b) && Truthy(LookupGet(lookup, Slug(b)))
    ensures FirstChannel([a, b], lookup) == LookupGet(lookup, Slug(b))
  {
    FirstChannelCons(a, [b], lookup);
    FirstChannelCons(b, [], lookup);
    assert [a, b] == [a] + [b] && [b] == [b] + [];
  }

  /** Without candidates the channel stays unset. */
  lemma NoCandidateNoChannel(rows: seq<Fields>, lookup: map<Value, int>)
    requires !AnyCandidate(rows)
    ensures FirstChannel(rows, lookup) == None
  {
    if rows != [] {
      assert !Candidate(rows[0]);
    }
  }

  /** One iteration of the helpers' loops: resolve item `i`, append its key
      to `ks0`, and hand back its row when it resolves. */
  method ResolveNext(c: Config, kind: Kind, fs: seq<FieldSpec>, e: Env, rs: seq<ApiRef>, i: nat, bulk: bool, ks0: seq<Key>)
    returns (e1: Env, ks: seq<Key>, got: Option<Fields>)
    requires i < |rs|
    ensures ks0 + ResolveAll(c, kind, fs, e, rs[i..], bulk).0 == ks + ResolveAll(c, kind, fs, e1, rs[i + 1..], bulk).0
    ensures ResolveAll(c, kind, fs, e, rs[i..], bulk).1 == ResolveAll(c, kind, fs, e1, rs[i + 1..], bulk).1
    ensures ResolvedRows(c, kind, fs, e, rs[i..], bulk) ==
            (if got.Some? then [got.value] else []) + ResolvedRows(c, kind, fs, e1, rs[i + 1..], bulk)
  {
    ResolveUnfold(c, kind, fs, e, rs, i, bulk);
    var k;
    k, e1 := ResolveRef(c, kind, fs, e, rs[i], bulk).0, ResolveRef(c, kind, fs, e, rs[i], bulk).1;
    ghost var rest := ResolveAll(c, kind, fs, e1, rs[i + 1..], bulk).0;
    if k.Some? {
      assert ks0 + ([k.value] + rest) == (ks0 + [k.value]) + rest;
      ks := ks0 + [k.value];
      got := Some(e1.refs.Table(kind)[rs[i].id]);
    } else {
      assert [] + rest == rest;
      ks := ks0;
      got := None;
    }
  }

  /** One iteration of `process_post_tags`: resolve tag `i`, append it, and
      raise the flag on the "slideshow" tag; whether the flag ends up raised is
      the same before and after. */
  method TagIteration(c: Config, tb: Tables, e: Env, rs: seq<ApiRef>, i: nat, bulk: bool, ks0: seq<Key>, flag0: bool)
    returns (e1: Env, ks: seq<Key>, flag: bool)
    requires i < |rs|
    ensures ks0 + ResolveAll(c, Tag, tb.tag, e, rs[i..], bulk).0 == ks + ResolveAll(c, Tag, tb.tag, e1, rs[i + 1..], bulk).0
    ensures ResolveAll(c, Tag, tb.tag, e, rs[i..], bulk).1 == ResolveAll(c, Tag, tb.tag, e1, rs[i + 1..], bulk).1
    ensures (flag0 || AnySlideshow(ResolvedRows(c, Tag, tb.tag, e, rs[i..], bulk))) ==
            (flag || AnySlideshow(ResolvedRows(c, Tag, tb.tag, e1, rs[i + 1..], bulk)))
  {
    var tag;
    e1, ks, tag := ResolveNext(c, Tag, tb.tag, e, rs, i, bulk, ks0);
    ghost var rest := ResolvedRows(c, Tag, tb.tag, e1, rs[i + 1..], bulk);
    flag := flag0;
    if tag.Some? {
      AnySlideshowCons(tag.value, rest);
      if Slug(tag.value) == VStr("slideshow") {
        flag := true;
      }
    } else {
      assert [] + rest == rest;
    }
  }

  /** `process_post_tags`: resolve each tag, collect the resolved ones for the
      post, and report whether one of them is the "slideshow" tag. */
  method ProcessPostTags(c: Config, tb: Tables, e: Env, p: ApiPost, bulk: bool, postTags: map<int, seq<Key>>)
    returns (e': Env, postTags': map<int, seq<Key>>, isSlideshow: bool)
    ensures p.id in postTags' && (postTags'[p.id], e') == ResolveAll(c, Tag, tb.tag, e, p.tags, bulk)
    ensures postTags' == postTags[p.id := postTags'[p.id]]
    ensures isSlideshow <==> AnySlideshow(ResolvedRows(c, Tag, tb.tag, e, p.tags, bulk))
  {
    var rs := p.tags;
    ghost var all := ResolveAll(c, Tag, tb.tag, e, rs, bulk);
    ghost var rows := ResolvedRows(c, Tag, tb.tag, e, rs, bulk);
    var ks: seq<Key> := [];
    e' := e;
    isSlideshow := false;
    var i := 0;
    assert rs[0..] == rs;
    assert [] + all.0 == all.0;
    while i < |rs|
      invariant 0 <= i <= |rs|
      invariant all == (ks + ResolveAll(c, Tag, tb.tag, e', rs[i..], bulk).0, ResolveAll(c, Tag, tb.tag, e', rs[i..], bulk).1)
      invariant AnySlideshow(rows) == (isSlideshow || AnySlideshow(ResolvedRows(c, Tag, tb.tag, e', rs[i..], bulk)))
    {
      e', ks, isSlideshow := TagIteration(c, tb, e', rs, i, bulk, ks, isSlideshow);
      i := i + 1;
    }
    assert rs[i..] == [];
    assert ks + [] == ks;
    postTags' := postTags[p.id := ks];
  }

  /** What the rest of `process_post_categories` yields from a state: the keys
      collected so far followed by those of `rest`, the state after `rest`, and
      the channel and subchannel already truthy, or else what `rest` leaves
      (unchanged when `rest` has no candidate). */
  function CategoriesOutcome(c: Config, tb: Tables, e: Env, rest: seq<ApiRef>, bulk: bool, ks: seq<Key>,
                             channels: map<Value, int>, subchannels: map<Value, int>, ch: Option<int>, sub: Option<int>)
    : (seq<Key>, Env, Option<int>, Option<int>)
  {
    var all := ResolveAll(c, Category, tb.category, e, rest, bulk);
    var rows := ResolvedRows(c, Category, tb.category, e, rest, bulk);
    (ks + all.0, all.1,
     ChannelAfter(rows, channels, ch), ChannelAfter(rows, subchannels, sub))
  }

  /** What the `if not channel` chain leaves after `rows`, from `ch`: a truthy
      channel stays, and so does any channel when no row is a candidate;
      otherwise the rows decide as `FirstChannel` says. */
  function ChannelAfter(rows: seq<Fields>, lookup: map<Value, int>, ch: Option<int>): Option<int>
  {
    if Truthy(ch) || !AnyCandidate(rows) then ch else FirstChannel(rows, lookup)
  }

  /** The channel test of one loop iteration, for the resolved category `got`. */
  function ChannelStep(got: Option<Fields>, lookup: map<Value, int>, ch: Option<int>): Option<int>
  {
    if got.Some? && Candidate(got.value) && !Truthy(ch) then LookupGet(lookup, Slug(got.value)) else ch
  }

  /** One iteration keeps what is left to find. */
  lemma ChannelStepKeeps(got: Option<Fields>, rest: seq<Fields>, lookup: map<Value, int>, ch: Option<int>)
    ensures ChannelAfter((if got.Some? then [got.value] else []) + rest, lookup, ch) ==
            ChannelAfter(rest, lookup, ChannelStep(got, lookup, ch))
  {
    if got.Some? {
      FirstChannelCons(got.value, rest, lookup);
    } else {
      assert [] + rest == rest;
    }
  }

  /** One iteration of `process_post_categories`: resolve category `i`,
      append it, and look the channel and subchannel up for it while they are
      falsy; what is left to find is the same before and after. */
  method CategoryIteration(c: Config, tb: Tables, e: Env, rs: seq<ApiRef>, i: nat, bulk: bool, ks0: seq<Key>,
                           channels: map<Value, int>, subchannels: map<Value, int>, ch0: Option<int>, sub0: Option<int>)
    returns (e1: Env, ks: seq<Key>, ch: Option<int>, sub: Option<int>)
    requires i < |rs|
    ensures CategoriesOutcome(c, tb, e, rs[i..], bulk, ks0, channels, subchannels, ch0, sub0) ==
            CategoriesOutcome(c, tb, e1, rs[i + 1..], bulk, ks, channels, subchannels, ch, sub)
  {
    var category;
    e1, ks, category := ResolveNext(c, Category, tb.category, e, rs, i, bulk, ks0);
    ghost var rest := ResolvedRows(c, Category, tb.category, e1, rs[i + 1..], bulk);
    ch, sub := ch0, sub0;
    if category.Some? {
      var slug := Slug(category.value);
      if slug != VStr("channel") {
        if !Truthy(ch) {
          ch := LookupGet(channels, slug);
        }
        if !Truthy(sub) {
          sub := LookupGet(subchannels, slug);
        }
      }
    }
    assert ch == ChannelStep(category, channels, ch0) && sub == ChannelStep(category, subchannels, sub0);
    ChannelStepKeeps(category, rest, channels, ch0);
    ChannelStepKeeps(category, rest, subchannels, sub0);
  }

  /** `process_post_categories`: resolve each category, collect the resolved
      ones for the post, and take the channel and the subchannel independently,
      each as `FirstChannel` of the resolved categories in its map. */
  method ProcessPostCategories(c: Config, tb: Tables, e: Env, p: ApiPost, bulk: bool, postCategories: map<int, seq<Key>>,
                               channels: map<Value, int>, subchannels: map<Value, int>)
    returns (e': Env, postCategories': map<int, seq<Key>>, channel: Option<int>, subchannel: Option<int>)
    ensures p.id in postCategories' && (postCategories'[p.id], e') == ResolveAll(c, Category, tb.category, e, p.categories, bulk)
    ensures postCategories' == postCategories[p.id := postCategories'[p.id]]
    ensures channel == FirstChannel(ResolvedRows(c, Category, tb.category, e, p.categories, bulk), channels)
    ensures subchannel == FirstChannel(ResolvedRows(c, Category, tb.category, e, p.categories, bulk), subchannels)
  {
    var rs := p.categories;
    ghost var goal := CategoriesOutcome(c, tb, e, rs, bulk, [], channels, subchannels, None, None);
    var ks: seq<Key> := [];
    e' := e;
    channel, subchannel := None, None;
    var i := 0;
    assert rs[0..] == rs;
    while i < |rs|
      invariant 0 <= i <= |rs|
      invariant goal == CategoriesOutcome(c, tb, e', rs[i..], bulk, ks, channels, subchannels, channel, subchannel)
    {
      e', ks, channel, subchannel := CategoryIteration(c, tb, e', rs, i, bulk, ks, channels, subchannels, channel, subchannel);
      i := i + 1;
    }
    assert rs[i..] == [];
    assert ks + [] == ks;
    ghost var rows := ResolvedRows(c, Category, tb.category, e, rs, bulk);
    if !AnyCandidate(rows) {
      NoCandidateNoChannel(rows, channels);
      NoCandidateNoChannel(rows, subchannels);
    }
    assert [] + ResolveAll(c, Category, tb.category, e, rs, bulk).0 == ResolveAll(c, Category, tb.category, e, rs, bulk).0;
    postCategories' := postCategories[p.id := ks];
  }

  // ----- load_wp_api -----

  /** One stage of `load_wp_api`: the shared reference loaders and map, and
      this module's `load_posts`. */
  function WpRunStage(c: Config, tb: Tables, s: Stage, e: Env, now: int): Env
  {
    match s
    case LoadRefs(kind) => LoadReference(c, e, kind, DefaultMaxPages(kind), now)
    case MapRefs => GetRefDataMap(c, e, true)
    case LoadPostsOf(t) => WpLoadPosts(c, tb, e, Some(t), 200).env
  }

  function WpRunPlan(c: Config, tb: Tables, plan: seq<Stage>, e: Env, now: int): Env
    decreases |plan|
  {
    if plan == [] then e else WpRunPlan(c, tb, plan[1..], WpRunStage(c, tb, plan[0], e, now), now)
  }

  /** `load_wp_api(site_id, purge_first, full, modified_after, type)`: the type
      defaults to "all" and selects the stages the loader's `load_site` runs
      (the same plan); the arguments travel as the loading variables. */
  function WpLoadWpApi(c: Config, e: Env, purgeFirst: bool, full: bool, modifiedAfter: Option<int>, t: Option<string>, now: int): Env
  {
    var e1 := e.(purgeFirst := purgeFirst, full := full, modifiedAfter := modifiedAfter);
    WpRunPlan(c, LoaderTables(), SitePlan(if t.None? then "all" else t.value), e1, now)
  }

  /** No type means "all". */
  lemma WpTypeDefault(c: Config, e: Env, purgeFirst: bool, full: bool, modifiedAfter: Option<int>, now: int)
    ensures WpLoadWpApi(c, e, purgeFirst, full, modifiedAfter, None, now) ==
            WpLoadWpApi(c, e, purgeFirst, full, modifiedAfter, Some("all"), now)
  {
  }

  /** The arguments are never overwritten: unlike the loader, whose derived
      watermark stays on the object, a run ends with the `modified_after` it
      was given, and the log only grows. */
  lemma WpLoadWpApiKeepsArguments(c: Config, e: Env, purgeFirst: bool, full: bool, modifiedAfter: Option<int>,
                                  t: Option<string>, now: int)
    ensures var e' := WpLoadWpApi(c, e, purgeFirst, full, modifiedAfter, t, now);
            e'.purgeFirst == purgeFirst && e'.full == full && e'.modifiedAfter == modifiedAfter && Extends(e.sent, e'.sent)
  {
    var e1 := e.(purgeFirst := purgeFirst, full := full, modifiedAfter := modifiedAfter);
    assert e.sent[..|e.sent|] == e.sent;
    WpPlanFrame(c, LoaderTables(), SitePlan(if t.None? then "all" else t.value), e1, now);
  }

  lemma {:induction false} WpPlanFrame(c: Config, tb: Tables, plan: seq<Stage>, e: Env, now: int)
    ensures var e' := WpRunPlan(c, tb, plan, e, now);
            e'.purgeFirst == e.purgeFirst && e'.full == e.full && e'.modifiedAfter == e.modifiedAfter && Extends(e.sent, e'.sent)
    decreases |plan|
  {
    if plan == [] {
      assert e.sent[..|e.sent|] == e.sent;
    } else {
      var e1 := WpRunStage(c, tb, plan[0], e, now);
      WpStageFrame(c, tb, plan[0], e, now);
      WpPlanFrame(c, tb, plan[1..], e1, now);
      ExtendsTrans(e.sent, e1.sent, WpRunPlan(c, tb, plan[1..], e1, now).sent);
    }
  }

  lemma WpStageFrame(c: Config, tb: Tables, s: Stage, e: Env, now: int)
    ensures var e' := WpRunStage(c, tb, s, e, now);
            e'.purgeFirst == e.purgeFirst && e'.full == e.full && e'.modifiedAfter == e.modifiedAfter && Extends(e.sent, e'.sent)
  {
    match s
    case LoadRefs(kind) =>
      LoadReferenceRequests(c, e, kind, DefaultMaxPages(kind), now);
      LoadReferenceFrame(c, e, kind, DefaultMaxPages(kind), now);
    case MapRefs =>
      assert e.sent[..|e.sent|] == e.sent;
    case LoadPostsOf(t) =>
      WpLoadPostsFrame(c, tb, e, Some(t), 200);
  }

  lemma WpLoadPostsFrame(c: Config, tb: Tables, e: Env, postType: Option<string>, maxPages: nat)
    ensures var e' := WpLoadPosts(c, tb, e, postType, maxPages).env;
            e'.purgeFirst == e.purgeFirst && e'.full == e.full && e'.modifiedAfter == e.modifiedAfter && Extends(e.sent, e'.sent)
  {
    var e1 := if e.purgeFirst then e.(db := e.db.(posts := PurgePosts(e.db.posts, c.site, postType))) else e;
    var pt := PostTypeOrDefault(postType);
    var params := WpPostsParams(pt, WpWatermark(e1.db.posts, e.purgeFirst, e.full, e.modifiedAfter, pt));
    var path := SitePath(c.site, "posts");
    var (e2, res) := Fetch(c, e1, path, params);
    ExtendsAppend(e1.sent, Request(path, params, Auth(c.token)));
    WpPagerAppendsOnly(c, tb);
    PostsLoopExtends(c, path, WpPager(c, tb), maxPages, res, 1, params, e2);
    ExtendsTrans(e.sent, e2.sent, PostsLoop(c, path, WpPager(c, tb), maxPages, res, 1, params, e2).env.sent);
    WpPagerKeepsLoadingVars(c, tb);
    PostsLoopKeepsWatermark(c, path, WpPager(c, tb), maxPages, res, 1, params, e2);
  }
}
