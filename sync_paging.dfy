/** The posts loop of `load_posts`: one page of posts in bulk mode
    (`process_posts_response`'s body), the paging over `meta.next_page`, the
    watermark of `set_posts_param_modified_after`, and `load_posts` itself. */
module PostPaging {
  import opened Values
  import opened FieldMapper
  import opened Api
  import opened Store
  import opened SyncEnv
  import opened PostSync

  // ----- one page -----

  /** The `for api_post in api_posts` loop: every post loaded in bulk mode into
      the same buffers. */
  function LoadAll(c: Config, tb: Tables, e: Env, buf: Buffers, ps: seq<ApiPost>): (Env, Buffers)
    decreases |ps|
  {
    if ps == [] then (e, buf)
    else
      var (e1, buf1) := LoadWpPost(c, tb, e, buf, ps[0], true);
      LoadAll(c, tb, e1, buf1, ps[1..])
  }

  /** A page of posts: load every post, then insert and relate the buffered ones
      if there are any. */
  function LoadPostsPage(c: Config, tb: Tables, e: Env, ps: seq<ApiPost>): Env
  {
    var (e1, buf) := LoadAll(c, tb, e, NoBuffers, ps);
    if buf.posts != [] then e1.(db := e1.db.(posts := BulkCreatePosts(c.site, e1.db.posts, buf))) else e1
  }

  /** A post of ID `id` is accounted for: stored as a non-attachment, or buffered. */
  predicate Held(site: int, e: Env, buf: Buffers, id: int)
  {
    (Key(site, id) in e.db.posts && e.db.posts[Key(site, id)].postType != "attachment") ||
    exists n :: n in buf.posts && n.wpId == id
  }

  /** Loading a post of another ID keeps a post accounted for: it touches no
      other stored post but by the sweep, which removes attachments only. */
  lemma LoadOtherKeepsHeld(c: Config, tb: Tables, e: Env, buf: Buffers, q: ApiPost, id: int)
    requires Held(c.site, e, buf, id) && q.id != id
    ensures var (e', buf') := LoadWpPost(c, tb, e, buf, q, true); Held(c.site, e', buf', id)
  {
    var (author, e1) := PostAuthor(c, tb.author, e, q, true);
    var (e4, buf1) := ResolveRelations(c, tb, e1, buf, q, true);
    BulkRelations(c, tb, e1, buf, q);
    var (e5, buf2) := UpsertPost(c, tb.post, e4, buf1, q, author, true);
    BulkUpsertBuffers(c, tb.post, e4, buf1, q, author);
    assert Held(c.site, e5, buf2, id) by {
      if exists n :: n in buf.posts && n.wpId == id {
        var n :| n in buf.posts && n.wpId == id;
        assert n in buf2.posts;
      }
    }
    if q.postType == "post" {
      SweepOnlyDeletesChildren(c, e5, q);
    }
  }

  /** Loading a post that is not an attachment accounts for it. */
  lemma LoadHolds(c: Config, tb: Tables, e: Env, buf: Buffers, p: ApiPost)
    requires p.postType != "attachment"
    ensures var (e', buf') := LoadWpPost(c, tb, e, buf, p, true); Held(c.site, e', buf', p.id)
  {
    var (author, e1) := PostAuthor(c, tb.author, e, p, true);
    var (e4, buf1) := ResolveRelations(c, tb, e1, buf, p, true);
    BulkRelations(c, tb, e1, buf, p);
    var (e5, buf2) := UpsertPost(c, tb.post, e4, buf1, p, author, true);
    BulkUpsertBuffers(c, tb.post, e4, buf1, p, author);
    assert Held(c.site, e5, buf2, p.id) by {
      if Key(c.site, p.id) !in e4.db.posts {
        assert buf2.posts[|buf2.posts| - 1].wpId == p.id;
      }
    }
    if p.postType == "post" {
      SweepOnlyDeletesChildren(c, e5, p);
    }
  }

  lemma {:induction false} LoadAllKeepsHeld(c: Config, tb: Tables, e: Env, buf: Buffers, ps: seq<ApiPost>, id: int)
    requires Held(c.site, e, buf, id) && forall q :: q in ps ==> q.id != id
    ensures var (e', buf') := LoadAll(c, tb, e, buf, ps); Held(c.site, e', buf', id)
    decreases |ps|
  {
    if ps != [] {
      var (e1, buf1) := LoadWpPost(c, tb, e, buf, ps[0], true);
      LoadOtherKeepsHeld(c, tb, e, buf, ps[0], id);
      LoadAllKeepsHeld(c, tb, e1, buf1, ps[1..], id);
    }
  }

  /** Within a page of distinct IDs, every post that is not an attachment is
      accounted for at the end of the loop. */
  lemma {:induction false} LoadAllHolds(c: Config, tb: Tables, e: Env, buf: Buffers, ps: seq<ApiPost>)
    requires forall i, j :: 0 <= i < j < |ps| ==> ps[i].id != ps[j].id
    ensures var (e', buf') := LoadAll(c, tb, e, buf, ps);
            forall p :: p in ps && p.postType != "attachment" ==> Held(c.site, e', buf', p.id)
    decreases |ps|
  {
    if ps != [] {
      var (e1, buf1) := LoadWpPost(c, tb, e, buf, ps[0], true);
      LoadAllHolds(c, tb, e1, buf1, ps[1..]);
      if ps[0].postType != "attachment" {
        LoadAllHoldsFirst(c, tb, e, buf, ps);
      }
      assert forall p :: p in ps <==> p == ps[0] || p in ps[1..];
    }
  }

  /** The first post of a page is still held once the rest is processed. */
  lemma LoadAllHoldsFirst(c: Config, tb: Tables, e: Env, buf: Buffers, ps: seq<ApiPost>)
    requires ps != [] && ps[0].postType != "attachment"
    requires forall i, j :: 0 <= i < j < |ps| ==> ps[i].id != ps[j].id
    ensures var (e', buf') := LoadAll(c, tb, e, buf, ps);
            Held(c.site, e', buf', ps[0].id)
  {
    var (e1, buf1) := LoadWpPost(c, tb, e, buf, ps[0], true);
    LoadHolds(c, tb, e, buf, ps[0]);
    forall q | q in ps[1..] ensures q.id != ps[0].id {
      var j :| 0 <= j < |ps[1..]| && ps[1..][j] == q;
      assert ps[j + 1] == q;
    }
    LoadAllKeepsHeld(c, tb, e1, buf1, ps[1..], ps[0].id);
  }

  /** Every post of a page (with distinct IDs) that is not an attachment is
      stored once the page is processed: existing posts are updated in place and
      new ones are inserted by the bulk create. */
  lemma PageStoresPosts(c: Config, tb: Tables, e: Env, ps: seq<ApiPost>)
    requires forall i, j :: 0 <= i < j < |ps| ==> ps[i].id != ps[j].id
    ensures forall p :: p in ps && p.postType != "attachment" ==> Key(c.site, p.id) in LoadPostsPage(c, tb, e, ps).db.posts
  {
    var (e1, buf) := LoadAll(c, tb, e, NoBuffers, ps);
    LoadAllHolds(c, tb, e, NoBuffers, ps);
    if buf.posts != [] {
      InsertPostsSpec(c.site, e1.db.posts, buf.posts);
    }
  }

  // ----- the paging -----

  /** What processing a page does to the state, as the loop sees it. */
  type PostsApply = (Env, seq<ApiPost>) -> Env

  /** `LoadPostsPage` for a loader's site and tables. */
  function Pager(c: Config, tb: Tables): PostsApply
  {
    (e: Env, ps: seq<ApiPost>) => LoadPostsPage(c, tb, e, ps)
  }

  /** How the loop ends: the state reached and the pages it processed, in order. */
  datatype PostsEnd = PostsEnd(env: Env, pages: seq<seq<ApiPost>>)

  /** The `while` loop of `process_posts_response`, from the response for page
      `page` with the arguments `params` of the last request. */
  function PostsLoop(c: Config, path: string, apply: PostsApply, maxPages: nat, res: Response, page: nat, params: Params, e: Env): PostsEnd
    decreases maxPages - page
  {
    if !(res.ok && res.text != "" && page < maxPages) then PostsEnd(e, [])
    else
      var ps := PostsOf(res.json);
      if ps == [] then PostsEnd(e, [])
      else
        var e1 := apply(e, ps);
        var handle := NextPageOf(res.json);
        if !Truthy(handle) then PostsEnd(e1, [ps])
        else
          var params' := params["page_handle" := handle];
          var (e2, res') := Fetch(c, e1, path, params');
          if !res'.ok then PostsEnd(e2, [ps])
          else
            var r := PostsLoop(c, path, apply, maxPages, res', page + 1, params', e2);
            PostsEnd(r.env, [ps] + r.pages)
  }

  /** The budget: from page `page` the loop processes at most
      `max_pages - page` pages (so at most `max_pages - 1` from the first), each
      non-empty, the first being the posts of the response it starts from. */
  lemma {:induction false} PostsLoopBudget(c: Config, path: string, apply: PostsApply, maxPages: nat, res: Response, page: nat, params: Params, e: Env)
    ensures var r := PostsLoop(c, path, apply, maxPages, res, page, params, e);
            |r.pages| <= (if page < maxPages then maxPages - page else 0) &&
            (forall i :: 0 <= i < |r.pages| ==> r.pages[i] != []) &&
            (r.pages != [] ==> r.pages[0] == PostsOf(res.json))
    decreases maxPages - page
  {
    if res.ok && res.text != "" && page < maxPages && PostsOf(res.json) != [] {
      var e1 := apply(e, PostsOf(res.json));
      var handle := NextPageOf(res.json);
      if Truthy(handle) {
        var params' := params["page_handle" := handle];
        var (e2, res') := Fetch(c, e1, path, params');
        if res'.ok {
          PostsLoopBudget(c, path, apply, maxPages, res', page + 1, params', e2);
        }
      }
    }
  }

  /** The loop stops without processing when the response failed, is empty, the
      budget is spent, or the listing has no posts. */
  lemma PostsLoopStops(c: Config, path: string, apply: PostsApply, maxPages: nat, res: Response, page: nat, params: Params, e: Env)
    requires !res.ok || res.text == "" || page >= maxPages || PostsOf(res.json) == []
    ensures PostsLoop(c, path, apply, maxPages, res, page, params, e) == PostsEnd(e, [])
  {
  }

  /** Without `meta.next_page` the loop processes the page and makes no further
      request. */
  lemma PostsLastPage(c: Config, path: string, apply: PostsApply, maxPages: nat, res: Response, page: nat, params: Params, e: Env)
    requires res.ok && res.text != "" && page < maxPages && PostsOf(res.json) != []
    requires !Truthy(NextPageOf(res.json))
    ensures PostsLoop(c, path, apply, maxPages, res, page, params, e) == PostsEnd(apply(e, PostsOf(res.json)), [PostsOf(res.json)])
  {
  }

  /** A page processor that only appends to the request log. */
  ghost predicate AppendsOnly(apply: PostsApply)
  {
    forall e: Env, ps: seq<ApiPost> :: Extends(e.sent, apply(e, ps).sent)
  }

  /** With such a processor the loop only appends to the log. */
  lemma {:induction false} PostsLoopExtends(c: Config, path: string, apply: PostsApply, maxPages: nat, res: Response, page: nat, params: Params, e: Env)
    requires AppendsOnly(apply)
    ensures Extends(e.sent, PostsLoop(c, path, apply, maxPages, res, page, params, e).env.sent)
    decreases maxPages - page
  {
    if res.ok && res.text != "" && page < maxPages && PostsOf(res.json) != [] {
      var e1 := apply(e, PostsOf(res.json));
      var handle := NextPageOf(res.json);
      if Truthy(handle) {
        var params' := params["page_handle" := handle];
        var (e2, res') := Fetch(c, e1, path, params');
        ExtendsAppend(e1.sent, Request(path, params', Auth(c.token)));
        ExtendsTrans(e.sent, e1.sent, e2.sent);
        if res'.ok {
          PostsLoopExtends(c, path, apply, maxPages, res', page + 1, params', e2);
          ExtendsTrans(e.sent, e2.sent, PostsLoop(c, path, apply, maxPages, res', page + 1, params', e2).env.sent);
        }
      }
    }
  }

  /** The next-page request: right after processing a page whose listing has
      `meta.next_page`, the loop asks for the same path with the arguments of the
      last request and `page_handle` set to that value, verbatim. */
  lemma PostsHandleEcho(c: Config, path: string, apply: PostsApply, maxPages: nat, res: Response, page: nat, params: Params, e: Env)
    requires AppendsOnly(apply)
    requires res.ok && res.text != "" && page < maxPages && PostsOf(res.json) != []
    requires Truthy(NextPageOf(res.json))
    ensures var n := |apply(e, PostsOf(res.json)).sent|;
            var after := PostsLoop(c, path, apply, maxPages, res, page, params, e).env.sent;
            n < |after| && after[n] == Request(path, params["page_handle" := NextPageOf(res.json)], Auth(c.token))
  {
    var e1 := apply(e, PostsOf(res.json));
    var params' := params["page_handle" := NextPageOf(res.json)];
    var (e2, res') := Fetch(c, e1, path, params');
    assert e2.sent[|e1.sent|] == Request(path, params', Auth(c.token));
    if res'.ok {
      var after := PostsLoop(c, path, apply, maxPages, res', page + 1, params', e2).env.sent;
      PostsLoopExtends(c, path, apply, maxPages, res', page + 1, params', e2);
      assert after[|e1.sent|] == after[..|e2.sent|][|e1.sent|];
    }
  }

  /** The loader's page processor only appends to the log. */
  lemma PagerAppendsOnly(c: Config, tb: Tables)
    ensures AppendsOnly(Pager(c, tb))
  {
    forall e: Env, ps: seq<ApiPost> ensures Extends(e.sent, Pager(c, tb)(e, ps).sent) {
      PageExtends(c, tb, e, ps);
    }
  }

  lemma PageExtends(c: Config, tb: Tables, e: Env, ps: seq<ApiPost>)
    ensures Extends(e.sent, LoadPostsPage(c, tb, e, ps).sent)
  {
    LoadAllExtends(c, tb, e, NoBuffers, ps);
  }

  lemma {:induction false} LoadAllExtends(c: Config, tb: Tables, e: Env, buf: Buffers, ps: seq<ApiPost>)
    ensures Extends(e.sent, LoadAll(c, tb, e, buf, ps).0.sent)
    decreases |ps|
  {
    if ps != [] {
      var (e1, buf1) := LoadWpPost(c, tb, e, buf, ps[0], true);
      LoadWpPostExtends(c, tb, e, buf, ps[0]);
      LoadAllExtends(c, tb, e1, buf1, ps[1..]);
      ExtendsTrans(e.sent, e1.sent, LoadAll(c, tb, e1, buf1, ps[1..]).0.sent);
    }
  }

  /** Loading a post sends no request but those of the sweep. */
  lemma LoadWpPostExtends(c: Config, tb: Tables, e: Env, buf: Buffers, p: ApiPost)
    ensures Extends(e.sent, LoadWpPost(c, tb, e, buf, p, true).0.sent)
  {
    var (author, e1) := PostAuthor(c, tb.author, e, p, true);
    var (e4, buf1) := ResolveRelations(c, tb, e1, buf, p, true);
    BulkRelations(c, tb, e1, buf, p);
    var (e5, buf2) := UpsertPost(c, tb.post, e4, buf1, p, author, true);
    assert e5.sent == e.sent;
    if p.postType == "post" {
      SweepRequests(c, e5, p);
    } else {
      assert e.sent[..|e.sent|] == e.sent;
    }
  }

  // ----- the watermark -----

  /** `params["modified_after"] = ...` when a watermark is set. */
  function WithModifiedAfter(params: Params, m: Option<int>): (r: Params)
    ensures "modified_after" in r <==> m.Some? || "modified_after" in params
    ensures m.Some? ==> r["modified_after"] == VInt(m.value)
    ensures forall k :: k != "modified_after" ==> (k in r <==> k in params) && (k in r ==> r[k] == params[k])
  {
    if m.Some? then params["modified_after" := VInt(m.value)] else params
  }

  /** `set_posts_param_modified_after`: with no purge, no full run and no
      watermark yet, the loader takes the `modified` of the latest stored post of
      the type and status (of any site); then the watermark, if any, goes into
      the arguments. */
  function SetModifiedAfter(e: Env, params: Params, postType: string, status: string): (Env, Params)
  {
    var e1 :=
      if !e.purgeFirst && !e.full && e.modifiedAfter.None? then
        var latest := LatestModified(e.db.posts, postType, Some(status));
        if latest.Some? then e.(modifiedAfter := latest) else e
      else e;
    (e1, WithModifiedAfter(params, e1.modifiedAfter))
  }

  /** The derivation: when it applies, the watermark becomes the latest
      `modified` among the stored posts of the type and status, or stays unset
      when there is none; only the watermark changes. */
  lemma WatermarkDerived(e: Env, params: Params, postType: string, status: string)
    requires !e.purgeFirst && !e.full && e.modifiedAfter.None?
    ensures var (e', _) := SetModifiedAfter(e, params, postType, status);
            e' == e.(modifiedAfter := e'.modifiedAfter) &&
            (e'.modifiedAfter.None? <==> forall k :: k in e.db.posts ==> !WatermarkMatch(e.db.posts[k], postType, Some(status))) &&
            (e'.modifiedAfter.Some? ==>
               (exists k :: k in e.db.posts && WatermarkMatch(e.db.posts[k], postType, Some(status)) &&
                            e.db.posts[k].modified == e'.modifiedAfter.value) &&
               forall k :: k in e.db.posts && WatermarkMatch(e.db.posts[k], postType, Some(status)) ==>
                             e.db.posts[k].modified <= e'.modifiedAfter.value)
  {
  }

  /** Otherwise the state is left as it was: a purge or full run never takes a
      watermark from the store, and a watermark already set is kept. */
  lemma WatermarkKept(e: Env, params: Params, postType: string, status: string)
    requires e.purgeFirst || e.full || e.modifiedAfter.Some?
    ensures SetModifiedAfter(e, params, postType, status).0 == e
  {
  }

  /** The arguments carry `modified_after` iff a watermark is set after the call,
      with its value; no other argument changes. */
  lemma WatermarkParam(e: Env, params: Params, postType: string, status: string)
    requires "modified_after" !in params
    ensures var (e', params') := SetModifiedAfter(e, params, postType, status);
            ("modified_after" in params' <==> e'.modifiedAfter.Some?) &&
            (e'.modifiedAfter.Some? ==> params'["modified_after"] == VInt(e'.modifiedAfter.value)) &&
            forall k :: k != "modified_after" ==> (k in params' <==> k in params) && (k in params' ==> params'[k] == params[k])
  {
  }

  /** The watermark persists on the loader: once derived, a later call (for
      another post type or status, after any change to the store) reuses it. */
  lemma WatermarkReused(e: Env, p1: Params, t1: string, s1: string, db: Db, p2: Params, t2: string, s2: string)
    requires SetModifiedAfter(e, p1, t1, s1).0.modifiedAfter.Some?
    ensures var e1 := SetModifiedAfter(e, p1, t1, s1).0.(db := db);
            SetModifiedAfter(e1, p2, t2, s2).0.modifiedAfter == SetModifiedAfter(e, p1, t1, s1).0.modifiedAfter
  {
  }

  // ----- load_posts -----

  /** `if not post_type: post_type = "post"`. */
  function PostTypeOrDefault(postType: Option<string>): string
  {
    if postType.None? || postType.value == "" then "post" else postType.value
  }

  /** The arguments of the first request before the watermark. */
  function PostsParams(postType: string, status: string): Params
  {
    map["number" := VInt(100), "type" := VStr(postType), "status" := VStr(status)]
  }

  /** What `load_posts` does before its first request: purge the site's posts
      of the given type (the argument as passed, before the default) if asked,
      then set the watermark into the first page's arguments. */
  function PostsStart(c: Config, e: Env, postType: Option<string>, status: string): (Env, Params)
  {
    var e1 := if e.purgeFirst then e.(db := e.db.(posts := PurgePosts(e.db.posts, c.site, postType))) else e;
    var pt := PostTypeOrDefault(postType);
    SetModifiedAfter(e1, PostsParams(pt, status), pt, status)
  }

  /** The first page's arguments ask for 100 posts of the type (default "post")
      and status, with `modified_after` iff a watermark is set; the request log
      and the loading flags are untouched. */
  lemma PostsStartParams(c: Config, e: Env, postType: Option<string>, status: string)
    ensures var (e', params) := PostsStart(c, e, postType, status);
            params.Keys == {"number", "type", "status"} + (if e'.modifiedAfter.Some? then {"modified_after"} else {}) &&
            params["number"] == VInt(100) && params["type"] == VStr(PostTypeOrDefault(postType)) &&
            params["status"] == VStr(status) &&
            (e'.modifiedAfter.Some? ==> params["modified_after"] == VInt(e'.modifiedAfter.value)) &&
            e'.sent == e.sent && e'.purgeFirst == e.purgeFirst && e'.full == e.full
  {
    var e1 := if e.purgeFirst then e.(db := e.db.(posts := PurgePosts(e.db.posts, c.site, postType))) else e;
    var pt := PostTypeOrDefault(postType);
    WatermarkParam(e1, PostsParams(pt, status), pt, status);
  }

  /** `load_posts(post_type, max_pages, status)`: the first request, then the
      loop from its response. */
  function LoadPosts(c: Config, tb: Tables, e: Env, postType: Option<string>, maxPages: nat, status: string): PostsEnd
  {
    var (e2, params) := PostsStart(c, e, postType, status);
    var path := SitePath(c.site, "posts");
    var (e3, res) := Fetch(c, e2, path, params);
    PostsLoop(c, path, Pager(c, tb), maxPages, res, 1, params, e3)
  }

  /** `load_posts` sends the first page's request first, processes at most
      `max_pages - 1` pages, and leaves the watermark as the start set it. */
  lemma LoadPostsRequests(c: Config, tb: Tables, e: Env, postType: Option<string>, maxPages: nat, status: string)
    ensures var r := LoadPosts(c, tb, e, postType, maxPages, status);
            var (e2, params) := PostsStart(c, e, postType, status);
            |e.sent| < |r.env.sent| &&
            r.env.sent[|e.sent|] == Request(SitePath(c.site, "posts"), params, Auth(c.token)) &&
            r.env.modifiedAfter == e2.modifiedAfter &&
            |r.pages| <= (if maxPages > 1 then maxPages - 1 else 0)
  {
    var (e2, params) := PostsStart(c, e, postType, status);
    PostsStartParams(c, e, postType, status);
    var path := SitePath(c.site, "posts");
    var (e3, res) := Fetch(c, e2, path, params);
    assert e3.sent[|e.sent|] == Request(path, params, Auth(c.token));
    PagerAppendsOnly(c, tb);
    PostsLoopExtends(c, path, Pager(c, tb), maxPages, res, 1, params, e3);
    PostsLoopBudget(c, path, Pager(c, tb), maxPages, res, 1, params, e3);
    PagerKeepsLoadingVars(c, tb);
    PostsLoopKeepsWatermark(c, path, Pager(c, tb), maxPages, res, 1, params, e3);
    var after := PostsLoop(c, path, Pager(c, tb), maxPages, res, 1, params, e3).env.sent;
    assert after[|e.sent|] == after[..|e3.sent|][|e.sent|];
  }

  /** A page processor that keeps the loading variables. */
  ghost predicate KeepsLoadingVars(apply: PostsApply)
  {
    forall e: Env, ps: seq<ApiPost> ::
      apply(e, ps).modifiedAfter == e.modifiedAfter && apply(e, ps).purgeFirst == e.purgeFirst && apply(e, ps).full == e.full
  }

  /** With such a processor the loop keeps the loading variables. */
  lemma {:induction false} PostsLoopKeepsWatermark(c: Config, path: string, apply: PostsApply, maxPages: nat, res: Response, page: nat, params: Params, e: Env)
    requires KeepsLoadingVars(apply)
    ensures var e' := PostsLoop(c, path, apply, maxPages, res, page, params, e).env;
            e'.modifiedAfter == e.modifiedAfter && e'.purgeFirst == e.purgeFirst && e'.full == e.full
    decreases maxPages - page
  {
    if res.ok && res.text != "" && page < maxPages && PostsOf(res.json) != [] {
      var e1 := apply(e, PostsOf(res.json));
      var handle := NextPageOf(res.json);
      if Truthy(handle) {
        var params' := params["page_handle" := handle];
        var (e2, res') := Fetch(c, e1, path, params');
        if res'.ok {
          PostsLoopKeepsWatermark(c, path, apply, maxPages, res', page + 1, params', e2);
        }
      }
    }
  }

  /** The loader's page processor keeps the loading variables. */
  lemma PagerKeepsLoadingVars(c: Config, tb: Tables)
    ensures KeepsLoadingVars(Pager(c, tb))
  {
    forall e: Env, ps: seq<ApiPost>
      ensures var e' := Pager(c, tb)(e, ps);
              e'.modifiedAfter == e.modifiedAfter && e'.purgeFirst == e.purgeFirst && e'.full == e.full
    {
      LoadAllKeepsLoadingVars(c, tb, e, NoBuffers, ps);
    }
  }

  lemma {:induction false} LoadAllKeepsLoadingVars(c: Config, tb: Tables, e: Env, buf: Buffers, ps: seq<ApiPost>)
    ensures var e' := LoadAll(c, tb, e, buf, ps).0;
            e'.modifiedAfter == e.modifiedAfter && e'.purgeFirst == e.purgeFirst && e'.full == e.full
    decreases |ps|
  {
    if ps != [] {
      var (e1, buf1) := LoadWpPost(c, tb, e, buf, ps[0], true);
      LoadWpPostKeepsLoadingVars(c, tb, e, buf, ps[0]);
      LoadAllKeepsLoadingVars(c, tb, e1, buf1, ps[1..]);
    }
  }

  lemma LoadWpPostKeepsLoadingVars(c: Config, tb: Tables, e: Env, buf: Buffers, p: ApiPost)
    ensures var e' := LoadWpPost(c, tb, e, buf, p, true).0;
            e'.modifiedAfter == e.modifiedAfter && e'.purgeFirst == e.purgeFirst && e'.full == e.full
  {
    var (author, e1) := PostAuthor(c, tb.author, e, p, true);
    var (e4, buf1) := ResolveRelations(c, tb, e1, buf, p, true);
    BulkRelations(c, tb, e1, buf, p);
    var (e5, buf2) := UpsertPost(c, tb.post, e4, buf1, p, author, true);
    if p.postType == "post" {
      SweepFrame(c, e5, p);
    }
  }
}
