/** The loader object `WPAPILoader`: its state lives in fields the methods update
    in place, and each method that loops is proved to reach the state its
    specification function in `RefSync`, `PostSync`, `PostPaging` or `SiteSync`
    computes from the state before the call. */
module Loading {
  import opened Values
  import opened FieldMapper
  import opened Api
  import opened Store
  import opened SyncEnv
  import opened RefSync
  import opened PostSync
  import opened PostPaging
  import opened SiteSync

  class WPAPILoader {
    /** The site, the configured token and the transport's script. */
    const c: Config
    /** The field tables (`fields_mapping` and the post attribute list). */
    const tb: Tables
    /** The local store. */
    var db: Db
    /** The requests sent so far. */
    var sent: seq<Request>
    var firstGet: bool
    var warnings: nat
    var refs: RefMap
    var modifiedAfter: Option<int>
    var purgeFirst: bool
    var full: bool

    /** The loader's state as a value. */
    function Snapshot(): Env
      reads this
    {
      Env(db, sent, firstGet, warnings, refs, modifiedAfter, purgeFirst, full)
    }

    /** `WPAPILoader(site_id)` over a store: `first_get` set, nothing sent yet. */
    constructor (config: Config, store: Db)
      ensures c == config && tb == LoaderTables()
      ensures Snapshot() == Env(store, [], true, 0, EmptyRefMap, None, false, false)
      ensures WarnedAtMostOnce(c, Snapshot())
    {
      c := config;
      tb := LoaderTables();
      db := store;
      sent := [];
      firstGet := true;
      warnings := 0;
      refs := EmptyRefMap;
      modifiedAfter := None;
      purgeFirst := false;
      full := false;
    }

    /** Take over a state computed by a specification function. */
    method Become(e: Env)
      modifies this
      ensures Snapshot() == e
    {
      db, sent, firstGet, warnings := e.db, e.sent, e.firstGet, e.warnings;
      refs, modifiedAfter, purgeFirst, full := e.refs, e.modifiedAfter, e.purgeFirst, e.full;
    }

    /** `get(path, params)`. */
    method Get(path: string, params: Params) returns (res: Response)
      modifies this
      ensures (Snapshot(), res) == Fetch(c, old(Snapshot()), path, params)
      ensures WarnedAtMostOnce(c, old(Snapshot())) ==> WarnedAtMostOnce(c, Snapshot())
    {
      res := ScriptAt(c.script, |sent|);
      if c.token.None? && firstGet {
        warnings := warnings + 1;
      }
      firstGet := false;
      sent := sent + [Request(path, params, Auth(c.token))];
      if WarnedAtMostOnce(c, old(Snapshot())) {
        FetchKeepsDiscipline(c, old(Snapshot()), path, params);
      }
    }

    /** The item loop of a reference page (`update_existing_obj` on known rows,
        new instances collected), then `bulk_create` of the new ones; returns
        whether there were any. */
    method UpsertPage(kind: Kind, fs: seq<FieldSpec>, items: seq<ApiRef>) returns (anyNew: bool)
      modifies this
      ensures (db.Table(kind), anyNew) == ApplyPage(c.site, kind, fs, items, old(db.Table(kind)))
      ensures db == old(db).WithTable(kind, db.Table(kind))
      ensures Snapshot() == old(Snapshot()).(db := db)
    {
      var t := db.Table(kind);
      ghost var t0 := t;
      var pending: seq<NewRow> := [];
      var i := 0;
      while i < |items|
        invariant 0 <= i <= |items|
        invariant UpsertItems(c.site, kind, fs, items[i..], t, pending) == UpsertItems(c.site, kind, fs, items, t0, [])
        invariant Snapshot() == old(Snapshot())
      {
        var item := items[i];
        assert items[i..][1..] == items[i + 1..];
        var key := Key(c.site, item.id);
        if !Skipped(kind, item) {
          if key in t {
            var updated, saveIt := UpdateExistingObj(fs, t[key], item.data);
            if saveIt {
              t := t[key := updated];
            }
          } else {
            pending := pending + [NewRow(item.id, ObjectData(fs, item.data))];
          }
        }
        i := i + 1;
      }
      assert items[i..] == [];
      anyNew := pending != [];
      if anyNew {
        t := InsertRows(c.site, t, pending);
      }
      db := db.WithTable(kind, t);
    }

    /** One iteration of a reference loop's `while`, for the response `res` to
        page `page` requested with `params`: process the page, then stop or
        fetch the next page with `params` advanced (`page`, or `offset` for
        users). What is left of the loop is the same computation before and
        after. */
    method RefIteration(kind: Kind, path: string, fs: seq<FieldSpec>, maxPages: nat, res: Response, page: nat,
                        params: Params, ghost first: Params)
      returns (stop: bool, next: Response, nextParams: Params)
      requires res.ok && res.text != "" && page < maxPages
      requires page >= 1 && params == PageParams(kind, first, page)
      modifies this
      ensures nextParams == PageParams(kind, first, page + 1)
      ensures RefLoop(c, kind, path, Applier(c.site, kind, fs), maxPages, res, page, first, old(Snapshot())) ==
              if stop then Snapshot() else RefLoop(c, kind, path, Applier(c.site, kind, fs), maxPages, next, page + 1, first, Snapshot())
    {
      ghost var before := Snapshot();
      RefLoopUnfold(c, kind, path, Applier(c.site, kind, fs), maxPages, res, page, first, before);
      NextParamsAdvance(kind, first, page);
      nextParams := NextParams(kind, page, params);
      next := res;
      var items := ItemsUnder(res.json, Resource(kind));
      if items == [] {
        return true, next, nextParams;
      }
      var anyNew := UpsertPage(kind, fs, items);
      assert Applier(c.site, kind, fs)(before.db.Table(kind), items) == ApplyPage(c.site, kind, fs, items, before.db.Table(kind));
      if !anyNew && kind != Media && !full {
        return true, next, nextParams;
      }
      next := Get(path, nextParams);
      stop := !next.ok;
    }

    /** `load_categories`, `load_tags`, `load_authors`, `load_media`. */
    method LoadReference(kind: Kind, maxPages: nat, now: int)
      modifies this
      ensures Snapshot() == RefSync.LoadReference(c, old(Snapshot()), kind, maxPages, now)
    {
      if purgeFirst {
        db := db.WithTable(kind, PurgeSite(db.Table(kind), c.site));
      }
      RunReferenceLoop(kind, SitePath(c.site, Resource(kind)), FieldsMapping(kind), maxPages, FirstParams(Snapshot(), kind, now));
    }

    /** The first request and the `while` loop of a reference loader; the
        `params` dictionary is updated in place from page to page. */
    method RunReferenceLoop(kind: Kind, path: string, fs: seq<FieldSpec>, maxPages: nat, first: Params)
      modifies this
      ensures Snapshot() == RunLoop(c, kind, path, Applier(c.site, kind, fs), maxPages, first, old(Snapshot()))
    {
      ghost var apply := Applier(c.site, kind, fs);
      ghost var target := RunLoop(c, kind, path, apply, maxPages, first, Snapshot());
      var params := first;
      var page := 1;
      var res := Get(path, params);
      while res.ok && res.text != "" && page < maxPages
        invariant page >= 1 && params == PageParams(kind, first, page)
        invariant target == RefLoop(c, kind, path, apply, maxPages, res, page, first, Snapshot())
        decreases maxPages - page
      {
        var stop, next, nextParams := RefIteration(kind, path, fs, maxPages, res, page, params, first);
        if stop {
          break;
        }
        params := nextParams;
        page := page + 1;
        res := next;
      }
    }
  
    // ----- posts -----

    /** One iteration of the loop of `process_post_categories` (and of tags and
        attachments): resolve `rs[i]`, and append it to the collected `ks0` when
        it resolves. */
    method ResolveStep(kind: Kind, fs: seq<FieldSpec>, rs: seq<ApiRef>, i: nat, bulk: bool, ks0: seq<Key>)
      returns (ks: seq<Key>)
      requires i < |rs|
      modifies this
      ensures ks0 + ResolveAll(c, kind, fs, old(Snapshot()), rs[i..], bulk).0 == ks + ResolveAll(c, kind, fs, Snapshot(), rs[i + 1..], bulk).0
      ensures ResolveAll(c, kind, fs, old(Snapshot()), rs[i..], bulk).1 == ResolveAll(c, kind, fs, Snapshot(), rs[i + 1..], bulk).1
    {
      assert rs[i..][1..] == rs[i + 1..];
      var (k, e1) := ResolveRef(c, kind, fs, Snapshot(), rs[i], bulk);
      Become(e1);
      var got := if k.Some? then [k.value] else [];
      ghost var rest := ResolveAll(c, kind, fs, Snapshot(), rs[i + 1..], bulk).0;
      assert ks0 + (got + rest) == (ks0 + got) + rest;
      ks := ks0 + got;
    }

    /** The loop of `process_post_categories` (and of tags and attachments):
        resolve each related object in turn, collecting the resolved ones. */
    method ProcessRelated(kind: Kind, fs: seq<FieldSpec>, rs: seq<ApiRef>, bulk: bool) returns (ks: seq<Key>)
      modifies this
      ensures (ks, Snapshot()) == ResolveAll(c, kind, fs, old(Snapshot()), rs, bulk)
    {
      ks := [];
      var i := 0;
      ghost var total := ResolveAll(c, kind, fs, Snapshot(), rs, bulk);
      assert rs[0..] == rs;
      assert [] + total.0 == total.0;
      while i < |rs|
        invariant 0 <= i <= |rs|
        invariant total.0 == ks + ResolveAll(c, kind, fs, Snapshot(), rs[i..], bulk).0
        invariant total.1 == ResolveAll(c, kind, fs, Snapshot(), rs[i..], bulk).1
      {
        ks := ResolveStep(kind, fs, rs, i, bulk, ks);
        i := i + 1;
      }
      assert rs[i..] == [];
      assert ks + [] == ks;
    }

    /** `load_wp_post(api_post, bulk_mode, ...)` with the page's buffers. */
    method LoadWpPost(p: ApiPost, bulk: bool, buf: Buffers) returns (buf': Buffers)
      modifies this
      ensures (Snapshot(), buf') == PostSync.LoadWpPost(c, tb, old(Snapshot()), buf, p, bulk)
    {
      var (author, e1) := PostAuthor(c, tb.author, Snapshot(), p, bulk);
      Become(e1);
      var cats := ProcessRelated(Category, tb.category, p.categories, bulk);
      var tags := ProcessRelated(Tag, tb.tag, p.tags, bulk);
      var atts := ProcessRelated(Media, tb.media, p.attachments, bulk);
      var buf1 := buf.(categories := buf.categories[p.id := cats], tags := buf.tags[p.id := tags],
                       attachments := buf.attachments[p.id := atts]);
      var (e5, buf2) := UpsertPost(c, tb.post, Snapshot(), buf1, p, author, bulk);
      Become(e5);
      if p.postType == "post" {
        SyncDeletedAttachments(p);
      }
      buf' := buf2;
    }

    /** One iteration of the sweep's `while`, for the response `res` to page
        `page`: collect the page's IDs, then stop (no next page, or a failed
        request, which aborts) or go on with the next page. */
    method SweepIteration(path: string, params: Params, res: Response, page: nat, ids: set<int>)
      returns (stop: bool, aborted: bool, next: Response, nextParams: Params, ids': set<int>)
      requires res.ok && res.text != "" && page < 10
      modifies this
      ensures SweepLoop(c, path, params, res, page, ids, old(Snapshot())) ==
              if !stop then SweepLoop(c, path, nextParams, next, page + 1, ids', Snapshot())
              else if aborted then Aborted(Snapshot()) else Collected(Snapshot(), ids')
    {
      ids' := ids + PostIdsOf(res.json);
      var handle := NextPageOf(res.json);
      next, nextParams := res, params;
      if !Truthy(handle) {
        return true, false, next, nextParams, ids';
      }
      nextParams := params["page_handle" := handle];
      next := Get(path, nextParams);
      stop := !next.ok;
      aborted := stop;
    }

    /** `sync_deleted_attachments(api_post)`. */
    method SyncDeletedAttachments(p: ApiPost)
      modifies this
      ensures Snapshot() == Sweep(c, old(Snapshot()), p)
    {
      var existing := ChildIds(db.posts, c.site, p.id);
      if existing == {} {
        return;
      }
      var path := SitePath(c.site, "posts/");
      var params := SweepParams(p.id);
      var page := 1;
      var ids: set<int> := {};
      var res := Get(path, params);
      ghost var target := SweepLoop(c, path, params, res, 1, {}, Snapshot());
      while res.ok && res.text != "" && page < 10
        invariant target == SweepLoop(c, path, params, res, page, ids, Snapshot())
        decreases 10 - page
      {
        var stop, aborted, next, nextParams, ids' := SweepIteration(path, params, res, page, ids);
        if stop {
          if aborted {
            return;
          }
          ids := ids';
          break;
        }
        params, res, page, ids := nextParams, next, page + 1, ids';
      }
      var toRemove := existing - ids;
      if toRemove != {} {
        db := db.(posts := DeleteChildren(db.posts, c.site, p.id, toRemove));
      }
    }
  
    /** The post loop of one page with bulk mode on, then `bulk_create_posts`
        when posts were buffered. */
    method ProcessPage(ps: seq<ApiPost>)
      modifies this
      ensures Snapshot() == LoadPostsPage(c, tb, old(Snapshot()), ps)
    {
      var buf := NoBuffers;
      var i := 0;
      ghost var total := LoadAll(c, tb, Snapshot(), NoBuffers, ps);
      assert ps[0..] == ps;
      while i < |ps|
        invariant 0 <= i <= |ps|
        invariant total == LoadAll(c, tb, Snapshot(), buf, ps[i..])
      {
        assert ps[i..][1..] == ps[i + 1..];
        buf := LoadWpPost(ps[i], true, buf);
        i := i + 1;
      }
      assert ps[i..] == [];
      if buf.posts != [] {
        db := db.(posts := BulkCreatePosts(c.site, db.posts, buf));
      }
    }

    /** One iteration of the `while` of `process_posts_response`, for the
        response `res` to page `page`: stop on an empty page, else process it,
        then stop (no next page, or a failed request) or go on. */
    method PostsIteration(path: string, maxPages: nat, res: Response, page: nat, params: Params)
      returns (stop: bool, next: Response, nextParams: Params)
      requires res.ok && res.text != "" && page < maxPages
      modifies this
      ensures PostsLoop(c, path, Pager(c, tb), maxPages, res, page, params, old(Snapshot())).env ==
              if stop then Snapshot() else PostsLoop(c, path, Pager(c, tb), maxPages, next, page + 1, nextParams, Snapshot()).env
    {
      ghost var before := Snapshot();
      next, nextParams := res, params;
      var ps := PostsOf(res.json);
      if ps == [] {
        return true, next, nextParams;
      }
      ProcessPage(ps);
      assert Pager(c, tb)(before, ps) == LoadPostsPage(c, tb, before, ps);
      var handle := NextPageOf(res.json);
      if !Truthy(handle) {
        return true, next, nextParams;
      }
      nextParams := params["page_handle" := handle];
      next := Get(path, nextParams);
      stop := !next.ok;
    }

    /** `process_posts_response(response, path, params, max_pages)`. */
    method ProcessPostsResponse(response: Response, path: string, params: Params, maxPages: nat)
      modifies this
      ensures Snapshot() == PostsLoop(c, path, Pager(c, tb), maxPages, response, 1, params, old(Snapshot())).env
    {
      ghost var target := PostsLoop(c, path, Pager(c, tb), maxPages, response, 1, params, Snapshot()).env;
      var res, args, page := response, params, 1;
      while res.ok && res.text != "" && page < maxPages
        invariant target == PostsLoop(c, path, Pager(c, tb), maxPages, res, page, args, Snapshot()).env
        decreases maxPages - page
      {
        var stop, next, nextArgs := PostsIteration(path, maxPages, res, page, args);
        if stop {
          break;
        }
        res, args, page := next, nextArgs, page + 1;
      }
    }

    /** `set_posts_param_modified_after(params, post_type, status)`; the
        updated arguments are returned. */
    method SetPostsParamModifiedAfter(params: Params, postType: string, status: string) returns (params': Params)
      modifies this
      ensures (Snapshot(), params') == SetModifiedAfter(old(Snapshot()), params, postType, status)
    {
      if !purgeFirst && !full && modifiedAfter.None? {
        var latest := LatestModified(db.posts, postType, Some(status));
        if latest.Some? {
          modifiedAfter := latest;
        }
      }
      params' := WithModifiedAfter(params, modifiedAfter);
    }

    /** `load_posts(post_type, max_pages, status)`. */
    method LoadPosts(postType: Option<string>, maxPages: nat, status: string)
      modifies this
      ensures Snapshot() == PostPaging.LoadPosts(c, tb, old(Snapshot()), postType, maxPages, status).env
    {
      if purgeFirst {
        db := db.(posts := PurgePosts(db.posts, c.site, postType));
      }
      var path := SitePath(c.site, "posts");
      var pt := PostTypeOrDefault(postType);
      var params := SetPostsParamModifiedAfter(PostsParams(pt, status), pt, status);
      var response := Get(path, params);
      ProcessPostsResponse(response, path, params, maxPages);
    }

    /** `get_ref_data_map(bulk_mode)`. */
    method GetRefDataMap(bulk: bool)
      modifies this
      ensures Snapshot() == SiteSync.GetRefDataMap(c, old(Snapshot()), bulk)
    {
      refs := if bulk then BuildRefMap(db, c.site) else EmptyRefMap;
    }

    /** One stage of `load_site`. */
    method RunStage(s: Stage, status: string, now: int)
      modifies this
      ensures Snapshot() == SiteSync.RunStage(c, tb, s, old(Snapshot()), status, now)
    {
      match s
      case LoadRefs(kind) => LoadReference(kind, DefaultMaxPages(kind), now);
      case MapRefs => GetRefDataMap(true);
      case LoadPostsOf(t) => LoadPosts(Some(t), 200, status);
    }

    /** The stages of `load_site`, in order. */
    method RunPlan(plan: seq<Stage>, status: string, now: int)
      modifies this
      ensures Snapshot() == SiteSync.RunPlan(c, tb, plan, old(Snapshot()), status, now)
    {
      ghost var target := SiteSync.RunPlan(c, tb, plan, Snapshot(), status, now);
      var i := 0;
      assert plan[0..] == plan;
      while i < |plan|
        invariant 0 <= i <= |plan|
        invariant target == SiteSync.RunPlan(c, tb, plan[i..], Snapshot(), status, now)
      {
        assert plan[i..][1..] == plan[i + 1..];
        RunStage(plan[i], status, now);
        i := i + 1;
      }
    }

    /** `load_site(purge_first, full, modified_after, type, status)`. */
    method LoadSite(purgeFirst: bool, full: bool, modifiedAfter: Option<int>, t: Option<string>, status: Option<string>, now: int)
      requires tb == LoaderTables()
      modifies this
      ensures Snapshot() == SiteSync.LoadSite(c, old(Snapshot()), purgeFirst, full, modifiedAfter, t, status, now)
    {
      this.purgeFirst, this.full, this.modifiedAfter := purgeFirst, full, modifiedAfter;
      var kind := if t.None? then "all" else t.value;
      var st := if status.None? then "publish" else status.value;
      ghost var start := Snapshot();
      assert start == old(Snapshot()).(purgeFirst := purgeFirst, full := full, modifiedAfter := modifiedAfter);
      RunPlan(SitePlan(kind), st, now);
      assert Snapshot() == SiteSync.RunPlan(c, LoaderTables(), SitePlan(kind), start, st, now);
    }

    /** `load_post(wp_post_id)`: the stored post afterwards, if the response
        held one. */
    method LoadPost(wpPostId: int) returns (post: Option<PostRecord>)
      requires tb == LoaderTables()
      modifies this
      ensures (post, Snapshot()) == SiteSync.LoadPost(c, old(Snapshot()), wpPostId)
    {
      var res := Get(SitePath(c.site, "posts/" + IntToDecimal(wpPostId)), map[]);
      if res.ok && res.text != "" && res.json.PostObject? {
        GetRefDataMap(false);
        var _ := LoadWpPost(res.json.post, false, NoBuffers);
        post := Lookup(db.posts, Key(c.site, wpPostId));
      } else {
        post := None;
      }
    }
  }
}
