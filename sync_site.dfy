/** The entry points of the loader: `load_site` (the dispatch over the kinds of
    content), `get_ref_data_map` and `load_post` (the refresh of one post). */
module SiteSync {
  import opened Values
  import opened FieldMapper
  import opened Api
  import opened Store
  import opened SyncEnv
  import opened RefSync
  import opened PostSync
  import opened PostPaging

  // ----- get_ref_data_map -----

  /** `get_ref_data_map(bulk_mode)`: the site's reference rows by ID in bulk
      mode, four empty maps otherwise. */
  function GetRefDataMap(c: Config, e: Env, bulk: bool): (e': Env)
    ensures e' == e.(refs := e'.refs)
    ensures bulk ==> forall kind: Kind, id :: (id in e'.refs.Table(kind) <==> Key(c.site, id) in e.db.Table(kind)) &&
                                              (id in e'.refs.Table(kind) ==> e'.refs.Table(kind)[id] == e.db.Table(kind)[Key(c.site, id)])
    ensures !bulk ==> forall kind: Kind :: e'.refs.Table(kind) == map[]
  {
    e.(refs := if bulk then BuildRefMap(e.db, c.site) else EmptyRefMap)
  }

  // ----- load_site -----

  /** A stage of `load_site`: a reference loader, the reference map, or the
      posts of one type. */
  datatype Stage = LoadRefs(kind: Kind) | MapRefs | LoadPostsOf(postType: string)

  /** The post types `load_site` loads, in order, for type "all". */
  const PostTypes: seq<string> := ["attachment", "post", "page"]

  /** The stages `load_site` runs for a processing type. */
  function SitePlan(t: string): seq<Stage>
  {
    (if t in ["all", "ref_data"] then [LoadRefs(Category), LoadRefs(Tag), LoadRefs(Author), LoadRefs(Media)] else []) +
    (if t in ["all", "attachment", "post", "page"] then [MapRefs] else []) +
    (if t == "all" then [LoadPostsOf("attachment"), LoadPostsOf("post"), LoadPostsOf("page")]
     else if t in PostTypes then [LoadPostsOf(t)] else [])
  }

  /** Where a stage stands in the order of `load_site`. */
  function Rank(s: Stage): nat
  {
    match s
    case LoadRefs(_) => 0
    case MapRefs => 1
    case LoadPostsOf(_) => 2
  }

  /** The post types of the posts stages of a plan, in order. */
  function PostStages(plan: seq<Stage>): seq<string>
    decreases |plan|
  {
    if plan == [] then []
    else (if plan[0].LoadPostsOf? then [plan[0].postType] else []) + PostStages(plan[1..])
  }

  const RefStages: seq<Stage> := [LoadRefs(Category), LoadRefs(Tag), LoadRefs(Author), LoadRefs(Media)]
  const AllPostStages: seq<Stage> := [LoadPostsOf("attachment"), LoadPostsOf("post"), LoadPostsOf("page")]

  /** The plan of each processing type, spelled out. */
  lemma SitePlanCases(t: string)
    ensures t == "all" ==> SitePlan(t) == RefStages + [MapRefs] + AllPostStages
    ensures t == "ref_data" ==> SitePlan(t) == RefStages
    ensures t in PostTypes ==> SitePlan(t) == [MapRefs, LoadPostsOf(t)]
    ensures t != "all" && t != "ref_data" && t !in PostTypes ==> SitePlan(t) == []
  {
    if t in PostTypes {
      assert t != "all" && t != "ref_data";
      assert [MapRefs] + [LoadPostsOf(t)] == [MapRefs, LoadPostsOf(t)];
    }
  }

  /** The dispatch: reference data is loaded iff the type is "all" or
      "ref_data", the reference map is built iff the type is "all" or a post
      type, and the posts of a type are loaded iff the type is "all" and it is
      one of attachment, post and page, or it is the type asked for. */
  lemma SitePlanStages(t: string)
    ensures forall kind :: LoadRefs(kind) in SitePlan(t) <==> t == "all" || t == "ref_data"
    ensures MapRefs in SitePlan(t) <==> t == "all" || t in PostTypes
    ensures forall x :: LoadPostsOf(x) in SitePlan(t) <==> (t == "all" && x in PostTypes) || (t in PostTypes && x == t)
  {
    SitePlanCases(t);
    forall kind ensures LoadRefs(kind) in RefStages {
      var i := match kind case Category => 0 case Tag => 1 case Author => 2 case Media => 3;
      assert RefStages[i] == LoadRefs(kind);
    }
    if t == "all" {
      assert AllPostStages[0] == LoadPostsOf(PostTypes[0]) && AllPostStages[1] == LoadPostsOf(PostTypes[1]);
      assert AllPostStages[2] == LoadPostsOf(PostTypes[2]);
    } else if t == "ref_data" {
      assert t !in PostTypes;
    }
  }

  lemma {:induction false} PostStagesAppend(a: seq<Stage>, b: seq<Stage>)
    ensures PostStages(a + b) == PostStages(a) + PostStages(b)
    decreases |a|
  {
    if a == [] {
      assert a + b == b;
    } else {
      PostStagesAppend(a[1..], b);
      assert (a + b)[0] == a[0] && (a + b)[1..] == a[1..] + b;
    }
  }

  /** The order: reference loaders, then the map, then the posts. */
  lemma SitePlanRanks(t: string)
    ensures forall i, j :: 0 <= i < j < |SitePlan(t)| ==> Rank(SitePlan(t)[i]) <= Rank(SitePlan(t)[j])
  {
    SitePlanCases(t);
  }

  /** For "all" the posts come as attachments, then posts, then pages, each
      once; for a post type, only that type. */
  lemma SitePlanPostOrder(t: string)
    ensures t == "all" ==> PostStages(SitePlan(t)) == PostTypes
    ensures t in PostTypes ==> PostStages(SitePlan(t)) == [t]
  {
    SitePlanCases(t);
    if t == "all" {
      PostStagesAppend(RefStages + [MapRefs], AllPostStages);
      PostStagesAppend(RefStages, [MapRefs]);
    } else if t in PostTypes {
      var plan := [MapRefs, LoadPostsOf(t)];
      assert plan[1..] == [LoadPostsOf(t)] && plan[1..][1..] == [];
      assert PostStages(plan) == PostStages(plan[1..]);
    }
  }

  /** One stage. */
  function RunStage(c: Config, tb: Tables, s: Stage, e: Env, status: string, now: int): Env
  {
    match s
    case LoadRefs(kind) => LoadReference(c, e, kind, DefaultMaxPages(kind), now)
    case MapRefs => GetRefDataMap(c, e, true)
    case LoadPostsOf(t) => LoadPosts(c, tb, e, Some(t), 200, status).env
  }

  function RunPlan(c: Config, tb: Tables, plan: seq<Stage>, e: Env, status: string, now: int): Env
    decreases |plan|
  {
    if plan == [] then e else RunPlan(c, tb, plan[1..], RunStage(c, tb, plan[0], e, status, now), status, now)
  }

  /** `load_site(purge_first, full, modified_after, type, status)`: capture the
      loading variables, default the type to "all" and the status to "publish",
      and run the stages; `now` is the clock of the media window. */
  function LoadSite(c: Config, e: Env, purgeFirst: bool, full: bool, modifiedAfter: Option<int>,
                    t: Option<string>, status: Option<string>, now: int): Env
  {
    var e1 := e.(purgeFirst := purgeFirst, full := full, modifiedAfter := modifiedAfter);
    RunPlan(c, LoaderTables(), SitePlan(if t.None? then "all" else t.value), e1,
            if status.None? then "publish" else status.value, now)
  }

  /** Every stage keeps `purge_first` and `full` and only appends to the log. */
  lemma StageFrame(c: Config, tb: Tables, s: Stage, e: Env, status: string, now: int)
    ensures var e' := RunStage(c, tb, s, e, status, now);
            e'.purgeFirst == e.purgeFirst && e'.full == e.full && Extends(e.sent, e'.sent)
  {
    match s
    case LoadRefs(kind) =>
      LoadReferenceRequests(c, e, kind, DefaultMaxPages(kind), now);
      LoadReferenceFrame(c, e, kind, DefaultMaxPages(kind), now);
    case MapRefs =>
      assert e.sent[..|e.sent|] == e.sent;
    case LoadPostsOf(t) =>
      LoadPostsFrame(c, tb, e, Some(t), 200, status);
  }

  /** A reference loader keeps the posts, the reference map and the loading
      variables. */
  lemma LoadReferenceFrame(c: Config, e: Env, kind: Kind, maxPages: nat, now: int)
    ensures var e' := LoadReference(c, e, kind, maxPages, now);
            e'.db.posts == e.db.posts && e'.refs == e.refs &&
            e'.modifiedAfter == e.modifiedAfter && e'.purgeFirst == e.purgeFirst && e'.full == e.full
  {
    var e1 := if e.purgeFirst then e.(db := e.db.WithTable(kind, PurgeSite(e.db.Table(kind), c.site))) else e;
    var path := SitePath(c.site, Resource(kind));
    var first := FirstParams(e1, kind, now);
    var (e2, res) := Fetch(c, e1, path, first);
    RefLoopFrame(c, kind, path, Applier(c.site, kind, FieldsMapping(kind)), maxPages, res, 1, first, e2);
  }

  /** `load_posts` keeps `purge_first` and `full` and only appends to the log. */
  lemma LoadPostsFrame(c: Config, tb: Tables, e: Env, postType: Option<string>, maxPages: nat, status: string)
    ensures var e' := LoadPosts(c, tb, e, postType, maxPages, status).env;
            e'.purgeFirst == e.purgeFirst && e'.full == e.full && Extends(e.sent, e'.sent)
  {
    var (e2, params) := PostsStart(c, e, postType, status);
    PostsStartParams(c, e, postType, status);
    var path := SitePath(c.site, "posts");
    var (e3, res) := Fetch(c, e2, path, params);
    ExtendsAppend(e2.sent, Request(path, params, Auth(c.token)));
    PagerAppendsOnly(c, tb);
    PostsLoopExtends(c, path, Pager(c, tb), maxPages, res, 1, params, e3);
    ExtendsTrans(e.sent, e3.sent, LoadPosts(c, tb, e, postType, maxPages, status).env.sent);
    PagerKeepsLoadingVars(c, tb);
    PostsLoopKeepsWatermark(c, path, Pager(c, tb), maxPages, res, 1, params, e3);
  }

  lemma {:induction false} PlanFrame(c: Config, tb: Tables, plan: seq<Stage>, e: Env, status: string, now: int)
    ensures var e' := RunPlan(c, tb, plan, e, status, now);
            e'.purgeFirst == e.purgeFirst && e'.full == e.full && Extends(e.sent, e'.sent)
    decreases |plan|
  {
    if plan == [] {
      assert e.sent[..|e.sent|] == e.sent;
    } else {
      var e1 := RunStage(c, tb, plan[0], e, status, now);
      StageFrame(c, tb, plan[0], e, status, now);
      PlanFrame(c, tb, plan[1..], e1, status, now);
      ExtendsTrans(e.sent, e1.sent, RunPlan(c, tb, plan[1..], e1, status, now).sent);
    }
  }

  /** `load_site` leaves `purge_first` and `full` as given and only appends to
      the request log. */
  lemma LoadSiteKeepsFlags(c: Config, e: Env, purgeFirst: bool, full: bool, modifiedAfter: Option<int>,
                           t: Option<string>, status: Option<string>, now: int)
    ensures var e' := LoadSite(c, e, purgeFirst, full, modifiedAfter, t, status, now);
            e'.purgeFirst == purgeFirst && e'.full == full && Extends(e.sent, e'.sent)
  {
    var e1 := e.(purgeFirst := purgeFirst, full := full, modifiedAfter := modifiedAfter);
    PlanFrame(c, LoaderTables(), SitePlan(if t.None? then "all" else t.value), e1,
              if status.None? then "publish" else status.value, now);
  }

  /** Loading reference data only leaves the posts, the reference map and the
      watermark as they were. */
  lemma RefDataKeepsPosts(c: Config, e: Env, purgeFirst: bool, full: bool, modifiedAfter: Option<int>, status: Option<string>, now: int)
    ensures var e' := LoadSite(c, e, purgeFirst, full, modifiedAfter, Some("ref_data"), status, now);
            e'.db.posts == e.db.posts && e'.refs == e.refs && e'.modifiedAfter == modifiedAfter
  {
    var e1 := e.(purgeFirst := purgeFirst, full := full, modifiedAfter := modifiedAfter);
    var st := if status.None? then "publish" else status.value;
    var plan := SitePlan("ref_data");
    assert forall i :: 0 <= i < |plan| ==> plan[i].LoadRefs?;
    RefStagesKeepPosts(c, LoaderTables(), plan, e1, st, now);
  }

  /** A run of reference stages leaves the posts, the reference maps and the
      watermark alone. */
  lemma {:induction false} RefStagesKeepPosts(c: Config, tb: Tables, plan: seq<Stage>, e: Env, status: string, now: int)
    requires forall i :: 0 <= i < |plan| ==> plan[i].LoadRefs?
    ensures var e' := RunPlan(c, tb, plan, e, status, now);
            e'.db.posts == e.db.posts && e'.refs == e.refs && e'.modifiedAfter == e.modifiedAfter
    decreases |plan|
  {
    if plan != [] {
      var kind := plan[0].kind;
      LoadReferenceFrame(c, e, kind, DefaultMaxPages(kind), now);
      RefStagesKeepPosts(c, tb, plan[1..], RunStage(c, tb, plan[0], e, status, now), status, now);
    }
  }

  // ----- load_post -----

  /** `load_post(wp_post_id)`: fetch the post; on an ok, non-empty response
      holding a post, start from empty reference maps, load it in single-post
      mode, and return the stored post of the requested ID if there is one. */
  function LoadPost(c: Config, e: Env, wpPostId: int): (Option<PostRecord>, Env)
  {
    var path := SitePath(c.site, "posts/" + IntToDecimal(wpPostId));
    var (e1, res) := Fetch(c, e, path, map[]);
    if res.ok && res.text != "" && res.json.PostObject? then
      var e2 := GetRefDataMap(c, e1, false);
      var (e3, _) := LoadWpPost(c, LoaderTables(), e2, NoBuffers, res.json.post, false);
      (Lookup(e3.db.posts, Key(c.site, wpPostId)), e3)
    else (None, e1)
  }

  /** A failed or empty response returns nothing and changes nothing but the
      request log and the `first_get` flag. */
  lemma LoadPostFails(c: Config, e: Env, wpPostId: int)
    requires var res := ScriptAt(c.script, |e.sent|); !res.ok || res.text == ""
    ensures var (r, e') := LoadPost(c, e, wpPostId);
            r.None? && e'.db == e.db && e'.refs == e.refs &&
            e'.sent == e.sent + [Request(SitePath(c.site, "posts/" + IntToDecimal(wpPostId)), map[], Auth(c.token))]
  {
  }

  /** On an ok response holding the requested post, `load_post` returns it as
      stored: author, attributes from the API, and exactly the listed
      categories, tags and attachments. */
  lemma LoadPostReturnsPost(c: Config, e: Env, wpPostId: int)
    requires var res := ScriptAt(c.script, |e.sent|);
             res.ok && res.text != "" && res.json.PostObject? && res.json.post.id == wpPostId
    ensures var p := ScriptAt(c.script, |e.sent|).json.post;
            LoadPost(c, e, wpPostId).0 ==
              Some(PostRecord(if p.author.id == 0 then None else Some(Key(c.site, p.author.id)),
                              p.modified, p.postType, p.status, p.parent, ObjectData(PostFieldsMapping(), p.data),
                              RefKeys(c.site, p.categories), RefKeys(c.site, p.tags), RefKeys(c.site, p.attachments)))
  {
    var path := SitePath(c.site, "posts/" + IntToDecimal(wpPostId));
    var (e1, res) := Fetch(c, e, path, map[]);
    var e2 := GetRefDataMap(c, e1, false);
    SingleLoadStores(c, LoaderTables(), e2, res.json.post);
  }
}
