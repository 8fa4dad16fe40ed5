/** Loading posts: resolution of a post's related objects (`process_post_author`,
    `process_post_categories`, ...), the upsert of one post (`load_wp_post`,
    `process_existing_post`, `process_new_post`, `bulk_create_posts`), the
    orphan-attachment sweep (`sync_deleted_attachments`), the posts loop
    (`process_posts_response`) and the watermark of `load_posts`. */
module PostSync {
  import opened Values
  import opened FieldMapper
  import opened Api
  import opened Store
  import opened SyncEnv
  import opened Reconcile

  // ----- related objects -----

  function Lookup<V>(m: map<Key, V>, k: Key): Option<V>
  {
    if k in m then Some(m[k]) else None
  }

  function LookupId<V>(m: map<int, V>, id: int): Option<V>
  {
    if id in m then Some(m[id]) else None
  }

  /** A related object found (`found`) or created, brought up to date and
      registered in the reference map by ID: a found row is reconciled
      (`update_existing_*`) and written only when some mapped attribute
      differs; a missing one is created from the payload. */
  function Obtain(c: Config, kind: Kind, fs: seq<FieldSpec>, e: Env, r: ApiRef, found: Option<Fields>): (e': Env)
    ensures e'.refs.Table(kind).Keys == e.refs.Table(kind).Keys + {r.id}
    ensures forall id :: id in e.refs.Table(kind) && id != r.id ==> e'.refs.Table(kind)[id] == e.refs.Table(kind)[id]
    ensures found.None? ==> e'.refs.Table(kind)[r.id] == ObjectData(fs, r.data) &&
                            e'.db.Table(kind) == e.db.Table(kind)[Key(c.site, r.id) := ObjectData(fs, r.data)]
    ensures found.Some? ==> e'.refs.Table(kind)[r.id] == Reconciled(fs, found.value, r.data)
    ensures found.Some? && SaveNeeded(fs, found.value, r.data) ==>
              e'.db.Table(kind) == e.db.Table(kind)[Key(c.site, r.id) := Reconciled(fs, found.value, r.data)]
    ensures found.Some? && !SaveNeeded(fs, found.value, r.data) ==> e'.db == e.db
    ensures forall k :: k != kind ==> e'.db.Table(k) == e.db.Table(k) && e'.refs.Table(k) == e.refs.Table(k)
    ensures e'.db.posts == e.db.posts && e'.sent == e.sent && e'.firstGet == e.firstGet && e'.warnings == e.warnings
    ensures e'.modifiedAfter == e.modifiedAfter && e'.purgeFirst == e.purgeFirst && e'.full == e.full
  {
    var key := Key(c.site, r.id);
    var row := match found case Some(cur) => Reconciled(fs, cur, r.data) case None => ObjectData(fs, r.data);
    var write := found.None? || SaveNeeded(fs, found.value, r.data);
    var t := e.db.Table(kind);
    e.(db := if write then e.db.WithTable(kind, t[key := row]) else e.db,
       refs := e.refs.WithTable(kind, e.refs.Table(kind)[r.id := row]))
  }

  /** `process_post_author`: in bulk mode the author comes from the reference map
      and is created when missing; otherwise from `get_or_create`. */
  function ProcessAuthor(c: Config, fs: seq<FieldSpec>, e: Env, a: ApiRef, bulk: bool): (Key, Env)
  {
    var found := if bulk then LookupId(e.refs.authors, a.id) else Lookup(e.db.authors, Key(c.site, a.id));
    (Key(c.site, a.id), Obtain(c, Author, fs, e, a, found))
  }

  /** `process_post_category`, `process_post_tag`, `process_post_media_attachment`:
      in bulk mode only a lookup in the reference map (None when absent);
      otherwise `get_or_create`, update, and registration in the map. For media
      this is the evidently intended update; `ResolveRefAsWritten` is the code
      as written, which never updates an existing media row. */
  function ResolveRef(c: Config, kind: Kind, fs: seq<FieldSpec>, e: Env, r: ApiRef, bulk: bool): (s: (Option<Key>, Env))
    ensures bulk ==> s.1 == e && (s.0.Some? <==> r.id in e.refs.Table(kind)) && (s.0.Some? ==> s.0.value == Key(c.site, r.id))
    ensures !bulk ==> s.0 == Some(Key(c.site, r.id)) && Key(c.site, r.id) in s.1.db.Table(kind) && r.id in s.1.refs.Table(kind)
    ensures !bulk && Key(c.site, r.id) !in e.db.Table(kind) ==>
              s.1.db.Table(kind)[Key(c.site, r.id)] == ObjectData(fs, r.data) && s.1.refs.Table(kind)[r.id] == ObjectData(fs, r.data)
    ensures !bulk && Key(c.site, r.id) in e.db.Table(kind) ==>
              s.1.refs.Table(kind)[r.id] == Reconciled(fs, e.db.Table(kind)[Key(c.site, r.id)], r.data)
  {
    if bulk then
      (if r.id in e.refs.Table(kind) then Some(Key(c.site, r.id)) else None, e)
    else
      (Some(Key(c.site, r.id)), Obtain(c, kind, fs, e, r, Lookup(e.db.Table(kind), Key(c.site, r.id))))
  }

  /** In single-post mode an existing related row is stored reconciled with its
      payload, and the map holds that same row. */
  lemma SingleResolveStores(c: Config, kind: Kind, fs: seq<FieldSpec>, e: Env, r: ApiRef)
    requires DistinctLocals(fs) && Key(c.site, r.id) in e.db.Table(kind)
    ensures var e' := ResolveRef(c, kind, fs, e, r, false).1;
            var row := Reconciled(fs, e.db.Table(kind)[Key(c.site, r.id)], r.data);
            e'.db.Table(kind)[Key(c.site, r.id)] == row && e'.refs.Table(kind)[r.id] == row
  {
    SaveNeededIffSomeDiffers(fs, e.db.Table(kind)[Key(c.site, r.id)], r.data);
  }

  /** `process_post_media_attachment` as written: `attachment, created =
      created = ...` leaves `created` bound to the whole `(instance, created)`
      pair, which is truthy, so an existing media row is registered as it is and
      never updated. Every other case is `ResolveRef`. */
  function ResolveRefAsWritten(c: Config, kind: Kind, fs: seq<FieldSpec>, e: Env, r: ApiRef, bulk: bool): (s: (Option<Key>, Env))
    ensures !bulk && kind == Media && Key(c.site, r.id) in e.db.media ==>
              s.0 == Some(Key(c.site, r.id)) && s.1.db == e.db &&
              s.1.refs.media == e.refs.media[r.id := e.db.media[Key(c.site, r.id)]]
    ensures bulk || kind != Media || Key(c.site, r.id) !in e.db.media ==> s == ResolveRef(c, kind, fs, e, r, bulk)
  {
    var key := Key(c.site, r.id);
    if !bulk && kind == Media && key in e.db.media then
      (Some(key), e.(refs := e.refs.WithTable(Media, e.refs.media[r.id := e.db.media[key]])))
    else ResolveRef(c, kind, fs, e, r, bulk)
  }

  /** An existing attachment with a mapped attribute that differs from the
      payload: the intended update stores the payload's value, the code as
      written keeps the old row. */
  lemma MediaUpdateSkipped(c: Config, fs: seq<FieldSpec>, e: Env, r: ApiRef, f: FieldSpec)
    requires DistinctLocals(fs) && f in fs && !f.coerced
    requires Key(c.site, r.id) in e.db.media && Differs(f, e.db.media[Key(c.site, r.id)], r.data)
    ensures ResolveRefAsWritten(c, Media, fs, e, r, false).1.db.media[Key(c.site, r.id)] == e.db.media[Key(c.site, r.id)]
    ensures Get(ResolveRef(c, Media, fs, e, r, false).1.db.media[Key(c.site, r.id)], f.local) == Get(r.data, f.remote)
  {
    ReconciledAt(fs, e.db.media[Key(c.site, r.id)], r.data, f);
    SingleResolveStores(c, Media, fs, e, r);
  }

  /** The same for a changed title under the media field mapping. */
  lemma MediaTitleUpdateLost(c: Config, e: Env, r: ApiRef)
    requires Key(c.site, r.id) in e.db.media
    requires Get(e.db.media[Key(c.site, r.id)], "title") == VStr("old") && Get(r.data, "title") == VStr("new")
    ensures ResolveRefAsWritten(c, Media, FieldsMapping(Media), e, r, false).1.db.media[Key(c.site, r.id)] == e.db.media[Key(c.site, r.id)]
    ensures Get(ResolveRef(c, Media, FieldsMapping(Media), e, r, false).1.db.media[Key(c.site, r.id)], "title") == VStr("new")
  {
    var f := FieldSpec("title", "title", false);
    assert FieldsMapping(Media)[9] == f;
    MappingIsDistinct(Media);
    MediaUpdateSkipped(c, FieldsMapping(Media), e, r, f);
  }

  /** The loop of `process_post_categories` (and of tags and attachments): the
      resolved objects in order. */
  function ResolveAll(c: Config, kind: Kind, fs: seq<FieldSpec>, e: Env, rs: seq<ApiRef>, bulk: bool): (seq<Key>, Env)
    decreases |rs|
  {
    if rs == [] then ([], e)
    else
      var (k, e1) := ResolveRef(c, kind, fs, e, rs[0], bulk);
      var (ks, e2) := ResolveAll(c, kind, fs, e1, rs[1..], bulk);
      ((if k.Some? then [k.value] else []) + ks, e2)
  }

  /** Bulk mode reads the reference map only: nothing changes, and the resolved
      objects are exactly those of the post whose ID the map holds. */
  lemma {:induction false} BulkResolution(c: Config, kind: Kind, fs: seq<FieldSpec>, e: Env, rs: seq<ApiRef>)
    ensures ResolveAll(c, kind, fs, e, rs, true).1 == e
    ensures forall k :: k in ResolveAll(c, kind, fs, e, rs, true).0 <==>
              exists r :: r in rs && r.id in e.refs.Table(kind) && k == Key(c.site, r.id)
    decreases |rs|
  {
    if rs != [] {
      BulkResolution(c, kind, fs, e, rs[1..]);
      assert forall r :: r in rs <==> r == rs[0] || r in rs[1..];
    }
  }

  /** Single-post mode changes no other kind's data and nothing outside the
      reference tables and map. */
  lemma {:induction false} SingleResolutionFrame(c: Config, kind: Kind, fs: seq<FieldSpec>, e: Env, rs: seq<ApiRef>)
    ensures var e' := ResolveAll(c, kind, fs, e, rs, false).1;
            (forall k :: k != kind ==> e'.db.Table(k) == e.db.Table(k) && e'.refs.Table(k) == e.refs.Table(k)) &&
            e'.db.posts == e.db.posts && e'.sent == e.sent && e'.firstGet == e.firstGet && e'.warnings == e.warnings &&
            e'.modifiedAfter == e.modifiedAfter && e'.purgeFirst == e.purgeFirst && e'.full == e.full
    decreases |rs|
  {
    if rs != [] {
      var (k, e1) := ResolveRef(c, kind, fs, e, rs[0], false);
      SingleResolutionFrame(c, kind, fs, e1, rs[1..]);
    }
  }

  /** Single-post mode resolves every related object, in order. */
  lemma {:induction false} SingleResolutionKeys(c: Config, kind: Kind, fs: seq<FieldSpec>, e: Env, rs: seq<ApiRef>)
    ensures var ks := ResolveAll(c, kind, fs, e, rs, false).0;
            |ks| == |rs| && forall i :: 0 <= i < |rs| ==> ks[i] == Key(c.site, rs[i].id)
    decreases |rs|
  {
    if rs != [] {
      var (k, e1) := ResolveRef(c, kind, fs, e, rs[0], false);
      SingleResolutionKeys(c, kind, fs, e1, rs[1..]);
      var ks := ResolveAll(c, kind, fs, e1, rs[1..], false).0;
      assert ResolveAll(c, kind, fs, e, rs, false).0 == [k.value] + ks;
    }
  }

  /** Single-post mode registers every related object in the reference map. */
  lemma {:induction false} SingleResolutionRegisters(c: Config, kind: Kind, fs: seq<FieldSpec>, e: Env, rs: seq<ApiRef>)
    ensures ResolveAll(c, kind, fs, e, rs, false).1.refs.Table(kind).Keys == e.refs.Table(kind).Keys + (set r | r in rs :: r.id)
    decreases |rs|
  {
    if rs != [] {
      var (k, e1) := ResolveRef(c, kind, fs, e, rs[0], false);
      SingleResolutionRegisters(c, kind, fs, e1, rs[1..]);
      assert (set r | r in rs :: r.id) == {rs[0].id} + (set r | r in rs[1..] :: r.id) by {
        assert forall r :: r in rs <==> r == rs[0] || r in rs[1..];
      }
    }
  }

  /** Single-post resolution as a whole. */
  lemma SingleResolution(c: Config, kind: Kind, fs: seq<FieldSpec>, e: Env, rs: seq<ApiRef>)
    ensures var (ks, e') := ResolveAll(c, kind, fs, e, rs, false);
            |ks| == |rs| && (forall i :: 0 <= i < |rs| ==> ks[i] == Key(c.site, rs[i].id)) &&
            e'.refs.Table(kind).Keys == e.refs.Table(kind).Keys + (set r | r in rs :: r.id) &&
            (forall k :: k != kind ==> e'.db.Table(k) == e.db.Table(k) && e'.refs.Table(k) == e.refs.Table(k)) &&
            e'.db.posts == e.db.posts && e'.sent == e.sent && e'.firstGet == e.firstGet && e'.warnings == e.warnings &&
            e'.modifiedAfter == e.modifiedAfter && e'.purgeFirst == e.purgeFirst && e'.full == e.full
  {
    SingleResolutionKeys(c, kind, fs, e, rs);
    SingleResolutionRegisters(c, kind, fs, e, rs);
    SingleResolutionFrame(c, kind, fs, e, rs);
  }

  // ----- one post -----

  /** A post instance buffered by `process_new_post`. */
  datatype NewPost = NewPost(wpId: int, record: PostRecord)

  /** The buffers of a page: the new posts and the relation maps, keyed by post ID. */
  datatype Buffers = Buffers(
    posts: seq<NewPost>,
    categories: map<int, seq<Key>>,
    tags: map<int, seq<Key>>,
    attachments: map<int, seq<Key>>)

  const NoBuffers := Buffers([], map[], map[], map[])

  /** `process_existing_post`: every attribute is overwritten from the API post,
      then each relation is brought to the page's map for the post. */
  function ExistingPost(pfs: seq<FieldSpec>, rec: PostRecord, p: ApiPost, author: Option<Key>, buf: Buffers): (r: PostRecord)
    ensures r.author == author && r.modified == p.modified && r.postType == p.postType
    ensures r.status == p.status && r.parent == p.parent && r.scalars == ObjectData(pfs, p.data)
    ensures r.categories == Desired(buf.categories, p.id)
    ensures r.tags == Desired(buf.tags, p.id)
    ensures r.attachments == Desired(buf.attachments, p.id)
  {
    var a := PostAttributes(pfs, p, author, rec);
    DeltaReachesDesired(buf.categories, p.id, a.categories);
    DeltaReachesDesired(buf.tags, p.id, a.tags);
    DeltaReachesDesired(buf.attachments, p.id, a.attachments);
    a.(categories := ApplyDelta(a.categories, ManyToManyDelta(buf.categories, p.id, a.categories)),
       tags := ApplyDelta(a.tags, ManyToManyDelta(buf.tags, p.id, a.tags)),
       attachments := ApplyDelta(a.attachments, ManyToManyDelta(buf.attachments, p.id, a.attachments)))
  }

  /** `Post.objects.bulk_create(posts)`. */
  function InsertPosts(site: int, posts: map<Key, PostRecord>, news: seq<NewPost>): map<Key, PostRecord>
    decreases |news|
  {
    if news == [] then posts
    else InsertPosts(site, posts[Key(site, news[0].wpId) := news[0].record], news[1..])
  }

  /** Inserting adds exactly the buffered keys and keeps every row no buffered
      post replaces. */
  lemma {:induction false} InsertPostsSpec(site: int, posts: map<Key, PostRecord>, news: seq<NewPost>)
    ensures forall k :: k in InsertPosts(site, posts, news) <==> k in posts || exists n :: n in news && k == Key(site, n.wpId)
    ensures forall k :: k in posts && (forall n :: n in news ==> Key(site, n.wpId) != k) ==> InsertPosts(site, posts, news)[k] == posts[k]
    decreases |news|
  {
    if news != [] {
      InsertPostsSpec(site, posts[Key(site, news[0].wpId) := news[0].record], news[1..]);
      assert forall n :: n in news <==> n == news[0] || n in news[1..];
    }
  }

  /** The last buffered instance of an ID is the one stored. */
  lemma {:induction false} InsertPostsLast(site: int, posts: map<Key, PostRecord>, news: seq<NewPost>, i: int)
    requires 0 <= i < |news|
    requires forall j :: i < j < |news| ==> news[j].wpId != news[i].wpId
    ensures Key(site, news[i].wpId) in InsertPosts(site, posts, news)
    ensures InsertPosts(site, posts, news)[Key(site, news[i].wpId)] == news[i].record
    decreases |news|
  {
    var posts' := posts[Key(site, news[0].wpId) := news[0].record];
    if i == 0 {
      InsertPostsSpec(site, posts', news[1..]);
      forall n | n in news[1..] ensures Key(site, n.wpId) != Key(site, news[0].wpId) {
        var j :| 0 <= j < |news[1..]| && news[1..][j] == n;
        assert news[j + 1] == n;
      }
    } else {
      assert news[1..][i - 1] == news[i];
      forall j | i - 1 < j < |news[1..]| ensures news[1..][j].wpId != news[1..][i - 1].wpId {
        assert news[1..][j] == news[j + 1];
      }
      InsertPostsLast(site, posts', news[1..], i - 1);
    }
  }

  /** The relation loops of `bulk_create_posts`: every post of the site with an
      entry in a map gets the entry's objects added to the relation. */
  function AttachRelations(site: int, posts: map<Key, PostRecord>, buf: Buffers): (r: map<Key, PostRecord>)
    ensures r.Keys == posts.Keys
    ensures forall k :: k in r && k.site == site ==>
              r[k] == posts[k].(categories := posts[k].categories + Desired(buf.categories, k.wpId),
                                tags := posts[k].tags + Desired(buf.tags, k.wpId),
                                attachments := posts[k].attachments + Desired(buf.attachments, k.wpId))
    ensures forall k :: k in r && k.site != site ==> r[k] == posts[k]
  {
    map k | k in posts ::
      if k.site == site then
        posts[k].(categories := posts[k].categories + Desired(buf.categories, k.wpId),
                  tags := posts[k].tags + Desired(buf.tags, k.wpId),
                  attachments := posts[k].attachments + Desired(buf.attachments, k.wpId))
      else posts[k]
  }

  /** `bulk_create_posts`. */
  function BulkCreatePosts(site: int, posts: map<Key, PostRecord>, buf: Buffers): map<Key, PostRecord>
  {
    AttachRelations(site, InsertPosts(site, posts, buf.posts), buf)
  }

  /** After `bulk_create_posts`, a buffered post (the last instance of its ID,
      created without relations) is stored with its attributes and exactly the
      page's related objects. */
  lemma BulkCreateRelatesNew(site: int, posts: map<Key, PostRecord>, buf: Buffers, i: int)
    requires 0 <= i < |buf.posts|
    requires buf.posts[i].record.categories == {} && buf.posts[i].record.tags == {} && buf.posts[i].record.attachments == {}
    requires forall j :: i < j < |buf.posts| ==> buf.posts[j].wpId != buf.posts[i].wpId
    ensures var k := Key(site, buf.posts[i].wpId);
            k in BulkCreatePosts(site, posts, buf) &&
            BulkCreatePosts(site, posts, buf)[k] ==
              buf.posts[i].record.(categories := Desired(buf.categories, k.wpId),
                                   tags := Desired(buf.tags, k.wpId),
                                   attachments := Desired(buf.attachments, k.wpId))
  {
    var k := Key(site, buf.posts[i].wpId);
    var ins := InsertPosts(site, posts, buf.posts);
    InsertPostsLast(site, posts, buf.posts, i);
    assert BulkCreatePosts(site, posts, buf)[k] == AttachRelations(site, ins, buf)[k];
  }

  /** `bulk_create_posts` adds the page's related objects to every stored post
      in the maps, also to posts that already existed. */
  lemma BulkCreateAddsToExisting(site: int, posts: map<Key, PostRecord>, buf: Buffers, k: Key)
    requires k in posts && k.site == site
    requires forall n :: n in buf.posts ==> n.wpId != k.wpId
    ensures k in BulkCreatePosts(site, posts, buf)
    ensures var r := BulkCreatePosts(site, posts, buf)[k];
            r.categories == posts[k].categories + Desired(buf.categories, k.wpId) &&
            r.tags == posts[k].tags + Desired(buf.tags, k.wpId) &&
            r.attachments == posts[k].attachments + Desired(buf.attachments, k.wpId)
  {
    InsertPostsSpec(site, posts, buf.posts);
  }

  /** `process_new_post`: the new instance is buffered; outside bulk mode the
      buffer is written right away. */
  function ProcessNewPost(c: Config, pfs: seq<FieldSpec>, e: Env, buf: Buffers, p: ApiPost, author: Option<Key>, bulk: bool): (Env, Buffers)
  {
    var buf' := buf.(posts := buf.posts + [NewPost(p.id, NewPostRecord(pfs, p, author))]);
    if bulk then (e, buf')
    else (e.(db := e.db.(posts := BulkCreatePosts(c.site, e.db.posts, buf'))), buf')
  }

  // ----- the orphan sweep -----

  /** The query arguments of the sweep. */
  function SweepParams(postId: int): Params
  {
    map["type" := VStr("attachment"), "parent_id" := VInt(postId), "fields" := VStr("ID"), "number" := VInt(100)]
  }

  /** The IDs of the posts of a listing. */
  function PostIdsOf(j: Json): set<int>
  {
    set p | p in PostsOf(j) :: p.id
  }

  /** How the remote listing of the sweep ends: a failed next page aborts the
      sweep; otherwise the IDs collected so far are the remote children. */
  datatype SweepEnd = Aborted(env: Env) | Collected(env: Env, ids: set<int>)

  /** The `while` loop of `sync_deleted_attachments`, from the response for page `page`. */
  function SweepLoop(c: Config, path: string, params: Params, res: Response, page: nat, ids: set<int>, e: Env): (r: SweepEnd)
    ensures ids <= (if r.Collected? then r.ids else ids)
    ensures Extends(e.sent, r.env.sent) && |r.env.sent| <= |e.sent| + (if page < 10 then 10 - page else 0)
    ensures r.env.db == e.db && r.env.refs == e.refs
    ensures r.env.modifiedAfter == e.modifiedAfter && r.env.purgeFirst == e.purgeFirst && r.env.full == e.full
    decreases 10 - page
  {
    if !(res.ok && res.text != "" && page < 10) then Collected(e, ids)
    else
      var ids' := ids + PostIdsOf(res.json);
      var handle := NextPageOf(res.json);
      if !Truthy(handle) then Collected(e, ids')
      else
        var params' := params["page_handle" := handle];
        var (e1, res') := Fetch(c, e, path, params');
        ExtendsAppend(e.sent, Request(path, params', Auth(c.token)));
        if !res'.ok then Aborted(e1)
        else
          var r := SweepLoop(c, path, params', res', page + 1, ids', e1);
          ExtendsTrans(e.sent, e1.sent, r.env.sent);
          r
  }

  /** `sync_deleted_attachments(api_post)`. */
  function Sweep(c: Config, e: Env, p: ApiPost): Env
  {
    var existing := ChildIds(e.db.posts, c.site, p.id);
    if existing == {} then e
    else
      var path := SitePath(c.site, "posts/");
      var (e1, res) := Fetch(c, e, path, SweepParams(p.id));
      match SweepLoop(c, path, SweepParams(p.id), res, 1, {}, e1)
      case Aborted(e2) => e2
      case Collected(e2, ids) =>
        var toRemove := existing - ids;
        if toRemove != {} then e2.(db := e2.db.(posts := DeleteChildren(e2.db.posts, c.site, p.id, toRemove)))
        else e2
  }

  /** With no matching local attachment child, the sweep makes no request. */
  lemma SweepWithoutChildren(c: Config, e: Env, p: ApiPost)
    requires forall k :: k in e.db.posts && k.site == c.site ==> !IsChildAttachment(e.db.posts[k], p.id)
    ensures Sweep(c, e, p) == e
  {
    assert ChildIds(e.db.posts, c.site, p.id) == {};
  }

  /** The sweep removes only attachment children of the post and leaves every
      other row as it was. */
  lemma SweepOnlyDeletesChildren(c: Config, e: Env, p: ApiPost)
    ensures var e' := Sweep(c, e, p);
            (forall k :: k in e'.db.posts ==> k in e.db.posts && e'.db.posts[k] == e.db.posts[k]) &&
            (forall k :: k in e.db.posts && k !in e'.db.posts ==>
               k.site == c.site && IsChildAttachment(e.db.posts[k], p.id))
  {
  }

  /** The sweep changes nothing of the store but posts, and no loading variable. */
  lemma SweepFrame(c: Config, e: Env, p: ApiPost)
    ensures var e' := Sweep(c, e, p);
            (forall kind :: e'.db.Table(kind) == e.db.Table(kind)) && e'.refs == e.refs &&
            e'.modifiedAfter == e.modifiedAfter && e'.purgeFirst == e.purgeFirst && e'.full == e.full
  {
  }

  /** The sweep sends at most ten requests and only appends to the log. */
  lemma SweepRequests(c: Config, e: Env, p: ApiPost)
    ensures var e' := Sweep(c, e, p);
            Extends(e.sent, e'.sent) && |e'.sent| <= |e.sent| + 10
  {
    var existing := ChildIds(e.db.posts, c.site, p.id);
    if existing != {} {
      var path := SitePath(c.site, "posts/");
      var (e1, res) := Fetch(c, e, path, SweepParams(p.id));
      ExtendsAppend(e.sent, Request(path, SweepParams(p.id), Auth(c.token)));
      var r := SweepLoop(c, path, SweepParams(p.id), res, 1, {}, e1);
      ExtendsTrans(e.sent, e1.sent, r.env.sent);
    }
  }

  /** The set difference: when the remote listing completes with IDs `ids`, the
      sweep deletes exactly the local children whose ID is not among them. */
  lemma SweepDeletesUnlisted(c: Config, e: Env, p: ApiPost)
    requires ChildIds(e.db.posts, c.site, p.id) != {}
    ensures var path := SitePath(c.site, "posts/");
            var (e1, res) := Fetch(c, e, path, SweepParams(p.id));
            var r := SweepLoop(c, path, SweepParams(p.id), res, 1, {}, e1);
            r.Collected? ==>
              forall k :: k in Sweep(c, e, p).db.posts <==>
                k in e.db.posts && !(k.site == c.site && IsChildAttachment(e.db.posts[k], p.id) && k.wpId !in r.ids)
  {
    var existing := ChildIds(e.db.posts, c.site, p.id);
    var path := SitePath(c.site, "posts/");
    var (e1, res) := Fetch(c, e, path, SweepParams(p.id));
    var r := SweepLoop(c, path, SweepParams(p.id), res, 1, {}, e1);
    if r.Collected? {
      var toRemove := existing - r.ids;
      assert r.env.db == e.db;
      if toRemove != {} {
        assert Sweep(c, e, p).db.posts == DeleteChildren(e.db.posts, c.site, p.id, toRemove);
      } else {
        assert Sweep(c, e, p).db.posts == e.db.posts;
      }
    }
  }

  /** A failed or empty first response skips the loop: every local child is deleted. */
  lemma SweepFirstFailure(c: Config, e: Env, p: ApiPost)
    requires ChildIds(e.db.posts, c.site, p.id) != {}
    requires var res := ScriptAt(c.script, |e.sent|); !res.ok || res.text == ""
    ensures forall k :: k in Sweep(c, e, p).db.posts <==>
              k in e.db.posts && !(k.site == c.site && IsChildAttachment(e.db.posts[k], p.id))
  {
  }

  /** A failed second page aborts the sweep: nothing is deleted. */
  lemma SweepLaterFailure(c: Config, e: Env, p: ApiPost)
    requires ChildIds(e.db.posts, c.site, p.id) != {}
    requires var res := ScriptAt(c.script, |e.sent|);
             res.ok && res.text != "" && Truthy(NextPageOf(res.json))
    requires !ScriptAt(c.script, |e.sent| + 1).ok
    ensures Sweep(c, e, p).db == e.db
  {
  }

  /** Children listed on a completed first page are kept. */
  lemma SweepKeepsListed(c: Config, e: Env, p: ApiPost, k: Key)
    requires var res := ScriptAt(c.script, |e.sent|);
             res.ok && res.text != "" && !Truthy(NextPageOf(res.json))
    requires k in e.db.posts && k.wpId in PostIdsOf(ScriptAt(c.script, |e.sent|).json)
    ensures k in Sweep(c, e, p).db.posts
  {
  }

  // ----- load_wp_post -----

  /** The keys of a post's related objects as the API lists them. */
  function RefKeys(site: int, rs: seq<ApiRef>): set<Key>
  {
    set r | r in rs :: Key(site, r.id)
  }

  /** The author step of `load_wp_post`: processed only when its ID is truthy. */
  function PostAuthor(c: Config, fs: seq<FieldSpec>, e: Env, p: ApiPost, bulk: bool): (r: (Option<Key>, Env))
    ensures r.0.None? <==> p.author.id == 0
    ensures r.0.Some? ==> r.0.value == Key(c.site, p.author.id) && p.author.id in r.1.refs.authors
    ensures p.author.id == 0 ==> r.1 == e
    ensures forall k :: k != Author ==> r.1.db.Table(k) == e.db.Table(k) && r.1.refs.Table(k) == e.refs.Table(k)
    ensures r.1.db.posts == e.db.posts && r.1.sent == e.sent && r.1.firstGet == e.firstGet && r.1.warnings == e.warnings
    ensures r.1.modifiedAfter == e.modifiedAfter && r.1.purgeFirst == e.purgeFirst && r.1.full == e.full
  {
    if p.author.id != 0 then
      var (k, e') := ProcessAuthor(c, fs, e, p.author, bulk);
      assert p.author.id in e'.refs.Table(Author);
      (Some(k), e')
    else (None, e)
  }

  /** The relation steps of `load_wp_post`: categories, tags and attachments
      resolved in turn, each list stored in the page's map under the post's ID. */
  function ResolveRelations(c: Config, tb: Tables, e: Env, buf: Buffers, p: ApiPost, bulk: bool): (Env, Buffers)
  {
    var (cats, e2) := ResolveAll(c, Category, tb.category, e, p.categories, bulk);
    var (tags, e3) := ResolveAll(c, Tag, tb.tag, e2, p.tags, bulk);
    var (atts, e4) := ResolveAll(c, Media, tb.media, e3, p.attachments, bulk);
    (e4, buf.(categories := buf.categories[p.id := cats], tags := buf.tags[p.id := tags],
              attachments := buf.attachments[p.id := atts]))
  }

  /** If the post exists it is updated (`process_existing_post`), else created
      (`process_new_post`). */
  function UpsertPost(c: Config, pfs: seq<FieldSpec>, e: Env, buf: Buffers, p: ApiPost, author: Option<Key>, bulk: bool): (Env, Buffers)
  {
    var key := Key(c.site, p.id);
    if key in e.db.posts then
      (e.(db := e.db.(posts := e.db.posts[key := ExistingPost(pfs, e.db.posts[key], p, author, buf)])), buf)
    else ProcessNewPost(c, pfs, e, buf, p, author, bulk)
  }

  /** `load_wp_post`: the author, the three relations into the page's maps, the
      upsert of the post, and the sweep for posts of type "post". */
  function LoadWpPost(c: Config, tb: Tables, e: Env, buf: Buffers, p: ApiPost, bulk: bool): (Env, Buffers)
  {
    var (author, e1) := PostAuthor(c, tb.author, e, p, bulk);
    var (e4, buf1) := ResolveRelations(c, tb, e1, buf, p, bulk);
    var (e5, buf2) := UpsertPost(c, tb.post, e4, buf1, p, author, bulk);
    (if p.postType == "post" then Sweep(c, e5, p) else e5, buf2)
  }

  /** Single-post mode resolves every related object: the page's maps hold, for
      the post, exactly the objects the API lists; only reference data changes. */
  lemma SingleRelations(c: Config, tb: Tables, e: Env, buf: Buffers, p: ApiPost)
    ensures var (e', buf') := ResolveRelations(c, tb, e, buf, p, false);
            Desired(buf'.categories, p.id) == RefKeys(c.site, p.categories) &&
            Desired(buf'.tags, p.id) == RefKeys(c.site, p.tags) &&
            Desired(buf'.attachments, p.id) == RefKeys(c.site, p.attachments) &&
            e'.db.posts == e.db.posts && e'.sent == e.sent && e'.firstGet == e.firstGet && e'.warnings == e.warnings &&
            e'.modifiedAfter == e.modifiedAfter && e'.purgeFirst == e.purgeFirst && e'.full == e.full
  {
    var (cats, e2) := ResolveAll(c, Category, tb.category, e, p.categories, false);
    var (tags, e3) := ResolveAll(c, Tag, tb.tag, e2, p.tags, false);
    var (atts, e4) := ResolveAll(c, Media, tb.media, e3, p.attachments, false);
    SingleResolution(c, Category, tb.category, e, p.categories);
    SingleResolution(c, Tag, tb.tag, e2, p.tags);
    SingleResolution(c, Media, tb.media, e3, p.attachments);
    SameKeys(c.site, cats, p.categories);
    SameKeys(c.site, tags, p.tags);
    SameKeys(c.site, atts, p.attachments);
  }

  lemma SameKeys(site: int, ks: seq<Key>, rs: seq<ApiRef>)
    requires |ks| == |rs| && forall i :: 0 <= i < |rs| ==> ks[i] == Key(site, rs[i].id)
    ensures (set x | x in ks) == RefKeys(site, rs)
  {
    forall x | x in ks ensures x in RefKeys(site, rs) {
      var i :| 0 <= i < |ks| && ks[i] == x;
      assert rs[i] in rs;
    }
    forall r | r in rs ensures Key(site, r.id) in ks {
      var i :| 0 <= i < |rs| && rs[i] == r;
      assert ks[i] == Key(site, r.id);
    }
  }

  /** Bulk mode reads the reference map only: nothing changes, and the page's
      maps hold, for the post, exactly those listed objects the map knows. */
  lemma BulkRelations(c: Config, tb: Tables, e: Env, buf: Buffers, p: ApiPost)
    ensures var (e', buf') := ResolveRelations(c, tb, e, buf, p, true);
            e' == e &&
            (forall k :: k in Desired(buf'.categories, p.id) <==>
               exists r :: r in p.categories && r.id in e.refs.categories && k == Key(c.site, r.id)) &&
            (forall k :: k in Desired(buf'.tags, p.id) <==>
               exists r :: r in p.tags && r.id in e.refs.tags && k == Key(c.site, r.id)) &&
            (forall k :: k in Desired(buf'.attachments, p.id) <==>
               exists r :: r in p.attachments && r.id in e.refs.media && k == Key(c.site, r.id))
  {
    BulkResolution(c, Category, tb.category, e, p.categories);
    BulkResolution(c, Tag, tb.tag, e, p.tags);
    BulkResolution(c, Media, tb.media, e, p.attachments);
  }

  /** Outside bulk mode the upsert stores the post right away, existing or new:
      its attributes come from the API post and each relation is exactly the
      page's map entry for it. */
  lemma SingleUpsertStores(c: Config, pfs: seq<FieldSpec>, e: Env, buf: Buffers, p: ApiPost, author: Option<Key>)
    ensures var e' := UpsertPost(c, pfs, e, buf, p, author, false).0;
            var key := Key(c.site, p.id);
            key in e'.db.posts &&
            e'.db.posts[key] == PostRecord(author, p.modified, p.postType, p.status, p.parent, ObjectData(pfs, p.data),
                                           Desired(buf.categories, p.id), Desired(buf.tags, p.id),
                                           Desired(buf.attachments, p.id))
  {
    var key := Key(c.site, p.id);
    if key !in e.db.posts {
      var buf' := buf.(posts := buf.posts + [NewPost(p.id, NewPostRecord(pfs, p, author))]);
      BulkCreateRelatesNew(c.site, e.db.posts, buf', |buf.posts|);
    }
  }

  /** In bulk mode a new post is only buffered and the store is left as it was;
      an existing post is overwritten in place. */
  lemma BulkUpsertBuffers(c: Config, pfs: seq<FieldSpec>, e: Env, buf: Buffers, p: ApiPost, author: Option<Key>)
    ensures var (e', buf') := UpsertPost(c, pfs, e, buf, p, author, true);
            var key := Key(c.site, p.id);
            (key !in e.db.posts ==> e' == e && buf'.posts == buf.posts + [NewPost(p.id, NewPostRecord(pfs, p, author))]) &&
            (key in e.db.posts ==>
               (buf' == buf && e'.db.posts.Keys == e.db.posts.Keys &&
                e'.db.posts[key] == ExistingPost(pfs, e.db.posts[key], p, author, buf) &&
                forall k :: k in e.db.posts && k != key ==> e'.db.posts[k] == e.db.posts[k]))
  {
  }

  /** `load_post`'s use of `load_wp_post`: the post ends up stored with its
      author (None when the API's author ID is 0), the attributes from the API,
      and exactly the categories, tags and attachments the API lists. */
  lemma SingleLoadStores(c: Config, tb: Tables, e: Env, p: ApiPost)
    ensures var e' := LoadWpPost(c, tb, e, NoBuffers, p, false).0;
            var key := Key(c.site, p.id);
            key in e'.db.posts &&
            e'.db.posts[key] == PostRecord(if p.author.id == 0 then None else Some(Key(c.site, p.author.id)),
                                           p.modified, p.postType, p.status, p.parent, ObjectData(tb.post, p.data),
                                           RefKeys(c.site, p.categories), RefKeys(c.site, p.tags),
                                           RefKeys(c.site, p.attachments))
  {
    var (author, e1) := PostAuthor(c, tb.author, e, p, false);
    var (e4, buf1) := ResolveRelations(c, tb, e1, NoBuffers, p, false);
    SingleRelations(c, tb, e1, NoBuffers, p);
    SingleUpsertStores(c, tb.post, e4, buf1, p, author);
    var e5 := UpsertPost(c, tb.post, e4, buf1, p, author, false).0;
    if p.postType == "post" {
      SweepOnlyDeletesChildren(c, e5, p);
    }
  }
}
