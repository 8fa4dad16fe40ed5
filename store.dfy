/** The abstract local store: one table per model, keyed by (site_id, wp_id), so
    the `unique_together = ("wp_id", "site_id")` constraint of every model holds
    by construction. Also the store queries the loader issues. */
module Store {
  import opened Values
  import opened FieldMapper
  import opened Api

  /** The identity of a row: (site_id, wp_id). */
  datatype Key = Key(site: int, wpId: int)

  /** A Post row. `scalars` holds the plain attributes named by
      `PostFieldsMapping`; the many-to-many relations hold the keys of the related
      rows. */
  datatype PostRecord = PostRecord(
    author: Option<Key>,
    modified: int,
    postType: string,
    status: string,
    parent: string,
    scalars: Fields,
    categories: set<Key>,
    tags: set<Key>,
    attachments: set<Key>)

  datatype Db = Db(
    categories: map<Key, Fields>,
    tags: map<Key, Fields>,
    authors: map<Key, Fields>,
    media: map<Key, Fields>,
    posts: map<Key, PostRecord>)
  {
    function Table(kind: Kind): map<Key, Fields>
    {
      match kind
      case Category => categories
      case Tag => tags
      case Author => authors
      case Media => media
    }

    function WithTable(kind: Kind, t: map<Key, Fields>): (r: Db)
      ensures r.Table(kind) == t
      ensures forall k :: k != kind ==> r.Table(k) == Table(k)
      ensures r.posts == posts
    {
      match kind
      case Category => this.(categories := t)
      case Tag => this.(tags := t)
      case Author => this.(authors := t)
      case Media => this.(media := t)
    }
  }

  /** `Model.objects.filter(site_id=site).delete()` on a reference table. */
  function PurgeSite<R>(t: map<Key, R>, site: int): (r: map<Key, R>)
    ensures forall k :: k in r <==> k in t && k.site != site
    ensures forall k :: k in r ==> r[k] == t[k]
  {
    map k | k in t && k.site != site :: t[k]
  }

  /** `ref_data_map`: for each reference kind, the model instances by wp_id. */
  datatype RefMap = RefMap(
    authors: map<int, Fields>,
    categories: map<int, Fields>,
    tags: map<int, Fields>,
    media: map<int, Fields>)
  {
    function Table(kind: Kind): map<int, Fields>
    {
      match kind
      case Category => categories
      case Tag => tags
      case Author => authors
      case Media => media
    }

    function WithTable(kind: Kind, t: map<int, Fields>): (r: RefMap)
      ensures r.Table(kind) == t
      ensures forall k :: k != kind ==> r.Table(k) == Table(k)
    {
      match kind
      case Category => this.(categories := t)
      case Tag => this.(tags := t)
      case Author => this.(authors := t)
      case Media => this.(media := t)
    }
  }

  /** The four empty dictionaries of single-post mode. */
  const EmptyRefMap := RefMap(map[], map[], map[], map[])

  /** `{o.wp_id: o for o in Model.objects.filter(site_id=site)}`. */
  function SiteIndex(t: map<Key, Fields>, site: int): (r: map<int, Fields>)
    ensures forall id :: id in r <==> Key(site, id) in t
    ensures forall id :: id in r ==> r[id] == t[Key(site, id)]
  {
    var r := map k | k in t && k.site == site :: k.wpId := t[k];
    assert forall id :: Key(site, id) in t ==> id in r by {
      forall id | Key(site, id) in t ensures id in r {
        assert Key(site, id).wpId == id;
      }
    }
    r
  }

  /** The bulk-mode `ref_data_map` of `get_ref_data_map`: every local row of the site. */
  function BuildRefMap(db: Db, site: int): (r: RefMap)
    ensures forall kind: Kind, id :: id in r.Table(kind) <==> Key(site, id) in db.Table(kind)
    ensures forall kind: Kind, id :: id in r.Table(kind) ==> r.Table(kind)[id] == db.Table(kind)[Key(site, id)]
  {
    var r := RefMap(SiteIndex(db.authors, site), SiteIndex(db.categories, site),
                    SiteIndex(db.tags, site), SiteIndex(db.media, site));
    assert forall kind: Kind :: r.Table(kind) == SiteIndex(db.Table(kind), site) by {
      forall kind: Kind ensures r.Table(kind) == SiteIndex(db.Table(kind), site) {
        if kind == Author {
        } else if kind == Category {
        } else if kind == Tag {
        }
      }
    }
    r
  }

  // ----- posts -----

  /** The plain attributes `process_existing_post` and `process_new_post` copy
      from the API post (every assignment but author, modified, status, parent
      and post_type, which are fields of `PostRecord`). */
  function PostFieldsMapping(): seq<FieldSpec>
  {
    [FieldSpec("post_date", "date", false),
     FieldSpec("title", "title", false),
     FieldSpec("url", "URL", false),
     FieldSpec("short_url", "short_URL", false),
     FieldSpec("content", "content", false),
     FieldSpec("excerpt", "excerpt", false),
     FieldSpec("slug", "slug", false),
     FieldSpec("guid", "guid", false),
     FieldSpec("sticky", "sticky", false),
     FieldSpec("password", "password", false),
     FieldSpec("likes_enabled", "likes_enabled", false),
     FieldSpec("sharing_enabled", "sharing_enabled", false),
     FieldSpec("like_count", "like_count", false),
     FieldSpec("global_ID", "global_ID", false),
     FieldSpec("featured_image", "featured_image", false),
     FieldSpec("format", "format", false),
     FieldSpec("menu_order", "menu_order", false),
     FieldSpec("metadata", "metadata", false),
     FieldSpec("post_thumbnail", "post_thumbnail", false)]
  }

  lemma PostHeadDistinct()
    ensures DistinctRows(PostFieldsMapping(), 0, 3)
  {
  }

  lemma PostMiddleDistinct()
    ensures DistinctRows(PostFieldsMapping(), 3, 7)
  {
  }

  lemma PostTailDistinct()
    ensures DistinctRows(PostFieldsMapping(), 7, 19)
  {
  }

  lemma PostFieldsAreDistinct()
    ensures DistinctLocals(PostFieldsMapping())
  {
    PostHeadDistinct();
    PostMiddleDistinct();
    PostTailDistinct();
  }

  /** None of the plain post attributes is coerced. */
  lemma PostFieldsUncoerced(f: FieldSpec)
    requires f in PostFieldsMapping()
    ensures !f.coerced
  {
  }

  /** The post attributes as the API post gives them, for the plain-attribute
      table `pfs`: every plain attribute is the payload value under its remote
      key, the five dedicated attributes come from the post, and the relations
      are not touched. */
  function PostAttributes(pfs: seq<FieldSpec>, p: ApiPost, author: Option<Key>, current: PostRecord): (r: PostRecord)
    ensures r.author == author && r.modified == p.modified && r.postType == p.postType
    ensures r.status == p.status && r.parent == p.parent
    ensures r.scalars.Keys == LocalNames(pfs)
    ensures r.categories == current.categories && r.tags == current.tags && r.attachments == current.attachments
  {
    current.(author := author, modified := p.modified, postType := p.postType, status := p.status,
             parent := p.parent, scalars := ObjectData(pfs, p.data))
  }

  /** With the loader's table, every plain attribute of the post holds the payload
      value under its remote key (`existing_post.title = api_post["title"]`, ...). */
  lemma PostAttributesCopyPayload(p: ApiPost, author: Option<Key>, current: PostRecord, f: FieldSpec)
    requires f in PostFieldsMapping()
    ensures PostAttributes(PostFieldsMapping(), p, author, current).scalars[f.local] == Get(p.data, f.remote)
  {
    PostFieldsAreDistinct();
    ObjectDataAt(PostFieldsMapping(), p.data, f);
    PostFieldsUncoerced(f);
  }

  /** The unsaved `Post(...)` instance of `process_new_post`: no relations yet. */
  function NewPostRecord(pfs: seq<FieldSpec>, p: ApiPost, author: Option<Key>): (r: PostRecord)
    ensures r.categories == {} && r.tags == {} && r.attachments == {}
    ensures r == PostAttributes(pfs, p, author, r)
  {
    PostAttributes(pfs, p, author, PostRecord(None, 0, "", "", "", map[], {}, {}, {}))
  }

  /** The field tables of the loader, handed to the post loading functions. */
  datatype Tables = Tables(category: seq<FieldSpec>, tag: seq<FieldSpec>, author: seq<FieldSpec>,
                           media: seq<FieldSpec>, post: seq<FieldSpec>)
  {
    function Ref(kind: Kind): seq<FieldSpec>
    {
      match kind
      case Category => category
      case Tag => tag
      case Author => author
      case Media => media
    }
  }

  /** `fields_mapping` and the attribute list of `process_existing_post`. */
  function LoaderTables(): (tb: Tables)
    ensures forall kind :: tb.Ref(kind) == FieldsMapping(kind)
    ensures tb.post == PostFieldsMapping()
  {
    Tables(FieldsMapping(Category), FieldsMapping(Tag), FieldsMapping(Author), FieldsMapping(Media), PostFieldsMapping())
  }

  // ----- the parent match of the orphan sweep -----

  function LowerChar(ch: char): char
  {
    if 'A' <= ch <= 'Z' then (ch as int + 32) as char else ch
  }

  function Lower(s: string): (r: string)
    ensures |r| == |s| && forall i :: 0 <= i < |s| ==> r[i] == LowerChar(s[i])
  {
    seq(|s|, i requires 0 <= i < |s| => LowerChar(s[i]))
  }

  predicate ContainsAt(hay: string, needle: string, i: int)
  {
    0 <= i && i + |needle| <= |hay| && hay[i..i + |needle|] == needle
  }

  /** SQL `icontains`: case-insensitive substring containment. */
  predicate ContainsIgnoreCase(hay: string, needle: string)
  {
    exists i :: 0 <= i <= |hay| && ContainsAt(Lower(hay), Lower(needle), i)
  }

  /** `'"ID":{}'.format(post_id)`. */
  function ParentNeedle(postId: int): string
  {
    "\"ID\":" + IntToDecimal(postId)
  }

  /** The filter of the sweep: an attachment post whose parent text contains the needle. */
  predicate IsChildAttachment(r: PostRecord, postId: int)
  {
    r.postType == "attachment" && ContainsIgnoreCase(r.parent, ParentNeedle(postId))
  }

  /** The wp_ids of the site's attachment posts that the sweep takes as children of `postId`. */
  function ChildIds(posts: map<Key, PostRecord>, site: int, postId: int): (r: set<int>)
    ensures forall id :: id in r <==> Key(site, id) in posts && IsChildAttachment(posts[Key(site, id)], postId)
  {
    var r := set k | k in posts && k.site == site && IsChildAttachment(posts[k], postId) :: k.wpId;
    assert forall id :: Key(site, id) in posts && IsChildAttachment(posts[Key(site, id)], postId) ==> id in r by {
      forall id | Key(site, id) in posts && IsChildAttachment(posts[Key(site, id)], postId) ensures id in r {
        assert Key(site, id).wpId == id;
      }
    }
    r
  }

  /** The final `filter(site, attachment, parent match, wp_id__in=ids).delete()`. */
  function DeleteChildren(posts: map<Key, PostRecord>, site: int, postId: int, ids: set<int>): (r: map<Key, PostRecord>)
    ensures forall k :: k in r <==> k in posts && !(k.site == site && k.wpId in ids && IsChildAttachment(posts[k], postId))
    ensures forall k :: k in r ==> r[k] == posts[k]
  {
    map k | k in posts && !(k.site == site && k.wpId in ids && IsChildAttachment(posts[k], postId)) :: posts[k]
  }

  /** `Post.objects.filter(site_id=site, post_type=post_type).delete()`; a None
      post_type matches no row. */
  function PurgePosts(posts: map<Key, PostRecord>, site: int, postType: Option<string>): (r: map<Key, PostRecord>)
    ensures forall k :: k in r <==> k in posts && !(k.site == site && postType == Some(posts[k].postType))
    ensures forall k :: k in r ==> r[k] == posts[k]
  {
    map k | k in posts && !(k.site == site && postType == Some(posts[k].postType)) :: posts[k]
  }

  // ----- the watermark query -----

  /** The filter of the watermark query; `status` None leaves status unfiltered. */
  predicate WatermarkMatch(r: PostRecord, postType: string, status: Option<string>)
  {
    r.postType == postType && (status.None? || r.status == status.value)
  }

  lemma HasElement(s: set<int>)
    requires s != {}
    ensures exists x :: x in s
  {
    if forall x :: x !in s {
      assert false;
    }
  }

  ghost function SomeMax(s: set<int>): (m: int)
    requires s != {}
    ensures m in s && forall x :: x in s ==> x <= m
    decreases |s|
  {
    HasElement(s);
    var x :| x in s;
    var rest := s - {x};
    assert forall y :: y in s ==> y == x || y in rest;
    if rest == {} then x
    else
      var m := SomeMax(rest);
      if x > m then x else m
  }

  function MaxOf(s: set<int>): (m: int)
    requires s != {}
    ensures m in s && forall x :: x in s ==> x <= m
  {
    assert SomeMax(s) in s && forall x :: x in s ==> x <= SomeMax(s);
    var m :| m in s && forall x :: x in s ==> x <= m;
    m
  }

  /** `Post.objects.filter(post_type=..., status=...).order_by("-modified").first()`,
      reduced to its `modified`: not filtered by site. */
  function LatestModified(posts: map<Key, PostRecord>, postType: string, status: Option<string>): (r: Option<int>)
    ensures r.None? <==> forall k :: k in posts ==> !WatermarkMatch(posts[k], postType, status)
    ensures r.Some? ==> exists k :: k in posts && WatermarkMatch(posts[k], postType, status) && posts[k].modified == r.value
    ensures r.Some? ==> forall k :: k in posts && WatermarkMatch(posts[k], postType, status) ==> posts[k].modified <= r.value
  {
    var mods := set k | k in posts && WatermarkMatch(posts[k], postType, status) :: posts[k].modified;
    assert forall k :: k in posts && WatermarkMatch(posts[k], postType, status) ==> posts[k].modified in mods;
    if mods == {} then
      None
    else
      Some(MaxOf(mods))
  }
}
