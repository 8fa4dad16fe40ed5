/** The four reference-data loops `load_categories`, `load_tags`, `load_authors`
    and `load_media`: one shared state machine over (response, page),
    parameterised by the kind. The `params` dictionary the source updates in
    the loop is, for page `n`, `PageParams(kind, first, n)` (`NextParamsAdvance`),
    so the loop carries the first page's arguments and the page number. */
module RefSync {
  import opened Values
  import opened FieldMapper
  import opened Api
  import opened Store
  import opened SyncEnv

  /** The API resource of a kind, which is also the key of its item list. */
  function Resource(kind: Kind): string
  {
    match kind
    case Category => "categories"
    case Tag => "tags"
    case Author => "users"
    case Media => "media"
  }

  /** The default `max_pages` kill counter of each loop. */
  function DefaultMaxPages(kind: Kind): nat
  {
    match kind
    case Category => 30
    case Tag => 30
    case Author => 10
    case Media => 150
  }

  /** The `number` query argument of the first request. */
  function PageSize(kind: Kind): int
  {
    if kind == Tag then 1000 else 100
  }

  /** `timedelta(days=90)`, in seconds. */
  const NinetyDays: int := 90 * 24 * 60 * 60

  /** `set_media_params_after`: unless the run is full, media is limited to items
      uploaded after 90 days before the watermark, or before `now` without one. */
  function WithMediaAfter(params: Params, e: Env, now: int): (r: Params)
    ensures e.full ==> r == params
    ensures !e.full && e.modifiedAfter.Some? ==> r == params["after" := VInt(e.modifiedAfter.value - NinetyDays)]
    ensures !e.full && e.modifiedAfter.None? ==> r == params["after" := VInt(now - NinetyDays)]
  {
    if !e.full then
      var since := match e.modifiedAfter case Some(m) => m case None => now;
      params["after" := VInt(since - NinetyDays)]
    else params
  }

  /** The query arguments of the first request of a loop. */
  function FirstParams(e: Env, kind: Kind, now: int): Params
  {
    var base := map["number" := VInt(PageSize(kind))];
    if kind == Media then WithMediaAfter(base, e, now) else base
  }

  /** The query arguments a loop sends for page `n` (page 1 is the first request):
      `page = n`, except for users, whose endpoint has no page argument and gets
      `offset = (n - 1) * 100`. */
  function PageParams(kind: Kind, first: Params, n: int): Params
  {
    if n <= 1 then first
    else if kind == Author then first["offset" := VInt((n - 1) * 100)]
    else first["page" := VInt(n)]
  }

  /** The update of `params` at the bottom of an iteration for page `page`. */
  function NextParams(kind: Kind, page: int, params: Params): Params
  {
    if kind == Author then params["offset" := VInt(page * 100)]
    else params["page" := VInt(page + 1)]
  }

  lemma NextParamsAdvance(kind: Kind, first: Params, n: int)
    requires n >= 1
    ensures NextParams(kind, n, PageParams(kind, first, n)) == PageParams(kind, first, n + 1)
  {
  }

  /** The media loop leaves out items not attached to a post (`post_ID == 0`). */
  predicate Skipped(kind: Kind, item: ApiRef)
  {
    kind == Media && PyEq(Get(item.data, "post_ID"), VInt(0))
  }

  /** A new instance of the page, not yet inserted. */
  datatype NewRow = NewRow(wpId: int, fields: Fields)

  /** The `for` loop over a page's items: an item with a local row has the row
      updated by `update_existing_obj` (saved only when something differs); any
      other item becomes a new instance built by `api_object_data`. */
  function UpsertItems(site: int, kind: Kind, fs: seq<FieldSpec>, items: seq<ApiRef>, t: map<Key, Fields>, pending: seq<NewRow>)
    : (map<Key, Fields>, seq<NewRow>)
    decreases |items|
  {
    if items == [] then (t, pending)
    else
      var item := items[0];
      var key := Key(site, item.id);
      if Skipped(kind, item) then UpsertItems(site, kind, fs, items[1..], t, pending)
      else if key in t then
        var t' := if SaveNeeded(fs, t[key], item.data) then t[key := Reconciled(fs, t[key], item.data)] else t;
        UpsertItems(site, kind, fs, items[1..], t', pending)
      else
        UpsertItems(site, kind, fs, items[1..], t, pending + [NewRow(item.id, ObjectData(fs, item.data))])
  }

  /** `Model.objects.bulk_create(rows)`. */
  function InsertRows(site: int, t: map<Key, Fields>, rows: seq<NewRow>): map<Key, Fields>
    decreases |rows|
  {
    if rows == [] then t else InsertRows(site, t[Key(site, rows[0].wpId) := rows[0].fields], rows[1..])
  }

  /** One page: the item loop, then `bulk_create` of the new instances if there
      are any. Returns the new table and whether the page had new instances. */
  function ApplyPage(site: int, kind: Kind, fs: seq<FieldSpec>, items: seq<ApiRef>, t: map<Key, Fields>): (map<Key, Fields>, bool)
  {
    var (u, pending) := UpsertItems(site, kind, fs, items, t, []);
    (if pending != [] then InsertRows(site, u, pending) else u, pending != [])
  }

  /** The page processing of a loop, as the loop sees it: the kind's table and
      the page's items give the new table and whether the page had new instances. */
  type PageApply = (map<Key, Fields>, seq<ApiRef>) -> (map<Key, Fields>, bool)

  /** `ApplyPage` for the site, kind and field mapping of a loader. */
  function Applier(site: int, kind: Kind, fs: seq<FieldSpec>): PageApply
  {
    (t: map<Key, Fields>, items: seq<ApiRef>) => ApplyPage(site, kind, fs, items, t)
  }

  /** What one iteration of a reference loop leads to: the loop ends with the
      state reached, or it goes on with the state after the next request and
      that request's response. */
  datatype Step = Stop(env: Env) | Continue(env: Env, res: Response)

  /** One iteration of the `while` loop of a reference loader, for the response
      `res` to page `page`, whose first page was fetched with `first`: process the page, then either
      break (no items, nothing new outside media and full runs, or a failed next
      request) or go on with the next page. Only the kind's table and the
      request log change; the log grows by the next page's request when the
      loop does not stop before sending it. */
  function RefStep(c: Config, kind: Kind, path: string, apply: PageApply, maxPages: nat, res: Response, page: nat, first: Params, e: Env): (s: Step)
    ensures s.Continue? ==> page < maxPages && s.res.ok
    ensures s.env.sent == e.sent ||
            (page < maxPages && s.env.sent == e.sent + [Request(path, PageParams(kind, first, page + 1), Auth(c.token))])
    ensures s.Continue? ==> s.env.sent == e.sent + [Request(path, PageParams(kind, first, page + 1), Auth(c.token))]
    ensures s.env.db.posts == e.db.posts && s.env.refs == e.refs
    ensures forall k :: k != kind ==> s.env.db.Table(k) == e.db.Table(k)
    ensures s.env.modifiedAfter == e.modifiedAfter && s.env.purgeFirst == e.purgeFirst && s.env.full == e.full
  {
    if !(res.ok && res.text != "" && page < maxPages) then Stop(e)
    else
      var items := ItemsUnder(res.json, Resource(kind));
      if items == [] then Stop(e)
      else
        var (t', anyNew) := apply(e.db.Table(kind), items);
        var e1 := e.(db := e.db.WithTable(kind, t'));
        if !anyNew && kind != Media && !e.full then Stop(e1)
        else
          var (e2, res') := Fetch(c, e1, path, PageParams(kind, first, page + 1));
          if !res'.ok then Stop(e2) else Continue(e2, res')
  }

  /** The `while` loop of a reference loader, from the response for page `page`. */
  function RefLoop(c: Config, kind: Kind, path: string, apply: PageApply, maxPages: nat, res: Response, page: nat, first: Params, e: Env): Env
    decreases maxPages - page
  {
    match RefStep(c, kind, path, apply, maxPages, res, page, first, e)
    case Stop(e') => e'
    case Continue(e', res') => RefLoop(c, kind, path, apply, maxPages, res', page + 1, first, e')
  }

  /** One unfolding of the loop. */
  lemma RefLoopUnfold(c: Config, kind: Kind, path: string, apply: PageApply, maxPages: nat, res: Response, page: nat, first: Params, e: Env)
    ensures var s := RefStep(c, kind, path, apply, maxPages, res, page, first, e);
            RefLoop(c, kind, path, apply, maxPages, res, page, first, e) ==
              if s.Stop? then s.env else RefLoop(c, kind, path, apply, maxPages, s.res, page + 1, first, s.env)
  {
  }

  /** A failed or empty response, an exhausted page budget, or a page without
      items ends the loop at once: no request is sent and no row changes. */
  lemma RefLoopStops(c: Config, kind: Kind, path: string, apply: PageApply, maxPages: nat, res: Response, page: nat, first: Params, e: Env)
    requires !res.ok || res.text == "" || page >= maxPages || ItemsUnder(res.json, Resource(kind)) == []
    ensures RefLoop(c, kind, path, apply, maxPages, res, page, first, e) == e
  {
  }

  /** A reference loader: purge the site's rows if asked, fetch the first page,
      run the loop. */
  function LoadReference(c: Config, e: Env, kind: Kind, maxPages: nat, now: int): Env
  {
    var e1 := if e.purgeFirst then e.(db := e.db.WithTable(kind, PurgeSite(e.db.Table(kind), c.site))) else e;
    RunLoop(c, kind, SitePath(c.site, Resource(kind)), Applier(c.site, kind, FieldsMapping(kind)), maxPages,
            FirstParams(e1, kind, now), e1)
  }

  /** The first request of a loop, then the loop from its response. */
  function RunLoop(c: Config, kind: Kind, path: string, apply: PageApply, maxPages: nat, first: Params, e: Env): Env
  {
    var (e1, res) := Fetch(c, e, path, first);
    RefLoop(c, kind, path, apply, maxPages, res, 1, first, e1)
  }

  // ----- properties -----

  /** A non-skipped item of the page that has no local row. */
  predicate IsNew(site: int, kind: Kind, t: map<Key, Fields>, item: ApiRef)
  {
    !Skipped(kind, item) && Key(site, item.id) !in t
  }

  /** The new instances of a page, in order: one per non-skipped item with no local row. */
  function NewRows(site: int, kind: Kind, fs: seq<FieldSpec>, items: seq<ApiRef>, t: map<Key, Fields>): seq<NewRow>
    decreases |items|
  {
    if items == [] then []
    else
      (if IsNew(site, kind, t, items[0]) then [NewRow(items[0].id, ObjectData(fs, items[0].data))] else [])
      + NewRows(site, kind, fs, items[1..], t)
  }

  /** Updating existing rows changes no key, so which items are new is decided
      by the table as it was before the page. */
  lemma {:induction false} UpsertBuffersNewRows(site: int, kind: Kind, fs: seq<FieldSpec>, items: seq<ApiRef>, t: map<Key, Fields>, pending: seq<NewRow>)
    ensures UpsertItems(site, kind, fs, items, t, pending).1 == pending + NewRows(site, kind, fs, items, t)
    ensures UpsertItems(site, kind, fs, items, t, pending).0.Keys == t.Keys
  {
    UpsertBuffers(site, kind, fs, items, t, pending);
    UpsertKeepsKeys(site, kind, fs, items, t, pending);
  }

  /** The item loop appends one row per new item to the buffer. */
  lemma {:induction false} UpsertBuffers(site: int, kind: Kind, fs: seq<FieldSpec>, items: seq<ApiRef>, t: map<Key, Fields>, pending: seq<NewRow>)
    ensures UpsertItems(site, kind, fs, items, t, pending).1 == pending + NewRows(site, kind, fs, items, t)
    decreases |items|, 1
  {
    if items != [] {
      if Skipped(kind, items[0]) {
        UpsertBuffers(site, kind, fs, items[1..], t, pending);
      } else if Key(site, items[0].id) in t {
        UpsertBuffersUpdated(site, kind, fs, items, t, pending);
      } else {
        UpsertBuffersInserted(site, kind, fs, items, t, pending);
      }
    }
  }

  /** The step of `UpsertBuffers` for an item that already has a row. */
  lemma {:induction false} UpsertBuffersUpdated(site: int, kind: Kind, fs: seq<FieldSpec>, items: seq<ApiRef>, t: map<Key, Fields>, pending: seq<NewRow>)
    requires items != [] && !Skipped(kind, items[0]) && Key(site, items[0].id) in t
    ensures UpsertItems(site, kind, fs, items, t, pending).1 == pending + NewRows(site, kind, fs, items, t)
    decreases |items|, 0
  {
    var item, rest := items[0], items[1..];
    var key := Key(site, item.id);
    var t' := if SaveNeeded(fs, t[key], item.data) then t[key := Reconciled(fs, t[key], item.data)] else t;
    assert UpsertItems(site, kind, fs, items, t, pending) == UpsertItems(site, kind, fs, rest, t', pending);
    UpsertBuffers(site, kind, fs, rest, t', pending);
    NewRowsDependOnKeys(site, kind, fs, rest, t', t);
  }

  /** The step of `UpsertBuffers` for a new item. */
  lemma {:induction false} UpsertBuffersInserted(site: int, kind: Kind, fs: seq<FieldSpec>, items: seq<ApiRef>, t: map<Key, Fields>, pending: seq<NewRow>)
    requires items != [] && !Skipped(kind, items[0]) && Key(site, items[0].id) !in t
    ensures UpsertItems(site, kind, fs, items, t, pending).1 == pending + NewRows(site, kind, fs, items, t)
    decreases |items|, 0
  {
    var item, rest := items[0], items[1..];
    var row := NewRow(item.id, ObjectData(fs, item.data));
    var later := NewRows(site, kind, fs, rest, t);
    UpsertBuffers(site, kind, fs, rest, t, pending + [row]);
    assert NewRows(site, kind, fs, items, t) == [row] + later;
    assert (pending + [row]) + later == pending + ([row] + later);
  }

  /** Updating rows in place adds and removes no key. */
  lemma {:induction false} UpsertKeepsKeys(site: int, kind: Kind, fs: seq<FieldSpec>, items: seq<ApiRef>, t: map<Key, Fields>, pending: seq<NewRow>)
    ensures UpsertItems(site, kind, fs, items, t, pending).0.Keys == t.Keys
    decreases |items|
  {
    if items != [] {
      var item := items[0];
      var key := Key(site, item.id);
      if Skipped(kind, item) {
        UpsertKeepsKeys(site, kind, fs, items[1..], t, pending);
      } else if key in t {
        var t' := if SaveNeeded(fs, t[key], item.data) then t[key := Reconciled(fs, t[key], item.data)] else t;
        UpsertKeepsKeys(site, kind, fs, items[1..], t', pending);
        assert t'.Keys == t.Keys;
      } else {
        UpsertKeepsKeys(site, kind, fs, items[1..], t, pending + [NewRow(item.id, ObjectData(fs, item.data))]);
      }
    }
  }

  lemma {:induction false} NewRowsDependOnKeys(site: int, kind: Kind, fs: seq<FieldSpec>, items: seq<ApiRef>, t: map<Key, Fields>, u: map<Key, Fields>)
    requires t.Keys == u.Keys
    ensures NewRows(site, kind, fs, items, t) == NewRows(site, kind, fs, items, u)
    decreases |items|
  {
    if items != [] {
      NewRowsDependOnKeys(site, kind, fs, items[1..], t, u);
    }
  }

  /** Updating rows touches no row but those of the page's non-skipped items. */
  lemma {:induction false} UpsertKeepsOthers(site: int, kind: Kind, fs: seq<FieldSpec>, items: seq<ApiRef>, t: map<Key, Fields>, pending: seq<NewRow>, k: Key)
    requires k in t
    requires forall i :: i in items && !Skipped(kind, i) ==> Key(site, i.id) != k
    ensures k in UpsertItems(site, kind, fs, items, t, pending).0
    ensures UpsertItems(site, kind, fs, items, t, pending).0[k] == t[k]
    decreases |items|
  {
    if items != [] {
      var item := items[0];
      var key := Key(site, item.id);
      assert items[0] in items;
      assert forall i :: i in items[1..] ==> i in items;
      if Skipped(kind, item) {
        UpsertKeepsOthers(site, kind, fs, items[1..], t, pending, k);
      } else if key in t {
        var t' := if SaveNeeded(fs, t[key], item.data) then t[key := Reconciled(fs, t[key], item.data)] else t;
        UpsertKeepsOthers(site, kind, fs, items[1..], t', pending, k);
      } else {
        UpsertKeepsOthers(site, kind, fs, items[1..], t, pending + [NewRow(item.id, ObjectData(fs, item.data))], k);
      }
    }
  }

  /** Every buffered row is that of a new item, and every new item is buffered. */
  lemma {:induction false} NewRowsAreTheNewItems(site: int, kind: Kind, fs: seq<FieldSpec>, items: seq<ApiRef>, t: map<Key, Fields>)
    ensures forall r :: r in NewRows(site, kind, fs, items, t) ==>
              exists i :: i in items && IsNew(site, kind, t, i) && r == NewRow(i.id, ObjectData(fs, i.data))
    ensures forall i :: i in items && IsNew(site, kind, t, i) ==> NewRow(i.id, ObjectData(fs, i.data)) in NewRows(site, kind, fs, items, t)
    decreases |items|
  {
    if items != [] {
      NewRowsAreTheNewItems(site, kind, fs, items[1..], t);
      assert forall i :: i in items ==> i == items[0] || i in items[1..];
      assert forall i :: i in items[1..] ==> i in items;
    }
  }

  /** Inserting rows adds exactly their keys, and keeps every row no new one replaces. */
  lemma InsertRowsSpec(site: int, t: map<Key, Fields>, rows: seq<NewRow>)
    ensures forall k :: k in InsertRows(site, t, rows) <==> k in t || exists r :: r in rows && k == Key(site, r.wpId)
    ensures forall k :: k in t && (forall r :: r in rows ==> Key(site, r.wpId) != k) ==> InsertRows(site, t, rows)[k] == t[k]
    ensures forall i :: 0 <= i < |rows| && (forall j :: i < j < |rows| ==> rows[j].wpId != rows[i].wpId) ==>
              InsertRows(site, t, rows)[Key(site, rows[i].wpId)] == rows[i].fields
  {
    InsertRowsKeys(site, t, rows);
    forall i | 0 <= i < |rows| && (forall j :: i < j < |rows| ==> rows[j].wpId != rows[i].wpId)
      ensures InsertRows(site, t, rows)[Key(site, rows[i].wpId)] == rows[i].fields
    {
      InsertRowsLast(site, t, rows, i);
    }
  }

  /** The keys after the bulk create, and the rows it leaves alone. */
  lemma {:induction false} InsertRowsKeys(site: int, t: map<Key, Fields>, rows: seq<NewRow>)
    ensures forall k :: k in InsertRows(site, t, rows) <==> k in t || exists r :: r in rows && k == Key(site, r.wpId)
    ensures forall k :: k in t && (forall r :: r in rows ==> Key(site, r.wpId) != k) ==> InsertRows(site, t, rows)[k] == t[k]
    decreases |rows|
  {
    if rows != [] {
      InsertRowsKeys(site, t[Key(site, rows[0].wpId) := rows[0].fields], rows[1..]);
      assert forall r :: r in rows ==> r == rows[0] || r in rows[1..];
      assert forall r :: r in rows[1..] ==> r in rows;
    }
  }

  /** The last buffered row of an ID is the one stored under its key. */
  lemma {:induction false} InsertRowsLast(site: int, t: map<Key, Fields>, rows: seq<NewRow>, i: int)
    requires 0 <= i < |rows|
    requires forall j :: i < j < |rows| ==> rows[j].wpId != rows[i].wpId
    ensures Key(site, rows[i].wpId) in InsertRows(site, t, rows)
    ensures InsertRows(site, t, rows)[Key(site, rows[i].wpId)] == rows[i].fields
    decreases |rows|
  {
    var t' := t[Key(site, rows[0].wpId) := rows[0].fields];
    if i == 0 {
      UntouchedByInsert(site, t', rows[1..], Key(site, rows[0].wpId));
    } else {
      assert rows[1..][i - 1] == rows[i];
      forall j | i - 1 < j < |rows[1..]| ensures rows[1..][j].wpId != rows[1..][i - 1].wpId {
        assert rows[1..][j] == rows[j + 1];
      }
      InsertRowsLast(site, t', rows[1..], i - 1);
    }
  }

  /** A key that no buffered row names keeps its row through the bulk create. */
  lemma {:induction false} UntouchedByInsert(site: int, t: map<Key, Fields>, rows: seq<NewRow>, k: Key)
    requires k in t
    requires forall j :: 0 <= j < |rows| ==> Key(site, rows[j].wpId) != k
    ensures k in InsertRows(site, t, rows) && InsertRows(site, t, rows)[k] == t[k]
    decreases |rows|
  {
    if rows != [] {
      assert Key(site, rows[0].wpId) != k;
      forall j | 0 <= j < |rows[1..]| ensures Key(site, rows[1..][j].wpId) != k {
        assert rows[1..][j] == rows[j + 1];
      }
      UntouchedByInsert(site, t[Key(site, rows[0].wpId) := rows[0].fields], rows[1..], k);
    }
  }

  /** One page upserts: afterwards every non-skipped item of the page has a row,
      no row is lost, every new row belongs to a new item of the page, rows of
      items not on the page are untouched, and the page reports new instances iff
      it had a new item. */
  lemma PageUpserts(site: int, kind: Kind, fs: seq<FieldSpec>, items: seq<ApiRef>, t: map<Key, Fields>)
    ensures var (t', anyNew) := ApplyPage(site, kind, fs, items, t);
            (anyNew <==> exists i :: i in items && IsNew(site, kind, t, i)) &&
            (forall i :: i in items && !Skipped(kind, i) ==> Key(site, i.id) in t') &&
            (forall k :: k in t' <==> k in t || exists i :: i in items && IsNew(site, kind, t, i) && k == Key(site, i.id)) &&
            (forall k :: k in t && (forall i :: i in items && !Skipped(kind, i) ==> Key(site, i.id) != k) ==> t'[k] == t[k])
  {
    PageUpsertsKeys(site, kind, fs, items, t);
    PageUpsertsKeepsOthers(site, kind, fs, items, t);
  }

  /** Which keys a page leaves in the table, and whether it reports new instances. */
  lemma PageUpsertsKeys(site: int, kind: Kind, fs: seq<FieldSpec>, items: seq<ApiRef>, t: map<Key, Fields>)
    ensures var (t', anyNew) := ApplyPage(site, kind, fs, items, t);
            (anyNew <==> exists i :: i in items && IsNew(site, kind, t, i)) &&
            (forall i :: i in items && !Skipped(kind, i) ==> Key(site, i.id) in t') &&
            (forall k :: k in t' <==> k in t || exists i :: i in items && IsNew(site, kind, t, i) && k == Key(site, i.id))
  {
    var (u, pending) := UpsertItems(site, kind, fs, items, t, []);
    UpsertBuffersNewRows(site, kind, fs, items, t, []);
    assert pending == NewRows(site, kind, fs, items, t);
    NewRowsAreTheNewItems(site, kind, fs, items, t);
    InsertRowsKeys(site, u, pending);
    if pending != [] {
      assert pending[0] in pending;
    }
  }

  /** A page leaves the rows of items not on it as they were. */
  lemma PageUpsertsKeepsOthers(site: int, kind: Kind, fs: seq<FieldSpec>, items: seq<ApiRef>, t: map<Key, Fields>)
    ensures var t' := ApplyPage(site, kind, fs, items, t).0;
            forall k :: k in t && (forall i :: i in items && !Skipped(kind, i) ==> Key(site, i.id) != k) ==> k in t' && t'[k] == t[k]
  {
    var (u, pending) := UpsertItems(site, kind, fs, items, t, []);
    UpsertBuffersNewRows(site, kind, fs, items, t, []);
    NewRowsAreTheNewItems(site, kind, fs, items, t);
    InsertRowsKeys(site, u, pending);
    forall k | k in t && (forall i :: i in items && !Skipped(kind, i) ==> Key(site, i.id) != k)
      ensures k in u && u[k] == t[k]
    {
      UpsertKeepsOthers(site, kind, fs, items, t, [], k);
    }
  }

  /** The page's IDs are pairwise distinct. */
  predicate DistinctIds(items: seq<ApiRef>)
  {
    forall a, b :: 0 <= a < b < |items| ==> items[a].id != items[b].id
  }

  /** The buffered rows' IDs are pairwise distinct. */
  predicate DistinctRows(rows: seq<NewRow>)
  {
    forall a, b :: 0 <= a < b < |rows| ==> rows[a].wpId != rows[b].wpId
  }

  /** With distinct IDs, an item that already has a row ends the item loop
      reconciled with its payload when a save is needed, and as it was otherwise. */
  lemma {:induction false} UpsertUpdatesAt(site: int, kind: Kind, fs: seq<FieldSpec>, items: seq<ApiRef>, t: map<Key, Fields>, pending: seq<NewRow>, j: int)
    requires DistinctIds(items)
    requires 0 <= j < |items| && !Skipped(kind, items[j]) && Key(site, items[j].id) in t
    ensures var key := Key(site, items[j].id);
            var u := UpsertItems(site, kind, fs, items, t, pending).0;
            key in u && u[key] == if SaveNeeded(fs, t[key], items[j].data) then Reconciled(fs, t[key], items[j].data) else t[key]
    decreases |items|
  {
    var item, rest := items[0], items[1..];
    var key := Key(site, items[j].id);
    var t' := if !Skipped(kind, item) && Key(site, item.id) in t && SaveNeeded(fs, t[Key(site, item.id)], item.data)
              then t[Key(site, item.id) := Reconciled(fs, t[Key(site, item.id)], item.data)] else t;
    var pending' := if !Skipped(kind, item) && Key(site, item.id) !in t then pending + [NewRow(item.id, ObjectData(fs, item.data))] else pending;
    assert UpsertItems(site, kind, fs, items, t, pending) == UpsertItems(site, kind, fs, rest, t', pending');
    if j == 0 {
      forall i | i in rest && !Skipped(kind, i) ensures Key(site, i.id) != key {
        var l :| 0 <= l < |rest| && rest[l] == i;
        assert items[l + 1] == i;
      }
      UpsertKeepsOthers(site, kind, fs, rest, t', pending', key);
    } else {
      assert rest[j - 1] == items[j];
      assert item.id != items[j].id;
      assert DistinctIds(rest) by {
        forall a, b | 0 <= a < b < |rest| ensures rest[a].id != rest[b].id {
          assert rest[a] == items[a + 1] && rest[b] == items[b + 1];
        }
      }
      UpsertUpdatesAt(site, kind, fs, rest, t', pending', j - 1);
    }
  }

  /** With distinct IDs the buffered rows have distinct IDs too. */
  lemma {:induction false} NewRowsDistinct(site: int, kind: Kind, fs: seq<FieldSpec>, items: seq<ApiRef>, t: map<Key, Fields>)
    requires DistinctIds(items)
    ensures DistinctRows(NewRows(site, kind, fs, items, t))
    decreases |items|
  {
    if items != [] {
      var rest := items[1..];
      assert DistinctIds(rest) by {
        forall a, b | 0 <= a < b < |rest| ensures rest[a].id != rest[b].id {
          assert rest[a] == items[a + 1] && rest[b] == items[b + 1];
        }
      }
      NewRowsDistinct(site, kind, fs, rest, t);
      if IsNew(site, kind, t, items[0]) {
        NewRowsDistinctCons(site, kind, fs, items, t);
      } else {
        assert NewRows(site, kind, fs, items, t) == [] + NewRows(site, kind, fs, rest, t);
      }
    }
  }

  /** The step of `NewRowsDistinct` for a new first item. */
  lemma NewRowsDistinctCons(site: int, kind: Kind, fs: seq<FieldSpec>, items: seq<ApiRef>, t: map<Key, Fields>)
    requires DistinctIds(items) && items != [] && IsNew(site, kind, t, items[0])
    requires DistinctRows(NewRows(site, kind, fs, items[1..], t))
    ensures DistinctRows(NewRows(site, kind, fs, items, t))
  {
    var rest := items[1..];
    var later := NewRows(site, kind, fs, rest, t);
    forall l | 0 <= l < |rest| ensures rest[l].id != items[0].id {
      assert rest[l] == items[l + 1];
    }
    NewRowsAvoid(site, kind, fs, rest, t, items[0].id);
    var rows := [NewRow(items[0].id, ObjectData(fs, items[0].data))] + later;
    assert NewRows(site, kind, fs, items, t) == rows;
    forall a, b | 0 <= a < b < |rows| ensures rows[a].wpId != rows[b].wpId {
      assert rows[b] == later[b - 1];
      assert later[b - 1].wpId != items[0].id;
      if a > 0 {
        assert rows[a] == later[a - 1];
      } else {
        assert rows[a].wpId == items[0].id;
      }
    }
  }

  /** An ID that no item of the page has is the ID of no buffered row. */
  lemma {:induction false} NewRowsAvoid(site: int, kind: Kind, fs: seq<FieldSpec>, items: seq<ApiRef>, t: map<Key, Fields>, id: int)
    requires forall l :: 0 <= l < |items| ==> items[l].id != id
    ensures forall b :: 0 <= b < |NewRows(site, kind, fs, items, t)| ==> NewRows(site, kind, fs, items, t)[b].wpId != id
    decreases |items|
  {
    if items != [] {
      var rest := items[1..];
      forall l | 0 <= l < |rest| ensures rest[l].id != id {
        assert rest[l] == items[l + 1];
      }
      assert items[0].id != id;
      NewRowsAvoid(site, kind, fs, rest, t, id);
      var later := NewRows(site, kind, fs, rest, t);
      var head: seq<NewRow> := if IsNew(site, kind, t, items[0]) then [NewRow(items[0].id, ObjectData(fs, items[0].data))] else [];
      assert NewRows(site, kind, fs, items, t) == head + later;
      forall b | 0 <= b < |head + later| ensures (head + later)[b].wpId != id {
        if b < |head| {
          assert (head + later)[b] == head[b];
        } else {
          assert (head + later)[b] == later[b - |head|];
        }
      }
    }
  }

  /** With distinct IDs, every row the page writes holds what the source writes:
      an existing item's row is reconciled with its payload when a save is
      needed (and kept otherwise), and a new item's row is its `api_object_data`. */
  lemma PageUpsertsValues(site: int, kind: Kind, fs: seq<FieldSpec>, items: seq<ApiRef>, t: map<Key, Fields>)
    requires DistinctIds(items)
    ensures var t' := ApplyPage(site, kind, fs, items, t).0;
            (forall j :: 0 <= j < |items| && !Skipped(kind, items[j]) && Key(site, items[j].id) in t ==>
               Key(site, items[j].id) in t' &&
               t'[Key(site, items[j].id)] == if SaveNeeded(fs, t[Key(site, items[j].id)], items[j].data)
                                           then Reconciled(fs, t[Key(site, items[j].id)], items[j].data)
                                           else t[Key(site, items[j].id)]) &&
            (forall j :: 0 <= j < |items| && IsNew(site, kind, t, items[j]) ==>
               Key(site, items[j].id) in t' && t'[Key(site, items[j].id)] == ObjectData(fs, items[j].data))
  {
    forall j | 0 <= j < |items| && !Skipped(kind, items[j]) && Key(site, items[j].id) in t
      ensures var t' := ApplyPage(site, kind, fs, items, t).0;
              Key(site, items[j].id) in t' &&
              t'[Key(site, items[j].id)] == if SaveNeeded(fs, t[Key(site, items[j].id)], items[j].data)
                                           then Reconciled(fs, t[Key(site, items[j].id)], items[j].data)
                                           else t[Key(site, items[j].id)]
    {
      PageUpdatesRow(site, kind, fs, items, t, j);
    }
    forall j | 0 <= j < |items| && IsNew(site, kind, t, items[j])
      ensures var t' := ApplyPage(site, kind, fs, items, t).0;
              Key(site, items[j].id) in t' && t'[Key(site, items[j].id)] == ObjectData(fs, items[j].data)
    {
      PageInsertsRow(site, kind, fs, items, t, j);
    }
  }

  /** An item with a row ends the page reconciled with its payload when a save
      is needed, and as it was otherwise. */
  lemma PageUpdatesRow(site: int, kind: Kind, fs: seq<FieldSpec>, items: seq<ApiRef>, t: map<Key, Fields>, j: int)
    requires DistinctIds(items)
    requires 0 <= j < |items| && !Skipped(kind, items[j]) && Key(site, items[j].id) in t
    ensures var key := Key(site, items[j].id);
            var t' := ApplyPage(site, kind, fs, items, t).0;
            key in t' && t'[key] == if SaveNeeded(fs, t[key], items[j].data) then Reconciled(fs, t[key], items[j].data) else t[key]
  {
    var (u, pending) := UpsertItems(site, kind, fs, items, t, []);
    var key := Key(site, items[j].id);
    UpsertUpdatesAt(site, kind, fs, items, t, [], j);
    if pending != [] {
      UpsertBuffersNewRows(site, kind, fs, items, t, []);
      NewRowsAreTheNewItems(site, kind, fs, items, t);
      forall l | 0 <= l < |pending| ensures Key(site, pending[l].wpId) != key {
        assert pending[l] in pending;
      }
      UntouchedByInsert(site, u, pending, key);
    }
  }

  /** A new item's row after the page is its `api_object_data`. */
  lemma PageInsertsRow(site: int, kind: Kind, fs: seq<FieldSpec>, items: seq<ApiRef>, t: map<Key, Fields>, j: int)
    requires DistinctIds(items)
    requires 0 <= j < |items| && IsNew(site, kind, t, items[j])
    ensures var key := Key(site, items[j].id);
            var t' := ApplyPage(site, kind, fs, items, t).0;
            key in t' && t'[key] == ObjectData(fs, items[j].data)
  {
    var (u, pending) := UpsertItems(site, kind, fs, items, t, []);
    UpsertBuffersNewRows(site, kind, fs, items, t, []);
    NewRowsAreTheNewItems(site, kind, fs, items, t);
    NewRowsDistinct(site, kind, fs, items, t);
    var row := NewRow(items[j].id, ObjectData(fs, items[j].data));
    assert items[j] in items;
    assert row in pending;
    var l :| 0 <= l < |pending| && pending[l] == row;
    InsertRowsLast(site, u, pending, l);
  }

  /** The loop only appends to the log, and at most `max_pages - page` requests. */
  lemma {:induction false} RefLoopPrefix(c: Config, kind: Kind, path: string, apply: PageApply, maxPages: nat, res: Response, page: nat, first: Params, e: Env)
    ensures var e' := RefLoop(c, kind, path, apply, maxPages, res, page, first, e);
            |e.sent| <= |e'.sent| <= |e.sent| + (if page < maxPages then maxPages - page else 0) &&
            e'.sent[..|e.sent|] == e.sent
    decreases maxPages - page
  {
    var s := RefStep(c, kind, path, apply, maxPages, res, page, first, e);
    if s.Continue? {
      RefLoopPrefix(c, kind, path, apply, maxPages, s.res, page + 1, first, s.env);
      var e' := RefLoop(c, kind, path, apply, maxPages, s.res, page + 1, first, s.env);
      assert e'.sent[..|e.sent|] == e'.sent[..|s.env.sent|][..|e.sent|];
      assert s.env.sent[..|e.sent|] == e.sent;
    } else if s.env.sent != e.sent {
      assert s.env.sent[..|e.sent|] == e.sent;
    }
  }

  /** The request at position `k` of the log, if the loop sent it, asks for page
      `page + 1 + (k - |e.sent|)` of the kind's resource (`page = n`, or
      `offset = (n - 1) * 100` for users). */
  lemma {:induction false} RefLoopRequestAt(c: Config, kind: Kind, path: string, apply: PageApply, maxPages: nat, res: Response, page: nat, first: Params, e: Env, k: int)
    requires |e.sent| <= k < |RefLoop(c, kind, path, apply, maxPages, res, page, first, e).sent|
    ensures RefLoop(c, kind, path, apply, maxPages, res, page, first, e).sent[k]
            == Request(path, PageParams(kind, first, page + 1 + (k - |e.sent|)), Auth(c.token))
    decreases maxPages - page
  {
    var s := RefStep(c, kind, path, apply, maxPages, res, page, first, e);
    var whole := RefLoop(c, kind, path, apply, maxPages, res, page, first, e).sent;
    if k == |e.sent| {
      SamePageRequest(path, kind, first, page + 1 + (k - |e.sent|), page + 1, Auth(c.token));
    }
    if s.Continue? {
      var rest := RefLoop(c, kind, path, apply, maxPages, s.res, page + 1, first, s.env).sent;
      assert whole == rest;
      if k == |e.sent| {
        RefLoopPrefix(c, kind, path, apply, maxPages, s.res, page + 1, first, s.env);
        assert rest[k] == rest[..|s.env.sent|][k] == s.env.sent[k];
      } else {
        RefLoopRequestAt(c, kind, path, apply, maxPages, s.res, page + 1, first, s.env, k);
        SamePageRequest(path, kind, first, page + 1 + 1 + (k - |s.env.sent|), page + 1 + (k - |e.sent|), Auth(c.token));
      }
    } else {
      assert whole == s.env.sent;
    }
  }

  lemma SamePageRequest(path: string, kind: Kind, first: Params, a: int, b: int, auth: Option<string>)
    requires a == b
    ensures Request(path, PageParams(kind, first, a), auth) == Request(path, PageParams(kind, first, b), auth)
  {
  }

  /** Every request the loop sends goes to the kind's resource and asks for the
      next page in order (`page = 2, 3, ...`, or `offset = 100, 200, ...` for
      users); the loop sends at most `max_pages - page` of them and only appends
      to the log. */
  lemma RefLoopRequests(c: Config, kind: Kind, path: string, apply: PageApply, maxPages: nat, res: Response, page: nat, first: Params, e: Env)
    requires page >= 1
    ensures var e' := RefLoop(c, kind, path, apply, maxPages, res, page, first, e);
            Extends(e.sent, e'.sent) &&
            |e'.sent| - |e.sent| <= (if page < maxPages then maxPages - page else 0) &&
            forall j :: |e.sent| <= j < |e'.sent| ==>
              e'.sent[j] == Request(path, PageParams(kind, first, page + 1 + (j - |e.sent|)), Auth(c.token))
  {
    RefLoopPrefix(c, kind, path, apply, maxPages, res, page, first, e);
    forall j | |e.sent| <= j < |RefLoop(c, kind, path, apply, maxPages, res, page, first, e).sent|
      ensures RefLoop(c, kind, path, apply, maxPages, res, page, first, e).sent[j]
              == Request(path, PageParams(kind, first, page + 1 + (j - |e.sent|)), Auth(c.token))
    {
      RefLoopRequestAt(c, kind, path, apply, maxPages, res, page, first, e, j);
    }
  }

  /** The loop changes only the kind's table: the other tables, the posts, the
      reference map and the loading variables are left as they were. */
  lemma {:induction false} RefLoopFrame(c: Config, kind: Kind, path: string, apply: PageApply, maxPages: nat, res: Response, page: nat, first: Params, e: Env)
    ensures var e' := RefLoop(c, kind, path, apply, maxPages, res, page, first, e);
            e'.db.posts == e.db.posts && e'.refs == e.refs &&
            (forall k :: k != kind ==> e'.db.Table(k) == e.db.Table(k)) &&
            e'.modifiedAfter == e.modifiedAfter && e'.purgeFirst == e.purgeFirst && e'.full == e.full
    decreases maxPages - page
  {
    var s := RefStep(c, kind, path, apply, maxPages, res, page, first, e);
    if s.Continue? {
      RefLoopFrame(c, kind, path, apply, maxPages, s.res, page + 1, first, s.env);
    }
  }

  /** After an ok page with items, the loop asks for the next page iff the
      kind is media, the run is full, or processing the page reported new
      instances. */
  lemma {:induction false} StepContinues(c: Config, kind: Kind, path: string, apply: PageApply, maxPages: nat, res: Response, page: nat, first: Params, e: Env)
    requires res.ok && res.text != "" && page < maxPages
    requires ItemsUnder(res.json, Resource(kind)) != []
    ensures var e' := RefLoop(c, kind, path, apply, maxPages, res, page, first, e);
            |e'.sent| > |e.sent| <==>
            (kind == Media || e.full || apply(e.db.Table(kind), ItemsUnder(res.json, Resource(kind))).1)
  {
    var s := RefStep(c, kind, path, apply, maxPages, res, page, first, e);
    if s.Continue? {
      RefLoopPrefix(c, kind, path, apply, maxPages, s.res, page + 1, first, s.env);
    }
  }

  /** The stop heuristic: after an ok page with items, the loop asks for the next
      page iff the kind is media, the run is full, or the page had a new item.
      So with `full` unset, a page of already-known categories, tags or users
      ends the loop even when later pages hold changes. */
  lemma EarlyStop(c: Config, kind: Kind, path: string, fs: seq<FieldSpec>, maxPages: nat, res: Response, page: nat, first: Params, e: Env)
    requires res.ok && res.text != "" && page < maxPages
    requires ItemsUnder(res.json, Resource(kind)) != []
    ensures var e' := RefLoop(c, kind, path, Applier(c.site, kind, fs), maxPages, res, page, first, e);
            |e'.sent| > |e.sent| <==>
            (kind == Media || e.full ||
             exists i :: i in ItemsUnder(res.json, Resource(kind)) && IsNew(c.site, kind, e.db.Table(kind), i))
  {
    var items := ItemsUnder(res.json, Resource(kind));
    StepContinues(c, kind, path, Applier(c.site, kind, fs), maxPages, res, page, first, e);
    PageUpserts(c.site, kind, fs, items, e.db.Table(kind));
    assert Applier(c.site, kind, fs)(e.db.Table(kind), items) == ApplyPage(c.site, kind, fs, items, e.db.Table(kind));
  }

  /** A loop sends at least its first request and at most `max_pages` in all,
      each to the loop's path, the first with the first page's arguments. */
  lemma RunLoopRequests(c: Config, kind: Kind, path: string, apply: PageApply, maxPages: nat, first: Params, e: Env)
    requires maxPages >= 1
    ensures var e' := RunLoop(c, kind, path, apply, maxPages, first, e);
            Extends(e.sent, e'.sent) && |e.sent| < |e'.sent| <= |e.sent| + maxPages &&
            e'.sent[|e.sent|] == Request(path, first, Auth(c.token)) &&
            forall j :: |e.sent| <= j < |e'.sent| ==> e'.sent[j].path == path
  {
    var fetched := Fetch(c, e, path, first);
    var e1 := fetched.0;
    assert e1.sent == e.sent + [Request(path, first, Auth(c.token))];
    RefLoopPrefix(c, kind, path, apply, maxPages, fetched.1, 1, first, e1);
    var after := RefLoop(c, kind, path, apply, maxPages, fetched.1, 1, first, e1).sent;
    assert after == RunLoop(c, kind, path, apply, maxPages, first, e).sent;
    assert after[..|e.sent|] == after[..|e1.sent|][..|e.sent|];
    assert after[|e.sent|] == after[..|e1.sent|][|e.sent|];
    forall j | |e.sent| <= j < |after|
      ensures after[j].path == path
    {
      if j > |e.sent| {
        RefLoopRequestAt(c, kind, path, apply, maxPages, fetched.1, 1, first, e1, j);
      }
    }
  }

  /** A loader makes at most `max_pages` requests in all, all to its resource,
      and the media loader's first request carries `after` exactly when the run
      is not full. */
  lemma LoadReferenceRequests(c: Config, e: Env, kind: Kind, maxPages: nat, now: int)
    requires maxPages >= 1
    ensures var e' := LoadReference(c, e, kind, maxPages, now);
            Extends(e.sent, e'.sent) && |e.sent| < |e'.sent| <= |e.sent| + maxPages &&
            (forall j :: |e.sent| <= j < |e'.sent| ==> e'.sent[j].path == SitePath(c.site, Resource(kind))) &&
            (kind == Media ==> ("after" in e'.sent[|e.sent|].params <==> !e.full))
  {
    var e1 := if e.purgeFirst then e.(db := e.db.WithTable(kind, PurgeSite(e.db.Table(kind), c.site))) else e;
    RunLoopRequests(c, kind, SitePath(c.site, Resource(kind)), Applier(c.site, kind, FieldsMapping(kind)), maxPages,
                    FirstParams(e1, kind, now), e1);
    assert e1.sent == e.sent && e1.full == e.full;
  }
}
