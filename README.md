# django-wordpress-rest sync engine, in Dafny

This project models the incremental sync engine of django-wordpress-rest. The
engine copies a WordPress.com site into local Django tables through the
WordPress.com REST API v1.1.

There are two implementations of the engine:

- the `WPAPILoader` class of `wordpress/loading.py`;
- its older free-function twin, `wordpress/wp_api.py`.

Both are modelled over an abstract store and an abstract transport:

- **Store.** One map per model, from the key `(site_id, wp_id)` to a record.
  Because the key is the map's key, the `unique_together` constraint holds by
  construction.
- **Transport.** A fixed script of responses. The k-th request made gets the
  k-th response, and every request is recorded in a log. A response has `ok`,
  `text` and a decoded body: an item list under the resource's key and
  `meta.next_page`.

Module layout, following the source:

| module | file | models |
|---|---|---|
| `Values` | values.dfy | Python values, truthiness and `==`; `int_or_None` (utils.py) |
| `FieldMapper` | fields.dfy | `fields_mapping`, `api_object_data`, `update_existing_obj` |
| `Reconcile` | reconcile.dfy | the many-to-many set delta of `process_post_many_to_many_field` |
| `Api` | api.dfy | response bodies, the transport script, URL paths and the auth header |
| `Store` | store.dfy | tables, purges, the ref-data comprehensions, the post attributes, the attachment-parent query, the watermark query |
| `SyncEnv` | sync_env.dfy | the loader state and `get` with its `first_get` flag |
| `RefSync` | sync_refs.dfy | `load_categories`, `load_tags`, `load_authors`, `load_media`, `set_media_params_after` |
| `PostSync` | sync_posts.dfy | `process_post_*`, `load_wp_post`, `process_existing_post`, `process_new_post`, `bulk_create_posts`, `sync_deleted_attachments` |
| `PostPaging` | sync_paging.dfy | `process_posts_response`, `set_posts_param_modified_after`, `load_posts` |
| `SiteSync` | sync_site.dfy | `get_ref_data_map`, the `load_site` dispatch, `load_post` |
| `Loading` | loader.dfy | the `WPAPILoader` class: its fields and every loop as a `while` loop |
| `WpApi` | wpapi.dfy | where `wp_api.py` differs from the loader |

The operations are specified as functions on an `Env` value. `Env` holds:

- the store;
- the request log;
- `first_get` and the warning count;
- `ref_data_map`;
- the three loading variables of `load_site`.

The class `Loading.WPAPILoader` holds the same state as mutable fields.
`Snapshot()` reads those fields back as an `Env`. Each method of the class
ensures that its new snapshot is the specification function applied to the old
one. Every loop of the source is a `while` loop in the class, with the
invariant "the rest of the loop, run from here, gives the same result": the
reference loops, the posts-page loop, the item loop of a page, the relation
loops and the attachment sweep.

The properties proved about those functions are the lemmas in the table below.

`wp_api.py` repeats much of `loading.py`. The following are written once, in
the modules above:

- `fields_mapping`, `api_object_data`, `update_existing_obj` and `int_or_None`
  (wp_api.py:836-927);
- the reference loaders (wp_api.py:111-353);
- `get_ref_data_map` (wp_api.py:356-375);
- `process_post_author` and the single relation resolvers
  (wp_api.py:519-655);
- `process_new_post`, `bulk_create_posts` and the posts-page loop
  (wp_api.py:422-470, 715-764);
- `sync_deleted_attachments` (wp_api.py:767-831).

Each of these has the same branches as its loader counterpart. That includes the
media lookup of `process_post_media_attachment` (wp_api.py:641-642), which has
the same `created = created` slip as the loader (see "## Findings").
`WpApi` states only what differs:

- the module-global `public_api_warnings` flag, as a class;
- a watermark that is a local variable, filtered by post type only, and
  re-derived on each `load_posts` call;
- a `load_wp_post` that never fills the relation maps;
- the channel/subchannel and slideshow helpers, which nothing calls;
- the `load_wp_api` dispatch.

The twin's loops share the loader's `get` model. `GetAgreesWithLoader` shows
that this is sound: both versions send the same requests, get the same
responses and log the same warnings.

Behaviour of the code that the model keeps as written:

- `update_existing_obj` compares the stored value with the **raw** API value
  but assigns the **coerced** one (loading.py:1056-1059). So a media payload
  with `width` 0 is stored as None, and since raw 0 differs from None the row
  is saved again on every run (`MediaZeroWidthResaves`). Only categories, tags
  and authors settle (`RepeatUpdateDoesNotSave`); existing media rows are
  saved again on every run in the source (see "## Left out").
- A reference page with no new rows stops the loop unless `full` is set
  (loading.py:192-196), even when later pages hold updates. This is modelled as
  written (`EarlyStop`).
- The watermark query of `set_posts_param_modified_after` is filtered by post
  type and status but **not by site** (loading.py:506). The model's
  `LatestModified` ranges over every site's posts.
- `load_site` passes its `status` argument on to `load_posts`
  (loading.py:147 and 150). The load-site tests expect calls with `post_type`
  alone (wordpress/tests/test_loading.py:81-85 and 122). Mock call equality
  compares every keyword argument, so as written those tests disagree with the
  code. The model follows the code. Separately, `load_posts` sends the HTTP
  parameter `status` along with `type` (loading.py:484).
- The parent match of the sweep is a case-insensitive substring test on
  `"ID":<id>`, so `"ID":12` also matches `"ID":123` (loading.py:935). The model
  keeps the substring test.

## Model

| member | source | states |
|---|---|---|
| Values.IntOrNone | wordpress/utils.py:4-10 | The result is None or an integer. Falsy input gives None. An integer other than 0 is returned unchanged and True gives 1. A non-empty decimal string gives its value; a string `int()` rejects gives None. |
| Values.IntOrNoneNotIdempotent | wordpress/utils.py:5-7 | `"0"` maps to 0, but 0 maps to None, so the coercion is not idempotent. |
| Values.IntOrNoneOfNumeral | wordpress/utils.py:6-7 | The decimal rendering of any non-zero integer coerces back to that integer. |
| Values.DecimalRoundTrip | wordpress/utils.py:6-7 | The signed-decimal parser used for `int()` reads back every rendered integer. |
| Values.NatToDecimalValue | wordpress/utils.py:6-7 | The digits of a rendered natural number have that number as their value. |
| Values.PyEqIsEquivalence | wordpress/loading.py:1056 | The Python `!=` used by `update_existing_obj` comes from an equivalence relation: reflexive, symmetric and transitive. |
| FieldMapper.MappingIsDistinct | wordpress/loading.py:994-1033 | Every kind's field list names each local attribute once. |
| FieldMapper.OnlyMediaCoerces | wordpress/loading.py:1021-1026 | Only the media entries `post_ID`, `width` and `height` are coerced. |
| FieldMapper.ObjectData | wordpress/loading.py:1066-1076 | The data built from a field list has exactly the listed local keys. With distinct names, each key holds the incoming value: coerced when the entry says so, raw otherwise. |
| FieldMapper.ApiObjectData | wordpress/loading.py:1066-1076 | `api_object_data(kind, d)` has exactly the local keys of `fields_mapping[kind]`, each bound to that entry's incoming value. |
| FieldMapper.ObjectDataAt | wordpress/loading.py:1070-1074 | Any entry of a distinct field list is bound to its incoming value. |
| FieldMapper.AbsentRemoteIsNone | wordpress/loading.py:1074 | A remote key missing from the payload yields None. |
| FieldMapper.ReconciledOutside | wordpress/loading.py:1055-1061 | Attributes not in the field list are neither added, removed nor changed. |
| FieldMapper.ReconciledAt | wordpress/loading.py:1056-1061 | A mapped attribute that differs from the raw API value ends with the coerced value. One that is equal keeps its value. |
| FieldMapper.ReconciledKeys | wordpress/loading.py:1055-1061 | The attributes afterwards are the old ones plus the differing mapped ones. |
| FieldMapper.SaveNeededIffSomeDiffers | wordpress/loading.py:1053-1064 | A save happens iff some mapped field differs from the raw API value. Without a save, the object is unchanged. |
| FieldMapper.DifferenceSaves | wordpress/loading.py:1056-1057 | One differing field suffices for a save. |
| FieldMapper.UpdateExistingObj | wordpress/loading.py:1051-1064 | The in-place `setattr` loop leaves the object reconciled with the payload, and its `save_it` flag is the save-needed predicate. |
| FieldMapper.ReconcileSettles | wordpress/loading.py:1051-1064 | When coercion is stable on the payload, a second update with the same payload does not save. |
| FieldMapper.RepeatUpdateDoesNotSave | wordpress/loading.py:1036-1064 | For categories, tags and authors, a repeat update with the same payload does not save. |
| FieldMapper.CreatedRecordIsInSync | wordpress/loading.py:1051-1076 | A row created by `api_object_data` needs no save for the same payload when coercion is stable. This holds for the in-memory row; a media row reloaded from the database is saved again in the source (see "## Left out"). |
| FieldMapper.ReconciledFixed | wordpress/loading.py:1055-1061 | An object already holding every incoming value is left as it is. |
| FieldMapper.CreatedRecordIsFixed | wordpress/loading.py:1051-1076 | Reconciling a freshly created row with its own payload leaves it unchanged. |
| FieldMapper.MediaZeroWidthResaves | wordpress/loading.py:1025-1059 | A media payload with `width` 0 makes even a freshly created row save again, because raw 0 differs from the stored None. |
| Reconcile.Desired | wordpress/loading.py:843-844 | The desired set is empty for a post with no entry in the map; otherwise it holds exactly the mapped objects. |
| Reconcile.ManyToManyDelta | wordpress/loading.py:843-844 | `to_add` is desired minus current and `to_remove` is current minus desired. The two are disjoint, `to_add` avoids current and `to_remove` is within current. |
| Reconcile.DeltaReachesDesired | wordpress/loading.py:843-849 | After the adds and removes, the relation equals the desired set exactly. It is empty for a post with no entry. |
| Reconcile.DeltaIsIdempotent | wordpress/loading.py:843-849 | A second delta, taken after applying the first, is empty. |
| Api.ScriptAt | wordpress/loading.py:68 | The k-th request gets the k-th scripted response. Past the end of the script it gets a non-ok, empty response. |
| Store.Db.WithTable | wordpress/loading.py:193 | Replacing one kind's table leaves the other tables and the posts unchanged. (Also lines 259, 325 and 397 of the same file.) |
| Store.RefMap.WithTable | wordpress/loading.py:644 | Replacing one kind's entry of the reference map leaves the other entries unchanged. (Also lines 695, 734 and 773 of the same file.) |
| Store.PurgeSite | wordpress/loading.py:162-163 | A purge removes exactly this site's rows and keeps the rest as they were. (Also lines 228-229, 294-295 and 361-363 of the same file.) |
| Store.SiteIndex | wordpress/loading.py:447-450 | The `{x.wp_id: x}` comprehension over one site's table holds exactly that site's rows, by wp_id. |
| Store.BuildRefMap | wordpress/loading.py:445-451 | The bulk reference map holds, for each kind, exactly the site's rows by wp_id. |
| Store.PostFieldsAreDistinct | wordpress/loading.py:803-825 | The post attributes copied from the payload are distinct. |
| Store.PostFieldsUncoerced | wordpress/loading.py:803-825 | No post attribute is coerced. |
| Store.PostAttributes | wordpress/loading.py:802-825 | The overwrite sets the author, `modified`, type, status and parent from the payload and binds exactly the listed scalar attributes. The relations are left alone. |
| Store.PostAttributesCopyPayload | wordpress/loading.py:803-825 | Each scalar post attribute holds the payload's value for its key. |
| Store.NewPostRecord | wordpress/loading.py:865-890 | A new post has the payload's attributes and no relations. |
| Store.LoaderTables | wordpress/loading.py:994-1033 | The loader's tables are `fields_mapping` for each kind, plus the post attribute list. |
| Store.Lower | wordpress/loading.py:935 | Lower-casing, for `icontains`, maps each character and keeps the length. |
| Store.ChildIds | wordpress/loading.py:933-936 | The local attachment children of a post are exactly this site's attachment posts whose parent text contains `"ID":<id>`, ignoring case. |
| Store.DeleteChildren | wordpress/loading.py:987-990 | The delete removes exactly this site's matching attachment children among the given ids and keeps every other post as it was. |
| Store.PurgePosts | wordpress/loading.py:475-476 | The purge removes exactly this site's posts of the given type and keeps the rest. |
| Store.MaxOf | wordpress/loading.py:506 | The maximum of a non-empty set is in the set and bounds it. |
| Store.LatestModified | wordpress/loading.py:506-508 | The watermark query is None iff no stored post (of any site) has the type and status. Otherwise it is the `modified` of such a post and no such post is later. |
| SyncEnv.FetchKeepsDiscipline | wordpress/loading.py:55-68 | `get` records the request with the Bearer header when a token is set, clears `first_get`, and keeps the rule that the token warning is logged at most once. |
| RefSync.WithMediaAfter | wordpress/loading.py:408-423 | Under `full` no `after` key is added. Otherwise `after` is 90 days before the watermark, or 90 days before now when there is none. |
| RefSync.NextParamsAdvance | wordpress/loading.py:199-200 | The update at the bottom of an iteration for page n gives the arguments of page n+1: `page = n+1`, or `offset = n*100` for users. (Also lines 265-266, 330-333 and 400-401 of the same file.) |
| RefSync.RefStep | wordpress/loading.py:174-205 | One iteration only goes on below the budget and after an ok response. It sends at most the next page's request, and it only changes the kind's table and the log. |
| RefSync.RefLoopUnfold | wordpress/loading.py:174-205 | The loop is its first iteration followed by the rest of the loop. |
| RefSync.RefLoopStops | wordpress/loading.py:174-180 | The loop leaves the state as it is on a failed or empty response, once the page budget is spent, or when the page lists no items. (Also lines 240-246, 306-312 and 375-381 of the same file.) |
| RefSync.UpsertBuffersNewRows | wordpress/loading.py:183-190 | The item loop buffers exactly the new rows of the page and keeps the table's keys. |
| RefSync.UpsertBuffers | wordpress/loading.py:183-190 | The buffer after the item loop is the old buffer followed by one row per unskipped item with no local row, in page order. |
| RefSync.UpsertKeepsKeys | wordpress/loading.py:183-190 | Updating existing rows in place adds and removes no key. |
| RefSync.NewRowsDependOnKeys | wordpress/loading.py:186-190 | Which items are new depends only on which keys the table has. |
| RefSync.UpsertKeepsOthers | wordpress/loading.py:183-190 | A row that no item of the page names is untouched. |
| RefSync.NewRowsAreTheNewItems | wordpress/loading.py:186-190 | The buffered rows are exactly the `api_object_data` of the new, unskipped items. (Also lines 387-394 of the same file.) |
| RefSync.InsertRowsSpec | wordpress/loading.py:193 | `bulk_create` adds exactly the buffered keys and keeps the other rows. The row stored under a key is the last buffered row of that id. |
| RefSync.InsertRowsKeys | wordpress/loading.py:193 | The keys after `bulk_create` are the old keys and the buffered ones, and rows no buffered key names are kept. |
| RefSync.InsertRowsLast | wordpress/loading.py:193 | The last buffered row of an id is the one stored under its key. |
| RefSync.UntouchedByInsert | wordpress/loading.py:193 | A stored key that no buffered row names keeps its row. |
| RefSync.PageUpserts | wordpress/loading.py:183-197 | After a page, every unskipped item has a row, the new keys are exactly the new items, untouched rows keep their value, and the page reports new rows iff some item was new. The written values are `RefSync.PageUpsertsValues`. (Also lines 384-397 of the same file.) |
| RefSync.PageUpsertsKeys | wordpress/loading.py:183-197 | After a page, every unskipped item has a row, the keys are the old keys plus the new items, and the page reports new rows iff some item was new. (Also lines 384-397 of the same file.) |
| RefSync.PageUpsertsKeepsOthers | wordpress/loading.py:183-197 | Rows of items not on the page are still there with their old value. |
| RefSync.PageUpsertsValues | wordpress/loading.py:183-193 | With distinct ids on the page, an existing item's row is reconciled with its payload when a save is needed and kept otherwise, and a new item's row is its `api_object_data`. (Also lines 384-396 of the same file.) |
| RefSync.PageUpdatesRow | wordpress/loading.py:186-188 | With distinct ids, an item that had a row ends the page reconciled when a save is needed, and as it was otherwise. |
| RefSync.PageInsertsRow | wordpress/loading.py:189-193 | With distinct ids, a new item's row after the page is its `api_object_data`. |
| RefSync.UpsertUpdatesAt | wordpress/loading.py:183-188 | With distinct ids, the item loop leaves an existing item's row reconciled when a save is needed, and as it was otherwise. |
| RefSync.NewRowsDistinct | wordpress/loading.py:183-190 | With distinct ids on the page, the buffered rows have distinct ids. |
| RefSync.NewRowsDistinctCons | wordpress/loading.py:189-190 | Buffering a new first item keeps the buffered ids distinct. |
| RefSync.NewRowsAvoid | wordpress/loading.py:189-190 | An id that no item of the page has is the id of no buffered row. |
| RefSync.RefLoopPrefix | wordpress/loading.py:174-205 | The loop only appends to the request log, at most one request per remaining page. |
| RefSync.RefLoopRequestAt | wordpress/loading.py:199-201 | The j-th request the loop sends asks for the page after the j-th processed page. (Also lines 265-267, 330-334 and 400-402 of the same file.) |
| RefSync.RefLoopRequests | wordpress/loading.py:174-205 | The loop extends the log by at most the remaining budget, and each request asks for the next page in order. |
| RefSync.RefLoopFrame | wordpress/loading.py:174-205 | The loop changes neither the posts, the reference map, the other kinds' tables nor the loading variables. |
| RefSync.StepContinues | wordpress/loading.py:192-196 | Processing a page with items sends another request iff the kind is media, the run is full, or the page had new rows. (Also lines 396-402 of the same file.) |
| RefSync.EarlyStop | wordpress/loading.py:192-196 | Outside media and full runs, the loop goes on after a page iff some item of the page is new. (Also lines 258-262 and 324-328 of the same file.) |
| RefSync.RunLoopRequests | wordpress/loading.py:165-174 | A loader sends its first request with the first page's arguments. It then sends at most `max_pages` requests in all, all to the same path. |
| RefSync.LoadReferenceRequests | wordpress/loading.py:152-406 | Each reference loader sends between 1 and `max_pages` requests to its resource. The first media request has `after` iff the run is not full. |
| PostSync.Obtain | wordpress/loading.py:626-644 | Resolving a reference registers its id in the map without touching other ids or kinds. A missing row is created from `api_object_data`, in the table and in the map. An existing row goes into the map reconciled with the payload; it is stored reconciled when a save is needed and left unsaved otherwise. (Also lines 686-695 and 726-734 of the same file; the media lookup as written is `PostSync.ResolveRefAsWritten`.) |
| PostSync.ResolveRef | wordpress/loading.py:674-775 | The single relation resolvers for categories, tags and media attachments. In bulk mode nothing changes, and the result is the key iff the id is in the reference map. In single-post mode the result is the key, the row exists and the id is registered. A new row and its map entry are the `api_object_data`; an existing row's map entry is reconciled with the payload. For media this is the intended update of the Findings row. |
| PostSync.SingleResolveStores | wordpress/loading.py:686-695 | In single-post mode an existing related row is stored reconciled with its payload, whether or not a save was needed, and the map holds that same row. (Also lines 726-734 of the same file.) |
| PostSync.ResolveRefAsWritten | wordpress/loading.py:766-773 | `process_post_media_attachment` as written, in single-post mode with an existing media row: the key is returned, the tables are unchanged, and the map gets the stored row as it was. Every other case is `ResolveRef`. |
| PostSync.MediaUpdateSkipped | wordpress/loading.py:766-769 | For any uncoerced mapped attribute on which a stored attachment differs from the payload, the code as written keeps the stored row, while the intended update stores the payload's value. |
| PostSync.MediaTitleUpdateLost | wordpress/loading.py:766-769 | A concrete case under the media field mapping: a stored title "old" with a payload title "new" stays "old" as written and becomes "new" under the intended update. |
| PostSync.BulkResolution | wordpress/loading.py:671-672 | In bulk mode the environment is unchanged, and the resolved keys are exactly those of refs found in the reference map. (Also lines 683-684, 711-712, 724, 751-752 and 764 of the same file.) |
| PostSync.SingleResolution | wordpress/loading.py:668-695 | In single mode every ref resolves, in order, and is registered in the map. Only the kind's table and map entry change. |
| PostSync.SingleResolutionKeys | wordpress/loading.py:668-695 | In single mode each ref resolves to the key of its own id, in order. |
| PostSync.SingleResolutionRegisters | wordpress/loading.py:668-695 | In single mode the kind's map gains exactly the ids of the refs. |
| PostSync.SingleResolutionFrame | wordpress/loading.py:668-695 | In single mode only the kind's table and map entry change. |
| PostSync.ExistingPost | wordpress/loading.py:789-831 | An existing post gets every attribute overwritten from the payload, and each relation becomes exactly the post's entry in the page map. |
| PostSync.InsertPostsSpec | wordpress/loading.py:908 | `bulk_create(posts)` adds exactly the buffered keys and keeps posts whose key is not buffered. |
| PostSync.InsertPostsLast | wordpress/loading.py:908 | The last buffered instance of a key is the one stored. |
| PostSync.AttachRelations | wordpress/loading.py:911-918 | Every post of the site gets its page-map entries **added** (set union) to each relation. Other posts are unchanged. |
| PostSync.BulkCreateRelatesNew | wordpress/loading.py:898-918 | A newly inserted post ends with exactly its page-map entries as relations. |
| PostSync.BulkCreateAddsToExisting | wordpress/loading.py:600-602 | A post that already existed keeps its relations plus its page-map entries. (Also lines 911-918 of the same file.) |
| PostSync.SweepLoop | wordpress/loading.py:959-980 | The attachment loop only grows the collected ids and sends at most one request per page below 10. It leaves the store, the map and the loading variables alone. |
| PostSync.SweepWithoutChildren | wordpress/loading.py:938-939 | With no local attachment child, the sweep does nothing and sends no request. |
| PostSync.SweepOnlyDeletesChildren | wordpress/loading.py:983-990 | The sweep only deletes this site's attachment children of the post. Surviving posts keep their value. |
| PostSync.SweepFrame | wordpress/loading.py:920-990 | The sweep does not touch the reference tables, the map or the loading variables. |
| PostSync.SweepRequests | wordpress/loading.py:953-976 | The sweep only appends to the log, at most 10 requests. |
| PostSync.SweepDeletesUnlisted | wordpress/loading.py:983-990 | When collection completes, exactly the local children not listed remotely are deleted. |
| PostSync.SweepFirstFailure | wordpress/loading.py:953-990 | A failed first response skips the loop and deletes every local child. |
| PostSync.SweepLaterFailure | wordpress/loading.py:976-980 | A failed response on a later page returns without deleting anything. |
| PostSync.SweepKeepsListed | wordpress/loading.py:959-983 | A child listed on the single remote page is kept. |
| PostSync.PostAuthor | wordpress/loading.py:595-597 | An author is processed iff its ID is truthy. It is then registered in the map under its id, and only the author table and map change. (Also lines 617-646 of the same file.) |
| PostSync.SingleRelations | wordpress/loading.py:600-602 | In single mode the post's relation entries are exactly the keys of all its categories, tags and attachments. (Also lines 668-672, 708-712 and 747-752 of the same file.) |
| PostSync.SameKeys | wordpress/loading.py:668-672 | The keys resolved in order form the set of the refs' keys. |
| PostSync.BulkRelations | wordpress/loading.py:600-602 | In bulk mode the environment is unchanged, and each relation entry holds exactly the refs found in the map. (Also lines 671-672, 711-712 and 751-752 of the same file.) |
| PostSync.SingleUpsertStores | wordpress/loading.py:604-609 | In single mode the post is stored at once, new or existing, with the payload's attributes and the relations from the maps. (Also lines 893-896 of the same file.) |
| PostSync.BulkUpsertBuffers | wordpress/loading.py:604-609 | In bulk mode a new post is appended to the buffer and nothing else changes. An existing post is overwritten in place and no other post changes. (Also lines 865-891 of the same file.) |
| PostSync.SingleLoadStores | wordpress/loading.py:569-615 | `load_wp_post` in single mode stores the post with its author and every category, tag and attachment of the payload. In single-post mode an already stored attachment is reconciled with its payload: this is the corrected `PostSync.ResolveRef`, not the code as written (see "## Findings"). |
| PostPaging.LoadOtherKeepsHeld | wordpress/loading.py:543-549 | Loading a different post keeps an already held post stored or buffered. |
| PostPaging.LoadHolds | wordpress/loading.py:569-615 | After `load_wp_post` in bulk mode, a non-attachment post is stored or buffered. |
| PostPaging.LoadAllKeepsHeld | wordpress/loading.py:543-549 | The item loop keeps a held post held. |
| PostPaging.LoadAllHolds | wordpress/loading.py:543-549 | With distinct ids, every non-attachment post of a page is held after the item loop. |
| PostPaging.LoadAllHoldsFirst | wordpress/loading.py:543-549 | With distinct ids, the first non-attachment post of a page is still held after the rest of the page. |
| PostPaging.PageStoresPosts | wordpress/loading.py:543-552 | After a page is processed, every non-attachment post of the page is in the store. |
| PostPaging.PostsLoopBudget | wordpress/loading.py:524-555 | The posts loop processes at most `max_pages - page` pages. Each page is non-empty, and the first is the first response's posts. |
| PostPaging.PostsLoopStops | wordpress/loading.py:525-539 | A failed or empty response, an exhausted budget or an empty post list ends the loop at once. |
| PostPaging.PostsLastPage | wordpress/loading.py:556-561 | Without `meta.next_page`, the loop processes the page and makes no further request. |
| PostPaging.PostsLoopExtends | wordpress/loading.py:514-567 | The posts loop only appends to the request log. |
| PostPaging.PostsHandleEcho | wordpress/loading.py:556-563 | With `meta.next_page`, the next request carries it verbatim as `page_handle`. |
| PostPaging.PagerAppendsOnly | wordpress/loading.py:543-552 | Processing a page only appends to the request log. |
| PostPaging.PageExtends | wordpress/loading.py:543-552 | Processing a page only appends to the request log. |
| PostPaging.LoadAllExtends | wordpress/loading.py:543-549 | The item loop only appends to the request log. |
| PostPaging.LoadWpPostExtends | wordpress/loading.py:569-615 | `load_wp_post` only appends to the request log. |
| PostPaging.WithModifiedAfter | wordpress/loading.py:510-511 | `modified_after` is set when a watermark is given, and every other argument is kept. |
| PostPaging.WatermarkDerived | wordpress/loading.py:505-508 | With no purge, no full run and no watermark, the loader's watermark becomes the latest `modified` of the stored posts with that type and status, or stays unset when there are none. Nothing else changes. |
| PostPaging.WatermarkKept | wordpress/loading.py:505 | A purge, a full run or a given watermark leaves the loader unchanged. |
| PostPaging.WatermarkParam | wordpress/loading.py:510-511 | `modified_after` is sent iff a watermark is set, and it carries that watermark. |
| PostPaging.WatermarkReused | wordpress/loading.py:505-508 | Once the watermark is set on the loader, a later `load_posts` in the same run reuses it, whatever the store then holds. |
| PostPaging.PostsStartParams | wordpress/loading.py:474-485 | The first posts request asks for 100 posts of the given type (default `post`) and status, plus the watermark when set. |
| PostPaging.LoadPostsRequests | wordpress/loading.py:461-494 | `load_posts` first sends that request to the posts path, keeps the derived watermark, and processes at most `max_pages - 1` pages. |
| PostPaging.PostsLoopKeepsWatermark | wordpress/loading.py:514-567 | The posts loop does not change the loading variables. |
| PostPaging.PagerKeepsLoadingVars | wordpress/loading.py:543-552 | Processing a page does not change the loading variables. |
| PostPaging.LoadAllKeepsLoadingVars | wordpress/loading.py:543-549 | The item loop does not change the loading variables. |
| PostPaging.LoadWpPostKeepsLoadingVars | wordpress/loading.py:569-615 | `load_wp_post` does not change the loading variables. |
| SiteSync.GetRefDataMap | wordpress/loading.py:436-459 | Only the map changes. In bulk mode it holds exactly the site's rows of each kind by wp_id; in single mode all four entries are empty. |
| SiteSync.SitePlanCases | wordpress/loading.py:129-150 | `all` loads the reference data, builds the map, then loads attachments, posts and pages. `ref_data` loads only the reference data. A post type builds the map and loads that type. Anything else does nothing. |
| SiteSync.SitePlanStages | wordpress/loading.py:135-150 | Reference data is loaded iff the type is `all` or `ref_data`. The map is built iff the type is `all` or a post type. Each post type is loaded iff the type is `all` or that type. |
| SiteSync.SitePlanRanks | wordpress/loading.py:135-150 | The reference loads come before the map, and the map before the posts. |
| SiteSync.SitePlanPostOrder | wordpress/loading.py:146-150 | `all` loads attachment, then post, then page. A single type loads only itself. |
| SiteSync.StageFrame | wordpress/loading.py:135-150 | No stage changes `purge_first` or `full`, and each only appends to the log. |
| SiteSync.LoadReferenceFrame | wordpress/loading.py:152-406 | A reference loader changes neither the posts, the map nor the loading variables. |
| SiteSync.LoadPostsFrame | wordpress/loading.py:461-494 | `load_posts` keeps `purge_first` and `full` and only appends to the log. |
| SiteSync.PlanFrame | wordpress/loading.py:135-150 | Running the plan keeps `purge_first` and `full` and only appends to the log. |
| SiteSync.LoadSiteKeepsFlags | wordpress/loading.py:124-127 | After `load_site`, `purge_first` and `full` hold the arguments. |
| SiteSync.RefDataKeepsPosts | wordpress/loading.py:125-139 | A `ref_data` run changes neither the posts nor the map, and leaves `modified_after` as given. |
| SiteSync.RefStagesKeepPosts | wordpress/loading.py:125-139 | A run of reference stages changes neither the posts, nor the map, nor the watermark. |
| SiteSync.LoadPostFails | wordpress/loading.py:78-96 | After one request, a failed or empty response returns nothing and changes no table or map. |
| SiteSync.LoadPostReturnsPost | wordpress/loading.py:81-94 | A post response returns the stored post: its author, attributes and every category, tag and attachment of the payload. In single-post mode an already stored attachment is reconciled with its payload: this is the corrected `PostSync.ResolveRef`, not the code as written (see "## Findings"). |
| Loading.WPAPILoader.constructor | wordpress/loading.py:19-46 | The loader starts with `first_get` set, no warning, no request and no loading variables. |
| Loading.WPAPILoader.Get | wordpress/loading.py:48-68 | `get` does what `Fetch` specifies and keeps the warn-once rule. |
| Loading.WPAPILoader.UpsertPage | wordpress/loading.py:182-197 | The in-place page loop gives the kind's table and new-rows flag that `ApplyPage` specifies. Only that table changes. |
| Loading.WPAPILoader.RefIteration | wordpress/loading.py:174-205 | One pass of the `while` body leaves the rest of the loop with the same outcome and advances the page arguments. |
| Loading.WPAPILoader.RunReferenceLoop | wordpress/loading.py:169-205 | The first request and the `while` loop give the state `RunLoop` specifies. |
| Loading.WPAPILoader.LoadReference | wordpress/loading.py:152-406 | Each reference loader gives the state `LoadReference` specifies. |
| Loading.WPAPILoader.ResolveStep | wordpress/loading.py:669-672 | One relation is resolved and appended, and the rest of the loop has the same outcome. |
| Loading.WPAPILoader.ProcessRelated | wordpress/loading.py:659-775 | The relation loop gives the keys and the state that `ResolveAll` specifies. |
| Loading.WPAPILoader.LoadWpPost | wordpress/loading.py:569-615 | `load_wp_post` gives the state and buffers that `PostSync.LoadWpPost` specifies. In single-post mode an already stored attachment is reconciled with its payload: this is the corrected `PostSync.ResolveRef`, not the code as written (see "## Findings"). |
| Loading.WPAPILoader.SweepIteration | wordpress/loading.py:959-980 | One pass of the sweep loop leaves the rest of the loop with the same outcome. |
| Loading.WPAPILoader.SyncDeletedAttachments | wordpress/loading.py:920-990 | The sweep gives the state `Sweep` specifies. |
| Loading.WPAPILoader.ProcessPage | wordpress/loading.py:529-552 | The page's item loop and bulk create give the state `LoadPostsPage` specifies. |
| Loading.WPAPILoader.PostsIteration | wordpress/loading.py:525-567 | One pass of the posts loop leaves the rest of the loop with the same outcome. |
| Loading.WPAPILoader.ProcessPostsResponse | wordpress/loading.py:514-567 | The posts loop gives the state `PostsLoop` specifies. |
| Loading.WPAPILoader.SetPostsParamModifiedAfter | wordpress/loading.py:496-512 | The loader's watermark and the arguments are those `SetModifiedAfter` specifies. |
| Loading.WPAPILoader.LoadPosts | wordpress/loading.py:461-494 | `load_posts` gives the state `PostPaging.LoadPosts` specifies. |
| Loading.WPAPILoader.GetRefDataMap | wordpress/loading.py:436-459 | The loader's map is the one `SiteSync.GetRefDataMap` specifies. |
| Loading.WPAPILoader.RunStage | wordpress/loading.py:135-150 | One stage of the dispatch gives the state `SiteSync.RunStage` specifies. |
| Loading.WPAPILoader.RunPlan | wordpress/loading.py:135-150 | The dispatch gives the state `SiteSync.RunPlan` specifies. |
| Loading.WPAPILoader.LoadSite | wordpress/loading.py:98-150 | `load_site` gives the state `SiteSync.LoadSite` specifies. |
| Loading.WPAPILoader.LoadPost | wordpress/loading.py:70-96 | `load_post` gives the result and state `SiteSync.LoadPost` specifies. In single-post mode an already stored attachment is reconciled with its payload: this is the corrected `PostSync.ResolveRef`, not the code as written (see "## Findings"). |
| WpApi.PublicApi.constructor | wordpress/wp_api.py:19-20 | The module starts with `public_api_warnings` set and nothing sent or logged. |
| WpApi.PublicApi.Get | wordpress/wp_api.py:23-44 | `get` returns the request's scripted response and records the request with the Bearer header when a token is set. It clears the flag only on a token-less call and warns only while the flag is set, so the warning is logged at most once. |
| WpApi.GetAgreesWithLoader | wordpress/wp_api.py:30-44 | Where the module flag and the loader's `first_get` agree in the token-less case, the two `get`s send the same request, return the same response and log the same warnings. |
| WpApi.WpPostsParams | wordpress/wp_api.py:394-418 | The first posts request asks for 100 posts of the type and sends no status, plus the watermark when one is set. |
| WpApi.WpWatermarkAnyStatus | wordpress/wp_api.py:412-415 | With no purge, full run or given date, the watermark is the latest `modified` among stored posts of that type, of any status and any site. |
| WpApi.WpLoadPostsFirstRequest | wordpress/wp_api.py:378-405 | The first request carries the watermark derived from the store after the purge. The module's date argument is left unchanged, and at most `max_pages - 1` pages are processed. (Also lines 408-419 of the same file.) |
| WpApi.WpLoadKeepsNoRelations | wordpress/wp_api.py:473-516 | `load_wp_post` never fills the relation maps. |
| WpApi.WpExistingPostLosesRelations | wordpress/wp_api.py:505-507 | Loading an existing post overwrites its attributes and empties its categories, tags and attachments. (Also lines 658-712 of the same file.) |
| WpApi.WpSingleLoadUnrelated | wordpress/wp_api.py:47-71 | A single-post load stores the post with its author and attributes but no relations. (Also lines 473-516 and 746-747 of the same file.) |
| WpApi.BulkCreateWithoutRelations | wordpress/wp_api.py:750-764 | With empty relation maps, `bulk_create_posts` adds exactly the buffered keys and new posts get no relations. |
| WpApi.InsertedFromBuffer | wordpress/wp_api.py:752 | Every inserted post that was not there before is one of the buffered instances. |
| WpApi.InsertedOrKept | wordpress/wp_api.py:752 | Every post after the insert is either kept or one of the buffered instances. |
| WpApi.WpPagerAppendsOnly | wordpress/wp_api.py:444-455 | Processing a page only appends to the request log. |
| WpApi.WpLoadAllExtends | wordpress/wp_api.py:444-452 | The item loop only appends to the log. |
| WpApi.WpPagerKeepsLoadingVars | wordpress/wp_api.py:444-455 | Processing a page does not change the loading arguments. |
| WpApi.WpLoadAllKeepsLoadingVars | wordpress/wp_api.py:444-452 | The item loop does not change the loading arguments. |
| WpApi.WpLoadWpPostFrame | wordpress/wp_api.py:473-516 | `load_wp_post` keeps the loading arguments and only appends to the log. |
| WpApi.FirstChannelSpec | wordpress/wp_api.py:559-567 | With `if not channel`, a lookup of None or 0 does not stop the search. The channel is truthy iff some resolved category other than `channel` has a truthy lookup, and then it is the earliest such lookup. Otherwise it is None or 0, and 0 iff the last candidate category looks up 0. |
| WpApi.FirstHitSpec | wordpress/wp_api.py:559-567 | The channel is truthy iff some category has a truthy lookup, and then it is the earliest such lookup. |
| WpApi.FalsyChannelSpec | wordpress/wp_api.py:559-567 | A falsy channel is None or 0, and 0 iff the last candidate category looks up 0. |
| WpApi.FirstChannelCons | wordpress/wp_api.py:559-567 | The first category decides when its lookup is truthy; otherwise the later categories decide, unless none of them is a candidate. |
| WpApi.FalsyLookupKeepsSearching | wordpress/wp_api.py:563-564 | A candidate that looks up 0, followed by one with a truthy lookup, gives the second one's lookup. |
| WpApi.NoCandidateNoChannel | wordpress/wp_api.py:559-561 | With no category other than `channel`, channel and subchannel stay None. |
| WpApi.ChannelStepKeeps | wordpress/wp_api.py:559-567 | One category's `if not channel` step leaves the outcome of the rest of the loop unchanged. |
| WpApi.ProcessPostTags | wordpress/wp_api.py:591-622 | The post's entry holds the resolved tags in order, and nothing else in the map changes. The result is true iff some resolved tag has slug `slideshow`. |
| WpApi.TagIteration | wordpress/wp_api.py:595-602 | One pass of the tag loop leaves the rest of the loop with the same keys, state and slideshow flag. |
| WpApi.ProcessPostCategories | wordpress/wp_api.py:550-570 | The post's entry holds the resolved categories in order. Channel and subchannel are each the `if not channel` outcome over their own map, so a lookup of None or 0 does not stop the search (`WpApi.FirstChannelSpec`). |
| WpApi.CategoryIteration | wordpress/wp_api.py:555-567 | One pass of the category loop, with its `if not channel` and `if not subchannel` updates, leaves the rest of the loop with the same keys, state, channel and subchannel. |
| WpApi.ResolveNext | wordpress/wp_api.py:556-588 | One relation resolution advances the key list and the resolved row list consistently. |
| WpApi.WpTypeDefault | wordpress/wp_api.py:90-91 | A missing type means `all`. |
| WpApi.WpLoadWpApiKeepsArguments | wordpress/wp_api.py:74-108 | `load_wp_api` runs with the given purge, full and date arguments throughout and only appends to the log. |
| WpApi.WpPlanFrame | wordpress/wp_api.py:93-108 | The dispatch keeps the loading arguments and only appends to the log. |
| WpApi.WpStageFrame | wordpress/wp_api.py:93-108 | No stage changes the loading arguments, and each only appends to the log. |
| WpApi.WpLoadPostsFrame | wordpress/wp_api.py:378-405 | `load_posts` does not persist the watermark and only appends to the log. |

## Left out

- HTTP transport: `requests.get`, URL joining, JSON decoding and the
  `api_base_url` override are abstract. Responses come from a fixed script, and a
  request is its path, its arguments and the auth token.
- The Django ORM. `filter`, `get_or_create`, `bulk_create`, `delete` and the
  many-to-many `add`/`remove` are map and set operations. Primary keys assigned
  on insert are not modelled; rows are identified by `(site_id, wp_id)`.
- `IntegrityError` from `bulk_create` is not modelled. The model stores the
  last buffered instance of a key instead. That error can come from the posts
  loop, when a page lists the same new post twice. It can also come from the
  four reference loaders (loading.py:193, 259, 325 and 397), for two reasons:
  - a page lists the same new ID twice, against the `unique_together` of
    `(wp_id, site_id)` (models.py:33);
  - a new category or tag has the slug of another row, against `unique=True`
    on `slug` (models.py:38 and 52).
  The model has no slug constraint.
- RefSync.PageUpsertsValues: requires the page's IDs to be distinct. A repeated new ID
  raises `IntegrityError` in the source, which is not modelled. The value
  statement also does not cover an existing ID listed twice on one page. The
  source handles that case without error: the second lookup sees the row the
  first occurrence saved. `UpsertItems` models it that way, but the lemma says
  nothing about it.
- Loading.WPAPILoader.LoadSite, Loading.WPAPILoader.LoadPost: the warn-once
  rule on `first_get` is stated per request, by `Loading.WPAPILoader.Get` and
  `SyncEnv.FetchKeepsDiscipline`. The composite methods do not restate it for
  their final state.
- `DoesNotExist` and other ORM exceptions are not modelled. Two places where
  the source can reach one:
  - `load_post` looks the post up by `wp_post_id`. If the API returns a post
    whose `ID` differs, the source's `except` branch logs and returns None,
    unless a post of the requested ID was already stored. The model's `Lookup`
    of the requested key does the same.
  - `AttachRelations`, the model of `bulk_create_posts`' relation loop, skips
    a buffered post ID that has no stored row. The source's `Post.objects.get`
    would raise `DoesNotExist` for it.
- Logging, and the exception messages of the constructor and `load_post`. The
  constructor's `int(site_id)` failure is left out; the site is a valid integer.
- FieldMapper.CreatedRecordIsInSync: for media, the store does not capture
  the database type round trip. `Media.uploaded_date` is a `DateTimeField`
  (models.py:80). A media row loaded back from the database
  (loading.py:389, 784-786) holds a `datetime`, and `update_existing_obj`
  compares it with the payload's ISO `date` string (loading.py:1020, 1056).
  Those are never equal, so the source saves every existing media row on each
  run, which also advances `updated_date` (`auto_now`, models.py:16). The model
  stores the payload string as it is. So this lemma for media, and
  `RefSync.PageUpsertsValues` for media, predict no save where the source
  saves.
- Values.Truthy: a structured payload value (a JSON object or list) is taken
  to be truthy, though Python's `{}` and `[]` are falsy. This matters only for
  `if next_page_handle:` (loading.py:558, 971) when `meta.next_page` is an
  empty object or list. `IntOrNone` gives None for such a value either way.
- The clock: `datetime.utcnow()` is the parameter `now`. Dates are integer
  seconds, and `isoformat()` is left out, so date arguments are their integer
  value.
- Values.IntOrNone: `int()` is modelled as signed-decimal parsing only
  (no whitespace, underscores or other bases). The `TypeError` raised
  for a dict or list is modelled as None.
- Payload keys read with `[]` (a `KeyError` when missing) are read as with
  `.get`. Ids are integers, and an absent author is id 0.
- `load_post` and `load_wp_api_one_post` are assumed to receive a post object.
  Any other JSON body is not modelled.
- wordpress/models.py is used only for record shapes and the
  `(wp_id, site_id)` uniqueness. JSON fields such as `parent` and `metadata`
  are opaque strings.
- The views (webhook, `after_response`, `time.sleep`), admin, URL routing, the
  management command and packaging are outside the sync engine.
- In `wp_api.py`, `process_post_categories` would fail with a `KeyError` on
  any map built by `get_ref_data_map` (wp_api.py:356-375), which has no
  `channels`/`subchannels` entries. The helper is modelled with the two maps
  as arguments, since nothing calls it.
- `load_wp_api_one_post` is not a separate member. Its request and failure
  path are the loader's `load_post`; what differs (no relations) is
  `WpSingleLoadUnrelated`.

## Findings

| source | as written | input that shows it | evidently intended | confidence | as-written member | corrected member |
|---|---|---|---|---|---|---|
| wordpress/loading.py:767-769 | `attachment, created = created = self.get_or_create_media(...)` assigns left to right: first it unpacks the pair, then it binds `created` to the pair itself. A non-empty tuple is truthy, so `not created` is always false and `update_existing_media` is never called. `wp_api.py:641-643` has the same line. | `load_post` of a post whose attachment is already stored with title "old", where the payload has title "new". | An existing attachment is updated from its payload, as categories (loading.py:690-691) and tags (loading.py:729-730) are. | high; not executed | PostSync.ResolveRefAsWritten, PostSync.MediaUpdateSkipped, PostSync.MediaTitleUpdateLost | PostSync.ResolveRef |

The rest of the model uses `PostSync.ResolveRef`.
