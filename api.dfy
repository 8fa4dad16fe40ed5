/** The abstract transport of the loader: API objects as the loader reads them,
    responses of the WordPress.com REST API, and the requests it sends. */
module Api {
  import opened Values

  /** A referenced object of a listing or of a post (category, tag, user, media):
      its `ID` and the rest of its JSON object. */
  datatype ApiRef = ApiRef(id: int, data: map<string, Value>)

  /** A post of the API. The keys the loader reads with dedicated meaning are
      fields; the other scalar keys (`date`, `title`, `URL`, ...) stay in `data`.
      `parent` is the text of the parent JSON object (or of `false`). The
      relation dictionaries are given as the sequence of their values. */
  datatype ApiPost = ApiPost(
    id: int,
    author: ApiRef,
    modified: int,
    postType: string,
    status: string,
    parent: string,
    data: map<string, Value>,
    categories: seq<ApiRef>,
    tags: seq<ApiRef>,
    attachments: seq<ApiRef>)

  /** The decoded body of a response.
      `RefList(key, items)` is an object whose list of items is under `key`;
      `PostList(posts, nextPage)` is a posts listing with `meta.next_page`
      (`VNone` when absent); `PostObject(p)` is a single post. */
  datatype Json =
    | RefList(key: string, items: seq<ApiRef>)
    | PostList(posts: seq<ApiPost>, nextPage: Value)
    | PostObject(post: ApiPost)
    | OtherJson

  datatype Response = Response(ok: bool, text: string, json: Json)

  /** The query-string arguments of a request. */
  type Params = map<string, Value>

  /** A request as the loader hands it to the HTTP client: the path under the API
      base URL, the query-string arguments and the Authorization header, if any. */
  datatype Request = Request(path: string, params: Params, auth: Option<string>)

  /** The response the transport gives to the k-th request; once the script is
      exhausted every request fails with an empty body. */
  function ScriptAt(script: seq<Response>, k: nat): (r: Response)
    ensures k >= |script| ==> !r.ok && r.text == ""
    ensures k < |script| ==> r == script[k]
  {
    if k < |script| then script[k] else Response(false, "", OtherJson)
  }

  /** `response.json().get(key)`, with a missing list read as the empty list. */
  function ItemsUnder(j: Json, key: string): seq<ApiRef>
  {
    if j.RefList? && j.key == key then j.items else []
  }

  /** `api_json.get("posts")`, with a missing list read as the empty list. */
  function PostsOf(j: Json): seq<ApiPost>
  {
    if j.PostList? then j.posts else []
  }

  /** `api_json.get("meta", {}).get("next_page")`. */
  function NextPageOf(j: Json): Value
  {
    if j.PostList? then j.nextPage else VNone
  }

  /** `"sites/{site}/" + resource`. */
  function SitePath(site: int, resource: string): string
  {
    "sites/" + IntToDecimal(site) + "/" + resource
  }

  /** The Authorization header for a configured token. */
  function Auth(token: Option<string>): Option<string>
  {
    match token
    case Some(t) => Some("Bearer " + t)
    case None => None
  }
}
