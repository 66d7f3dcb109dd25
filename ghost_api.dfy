/**
 * The Ghost Content API client: its configuration state (host-derived base
 * URL, API token, HTTP client handle) and the requests it sends. A request
 * is described rather than performed: method, URL, query entries, headers,
 * optional JSON body, and whether it goes out through `file_get_contents`
 * or through the client object.
 */
module GhostApi {
  import opened PhpArrays

  datatype Option<T> = None | Some(value: T)

  /** The exception thrown when no usable API token is set. */
  datatype Error = TokenNotSet

  datatype Result<T> = Success(value: T) | Failure(error: Error)

  datatype HttpMethod = GET | POST | PUT | DELETE

  /** A PHP value as it may appear in a request body. */
  datatype PhpValue = Null | Bool(b: bool) | Int(n: int) | Str(s: string) | Arr(entries: seq<(Key, PhpValue)>)

  /** A PHP array passed as a request body. */
  type RawData = seq<(Key, PhpValue)>

  /** The HTTP client object, an opaque handle: only its identity and the
      options it was built with are modelled. */
  class HttpClient {
    const options: RawData

    constructor(options: RawData)
      ensures this.options == options
    {
      this.options := options;
    }
  }

  /** How a request leaves the process. */
  datatype Channel = FileGetContents | Through(client: HttpClient)

  datatype Request = Request(
    verb: HttpMethod,
    url: string,
    query: Entries,
    headers: seq<(string, string)>,
    json: Option<RawData>,
    channel: Channel)

  /** The query parameter that carries the Content API key. */
  const KeyParam: string := "key"

  const UserAgent: (string, string) := ("User-Agent", "php-ghost-api")

  function KeyEntry(token: string): (Key, string) {
    (StrKey(KeyParam), token)
  }

  /** `!empty($apiToken)`: the token is present and neither "" nor "0". */
  predicate TokenSet(token: Option<string>) {
    token.Some? && IsTrue(token.value)
  }

  /** Every key of `query` is a parameter name other than `key`. */
  ghost predicate NamedOnly(query: Entries) {
    forall e :: e in query ==> e.0.StrKey? && e.0 != StrKey(KeyParam)
  }

  // ---------------------------------------------------------------------
  // Query assembly

  /** The query `get` sends: falsy values filtered out, `key` merged in,
      loosely equal values removed. */
  function GetQuery(token: string, query: Entries): Entries {
    if query == [] then [KeyEntry(token)] else Unique(MergeOne(Filter(query), KeyParam, token))
  }

  /** The query `handleCall` sends: as `get`, but without the filtering. */
  function CallQuery(token: string, query: Entries): Entries {
    if query == [] then [KeyEntry(token)] else Unique(MergeOne(query, KeyParam, token))
  }

  /** The empty-query branch of `get` sends what the general branch would. */
  lemma GetQueryOfFalsyQuery(token: string, query: Entries)
    requires forall e :: e in query ==> !IsTrue(e.1)
    ensures GetQuery(token, query) == [KeyEntry(token)]
  {
    if Filter(query) != [] {
      assert Filter(query)[0] in Filter(query);
    }
    MergeOneSlots([], KeyParam, token);
    UniqueShape([KeyEntry(token)]);
    SubseqMembers(Unique([KeyEntry(token)]), [KeyEntry(token)]);
    UniqueAfterKeeps([KeyEntry(token)], []);
  }

  /** What `get` sends: keys stay distinct, no two values are loosely equal,
      and a caller's own `key` never survives with its own value. */
  lemma GetQueryShape(token: string, query: Entries)
    ensures DistinctKeys(query) ==> DistinctKeys(GetQuery(token, query))
    ensures forall i, j :: 0 <= i < j < |GetQuery(token, query)| ==>
              !LooseEq(GetQuery(token, query)[i].1, GetQuery(token, query)[j].1)
    ensures DistinctKeys(query) ==> forall w :: (StrKey(KeyParam), w) in GetQuery(token, query) ==> w == token
  {
    if query != [] {
      var f := Filter(query);
      var m := MergeOne(f, KeyParam, token);
      SubseqKeepsDistinctKeys(f, query);
      assert DistinctKeys(f) ==> DistinctKeys(m) by {
        MergeOneSlots(f, KeyParam, token);
      }
      UniqueShape(m);
      if DistinctKeys(query) {
        MergedEntryValue(f, KeyParam, token);
      }
    }
  }

  /** Where the entries `get` sends come from: the `key` entry with the token,
      or a caller entry with a truthy value, integer-keyed ones renumbered. */
  lemma GetQueryEntries(token: string, query: Entries)
    ensures forall e :: e in GetQuery(token, query) ==>
              || e == KeyEntry(token)
              || (IsTrue(e.1) && e.0.StrKey? && e in query)
              || (IsTrue(e.1) && e.0.IntKey? && exists j :: 0 <= j < |query| && query[j].0.IntKey? && query[j].1 == e.1)
  {
    var r := GetQuery(token, query);
    if query != [] {
      var f := Filter(query);
      var m := MergeOne(f, KeyParam, token);
      MergeOneShape(f, KeyParam, token);
      assert forall e :: e in r ==> e in m by {
        UniqueShape(m);
        SubseqMembers(r, m);
      }
      forall e | e in r
        ensures || e == KeyEntry(token)
                || (IsTrue(e.1) && e.0.StrKey? && e in query)
                || (IsTrue(e.1) && e.0.IntKey? && exists j :: 0 <= j < |query| && query[j].0.IntKey? && query[j].1 == e.1)
      {
        if e != KeyEntry(token) && e.0.IntKey? {
          var j :| 0 <= j < |f| && f[j].0.IntKey? && f[j].1 == e.1;
          assert f[j] in query;
          var k :| 0 <= k < |query| && query[k] == f[j];
        }
      }
    }
  }

  /** The `key` entry `get` sends is present exactly when no caller entry that
      survives the filter and stands ahead of the `key` slot holds a value
      loosely equal to the token. */
  lemma GetQueryKeyPresence(token: string, query: Entries)
    requires DistinctKeys(query)
    ensures KeyEntry(token) in GetQuery(token, query) <==>
            forall j :: 0 <= j < KeyIndex(Filter(query), StrKey(KeyParam)) ==> !LooseEq(Filter(query)[j].1, token)
  {
    if query != [] {
      SubseqKeepsDistinctKeys(Filter(query), query);
      MergedEntrySurvival(Filter(query), KeyParam, token);
    }
  }

  /** When the caller sends no `key` of their own (no resource method does),
      `key` is present exactly when no truthy caller value is loosely equal
      to the token. */
  lemma GetQueryKeyUnlessShadowed(token: string, query: Entries)
    requires DistinctKeys(query)
    requires forall e :: e in query ==> e.0 != StrKey(KeyParam)
    ensures KeyEntry(token) in GetQuery(token, query) <==>
            forall e :: e in query && IsTrue(e.1) ==> !LooseEq(e.1, token)
  {
    GetQueryKeyPresence(token, query);
    FilterWithoutKey(query, StrKey(KeyParam));
    FilterKeepsClash(query, token);
    FilterAddsNoClash(query, token);
  }

  lemma FilterWithoutKey(query: Entries, k: Key)
    requires forall e :: e in query ==> e.0 != k
    ensures KeyIndex(Filter(query), k) == |Filter(query)|
  {
  }

  /** A truthy caller value loosely equal to the token is still there after filtering. */
  lemma FilterKeepsClash(query: Entries, token: string)
    ensures (forall j :: 0 <= j < |Filter(query)| ==> !LooseEq(Filter(query)[j].1, token)) ==>
            (forall e :: e in query && IsTrue(e.1) ==> !LooseEq(e.1, token))
  {
    var f := Filter(query);
    if forall j :: 0 <= j < |f| ==> !LooseEq(f[j].1, token) {
      forall e | e in query && IsTrue(e.1) ensures !LooseEq(e.1, token) {
        assert e in f;
        var j :| 0 <= j < |f| && f[j] == e;
      }
    }
  }

  /** A value that survives filtering is a truthy caller value. */
  lemma FilterAddsNoClash(query: Entries, token: string)
    ensures (forall e :: e in query && IsTrue(e.1) ==> !LooseEq(e.1, token)) ==>
            (forall j :: 0 <= j < |Filter(query)| ==> !LooseEq(Filter(query)[j].1, token))
  {
    var f := Filter(query);
    if !forall j :: 0 <= j < |f| ==> !LooseEq(f[j].1, token) {
      var j :| 0 <= j < |f| && LooseEq(f[j].1, token);
      assert f[j] in f;
    }
  }

  /** For a query of named parameters, `get` sends some of them, in their
      order, followed by at most the `key` entry. */
  lemma GetQueryInOrder(query: Entries)
    ensures forall token :: NamedOnly(query) ==> IsSubseq(GetQuery(token, query), query + [KeyEntry(token)])
  {
    forall token | NamedOnly(query) ensures IsSubseq(GetQuery(token, query), query + [KeyEntry(token)]) {
      if query == [] {
        assert IsSubseq([KeyEntry(token)][1..], [KeyEntry(token)][1..]);
      } else {
        var f := Filter(query);
        assert forall i :: 0 <= i < |f| ==> f[i] in query;
        RenumberSlots(f);
        assert Renumber(f) == f;
        assert KeyIndex(f, StrKey(KeyParam)) == |f|;
        var m := MergeOne(f, KeyParam, token);
        assert m == f + [KeyEntry(token)];
        SubseqAppend(f, query, KeyEntry(token));
        UniqueShape(m);
        SubseqTransitive(GetQuery(token, query), m, query + [KeyEntry(token)]);
      }
    }
  }

  /** What `handleCall` sends: keys stay distinct, no two values are loosely
      equal, and a caller's own `key` never survives with its own value. */
  lemma CallQueryShape(token: string, query: Entries)
    ensures DistinctKeys(query) ==> DistinctKeys(CallQuery(token, query))
    ensures forall i, j :: 0 <= i < j < |CallQuery(token, query)| ==>
              !LooseEq(CallQuery(token, query)[i].1, CallQuery(token, query)[j].1)
    ensures DistinctKeys(query) ==> forall w :: (StrKey(KeyParam), w) in CallQuery(token, query) ==> w == token
  {
    if query != [] {
      var m := MergeOne(query, KeyParam, token);
      assert DistinctKeys(query) ==> DistinctKeys(m) by {
        MergeOneSlots(query, KeyParam, token);
      }
      UniqueShape(m);
      if DistinctKeys(query) {
        MergedEntryValue(query, KeyParam, token);
      }
    }
  }

  /** Where the entries `handleCall` sends come from: as for `get`, but falsy
      caller values are not filtered out. */
  lemma CallQueryEntries(token: string, query: Entries)
    ensures forall e :: e in CallQuery(token, query) ==>
              || e == KeyEntry(token)
              || (e.0.StrKey? && e in query)
              || (e.0.IntKey? && exists j :: 0 <= j < |query| && query[j].0.IntKey? && query[j].1 == e.1)
  {
    if query != [] {
      var m := MergeOne(query, KeyParam, token);
      MergeOneShape(query, KeyParam, token);
      assert forall e :: e in CallQuery(token, query) ==> e in m by {
        UniqueShape(m);
        SubseqMembers(CallQuery(token, query), m);
      }
    }
  }

  /** The `key` entry `handleCall` sends is present exactly when no caller
      entry ahead of the `key` slot holds a value loosely equal to the token. */
  lemma CallQueryKeyPresence(token: string, query: Entries)
    requires DistinctKeys(query)
    ensures KeyEntry(token) in CallQuery(token, query) <==>
            forall j :: 0 <= j < KeyIndex(query, StrKey(KeyParam)) ==> !LooseEq(query[j].1, token)
  {
    if query != [] {
      MergedEntrySurvival(query, KeyParam, token);
    }
  }

  /** A named caller parameter (not `key`) reaches the query `get` sends
      exactly when its value is truthy and no truthy entry ahead of it holds
      a loosely equal value, where a caller `key` ahead of it counts with the
      token in place of its own value. */
  lemma GetQuerySendsEntry(token: string, query: Entries, i: int)
    requires DistinctKeys(query) && 0 <= i < |query|
    requires query[i].0.StrKey? && query[i].0 != StrKey(KeyParam)
    ensures query[i] in GetQuery(token, query) <==>
            && IsTrue(query[i].1)
            && forall j :: 0 <= j < i && IsTrue(query[j].1) ==>
                 !LooseEq(MergedValue(query[j], KeyParam, token), query[i].1)
  {
    var e := query[i];
    if !IsTrue(e.1) {
      GetQueryEntries(token, query);
    } else {
      var f := Filter(query);
      var before := Filter(query[..i]);
      var k := |before|;
      FilterPosition(query, i);
      assert GetQuery(token, query) == Unique(MergeOne(f, KeyParam, token));
      assert DistinctKeys(f) by {
        SubseqKeepsDistinctKeys(f, query);
      }
      MergedStringEntrySurvival(f, KeyParam, token, k);
      forall j | 0 <= j < k ensures exists j' :: 0 <= j' < i && query[j'] == f[j] && IsTrue(query[j'].1) {
        assert f[j] == before[j];
        assert before[j] in before;
        var j' :| 0 <= j' < i && query[..i][j'] == f[j];
      }
      forall j | 0 <= j < i && IsTrue(query[j].1) ensures exists j' :: 0 <= j' < k && f[j'] == query[j] {
        assert query[..i][j] == query[j];
        assert query[j] in before;
        var j' :| 0 <= j' < k && before[j'] == query[j];
        assert f[j'] == before[j'];
      }
    }
  }

  /** A named caller parameter (not `key`) reaches the query `handleCall`
      sends exactly when no entry ahead of it holds a loosely equal value,
      where a caller `key` ahead of it counts with the token. */
  lemma CallQuerySendsEntry(token: string, query: Entries, i: int)
    requires DistinctKeys(query) && 0 <= i < |query|
    requires query[i].0.StrKey? && query[i].0 != StrKey(KeyParam)
    ensures query[i] in CallQuery(token, query) <==>
            forall j :: 0 <= j < i ==> !LooseEq(MergedValue(query[j], KeyParam, token), query[i].1)
  {
    MergedStringEntrySurvival(query, KeyParam, token, i);
  }

  /** A caller value equal to the token pushes `key` out of the query. */
  lemma KeyDroppedWhenValueEqualsToken(token: string, name: string)
    requires IsTrue(token) && name != KeyParam
    ensures KeyEntry(token) !in GetQuery(token, [(StrKey(name), token)])
  {
    var q := [(StrKey(name), token)];
    GetQueryKeyUnlessShadowed(token, q);
    assert q[0] in q && LooseEq(q[0].1, token);
  }

  /** So does a numerically equal one: "0123" is loosely equal to "123". */
  lemma KeyDroppedWhenValueNumericallyEqualsToken(token: string, name: string)
    requires |token| > 0 && AllDigits(token) && DigitsValue(token) <= LongMax && name != KeyParam
    ensures KeyEntry(token) !in GetQuery(token, [(StrKey(name), "0" + token)])
  {
    var q := [(StrKey(name), "0" + token)];
    LeadingZeroIgnored(token);
    GetQueryKeyUnlessShadowed(token, q);
    assert q[0] in q && IsTrue(q[0].1) && LooseEq(q[0].1, token);
  }

  /** A numeral token beyond PHP's integer range is matched only by its own
      spelling, so a zero-prefixed copy leaves `key` in the query. */
  lemma KeyKeptWhenTokenBeyondIntegerRange(token: string, name: string)
    requires |token| > 0 && AllDigits(token) && DigitsValue(token) > LongMax && name != KeyParam
    ensures KeyEntry(token) in GetQuery(token, [(StrKey(name), "0" + token)])
  {
    var q := [(StrKey(name), "0" + token)];
    LeadingZeroKeptBeyondRange(token);
    GetQueryKeyUnlessShadowed(token, q);
  }

  /** `get` drops an empty parameter that `handleCall` passes through. */
  lemma OnlyGetFiltersFalsyValues()
    ensures GetQuery("t", [(StrKey("status"), "")]) == [KeyEntry("t")]
    ensures CallQuery("t", [(StrKey("status"), "")]) == [(StrKey("status"), ""), KeyEntry("t")]
  {
    var q := [(StrKey("status"), "")];
    GetQueryOfFalsyQuery("t", q);
    var m := MergeOne(q, KeyParam, "t");
    MergeOneSlots(q, KeyParam, "t");
    RenumberSlots(q);
    assert m == q + [KeyEntry("t")];
    EmptyIsText();
    assert !HasLoose([""], "t");
  }

  // ---------------------------------------------------------------------
  // The parameter lists the resource methods forward with `compact`

  function EntityParams(includes: string, fields: string): Entries {
    [(StrKey("include"), includes), (StrKey("fields"), fields)]
  }

  function ListParams(includes: string, fields: string, filter: string, limit: string, page: string, order: string): Entries {
    [(StrKey("include"), includes), (StrKey("fields"), fields), (StrKey("filter"), filter),
     (StrKey("limit"), limit), (StrKey("page"), page), (StrKey("order"), order)]
  }

  function FormatParam(format: string): (Key, string) {
    (StrKey("format"), format)
  }

  /** The resource methods send only named parameters, none of them `key`. */
  lemma EntityParamsNamed(includes: string, fields: string)
    ensures NamedOnly(EntityParams(includes, fields))
  {
  }

  lemma ListParamsNamed(includes: string, fields: string, filter: string, limit: string, page: string, order: string, format: string)
    ensures NamedOnly(ListParams(includes, fields, filter, limit, page, order))
    ensures NamedOnly(ListParams(includes, fields, filter, limit, page, order) + [FormatParam(format)])
  {
  }

  // ---------------------------------------------------------------------
  // The client

  class Ghost {
    var client: HttpClient
    var apiToken: Option<string>
    const baseUrl: string

    constructor(host: string, apiToken: Option<string>, apiVersion: string := "v2")
      ensures this.apiToken == apiToken && GetAPIToken() == apiToken
      ensures baseUrl == host + "/ghost/api/" + apiVersion + "/content/"
      ensures fresh(client) && client.options == []
    {
      client := new HttpClient([]);
      this.apiToken := apiToken;
      baseUrl := host + "/ghost/api/" + apiVersion + "/content/";
    }

    method Connect(apiToken: string) returns (self: Ghost)
      modifies this
      ensures self == this
      ensures this.apiToken == Some(apiToken) && GetAPIToken() == Some(apiToken)
      ensures client == old(client)
    {
      this.apiToken := Some(apiToken);
      self := this;
    }

    function GetClient(): (c: HttpClient)
      reads this
      ensures c == client
    {
      client
    }

    method SetClient(client: HttpClient) returns (self: Ghost)
      modifies this
      ensures self == this
      ensures this.client == client && GetClient() == client
      ensures apiToken == old(apiToken)
    {
      this.client := client;
      self := this;
    }

    function GetAPIToken(): (t: Option<string>)
      reads this
      ensures t == apiToken
    {
      apiToken
    }

    /** The address of `resource`: the base URL, which already ends in a
        slash, then another slash, then the resource path. */
    function Url(resource: string): (u: string)
      ensures |u| == |baseUrl| + 1 + |resource|
      ensures u[..|baseUrl|] == baseUrl && u[|baseUrl|] == '/' && u[|baseUrl| + 1..] == resource
    {
      baseUrl + "/" + resource
    }

    /** The request `get` makes: refused without a token, otherwise a GET of
        `baseUrl/resource` through `file_get_contents`, never through the
        client, with no headers and no body. */
    function Get(resource: string, query: Entries := []): (r: Result<Request>)
      reads this
      ensures r.Success? <==> TokenSet(apiToken)
      ensures r.Success? ==> Fetches(r.value, resource, query)
    {
      if !TokenSet(apiToken) then Failure(TokenNotSet)
      else Success(Request(GET, Url(resource), GetQuery(apiToken.value, query), [], None, FileGetContents))
    }

    /** `req` is what `get` sends for `resource` with the parameters `query`:
        a GET through `file_get_contents`, without headers or body, carrying
        the query `get` builds around the token. */
    ghost predicate Fetches(req: Request, resource: string, query: Entries)
      reads this
    {
      && TokenSet(apiToken)
      && req.verb == GET
      && req.url == Url(resource)
      && req.query == GetQuery(apiToken.value, query)
      && req.headers == []
      && req.json == None
      && req.channel == FileGetContents
    }

    /** What `handleCall` sends through the client for `verb` on `resource`. */
    ghost predicate ClientCall(req: Request, verb: HttpMethod, resource: string, rawData: RawData)
      reads this
    {
      && req.verb == verb
      && req.url == Url(resource)
      && req.headers == [UserAgent]
      && req.json == (if rawData == [] then None else Some(rawData))
      && req.channel == Through(client)
    }

    /** The request `handleCall` makes: refused without a token, otherwise
        sent through the client with the User-Agent header and a JSON body
        only when there is data. */
    function HandleCall(verb: HttpMethod, resource: string, query: Entries, rawData: RawData): (r: Result<Request>)
      reads this
      ensures r.Success? <==> TokenSet(apiToken)
      ensures r.Success? ==> ClientCall(r.value, verb, resource, rawData)
      ensures r.Success? ==> r.value.query == CallQuery(apiToken.value, query)
    {
      if !TokenSet(apiToken) then Failure(TokenNotSet)
      else
        var json := if rawData == [] then None else Some(rawData);
        Success(Request(verb, Url(resource), CallQuery(apiToken.value, query), [UserAgent], json, Through(client)))
    }

    function Post(resource: string, rawData: RawData := []): (r: Result<Request>)
      reads this
      ensures r.Success? <==> TokenSet(apiToken)
      ensures r.Success? ==> ClientCall(r.value, POST, resource, rawData)
      ensures r.Success? ==> r.value.query == [KeyEntry(apiToken.value)]
    {
      HandleCall(POST, resource, [], rawData)
    }

    function Put(resource: string, rawData: RawData := []): (r: Result<Request>)
      reads this
      ensures r.Success? <==> TokenSet(apiToken)
      ensures r.Success? ==> ClientCall(r.value, PUT, resource, rawData)
      ensures r.Success? ==> r.value.query == [KeyEntry(apiToken.value)]
    {
      HandleCall(PUT, resource, [], rawData)
    }

    function Delete(resource: string, rawData: RawData := []): (r: Result<Request>)
      reads this
      ensures r.Success? <==> TokenSet(apiToken)
      ensures r.Success? ==> ClientCall(r.value, DELETE, resource, rawData)
      ensures r.Success? ==> r.value.query == [KeyEntry(apiToken.value)]
    {
      HandleCall(DELETE, resource, [], rawData)
    }

    // Resource methods: a fixed path and a fixed parameter list, handed to `get`.

    function GetPosts(includes: string := "", fields: string := "", filter: string := "", limit: string := "",
                      page: string := "", order: string := "", format: string := ""): (r: Result<Request>)
      reads this
      ensures r.Success? <==> TokenSet(apiToken)
      ensures r.Success? ==> Fetches(r.value, "posts", ListParams(includes, fields, filter, limit, page, order) +
                                                     [FormatParam(format)])
      ensures r.Success? ==> IsSubseq(r.value.query, ListParams(includes, fields, filter, limit, page, order) +
                                                     [FormatParam(format)] + [KeyEntry(apiToken.value)])
    {
      var query := ListParams(includes, fields, filter, limit, page, order) + [FormatParam(format)];
      ListParamsNamed(includes, fields, filter, limit, page, order, format);
      GetQueryInOrder(query);
      Get("posts", query)
    }

    function GetPost(postId: string, includes: string := "", fields: string := ""): (r: Result<Request>)
      reads this
      ensures r.Success? <==> TokenSet(apiToken)
      ensures r.Success? ==> Fetches(r.value, "posts/" + postId, EntityParams(includes, fields))
      ensures r.Success? ==> IsSubseq(r.value.query, EntityParams(includes, fields) + [KeyEntry(apiToken.value)])
    {
      EntityParamsNamed(includes, fields);
      GetQueryInOrder(EntityParams(includes, fields));
      Get("posts/" + postId, EntityParams(includes, fields))
    }

    function GetPostBySlug(slug: string, includes: string := "", fields: string := ""): (r: Result<Request>)
      reads this
      ensures r.Success? <==> TokenSet(apiToken)
      ensures r.Success? ==> Fetches(r.value, "posts/slug/" + slug, EntityParams(includes, fields))
      ensures r.Success? ==> IsSubseq(r.value.query, EntityParams(includes, fields) + [KeyEntry(apiToken.value)])
    {
      EntityParamsNamed(includes, fields);
      GetQueryInOrder(EntityParams(includes, fields));
      Get("posts/slug/" + slug, EntityParams(includes, fields))
    }

    function GetAuthors(includes: string := "", fields: string := "", filter: string := "", limit: string := "",
                        page: string := "", order: string := ""): (r: Result<Request>)
      reads this
      ensures r.Success? <==> TokenSet(apiToken)
      ensures r.Success? ==> Fetches(r.value, "authors", ListParams(includes, fields, filter, limit, page, order))
      ensures r.Success? ==> IsSubseq(r.value.query, ListParams(includes, fields, filter, limit, page, order) +
                                                     [KeyEntry(apiToken.value)])
    {
      ListParamsNamed(includes, fields, filter, limit, page, order, "");
      GetQueryInOrder(ListParams(includes, fields, filter, limit, page, order));
      Get("authors", ListParams(includes, fields, filter, limit, page, order))
    }

    function GetAuthor(authorId: string, includes: string := "", fields: string := ""): (r: Result<Request>)
      reads this
      ensures r.Success? <==> TokenSet(apiToken)
      ensures r.Success? ==> Fetches(r.value, "authors/" + authorId, EntityParams(includes, fields))
      ensures r.Success? ==> IsSubseq(r.value.query, EntityParams(includes, fields) + [KeyEntry(apiToken.value)])
    {
      EntityParamsNamed(includes, fields);
      GetQueryInOrder(EntityParams(includes, fields));
      Get("authors/" + authorId, EntityParams(includes, fields))
    }

    function GetAuthorBySlug(slug: string, includes: string := "", fields: string := ""): (r: Result<Request>)
      reads this
      ensures r.Success? <==> TokenSet(apiToken)
      ensures r.Success? ==> Fetches(r.value, "authors/slug/" + slug, EntityParams(includes, fields))
      ensures r.Success? ==> IsSubseq(r.value.query, EntityParams(includes, fields) + [KeyEntry(apiToken.value)])
    {
      EntityParamsNamed(includes, fields);
      GetQueryInOrder(EntityParams(includes, fields));
      Get("authors/slug/" + slug, EntityParams(includes, fields))
    }

    function GetTags(includes: string := "", fields: string := "", filter: string := "", limit: string := "",
                     page: string := "", order: string := ""): (r: Result<Request>)
      reads this
      ensures r.Success? <==> TokenSet(apiToken)
      ensures r.Success? ==> Fetches(r.value, "tags", ListParams(includes, fields, filter, limit, page, order))
      ensures r.Success? ==> IsSubseq(r.value.query, ListParams(includes, fields, filter, limit, page, order) +
                                                     [KeyEntry(apiToken.value)])
    {
      ListParamsNamed(includes, fields, filter, limit, page, order, "");
      GetQueryInOrder(ListParams(includes, fields, filter, limit, page, order));
      Get("tags", ListParams(includes, fields, filter, limit, page, order))
    }

    function GetTag(tagsId: string, includes: string := "", fields: string := ""): (r: Result<Request>)
      reads this
      ensures r.Success? <==> TokenSet(apiToken)
      ensures r.Success? ==> Fetches(r.value, "tags/" + tagsId, EntityParams(includes, fields))
      ensures r.Success? ==> IsSubseq(r.value.query, EntityParams(includes, fields) + [KeyEntry(apiToken.value)])
    {
      EntityParamsNamed(includes, fields);
      GetQueryInOrder(EntityParams(includes, fields));
      Get("tags/" + tagsId, EntityParams(includes, fields))
    }

    function GetTagBySlug(slug: string, includes: string := "", fields: string := ""): (r: Result<Request>)
      reads this
      ensures r.Success? <==> TokenSet(apiToken)
      ensures r.Success? ==> Fetches(r.value, "tags/slug/" + slug, EntityParams(includes, fields))
      ensures r.Success? ==> IsSubseq(r.value.query, EntityParams(includes, fields) + [KeyEntry(apiToken.value)])
    {
      EntityParamsNamed(includes, fields);
      GetQueryInOrder(EntityParams(includes, fields));
      Get("tags/slug/" + slug, EntityParams(includes, fields))
    }

    function GetPages(includes: string := "", fields: string := "", filter: string := "", limit: string := "",
                      page: string := "", order: string := "", format: string := ""): (r: Result<Request>)
      reads this
      ensures r.Success? <==> TokenSet(apiToken)
      ensures r.Success? ==> Fetches(r.value, "pages", ListParams(includes, fields, filter, limit, page, order) +
                                                     [FormatParam(format)])
      ensures r.Success? ==> IsSubseq(r.value.query, ListParams(includes, fields, filter, limit, page, order) +
                                                     [FormatParam(format)] + [KeyEntry(apiToken.value)])
    {
      var query := ListParams(includes, fields, filter, limit, page, order) + [FormatParam(format)];
      ListParamsNamed(includes, fields, filter, limit, page, order, format);
      GetQueryInOrder(query);
      Get("pages", query)
    }

    function GetPage(pageId: string, includes: string := "", fields: string := ""): (r: Result<Request>)
      reads this
      ensures r.Success? <==> TokenSet(apiToken)
      ensures r.Success? ==> Fetches(r.value, "pages/" + pageId, EntityParams(includes, fields))
      ensures r.Success? ==> IsSubseq(r.value.query, EntityParams(includes, fields) + [KeyEntry(apiToken.value)])
    {
      EntityParamsNamed(includes, fields);
      GetQueryInOrder(EntityParams(includes, fields));
      Get("pages/" + pageId, EntityParams(includes, fields))
    }

    function GetPageBySlug(slug: string, includes: string := "", fields: string := ""): (r: Result<Request>)
      reads this
      ensures r.Success? <==> TokenSet(apiToken)
      ensures r.Success? ==> Fetches(r.value, "pages/slug/" + slug, EntityParams(includes, fields))
      ensures r.Success? ==> IsSubseq(r.value.query, EntityParams(includes, fields) + [KeyEntry(apiToken.value)])
    {
      EntityParamsNamed(includes, fields);
      GetQueryInOrder(EntityParams(includes, fields));
      Get("pages/slug/" + slug, EntityParams(includes, fields))
    }

    function GetSettings(): (r: Result<Request>)
      reads this
      ensures r.Success? <==> TokenSet(apiToken)
      ensures r.Success? ==> Fetches(r.value, "settings", [])
      ensures r.Success? ==> r.value.query == [KeyEntry(apiToken.value)]
    {
      Get("settings")
    }
  }

  /** A client built without a token refuses every request, whatever the
      resource, query or body. */
  lemma NoTokenNoRequest(g: Ghost, verb: HttpMethod, resource: string, query: Entries, rawData: RawData)
    requires !TokenSet(g.apiToken)
    ensures g.Get(resource, query) == Failure(TokenNotSet)
    ensures g.HandleCall(verb, resource, query, rawData) == Failure(TokenNotSet)
    ensures g.GetPosts().Failure? && g.GetSettings().Failure?
    ensures g.Post(resource, rawData).Failure? && g.Put(resource, rawData).Failure? && g.Delete(resource, rawData).Failure?
  {
  }

  /** The configuration calls as the client's users make them. */
  method ClientUsage()
  {
    var g := new Ghost("", None);
    assert g.GetAPIToken() == None;
    assert g.GetPosts().Failure?;

    var self := g.Connect("API_TOKEN");
    assert self == g && g.GetAPIToken() == Some("API_TOKEN");
    assert g.baseUrl == "/ghost/api/v2/content/";

    var first := g.GetClient();
    var other := new HttpClient([(StrKey("base_uri"), Str("http://foo.bar"))]);
    assert first != other;
    self := g.SetClient(other);
    assert g.GetClient() == other && g.GetAPIToken() == Some("API_TOKEN");

    var created := g.Post("posts", [(StrKey("title"), Str("Hello"))]);
    assert created.Success? && created.value.channel == Through(other);
    assert created.value.url == g.Url("posts") == "/ghost/api/v2/content//posts";
    assert created.value.query == [KeyEntry("API_TOKEN")];
    assert created.value.json == Some([(StrKey("title"), Str("Hello"))]);

    var settings := g.GetSettings();
    assert settings.Success? && settings.value.channel == FileGetContents;
    assert settings.value.query == [KeyEntry("API_TOKEN")] && settings.value.headers == [];
  }
}
