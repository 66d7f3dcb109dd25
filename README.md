# Ghost Content API client, modelled in Dafny

This project models the PHP client for the Ghost Content API, the class `Ghost` in
`src/Ghost.php`. A client holds three things:

- a base URL derived from the blog's host and the API version;
- the Content API key (the "token");
- an HTTP client object.

Every read goes through `get`, which refuses to run without a token. Otherwise it builds a
query string from the caller's parameters plus `key=<token>` and fetches
`baseUrl/resource` with `file_get_contents`. Writes go through `handleCall`, which sends a
request through the HTTP client object with a `User-Agent` header and an optional JSON body.
The thirteen resource methods (`getPosts` … `getSettings`) are fixed paths and fixed
parameter lists handed to `get`.

The model describes each request instead of sending it. `Ghost.Get` and `Ghost.HandleCall`
return a `Request`: verb, URL, query entries, headers, optional JSON body, and the channel it
leaves through (`FileGetContents` or `Through(client)`). A missing token gives
`Failure(TokenNotSet)`.

The query assembly is modelled as PHP executes it:

```
array_unique(array_merge(array_filter($query), ['key' => $apiToken]), SORT_REGULAR)
```

Module `PhpArrays` models those built-ins over ordered arrays of `(key, value)` entries:

- integer keys are renumbered by `array_merge`;
- a string key already present is overwritten in place; otherwise the entry is appended;
- `array_unique` keeps the first of each group of values that PHP 8's `==` considers equal,
  so `"0123"` and `"123"` are the same value. This is PHP's result whenever its ordering of
  the values is total; "## Left out" says when that holds.

The `key` entry itself can be removed by `array_unique` when a caller value equals the token.
The lemmas state exactly when that happens.

Files:

- `php_arrays.dfy`: module `PhpArrays` (boolean conversion, loose comparison of strings,
  `array_filter`, `array_merge` with one string-keyed entry, `array_unique`).
- `ghost_api.dfy`: module `GhostApi` (query assembly, the `Ghost` class, the request
  descriptions, and a usage scenario `ClientUsage` that mirrors `tests/GhostTest.php`).

## Model

| member | source | states |
|---|---|---|
| PhpArrays.IsTrue | src/Ghost.php:97 | PHP's boolean conversion of a string, behind `empty` (lines 97, 305) and `array_filter` (line 101): only `""` and `"0"` are false |
| PhpArrays.Filter | src/Ghost.php:101 | `array_filter` keeps exactly the entries whose value is truthy (not `""`, not `"0"`), in their original order |
| PhpArrays.AsComparand | src/Ghost.php:101 | what PHP 8's `==` compares a string as: the integer value of an integer numeral (surrounding whitespace and a sign allowed) within the 64-bit range, otherwise the string itself |
| PhpArrays.LooseEq | src/Ghost.php:101 | PHP 8's `==` between two strings, the equality `array_unique` with `SORT_REGULAR` applies; its behaviour is stated by the lemmas below |
| PhpArrays.TextComparesExactly | src/Ghost.php:101 | a string that is not an integer numeral is loosely equal only to itself |
| PhpArrays.TextByFirstChar | src/Ghost.php:101 | a string opening with a character that cannot open a numeral compares by its characters |
| PhpArrays.EmptyIsText | src/Ghost.php:101 | `""` is no numeral and is loosely equal only to `""` |
| PhpArrays.DigitsCompareByValue | src/Ghost.php:101 | a plain digit string compares loosely by its numeric value when that value is at most 2^63-1, and by its characters beyond that |
| PhpArrays.LeadingZeroIgnored | src/Ghost.php:101 | for a value within the 64-bit range, a leading zero changes the string but not its loose value: `"0"+d == d` under PHP `==` |
| PhpArrays.LeadingZeroKeptBeyondRange | src/Ghost.php:101 | for a value beyond the 64-bit range, `"0"+d` and `d` are not loosely equal |
| PhpArrays.FilterAppend | src/Ghost.php:101 | `array_filter` works entry by entry: filtering `x + y` is filtering `x`, then `y` |
| PhpArrays.FilterPosition | src/Ghost.php:101 | a truthy entry lands in the filtered array right after the filtered entries that were ahead of it |
| PhpArrays.Renumber | src/Ghost.php:101 | `array_merge` renumbering keeps the array's length |
| PhpArrays.RenumberSlots | src/Ghost.php:101 | slot i keeps its value and string key; an integer key becomes the count of integer keys before slot i |
| PhpArrays.RenumberKeepsDistinctKeys | src/Ghost.php:101 | renumbered integer keys are strictly increasing, so distinct keys stay distinct |
| PhpArrays.KeyIndex | src/Ghost.php:101 | the first slot holding key k, or the array's length when k is absent |
| PhpArrays.Store | src/Ghost.php:101 | `$a[$k] = $v`: an existing `k` entry keeps its slot and takes `v`, otherwise `(k, v)` is appended (its slots are stated by `StoreSlots`) |
| PhpArrays.StoreSlots | src/Ghost.php:101 | storing under k keeps the length when k is present and adds one slot otherwise; it fills k's slot (or the appended one) and leaves every other slot unchanged |
| PhpArrays.StoreKeepsDistinctKeys | src/Ghost.php:101 | storing under a key never duplicates a key |
| PhpArrays.RenumberKeepsKeyIndex | src/Ghost.php:101 | renumbering leaves every string key in its slot |
| PhpArrays.MergeOne | src/Ghost.php:101 | `array_merge($a, [name => v])`: `a` renumbered, then `name` stored as v (its contents are stated by `MergeOneSlots` and `MergeOneShape`) |
| PhpArrays.MergeOneSlots | src/Ghost.php:101 | `array_merge($a, [name => v])` has the length of `a`, plus one when `a` has no `name`; it puts `(name, v)` in the caller's `name` slot, or appends it; every other slot comes from the renumbered `a` |
| PhpArrays.MergeOneShape | src/Ghost.php:101 | after the merge: keys distinct; `name` holds v; values before its slot unchanged; entries are `(name, v)`, string-keyed entries of `a`, or renumbered integer-keyed values of `a`; every other string-keyed entry kept; every integer-keyed entry kept in its slot, with its value, under the count of integer keys before it |
| PhpArrays.UniqueAfter | src/Ghost.php:101 | keep-first deduplication of the rest of an array once some values have gone by |
| PhpArrays.Unique | src/Ghost.php:101 | `array_unique($a, SORT_REGULAR)` as keep-first under PHP 8's `==`; what it keeps is stated by `UniqueShape` and `UniqueKeepsFirstOfEachValue` |
| PhpArrays.UniqueAfterShape | src/Ghost.php:101 | keep-first deduplication gives a subsequence with no two loosely equal values and none loosely equal to an already-seen value |
| PhpArrays.UniqueShape | src/Ghost.php:101 | `array_unique` gives a subsequence of its input with pairwise loosely-distinct values and distinct keys |
| PhpArrays.UniqueKeepsFirstOfEachValue | src/Ghost.php:101 | an entry survives `array_unique` iff no earlier entry holds a loosely equal value |
| PhpArrays.MergedEntrySurvival | src/Ghost.php:101 | the merged `(name, v)` entry survives `array_unique` iff no entry ahead of its slot is loosely equal to v |
| PhpArrays.MergedEntryValue | src/Ghost.php:101 | after merge and unique, `name` never holds a value other than v |
| PhpArrays.MergedValue | src/Ghost.php:101 | the value a slot holds after `array_merge($a, [name => v])`: v in the `name` slot, its own value elsewhere |
| PhpArrays.MergedStringEntrySurvival | src/Ghost.php:101 | after merge and unique, a string-keyed entry of `a` other than `name` is present iff no entry ahead of it holds, once merged, a loosely equal value |
| GhostApi.HttpClient.constructor | tests/GhostTest.php:43 | a new client object records the options it was built with |
| GhostApi.TokenSet | src/Ghost.php:97 | the token passes the `empty` test of `get` and `handleCall` (line 305): not null, not `""`, not `"0"` |
| GhostApi.GetQuery | src/Ghost.php:100-104 | the query `get` sends: `[key => token]` for an empty query, otherwise filter, merge `key`, unique; its contents are stated by the `GetQuery…` lemmas |
| GhostApi.CallQuery | src/Ghost.php:313-317 | the query `handleCall` sends: as `GetQuery` without the filtering; its contents are stated by the `CallQuery…` lemmas |
| GhostApi.GetQueryOfFalsyQuery | src/Ghost.php:100-104 | a query whose values are all falsy, the empty query included, gives exactly `[key => token]` |
| GhostApi.GetQueryShape | src/Ghost.php:101 | the query `get` sends has distinct keys and pairwise loosely-distinct values; a caller's own `key` is overridden by the token |
| GhostApi.GetQueryEntries | src/Ghost.php:101 | every entry `get` sends is `key => token` or a caller entry with a truthy value; integer-keyed entries keep their value under a new key |
| GhostApi.GetQueryKeyPresence | src/Ghost.php:101 | `key => token` is sent iff no filtered caller entry ahead of the `key` slot holds a value loosely equal to the token |
| GhostApi.GetQueryKeyUnlessShadowed | src/Ghost.php:101 | with no caller `key`, `key => token` is sent iff no truthy caller value is loosely equal to the token |
| GhostApi.FilterWithoutKey | src/Ghost.php:101 | filtering a query without `key` leaves no `key`, so the merged `key` goes at the end |
| GhostApi.FilterKeepsClash | src/Ghost.php:101 | a truthy caller value loosely equal to the token survives filtering |
| GhostApi.FilterAddsNoClash | src/Ghost.php:101 | every value that survives filtering is a truthy caller value |
| GhostApi.GetQueryInOrder | src/Ghost.php:101 | for named parameters, `get` sends a subsequence of (the caller's parameters, then `key => token`), so `key` may be missing |
| GhostApi.GetQuerySendsEntry | src/Ghost.php:100-104 | a named caller parameter (not `key`) is sent iff its value is truthy and no truthy entry ahead of it is loosely equal to it, a caller `key` ahead of it counting as the token |
| GhostApi.CallQueryShape | src/Ghost.php:313-317 | the query `handleCall` sends has distinct keys and pairwise loosely-distinct values; a caller's `key` is overridden |
| GhostApi.CallQueryEntries | src/Ghost.php:314 | every entry `handleCall` sends is `key => token` or a caller entry, falsy values included |
| GhostApi.CallQueryKeyPresence | src/Ghost.php:314 | `key => token` is sent iff no caller entry ahead of the `key` slot holds a value loosely equal to the token |
| GhostApi.CallQuerySendsEntry | src/Ghost.php:313-317 | a named caller parameter (not `key`) is sent by `handleCall` iff no entry ahead of it is loosely equal to it, a caller `key` ahead of it counting as the token |
| GhostApi.KeyDroppedWhenValueEqualsToken | src/Ghost.php:101 | for the one-parameter query `[name => t]` with `name` not `key`, a value equal to the token t removes `key` from the query `get` sends |
| GhostApi.KeyDroppedWhenValueNumericallyEqualsToken | src/Ghost.php:101 | for the one-parameter query `[name => "0"+t]` with `name` not `key`, `key` is removed when the token t is a digit string of value at most 2^63-1 |
| GhostApi.KeyKeptWhenTokenBeyondIntegerRange | src/Ghost.php:101 | for the one-parameter query `[name => "0"+t]` with `name` not `key`, `key` stays when the token t is a digit string beyond the 64-bit range |
| GhostApi.OnlyGetFiltersFalsyValues | src/Ghost.php:101 | for the single query `[status => ""]` with token `"t"`: `get` sends only `[key => t]`, while `handleCall` sends `[status => "", key => t]` (line 314); the general fact follows from `GetQuerySendsEntry` and `CallQuerySendsEntry` |
| GhostApi.EntityParams | src/Ghost.php:129 | `compact('include', 'fields')`: the two named parameters in that order |
| GhostApi.ListParams | src/Ghost.php:158 | `compact('include', 'fields', 'filter', 'limit', 'page', 'order')`: the six named parameters in that order |
| GhostApi.FormatParam | src/Ghost.php:84 | the `format` entry `getPosts` and `getPages` add after the list parameters |
| GhostApi.EntityParamsNamed | src/Ghost.php:127-130 | `compact('include', 'fields')` has named keys only, none of them `key` |
| GhostApi.ListParamsNamed | src/Ghost.php:82-85 | the list parameters, with or without `format`, have named keys only, none of them `key` |
| GhostApi.Ghost.constructor | src/Ghost.php:28-35 | the token is stored as given (null included); `baseUrl` is `host/ghost/api/<version>/content/`, version defaulting to `v2`; a fresh client |
| GhostApi.Ghost.Connect | src/Ghost.php:42-47 | the token becomes exactly the argument; base URL and client are unchanged; the same object is returned |
| GhostApi.Ghost.GetClient | src/Ghost.php:52-55 | returns the current client |
| GhostApi.Ghost.SetClient | src/Ghost.php:61-68 | the client becomes the argument; token and base URL are unchanged; the same object is returned |
| GhostApi.Ghost.GetAPIToken | src/Ghost.php:114-117 | returns the current token, null included |
| GhostApi.Ghost.Url | src/Ghost.php:106 | the request URL is the base URL, a slash, then the resource |
| GhostApi.Ghost.Get | src/Ghost.php:94-109 | fails iff the token is null, `""` or `"0"`; otherwise exactly `Fetches`: a GET of `baseUrl/resource` through `file_get_contents`, with no headers or body, sending `GetQuery` |
| GhostApi.Ghost.Fetches | src/Ghost.php:94-109 | what `get` sends for a resource and a parameter list: a GET of `baseUrl/resource` through `file_get_contents`, no headers, no body, query `GetQuery(token, parameters)`, and only with a usable token |
| GhostApi.Ghost.ClientCall | src/Ghost.php:309-324 | what `handleCall` sends through the client: the given verb, URL `baseUrl/resource`, exactly the `User-Agent: php-ghost-api` header, a JSON body only when the data is non-empty, through the current client object |
| GhostApi.Ghost.HandleCall | src/Ghost.php:302-329 | fails iff the token is unset; otherwise `verb` through the client, with the User-Agent header, a JSON body iff the data is non-empty, and `CallQuery` |
| GhostApi.Ghost.Post | src/Ghost.php:287-290 | a POST through the client whose query is exactly `[key => token]` |
| GhostApi.Ghost.Put | src/Ghost.php:337-340 | a PUT through the client whose query is exactly `[key => token]` |
| GhostApi.Ghost.Delete | src/Ghost.php:348-351 | a DELETE through the client whose query is exactly `[key => token]` |
| GhostApi.Ghost.GetPosts | src/Ghost.php:82-85 | fails iff the token is unset; otherwise exactly what `get` sends (`Fetches`) for path `posts` and the six list parameters and `format`, so a GET through `file_get_contents` with no headers or body; the query is a subsequence of include, fields, filter, limit, page, order, format, then `key` |
| GhostApi.Ghost.GetPost | src/Ghost.php:127-130 | fails iff the token is unset; otherwise exactly what `get` sends (`Fetches`) for path `posts/<id>` and `compact('include', 'fields')`, so a GET through `file_get_contents` with no headers or body; the query is a subsequence of include, fields, then `key` |
| GhostApi.Ghost.GetPostBySlug | src/Ghost.php:140-143 | fails iff the token is unset; otherwise exactly what `get` sends (`Fetches`) for path `posts/slug/<slug>` and `compact('include', 'fields')`, so a GET through `file_get_contents` with no headers or body; the query is a subsequence of include, fields, then `key` |
| GhostApi.Ghost.GetAuthors | src/Ghost.php:156-159 | fails iff the token is unset; otherwise exactly what `get` sends (`Fetches`) for path `authors` and the six list parameters, so a GET through `file_get_contents` with no headers or body; the query is a subsequence of include, fields, filter, limit, page, order, then `key` |
| GhostApi.Ghost.GetAuthor | src/Ghost.php:169-172 | fails iff the token is unset; otherwise exactly what `get` sends (`Fetches`) for path `authors/<id>` and `compact('include', 'fields')`, so a GET through `file_get_contents` with no headers or body; the query is a subsequence of include, fields, then `key` |
| GhostApi.Ghost.GetAuthorBySlug | src/Ghost.php:182-185 | fails iff the token is unset; otherwise exactly what `get` sends (`Fetches`) for path `authors/slug/<slug>` and `compact('include', 'fields')`, so a GET through `file_get_contents` with no headers or body; the query is a subsequence of include, fields, then `key` |
| GhostApi.Ghost.GetTags | src/Ghost.php:198-201 | fails iff the token is unset; otherwise exactly what `get` sends (`Fetches`) for path `tags` and the six list parameters, so a GET through `file_get_contents` with no headers or body; the query is a subsequence of include, fields, filter, limit, page, order, then `key` |
| GhostApi.Ghost.GetTag | src/Ghost.php:211-214 | fails iff the token is unset; otherwise exactly what `get` sends (`Fetches`) for path `tags/<id>` and `compact('include', 'fields')`, so a GET through `file_get_contents` with no headers or body; the query is a subsequence of include, fields, then `key` |
| GhostApi.Ghost.GetTagBySlug | src/Ghost.php:224-227 | fails iff the token is unset; otherwise exactly what `get` sends (`Fetches`) for path `tags/slug/<slug>` and `compact('include', 'fields')`, so a GET through `file_get_contents` with no headers or body; the query is a subsequence of include, fields, then `key` |
| GhostApi.Ghost.GetPages | src/Ghost.php:241-244 | fails iff the token is unset; otherwise exactly what `get` sends (`Fetches`) for path `pages` and the six list parameters and `format`, so a GET through `file_get_contents` with no headers or body; the query is a subsequence of include, fields, filter, limit, page, order, format, then `key` |
| GhostApi.Ghost.GetPage | src/Ghost.php:254-257 | fails iff the token is unset; otherwise exactly what `get` sends (`Fetches`) for path `pages/<id>` and `compact('include', 'fields')`, so a GET through `file_get_contents` with no headers or body; the query is a subsequence of include, fields, then `key` |
| GhostApi.Ghost.GetPageBySlug | src/Ghost.php:267-270 | fails iff the token is unset; otherwise exactly what `get` sends (`Fetches`) for path `pages/slug/<slug>` and `compact('include', 'fields')`, so a GET through `file_get_contents` with no headers or body; the query is a subsequence of include, fields, then `key` |
| GhostApi.Ghost.GetSettings | src/Ghost.php:276-279 | fails iff the token is unset; otherwise exactly what `get` sends (`Fetches`) for path `settings` and no parameters: a GET through `file_get_contents`, no headers or body, query exactly `[key => token]` |
| GhostApi.NoTokenNoRequest | src/Ghost.php:96-99 | without a usable token, `get` and `handleCall` fail whatever the resource, query or body (lines 304-307 for `handleCall`), and so do `post`, `put`, `delete`, `getPosts()` and `getSettings()`; every other resource method fails by its own `r.Success? <==> TokenSet(apiToken)` |

## Left out

- The HTTP exchange is not modelled: `file_get_contents` and the client's `request(...)->getBody()->getContents()` are network I/O. A request is described, not sent.
- `json_decode` of the response is not modelled. It is a foreign codec, so no method returns response data.
- URL encoding by `http_build_query` is not modelled. Neither is the `?<query>` that `get` appends to its URL: the query is kept as an ordered list of entries beside the URL.
- The client library's handling of its `query`, `headers` and `json` options is not modelled. The client is an opaque handle; only its identity and its constructor options are recorded.
- The `instanceof Client` test in `setClient` always holds for a typed argument, so `SetClient` assigns unconditionally.
- PHP exceptions are not modelled. The missing-token exception is the result `Failure(TokenNotSet)`.
- The declared `$host` property is not modelled. The constructor never assigns it and nothing reads it.
- Loose comparison covers integer numerals: optional surrounding whitespace, optional sign, decimal digits. Within the 64-bit range, such a numeral compares by its value. Beyond that range PHP reads it as a float. It then never equals an in-range numeral, and two such numerals are equal only when they are the same string (equal floats from the same side send PHP back to comparing the bytes). So the model compares them as text, which gives the same answers. Decimal-point and exponent numerals, `".5"` included, compare as text here, and PHP would compare them as floats.
- Query values are strings, which is all the resource methods pass. Arrays, integers, booleans or null in a caller's query to `get` are not modelled.
- Keys are taken as PHP has already normalised them: a decimal string key such as `"5"` is given as the integer key 5.
- `array_unique` with `SORT_REGULAR` sorts a copy of the array and, within each run of neighbours that compare equal, keeps the entry that came first. That is the keep-first rule modelled by `Unique` whenever PHP's ordering is a total order on the values present: for example, when all of them are integer numerals or none is. With numerals and non-numerals mixed, the ordering can be cyclic (`"9" < "10" < "1a" < "9"`). The sort can then separate two loosely equal values, and PHP keeps both: `["9", "1a", "09"]` keeps all three, while `Unique` drops `"09"`. PHP and `Unique` can differ only when two values are loosely equal: with pairwise loosely distinct values, both keep every entry. Real calls can meet the mixture, because `limit` and `page` are numerals and other parameters are words. For `getAuthors(include: t, limit: "9", page: "10")` with a token t such as `"1a"`, the values after the merge are t, `"9"`, `"10"`, t. Reading PHP's four-element sort (not executed), it orders them t, `"9"`, `"10"`, t, so the two copies of t are not neighbours, and PHP sends both `include` and `key`. `GetQuery` drops `key`. Such mixtures are not modelled. The members below are stated for keep-first and hold for PHP under that condition.
- Unique: equals PHP's `array_unique(..., SORT_REGULAR)` only when the ordering is total on the values present (see above).
- UniqueAfterShape: pairwise loose distinctness holds for PHP only when the ordering is total on the values present.
- UniqueShape: "no two values loosely equal" holds for PHP only when the ordering is total on the values present.
- UniqueKeepsFirstOfEachValue: the "iff" holds for PHP only when the ordering is total on the values present. With a mixture, an entry with a loosely equal predecessor may also survive.
- MergedEntrySurvival: the "iff" holds for PHP only when the ordering is total on the values after the merge.
- MergedStringEntrySurvival: the "iff" holds for PHP only when the ordering is total on the values after the merge.
- GetQueryShape: pairwise loose distinctness holds for PHP only when the ordering is total on the values sent. Distinct keys and the overridden `key` hold regardless.
- GetQueryKeyPresence: the "iff" holds for PHP only when the ordering is total on the values after the merge.
- GetQueryKeyUnlessShadowed: the "iff" holds for PHP only when the ordering is total on the values after the merge.
- GetQuerySendsEntry: the "iff" holds for PHP only when the ordering is total on the values after the merge.
- CallQueryShape: pairwise loose distinctness holds for PHP only when the ordering is total on the values sent. Distinct keys and the overridden `key` hold regardless.
- CallQueryKeyPresence: the "iff" holds for PHP only when the ordering is total on the values after the merge.
- CallQuerySendsEntry: the "iff" holds for PHP only when the ordering is total on the values after the merge.
- The `$method` string of `handleCall` becomes the `HttpMethod` datatype; only the four verbs exist.
