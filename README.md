# ResponseBuilderImpl — a verified model of RESTEasy's JAX-RS response builder

`ResponseBuilderImpl` is the mutable builder behind `Response.status(...)...build()`
in RESTEasy. It holds four fields: an entity, an `int` status, a header multimap
(`metadata`) and a list of cookies. Each setter changes one of them in place and
returns the same builder. `build()` snapshots them into a response, and `clone()` copies
them into a new builder. Two pieces carry real logic:

- `createVaryHeader` folds a list of content-negotiation variants into a `Vary` header.
- `location` / `contentLocation` resolve a relative URI against the current request's
  base URI.

The model has three files:

- `jaxrs.dfy`: `Wrappers.Option`, and module `JaxRs` with the opaque JAX-RS value
  types (`MediaType`, `Locale`, `EntityTag`, `CacheControl`, `Date`, `NewCookie`, `Uri`,
  `Variant`). It also holds `Value`, the sum of everything the builder stores as a
  header value or entity, with `Null` standing for Java's null. The status is a 32-bit
  `int32` newtype, like Java's `int`.
- `headers.dfy`: module `HttpHeaderNames` (the header-name constants) and module
  `Headers`. `Headers` models the header multimap as `map<string, seq<Value>>`, with
  the four operations the builder uses: `putSingle`, `add`, repeated `add`, and `putAll`.
- `response_builder.dfy`: module `ResponseBuilderImpl`. It holds:
  - the reference definition of the Vary header (`VaryTokens`, `Join`, `VaryHeader`);
  - the loop that computes it (`CreateVaryHeader`), proved equal to that definition;
  - URI resolution (`StripLeadingSlash`, `ResolveLocation`);
  - the class `ResponseBuilder`, with one method per source method;
  - a few client methods that show what a caller can conclude from the contracts alone.

Every setter names only the field it changes in its frame. For a header setter
that is `` modifies this`metadata ``, so the status, the entity and the cookies are
unchanged by construction. The new header map is stated exactly. `PutSingle` says
that the named header holds exactly the one new value and every other entry is
unchanged.

Two facts about the code shape the cookie part of the model:

- `cookie(...)` writes only `Set-Cookie` header values (line 204).
- The `cookies` field starts empty (line 30). Its only write is clone's copy (line 50),
  which copies a list that is always empty. So `build()` always passes a null cookie
  array (lines 35-41). `CookiesThenBuild` shows this.

Effects beyond the builder are parameters:

- The request context is a `baseUri: Option<Uri>` argument, None when no request is
  in scope.
- `URI.resolve(String)` is a function argument `resolve: (Uri, string) -> Option<Uri>`.
  None stands for the IllegalArgumentException thrown when the text is not a valid URI.
  `Location` and `ContentLocation` then return None and write no header.
- The RFC 822 date formatter behind `expires` is a function argument
  `format: Date -> string`.
- `URI.isAbsolute` is modelled exactly: a URI is absolute when it has a scheme.

Java overloads get distinct names:

- `type(MediaType)` / `type(String)` are `Type` / `TypeText`.
- `language(String)` / `language(Locale)` are `Language` / `LanguageLocale`.
- `tag(EntityTag)` / `tag(String)` are `Tag` / `TagText`.

## Model

| member | source | states |
|---|---|---|
| Headers.PutSingle | jaxrs/resteasy-jaxrs/src/main/java/org/jboss/resteasy/specimpl/ResponseBuilderImpl.java:72 | after putSingle the name holds exactly the one given value, the key set gains only that name, and every other entry is unchanged |
| Headers.Add | jaxrs/resteasy-jaxrs/src/main/java/org/jboss/resteasy/specimpl/ResponseBuilderImpl.java:204 | add appends the value to the end of the name's earlier values (an absent name counts as empty); every other entry is unchanged |
| Headers.AddAll | jaxrs/resteasy-jaxrs/src/main/java/org/jboss/resteasy/specimpl/ResponseBuilderImpl.java:202-205 | adding a list of values one by one leaves the earlier values followed by the whole list, in order; the name appears only if it existed or the list is non-empty; other entries unchanged |
| Headers.AddAllSnoc | jaxrs/resteasy-jaxrs/src/main/java/org/jboss/resteasy/specimpl/ResponseBuilderImpl.java:202-205 | one more add after a run of adds equals one longer run (the loop step of `cookie`) |
| Headers.PutAll | jaxrs/resteasy-jaxrs/src/main/java/org/jboss/resteasy/specimpl/ResponseBuilderImpl.java:48 | putAll yields the union of the keys; entries of the copied map win, entries only in the target stay |
| Headers.PutSingleOverwrites | jaxrs/resteasy-jaxrs/src/main/java/org/jboss/resteasy/specimpl/ResponseBuilderImpl.java:93-99 | two putSingle calls on one name are the same as the second alone: calling a setter twice keeps only the last value |
| Headers.PutSingleCommutes | jaxrs/resteasy-jaxrs/src/main/java/org/jboss/resteasy/specimpl/ResponseBuilderImpl.java:84-90 | putSingle on two different names commutes, so the order in which `variant` sets its headers does not matter |
| ResponseBuilderImpl.JoinSnoc | jaxrs/resteasy-jaxrs/src/main/java/org/jboss/resteasy/specimpl/ResponseBuilderImpl.java:116-125 | appending `", " + token` to the joined text is joining one more token — the step `vary += ", " + ...` |
| ResponseBuilderImpl.CreateVaryHeader | jaxrs/resteasy-jaxrs/src/main/java/org/jboss/resteasy/specimpl/ResponseBuilderImpl.java:101-127 | the flag loop and the incremental string building return exactly the reference Vary header: null when no token applies, else the present tokens among Accept, Accept-Language, Accept-Encoding joined by ", " |
| ResponseBuilderImpl.VaryHeaderNullIff | jaxrs/resteasy-jaxrs/src/main/java/org/jboss/resteasy/specimpl/ResponseBuilderImpl.java:114-126 | the Vary header is null if and only if no variant has a media type, a language or an encoding |
| ResponseBuilderImpl.VaryHeaderDependsOnlyOnMembers | jaxrs/resteasy-jaxrs/src/main/java/org/jboss/resteasy/specimpl/ResponseBuilderImpl.java:107-112 | two variant lists with the same elements give the same Vary header, whatever their order and multiplicity |
| ResponseBuilderImpl.VaryHeaderDependsOnlyOnFlags | jaxrs/resteasy-jaxrs/src/main/java/org/jboss/resteasy/specimpl/ResponseBuilderImpl.java:103-126 | two variant lists that raise the same three flags give the same Vary header |
| ResponseBuilderImpl.SameFlags | jaxrs/resteasy-jaxrs/src/main/java/org/jboss/resteasy/specimpl/ResponseBuilderImpl.java:107-112 | each of the three flags is monotone in the set of variants: a field present in a sublist is present in the list |
| ResponseBuilderImpl.VaryTokensFixedOrder | jaxrs/resteasy-jaxrs/src/main/java/org/jboss/resteasy/specimpl/ResponseBuilderImpl.java:114-125 | each token occurs exactly when its field occurs in some variant; only the three tokens occur, in strictly increasing fixed order, so none twice |
| ResponseBuilderImpl.VaryHeaderExamples | jaxrs/resteasy-jaxrs/src/main/java/org/jboss/resteasy/specimpl/ResponseBuilderImpl.java:101-127 | no variants give null; one media type gives "Accept"; encoding, language and media type in reverse order still give "Accept, Accept-Language, Accept-Encoding" |
| ResponseBuilderImpl.StripLeadingSlash | jaxrs/resteasy-jaxrs/src/main/java/org/jboss/resteasy/specimpl/ResponseBuilderImpl.java:142 | a path starting with "/" is "/" followed by the result; any other path is returned unchanged |
| ResponseBuilderImpl.ResolveLocation | jaxrs/resteasy-jaxrs/src/main/java/org/jboss/resteasy/specimpl/ResponseBuilderImpl.java:139-145 | an absolute URI, or any URI with no request in scope, is kept as given; a relative URI with a request in scope becomes the base URI resolved with its path, less the leading "/" if the path has one; only that resolution can fail |
| ResponseBuilderImpl.ResolveStripsOneSlash | jaxrs/resteasy-jaxrs/src/main/java/org/jboss/resteasy/specimpl/ResponseBuilderImpl.java:139-145 | with a request in scope a relative path "/p" is resolved as "p", and "//p" as "/p": at most one slash is removed; the URI's other components never reach the resolution |
| ResponseBuilderImpl.AbsoluteLocationKept | jaxrs/resteasy-jaxrs/src/main/java/org/jboss/resteasy/specimpl/ResponseBuilderImpl.java:139 | an absolute URI is kept as given whether or not a request is in scope |
| ResponseBuilderImpl.CookieValues | jaxrs/resteasy-jaxrs/src/main/java/org/jboss/resteasy/specimpl/ResponseBuilderImpl.java:202-205 | the header values for the cookie arguments, one per cookie, in argument order |
| ResponseBuilderImpl.ApplyVariant | jaxrs/resteasy-jaxrs/src/main/java/org/jboss/resteasy/specimpl/ResponseBuilderImpl.java:84-90 | each non-null field of the variant becomes the single value of its Content-Type, Content-Language or Content-Encoding header; a null field leaves its header exactly as it was (present or absent); all other headers are unchanged |
| ResponseBuilderImpl.ResponseBuilder.constructor | jaxrs/resteasy-jaxrs/src/main/java/org/jboss/resteasy/specimpl/ResponseBuilderImpl.java:27-30 | a new builder has a null entity, status 0, no headers and no cookies |
| ResponseBuilderImpl.ResponseBuilder.Build | jaxrs/resteasy-jaxrs/src/main/java/org/jboss/resteasy/specimpl/ResponseBuilderImpl.java:33-42 | the response carries the builder's entity, status and headers; the cookie array is null exactly when the cookie list is empty, otherwise the list in order; the builder is not modified |
| ResponseBuilderImpl.ResponseBuilder.Clone | jaxrs/resteasy-jaxrs/src/main/java/org/jboss/resteasy/specimpl/ResponseBuilderImpl.java:45-53 | a fresh builder with the same status, the same entity, the same header entries and the same cookies; the original is not modified |
| ResponseBuilderImpl.ResponseBuilder.Status | jaxrs/resteasy-jaxrs/src/main/java/org/jboss/resteasy/specimpl/ResponseBuilderImpl.java:56-60 | sets the status and changes nothing else; returns the same builder |
| ResponseBuilderImpl.ResponseBuilder.Entity | jaxrs/resteasy-jaxrs/src/main/java/org/jboss/resteasy/specimpl/ResponseBuilderImpl.java:63-67 | sets the entity and changes nothing else; returns the same builder |
| ResponseBuilderImpl.ResponseBuilder.Type | jaxrs/resteasy-jaxrs/src/main/java/org/jboss/resteasy/specimpl/ResponseBuilderImpl.java:70-74 | Content-Type holds exactly the media type; no other header and no other field changes |
| ResponseBuilderImpl.ResponseBuilder.TypeText | jaxrs/resteasy-jaxrs/src/main/java/org/jboss/resteasy/specimpl/ResponseBuilderImpl.java:77-81 | Content-Type holds exactly the given string; no other header and no other field changes |
| ResponseBuilderImpl.ResponseBuilder.Variant | jaxrs/resteasy-jaxrs/src/main/java/org/jboss/resteasy/specimpl/ResponseBuilderImpl.java:84-90 | the headers become ApplyVariant of the old headers: only the non-null fields are written; status, entity and cookies unchanged |
| ResponseBuilderImpl.ResponseBuilder.Variants | jaxrs/resteasy-jaxrs/src/main/java/org/jboss/resteasy/specimpl/ResponseBuilderImpl.java:93-99 | Vary holds exactly one value, the computed Vary header (null when no token applies); no other header changes |
| ResponseBuilderImpl.ResponseBuilder.Language | jaxrs/resteasy-jaxrs/src/main/java/org/jboss/resteasy/specimpl/ResponseBuilderImpl.java:130-134 | Content-Language holds exactly the given string; nothing else changes |
| ResponseBuilderImpl.ResponseBuilder.LanguageLocale | jaxrs/resteasy-jaxrs/src/main/java/org/jboss/resteasy/specimpl/ResponseBuilderImpl.java:209-213 | Content-Language holds exactly the given locale; nothing else changes |
| ResponseBuilderImpl.ResponseBuilder.Location | jaxrs/resteasy-jaxrs/src/main/java/org/jboss/resteasy/specimpl/ResponseBuilderImpl.java:137-148 | when the resolution succeeds, Location holds exactly one URI: the given one when absolute or when no request is in scope, else the base URI resolved with the path less one leading "/", and the builder is returned; when it throws, None is returned and no header changes |
| ResponseBuilderImpl.ResponseBuilder.ContentLocation | jaxrs/resteasy-jaxrs/src/main/java/org/jboss/resteasy/specimpl/ResponseBuilderImpl.java:151-162 | the same resolution and failure as Location, stored under Content-Location; nothing else changes |
| ResponseBuilderImpl.ResponseBuilder.Tag | jaxrs/resteasy-jaxrs/src/main/java/org/jboss/resteasy/specimpl/ResponseBuilderImpl.java:165-169 | ETag holds exactly the entity tag; nothing else changes |
| ResponseBuilderImpl.ResponseBuilder.TagText | jaxrs/resteasy-jaxrs/src/main/java/org/jboss/resteasy/specimpl/ResponseBuilderImpl.java:172-176 | ETag holds exactly the given string; nothing else changes |
| ResponseBuilderImpl.ResponseBuilder.LastModified | jaxrs/resteasy-jaxrs/src/main/java/org/jboss/resteasy/specimpl/ResponseBuilderImpl.java:179-183 | Last-Modified holds exactly the date; nothing else changes |
| ResponseBuilderImpl.ResponseBuilder.CacheControl | jaxrs/resteasy-jaxrs/src/main/java/org/jboss/resteasy/specimpl/ResponseBuilderImpl.java:186-190 | Cache-Control holds exactly the given directives; nothing else changes |
| ResponseBuilderImpl.ResponseBuilder.Header | jaxrs/resteasy-jaxrs/src/main/java/org/jboss/resteasy/specimpl/ResponseBuilderImpl.java:193-197 | the named header holds exactly the given value (which may be null); nothing else changes |
| ResponseBuilderImpl.ResponseBuilder.Cookie | jaxrs/resteasy-jaxrs/src/main/java/org/jboss/resteasy/specimpl/ResponseBuilderImpl.java:200-207 | the cookies are appended, in argument order, after the earlier Set-Cookie values; no other header changes and the cookies field is untouched |
| ResponseBuilderImpl.ResponseBuilder.Expires | jaxrs/resteasy-jaxrs/src/main/java/org/jboss/resteasy/specimpl/ResponseBuilderImpl.java:215-221 | Expires holds exactly the formatted date; nothing else changes |
| ResponseBuilderImpl.VariantsTwice | jaxrs/resteasy-jaxrs/src/main/java/org/jboss/resteasy/specimpl/ResponseBuilderImpl.java:93-99 | on a new builder, variants(a) then variants(b) then build give a response whose only header is Vary with the single value computed from b |
| ResponseBuilderImpl.CookiesThenBuild | jaxrs/resteasy-jaxrs/src/main/java/org/jboss/resteasy/specimpl/ResponseBuilderImpl.java:35-41 | after tag and cookie, build passes a null cookie array, Set-Cookie lists exactly the cookies and ETag is still the tag |
| ResponseBuilderImpl.CloneThenChangeOriginal | jaxrs/resteasy-jaxrs/src/main/java/org/jboss/resteasy/specimpl/ResponseBuilderImpl.java:45-53 | a clone keeps the entity, status and Content-Type it had when cloned, while the original's later changes show only in the original |
| ResponseBuilderImpl.CookieAfterCloneAndBuild | jaxrs/resteasy-jaxrs/src/main/java/org/jboss/resteasy/specimpl/ResponseBuilderImpl.java:45-53 | under the model's value semantics only: a cookie added after clone and build shows in a later build but reaches neither the clone nor the earlier response; Java shares the list (see "Left out") |
| ResponseBuilderImpl.RelativeLocation | jaxrs/resteasy-jaxrs/src/main/java/org/jboss/resteasy/specimpl/ResponseBuilderImpl.java:139-146 | location("/p") with a request in scope, whatever the URI's other components, stores the base URI resolved with "p", or fails exactly when that resolution does |
| ResponseBuilderImpl.LocationWithoutRequest | jaxrs/resteasy-jaxrs/src/main/java/org/jboss/resteasy/specimpl/ResponseBuilderImpl.java:139-146 | with no request in scope any location is stored exactly as given |

## Left out

- Case-insensitive header names: the `Headers` class is not part of this model. Names
  are compared exactly, so "vary" and "Vary" are different entries here.
- Aliasing of header value lists: the model has value semantics. So it proves that a
  clone, and an earlier response, are unaffected by later changes to the builder.
  Java does not guarantee this. `putAll` (line 48) copies references to the value
  lists, and `add` (line 204) may append in place to a list the clone shares. `build`
  (line 41) hands over the `metadata` object itself, so a setter called after `build`
  may show in that response. `CloneThenChangeOriginal` holds in Java too, because
  putSingle installs a new list instead of changing the shared one.
- ResponseBuilderImpl.CookieAfterCloneAndBuild: holds only under the model's value
  semantics, not in Java. There, `putAll` (line 48) gives the clone the builder's
  Set-Cookie list itself, and `add` (line 204) appends c2 to that shared list in place.
  `build` (line 41) hands the response the `metadata` object itself. So Java's clone
  and earlier response would both list c1 and c2.
- `URI.resolve` and the parsing behind `URI.getPath` (reference resolution per section
  5.2 of RFC 2396): `resolve` is a parameter, and `Uri.path` is taken as given. It is the
  decoded path, so re-parsing it can fail (line 141 reads `/a%20b` as `/a b`). The
  parameter's None result covers that failure.
- The request-context lookup (`ResteasyProviderFactory.getContextData`), a thread-local
  registry: it is an explicit `Option<Uri>` base-URI argument. The source looks it up
  twice; the model assumes both lookups agree.
- The `expires` date formatter (a shared, unsynchronized `SimpleDateFormat` whose
  output depends on locale and time zone): it is the parameter `format`.
- The construction of `ResponseImpl` and the internals of the JAX-RS value types:
  they are opaque values, and `Variant` keeps only its three optional fields.
- The actual text of the `HttpHeaderNames` constants: conventional spellings are used,
  and only their distinctness matters.
- Null arguments: setters that receive a null `MediaType`, `EntityTag`, etc. store
  null in Java, except the ones named at the end of this line. Only
  `Header(name, Null)` and the null Vary result model a stored null. `cookie(c, null)` stores a null Set-Cookie value (line 204); the model's
  cookie arguments cannot be null. `variant(null)`, `variants(null)`, a null element
  in the variant list (lines 107, 109), `location(null)` (line 139),
  `contentLocation(null)` (line 153) and `cookie(null)` (line 202) throw
  NullPointerException in Java, as does `expires(null)` inside the date formatter
  (line 219). None of these is modelled.
- Fluent chaining: each method returns the builder, and `b == this` is stated. The
  abstract base class `Response.ResponseBuilder` is not modelled.
