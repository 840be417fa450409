/**
 * The JAX-RS response builder: a mutable accumulator of status, entity and
 * headers that snapshots them into a Response on `Build`.
 */
module ResponseBuilderImpl {
  import opened Wrappers
  import opened JaxRs
  import opened Headers
  import N = HttpHeaderNames

  /** What `build` hands to the response constructor; `cookies` is None for Java's null array. */
  datatype Response = Response(entity: Value, status: int32, metadata: Multimap, cookies: Option<seq<NewCookie>>)

  // ---------------------------------------------------------------------
  // The Vary header computed from a list of variants
  // ---------------------------------------------------------------------

  predicate AnyMediaType(vs: seq<Variant>) {
    exists i :: 0 <= i < |vs| && vs[i].mediaType.Some?
  }

  predicate AnyLanguage(vs: seq<Variant>) {
    exists i :: 0 <= i < |vs| && vs[i].language.Some?
  }

  predicate AnyEncoding(vs: seq<Variant>) {
    exists i :: 0 <= i < |vs| && vs[i].encoding.Some?
  }

  /** The request headers the variants depend on, in the fixed order Accept, Accept-Language, Accept-Encoding. */
  function VaryTokens(vs: seq<Variant>): seq<string> {
    (if AnyMediaType(vs) then [N.ACCEPT] else [])
    + (if AnyLanguage(vs) then [N.ACCEPT_LANGUAGE] else [])
    + (if AnyEncoding(vs) then [N.ACCEPT_ENCODING] else [])
  }

  /** The tokens separated by ", ". */
  function Join(tokens: seq<string>): string {
    if |tokens| == 0 then ""
    else if |tokens| == 1 then tokens[0]
    else tokens[0] + ", " + Join(tokens[1..])
  }

  /** The Vary header for `vs`: None (Java's null) when no variant names any of the three fields. */
  function VaryHeader(vs: seq<Variant>): Option<string> {
    var tokens := VaryTokens(vs);
    if tokens == [] then None else Some(Join(tokens))
  }

  /** The Vary header as the value stored in the header map. */
  function VaryValue(vs: seq<Variant>): Value {
    match VaryHeader(vs)
    case None => Null
    case Some(s) => Text(s)
  }

  lemma {:induction false} JoinSnoc(tokens: seq<string>, t: string)
    requires tokens != []
    ensures Join(tokens + [t]) == Join(tokens) + ", " + t
  {
    if |tokens| == 1 {
      assert tokens + [t] == [tokens[0], t];
    } else {
      assert (tokens + [t])[1..] == tokens[1..] + [t];
      JoinSnoc(tokens[1..], t);
    }
  }

  /**
   * createVaryHeader: one pass over the variants raising three flags, then
   * the header text built up token by token.
   */
  method CreateVaryHeader(variants: seq<Variant>) returns (vary: Option<string>)
    ensures vary == VaryHeader(variants)
  {
    var accept, acceptLanguage, acceptEncoding := false, false, false;
    for i := 0 to |variants|
      invariant accept <==> AnyMediaType(variants[..i])
      invariant acceptLanguage <==> AnyLanguage(variants[..i])
      invariant acceptEncoding <==> AnyEncoding(variants[..i])
    {
      var variant := variants[i];
      assert variants[..i + 1] == variants[..i] + [variant];
      if variant.mediaType.Some? { accept := true; }
      if variant.language.Some? { acceptLanguage := true; }
      if variant.encoding.Some? { acceptEncoding := true; }
    }
    assert variants[..|variants|] == variants;

    ghost var tokens: seq<string> := [];
    vary := None;
    if accept {
      vary := Some(N.ACCEPT);
      tokens := [N.ACCEPT];
    }
    if acceptLanguage {
      if vary == None {
        vary := Some(N.ACCEPT_LANGUAGE);
      } else {
        JoinSnoc(tokens, N.ACCEPT_LANGUAGE);
        vary := Some(vary.value + ", " + N.ACCEPT_LANGUAGE);
      }
      tokens := tokens + [N.ACCEPT_LANGUAGE];
    }
    if acceptEncoding {
      if vary == None {
        vary := Some(N.ACCEPT_ENCODING);
      } else {
        JoinSnoc(tokens, N.ACCEPT_ENCODING);
        vary := Some(vary.value + ", " + N.ACCEPT_ENCODING);
      }
      tokens := tokens + [N.ACCEPT_ENCODING];
    }
    assert tokens == VaryTokens(variants);
  }

  /** The result is null exactly when no variant carries a media type, a language or an encoding. */
  lemma VaryHeaderNullIff(vs: seq<Variant>)
    ensures VaryHeader(vs) == None <==>
      forall i :: 0 <= i < |vs| ==> vs[i].mediaType.None? && vs[i].language.None? && vs[i].encoding.None?
  {
  }

  /** Only which variants occur matters: neither their order nor how often each occurs. */
  lemma {:induction false} VaryHeaderDependsOnlyOnMembers(vs: seq<Variant>, ws: seq<Variant>)
    requires forall v :: v in vs <==> v in ws
    ensures VaryHeader(vs) == VaryHeader(ws)
  {
    SameFlags(vs, ws);
    SameFlags(ws, vs);
  }

  /** The Vary header is a function of the three flags alone. */
  lemma VaryHeaderDependsOnlyOnFlags(vs: seq<Variant>, ws: seq<Variant>)
    requires AnyMediaType(vs) == AnyMediaType(ws)
    requires AnyLanguage(vs) == AnyLanguage(ws)
    requires AnyEncoding(vs) == AnyEncoding(ws)
    ensures VaryHeader(vs) == VaryHeader(ws)
  {
  }

  lemma SameFlags(vs: seq<Variant>, ws: seq<Variant>)
    requires forall v :: v in vs ==> v in ws
    ensures AnyMediaType(vs) ==> AnyMediaType(ws)
    ensures AnyLanguage(vs) ==> AnyLanguage(ws)
    ensures AnyEncoding(vs) ==> AnyEncoding(ws)
  {
    if AnyMediaType(vs) {
      var i :| 0 <= i < |vs| && vs[i].mediaType.Some?;
      assert vs[i] in ws;
    }
    if AnyLanguage(vs) {
      var i :| 0 <= i < |vs| && vs[i].language.Some?;
      assert vs[i] in ws;
    }
    if AnyEncoding(vs) {
      var i :| 0 <= i < |vs| && vs[i].encoding.Some?;
      assert vs[i] in ws;
    }
  }

  /** Position of a token in the fixed order Accept, Accept-Language, Accept-Encoding. */
  function Rank(token: string): int {
    if token == N.ACCEPT then 0
    else if token == N.ACCEPT_LANGUAGE then 1
    else if token == N.ACCEPT_ENCODING then 2
    else 3
  }

  /**
   * Each of the three tokens occurs exactly when its field is present in some
   * variant; tokens come in the fixed order, so none occurs twice.
   */
  lemma VaryTokensFixedOrder(vs: seq<Variant>)
    ensures N.ACCEPT in VaryTokens(vs) <==> AnyMediaType(vs)
    ensures N.ACCEPT_LANGUAGE in VaryTokens(vs) <==> AnyLanguage(vs)
    ensures N.ACCEPT_ENCODING in VaryTokens(vs) <==> AnyEncoding(vs)
    ensures forall i :: 0 <= i < |VaryTokens(vs)| ==> Rank(VaryTokens(vs)[i]) < 3
    ensures forall i, j :: 0 <= i < j < |VaryTokens(vs)| ==> Rank(VaryTokens(vs)[i]) < Rank(VaryTokens(vs)[j])
  {
  }

  /** The worked examples: no variants, a single media type, and all three fields spread out in reverse order. */
  lemma VaryHeaderExamples()
    ensures VaryHeader([]) == None
    ensures VaryHeader([Variant(Some(MediaType("text/plain")), None, None)]) == Some("Accept")
    ensures VaryHeader([Variant(None, None, Some("gzip")),
                        Variant(None, Some(Locale("en")), None),
                        Variant(Some(MediaType("text/plain")), None, None)])
         == Some(N.ACCEPT + ", " + N.ACCEPT_LANGUAGE + ", " + N.ACCEPT_ENCODING)
  {
    var vs := [Variant(None, None, Some("gzip")),
               Variant(None, Some(Locale("en")), None),
               Variant(Some(MediaType("text/plain")), None, None)];
    assert vs[2].mediaType.Some? && vs[1].language.Some? && vs[0].encoding.Some?;
    assert VaryTokens(vs) == [N.ACCEPT, N.ACCEPT_LANGUAGE, N.ACCEPT_ENCODING];
    JoinSnoc([N.ACCEPT], N.ACCEPT_LANGUAGE);
    JoinSnoc([N.ACCEPT, N.ACCEPT_LANGUAGE], N.ACCEPT_ENCODING);
    assert [N.ACCEPT] + [N.ACCEPT_LANGUAGE] == [N.ACCEPT, N.ACCEPT_LANGUAGE];
    assert [N.ACCEPT, N.ACCEPT_LANGUAGE] + [N.ACCEPT_ENCODING] == VaryTokens(vs);
    var one := [Variant(Some(MediaType("text/plain")), None, None)];
    assert one[0].mediaType.Some?;
  }

  // ---------------------------------------------------------------------
  // Location and Content-Location: resolving a relative URI
  // ---------------------------------------------------------------------

  /** Removes one leading "/", if there is one. */
  function StripLeadingSlash(path: string): (r: string)
    ensures "/" <= path ==> path == "/" + r
    ensures !("/" <= path) ==> r == path
  {
    if "/" <= path then path[1..] else path
  }

  /**
   * java.net.URI.resolve(String): the base URI resolved with a reference
   * given as text, or None when that text is not a valid URI and the call
   * throws IllegalArgumentException (a decoded path such as "a b" does so).
   */
  type Resolver = (Uri, string) -> Option<Uri>

  /**
   * The URI stored by `location` and `contentLocation`, or None when the
   * resolution throws: an absolute URI, or any URI when no request is in
   * scope, is kept as given; otherwise the path less one leading "/" is
   * resolved against the request's base URI.
   */
  function ResolveLocation(location: Uri, baseUri: Option<Uri>, resolve: Resolver): (r: Option<Uri>)
    ensures IsAbsolute(location) || baseUri.None? ==> r == Some(location)
    ensures !IsAbsolute(location) && baseUri.Some? && "/" <= location.path ==>
      r == resolve(baseUri.value, location.path[1..])
    ensures !IsAbsolute(location) && baseUri.Some? && !("/" <= location.path) ==>
      r == resolve(baseUri.value, location.path)
    ensures r.None? ==> !IsAbsolute(location) && baseUri.Some?
  {
    if !IsAbsolute(location) && baseUri.Some? then resolve(baseUri.value, StripLeadingSlash(location.path))
    else Some(location)
  }

  /**
   * Exactly one slash is removed: a path "//x" is resolved as "/x". Only the
   * path reaches `resolve`: the other components of the relative URI are dropped.
   */
  lemma {:induction false} ResolveStripsOneSlash(p: string, rest: string, base: Uri, resolve: Resolver)
    ensures ResolveLocation(Uri(None, "/" + p, rest), Some(base), resolve) == resolve(base, p)
    ensures ResolveLocation(Uri(None, "//" + p, rest), Some(base), resolve) == resolve(base, "/" + p)
  {
    assert ("/" + p)[1..] == p;
    assert ("//" + p)[1..] == "/" + p;
  }

  /** An absolute location is kept as given, whether or not a request is in scope. */
  lemma AbsoluteLocationKept(location: Uri, baseUri: Option<Uri>, resolve: Resolver)
    requires IsAbsolute(location)
    ensures ResolveLocation(location, baseUri, resolve) == Some(location)
  {
  }

  // ---------------------------------------------------------------------
  // The builder
  // ---------------------------------------------------------------------

  /** The values a cookie call adds under Set-Cookie. */
  function CookieValues(cs: seq<NewCookie>): (r: seq<Value>)
    ensures |r| == |cs| && forall i :: 0 <= i < |cs| ==> r[i] == CookieValue(cs[i])
  {
    seq(|cs|, i requires 0 <= i < |cs| => CookieValue(cs[i]))
  }

  /** What `variant` does to the headers: each non-null field replaces its header, a null one leaves it alone. */
  function ApplyVariant(m: Multimap, v: Variant): (r: Multimap)
    ensures v.mediaType.Some? ==> N.CONTENT_TYPE in r && r[N.CONTENT_TYPE] == [MediaTypeValue(v.mediaType.value)]
    ensures v.language.Some? ==> N.CONTENT_LANGUAGE in r && r[N.CONTENT_LANGUAGE] == [LocaleValue(v.language.value)]
    ensures v.encoding.Some? ==> N.CONTENT_ENCODING in r && r[N.CONTENT_ENCODING] == [Text(v.encoding.value)]
    ensures v.mediaType.None? ==> (N.CONTENT_TYPE in r <==> N.CONTENT_TYPE in m) && Values(r, N.CONTENT_TYPE) == Values(m, N.CONTENT_TYPE)
    ensures v.language.None? ==> (N.CONTENT_LANGUAGE in r <==> N.CONTENT_LANGUAGE in m) && Values(r, N.CONTENT_LANGUAGE) == Values(m, N.CONTENT_LANGUAGE)
    ensures v.encoding.None? ==> (N.CONTENT_ENCODING in r <==> N.CONTENT_ENCODING in m) && Values(r, N.CONTENT_ENCODING) == Values(m, N.CONTENT_ENCODING)
    ensures r - {N.CONTENT_TYPE, N.CONTENT_LANGUAGE, N.CONTENT_ENCODING} == m - {N.CONTENT_TYPE, N.CONTENT_LANGUAGE, N.CONTENT_ENCODING}
  {
    var m1 := if v.mediaType.Some? then PutSingle(m, N.CONTENT_TYPE, MediaTypeValue(v.mediaType.value)) else m;
    var m2 := if v.language.Some? then PutSingle(m1, N.CONTENT_LANGUAGE, LocaleValue(v.language.value)) else m1;
    if v.encoding.Some? then PutSingle(m2, N.CONTENT_ENCODING, Text(v.encoding.value)) else m2
  }

  class ResponseBuilder {
    var entity: Value
    var status: int32
    var metadata: Multimap
    var cookies: seq<NewCookie>

    /** A fresh builder: no entity, status 0, no headers, no cookies. */
    constructor ()
      ensures entity == Null && status == 0 && metadata == map[] && cookies == []
    {
      entity := Null;
      status := 0;
      metadata := map[];
      cookies := [];
    }

    /** The response: a null cookie array when no cookie was collected, else the collected cookies in order. */
    method Build() returns (r: Response)
      ensures r.entity == entity && r.status == status && r.metadata == metadata
      ensures r.cookies == None <==> cookies == []
      ensures r.cookies.Some? ==> r.cookies.value == cookies
    {
      var newCookies: Option<seq<NewCookie>> := None;
      if |cookies| > 0 {
        newCookies := Some(cookies);
      }
      r := Response(entity, status, metadata, newCookies);
    }

    /** A new builder with the same status, entity, header entries and cookies; this one is not touched. */
    method Clone() returns (c: ResponseBuilder)
      ensures fresh(c)
      ensures c.status == status && c.entity == entity && c.metadata == metadata && c.cookies == cookies
    {
      c := new ResponseBuilder();
      c.metadata := PutAll(c.metadata, metadata);
      c.entity := entity;
      c.cookies := c.cookies + cookies;
      c.status := status;
    }

    method Status(status: int32) returns (b: ResponseBuilder)
      modifies this`status
      ensures b == this && this.status == status
    {
      this.status := status;
      b := this;
    }

    method Entity(entity: Value) returns (b: ResponseBuilder)
      modifies this`entity
      ensures b == this && this.entity == entity
    {
      this.entity := entity;
      b := this;
    }

    method Type(t: MediaType) returns (b: ResponseBuilder)
      modifies this`metadata
      ensures b == this
      ensures metadata == PutSingle(old(metadata), N.CONTENT_TYPE, MediaTypeValue(t))
    {
      metadata := PutSingle(metadata, N.CONTENT_TYPE, MediaTypeValue(t));
      b := this;
    }

    method TypeText(t: string) returns (b: ResponseBuilder)
      modifies this`metadata
      ensures b == this
      ensures metadata == PutSingle(old(metadata), N.CONTENT_TYPE, Text(t))
    {
      metadata := PutSingle(metadata, N.CONTENT_TYPE, Text(t));
      b := this;
    }

    method Variant(v: Variant) returns (b: ResponseBuilder)
      modifies this`metadata
      ensures b == this
      ensures metadata == ApplyVariant(old(metadata), v)
    {
      var ignored: ResponseBuilder;
      if v.mediaType.Some? { ignored := Type(v.mediaType.value); }
      if v.language.Some? { ignored := LanguageLocale(v.language.value); }
      if v.encoding.Some? { metadata := PutSingle(metadata, N.CONTENT_ENCODING, Text(v.encoding.value)); }
      b := this;
    }

    method Variants(variants: seq<Variant>) returns (b: ResponseBuilder)
      modifies this`metadata
      ensures b == this
      ensures metadata == PutSingle(old(metadata), N.VARY, VaryValue(variants))
    {
      var vary := CreateVaryHeader(variants);
      metadata := PutSingle(metadata, N.VARY, if vary.Some? then Text(vary.value) else Null);
      b := this;
    }

    method Language(language: string) returns (b: ResponseBuilder)
      modifies this`metadata
      ensures b == this
      ensures metadata == PutSingle(old(metadata), N.CONTENT_LANGUAGE, Text(language))
    {
      metadata := PutSingle(metadata, N.CONTENT_LANGUAGE, Text(language));
      b := this;
    }

    method LanguageLocale(language: Locale) returns (b: ResponseBuilder)
      modifies this`metadata
      ensures b == this
      ensures metadata == PutSingle(old(metadata), N.CONTENT_LANGUAGE, LocaleValue(language))
    {
      metadata := PutSingle(metadata, N.CONTENT_LANGUAGE, LocaleValue(language));
      b := this;
    }

    /**
     * `baseUri` is the current request's base URI, None when no request is in
     * scope. The result is None, and no header is written, when the
     * resolution throws.
     */
    method Location(location: Uri, baseUri: Option<Uri>, resolve: Resolver) returns (b: Option<ResponseBuilder>)
      modifies this`metadata
      ensures b == if ResolveLocation(location, baseUri, resolve).Some? then Some(this) else None
      ensures metadata == match ResolveLocation(location, baseUri, resolve)
                          case Some(uri) => PutSingle(old(metadata), N.LOCATION, UriValue(uri))
                          case None => old(metadata)
    {
      var uri := location;
      if !IsAbsolute(location) && baseUri != None {
        var path := location.path;
        if "/" <= path { path := path[1..]; }
        var resolved := resolve(baseUri.value, path);
        if resolved == None {
          return None;
        }
        uri := resolved.value;
      }
      metadata := PutSingle(metadata, N.LOCATION, UriValue(uri));
      b := Some(this);
    }

    /** As `Location`, under Content-Location. */
    method ContentLocation(location: Uri, baseUri: Option<Uri>, resolve: Resolver) returns (b: Option<ResponseBuilder>)
      modifies this`metadata
      ensures b == if ResolveLocation(location, baseUri, resolve).Some? then Some(this) else None
      ensures metadata == match ResolveLocation(location, baseUri, resolve)
                          case Some(uri) => PutSingle(old(metadata), N.CONTENT_LOCATION, UriValue(uri))
                          case None => old(metadata)
    {
      var uri := location;
      if !IsAbsolute(location) && baseUri != None {
        var path := location.path;
        if "/" <= path { path := path[1..]; }
        var resolved := resolve(baseUri.value, path);
        if resolved == None {
          return None;
        }
        uri := resolved.value;
      }
      metadata := PutSingle(metadata, N.CONTENT_LOCATION, UriValue(uri));
      b := Some(this);
    }

    method Tag(tag: EntityTag) returns (b: ResponseBuilder)
      modifies this`metadata
      ensures b == this
      ensures metadata == PutSingle(old(metadata), N.ETAG, TagValue(tag))
    {
      metadata := PutSingle(metadata, N.ETAG, TagValue(tag));
      b := this;
    }

    method TagText(tag: string) returns (b: ResponseBuilder)
      modifies this`metadata
      ensures b == this
      ensures metadata == PutSingle(old(metadata), N.ETAG, Text(tag))
    {
      metadata := PutSingle(metadata, N.ETAG, Text(tag));
      b := this;
    }

    method LastModified(lastModified: Date) returns (b: ResponseBuilder)
      modifies this`metadata
      ensures b == this
      ensures metadata == PutSingle(old(metadata), N.LAST_MODIFIED, DateValue(lastModified))
    {
      metadata := PutSingle(metadata, N.LAST_MODIFIED, DateValue(lastModified));
      b := this;
    }

    method CacheControl(cacheControl: CacheControl) returns (b: ResponseBuilder)
      modifies this`metadata
      ensures b == this
      ensures metadata == PutSingle(old(metadata), N.CACHE_CONTROL, CacheControlValue(cacheControl))
    {
      metadata := PutSingle(metadata, N.CACHE_CONTROL, CacheControlValue(cacheControl));
      b := this;
    }

    method Header(name: string, value: Value) returns (b: ResponseBuilder)
      modifies this`metadata
      ensures b == this
      ensures metadata == PutSingle(old(metadata), name, value)
    {
      metadata := PutSingle(metadata, name, value);
      b := this;
    }

    /** Appends each cookie, in argument order, under Set-Cookie; the `cookies` field is not touched. */
    method Cookie(cs: seq<NewCookie>) returns (b: ResponseBuilder)
      modifies this`metadata
      ensures b == this
      ensures metadata == AddAll(old(metadata), N.SET_COOKIE, CookieValues(cs))
    {
      for i := 0 to |cs|
        invariant metadata == AddAll(old(metadata), N.SET_COOKIE, CookieValues(cs[..i]))
      {
        assert CookieValues(cs[..i + 1]) == CookieValues(cs[..i]) + [CookieValue(cs[i])];
        AddAllSnoc(old(metadata), N.SET_COOKIE, CookieValues(cs[..i]), CookieValue(cs[i]));
        metadata := Add(metadata, N.SET_COOKIE, CookieValue(cs[i]));
      }
      assert cs[..|cs|] == cs;
      b := this;
    }

    /** `format` stands for the RFC 822 date formatter. */
    method Expires(expires: Date, format: Date -> string) returns (b: ResponseBuilder)
      modifies this`metadata
      ensures b == this
      ensures metadata == PutSingle(old(metadata), N.EXPIRES, Text(format(expires)))
    {
      metadata := PutSingle(metadata, N.EXPIRES, Text(format(expires)));
      b := this;
    }
  }

  // ---------------------------------------------------------------------
  // Clients: what a caller can conclude from the contracts alone
  // ---------------------------------------------------------------------

  /** Calling `variants` twice keeps only the second Vary value. */
  method VariantsTwice(first: seq<Variant>, second: seq<Variant>) returns (r: Response)
    ensures r.metadata == map[N.VARY := [VaryValue(second)]]
    ensures r.status == 0 && r.entity == Null && r.cookies == None
  {
    var builder := new ResponseBuilder();
    builder := builder.Variants(first);
    builder := builder.Variants(second);
    r := builder.Build();
  }

  /** Cookies go to the Set-Cookie header only, so `build` still passes a null cookie array. */
  method CookiesThenBuild(cs: seq<NewCookie>, tag: EntityTag) returns (r: Response)
    ensures r.cookies == None
    ensures Values(r.metadata, N.SET_COOKIE) == CookieValues(cs)
    ensures N.ETAG in r.metadata && r.metadata[N.ETAG] == [TagValue(tag)]
  {
    var builder := new ResponseBuilder();
    builder := builder.Tag(tag);
    builder := builder.Cookie(cs);
    assert builder.metadata - {N.SET_COOKIE} == map[N.ETAG := [TagValue(tag)]] - {N.SET_COOKIE};
    assert N.ETAG in builder.metadata - {N.SET_COOKIE};
    r := builder.Build();
  }

  /** A clone sees the state at the time of cloning and is unaffected by later changes to the original. */
  method CloneThenChangeOriginal(entity: Value, first: MediaType, second: MediaType, status: int32)
    returns (original: Response, copy: Response)
    ensures copy.entity == original.entity == entity
    ensures copy.status == 0 && original.status == status
    ensures copy.metadata == map[N.CONTENT_TYPE := [MediaTypeValue(first)]]
    ensures original.metadata == map[N.CONTENT_TYPE := [MediaTypeValue(second)]]
  {
    var builder := new ResponseBuilder();
    builder := builder.Entity(entity);
    builder := builder.Type(first);
    var c := builder.Clone();
    builder := builder.Type(second);
    builder := builder.Status(status);
    original := builder.Build();
    copy := c.Build();
  }

  /**
   * Under the model's value semantics, a cookie added to the original after
   * cloning, or after building, reaches neither the clone nor the earlier
   * response. The Java builder does not promise this: its clone and its
   * response share the original's Set-Cookie list, so both would show c2 too.
   */
  method CookieAfterCloneAndBuild(c1: NewCookie, c2: NewCookie) returns (before: Response, copy: Response, after: Response)
    ensures Values(before.metadata, N.SET_COOKIE) == [CookieValue(c1)]
    ensures Values(copy.metadata, N.SET_COOKIE) == [CookieValue(c1)]
    ensures Values(after.metadata, N.SET_COOKIE) == [CookieValue(c1), CookieValue(c2)]
  {
    var builder := new ResponseBuilder();
    builder := builder.Cookie([c1]);
    before := builder.Build();
    var c := builder.Clone();
    builder := builder.Cookie([c2]);
    copy := c.Build();
    after := builder.Build();
  }

  /** A relative location with a leading slash is resolved against the base URI without that slash. */
  method RelativeLocation(p: string, rest: string, base: Uri, resolve: Resolver) returns (r: Option<Response>)
    ensures r == match resolve(base, p)
                 case Some(uri) => Some(Response(Null, 0, map[N.LOCATION := [UriValue(uri)]], None))
                 case None => None
  {
    var builder := new ResponseBuilder();
    ResolveStripsOneSlash(p, rest, base, resolve);
    var chained := builder.Location(Uri(None, "/" + p, rest), Some(base), resolve);
    if chained == None {
      return None;
    }
    var response := chained.value.Build();
    r := Some(response);
  }

  /** Without a request in scope any location is stored as given. */
  method LocationWithoutRequest(location: Uri, resolve: Resolver) returns (r: Response)
    ensures r.metadata == map[N.LOCATION := [UriValue(location)]]
  {
    var builder := new ResponseBuilder();
    var chained := builder.Location(location, None, resolve);
    r := chained.value.Build();
  }
}
