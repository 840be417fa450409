/** The conventional Some/None datatype, standing for a Java reference that may be null. */
module Wrappers {
  datatype Option<+T> = None | Some(value: T)
}

/**
 * The JAX-RS value types that the response builder stores but never looks
 * into. Each is kept as an opaque value carrying its textual form; only
 * equality matters to the builder.
 */
module JaxRs {
  import opened Wrappers

  /** Java's `int`, the type of the response status. */
  newtype int32 = x: int | -0x8000_0000 <= x < 0x8000_0000

  datatype MediaType = MediaType(text: string)
  datatype Locale = Locale(tag: string)
  datatype EntityTag = EntityTag(value: string, weak: bool)
  datatype CacheControl = CacheControl(directives: string)
  datatype Date = Date(millis: int)
  datatype NewCookie = NewCookie(name: string, value: string)

  /**
   * A java.net.URI. `scheme` is None for a relative reference; `path` is the
   * decoded path component (defined for every relative reference, possibly
   * empty); `rest` holds the remaining components as text.
   */
  datatype Uri = Uri(scheme: Option<string>, path: string, rest: string)

  /** java.net.URI.isAbsolute: a URI is absolute exactly when it has a scheme. */
  predicate IsAbsolute(u: Uri) {
    u.scheme.Some?
  }

  /** A content-negotiation variant: each of its three fields may be null. */
  datatype Variant = Variant(mediaType: Option<MediaType>, language: Option<Locale>, encoding: Option<string>)

  /**
   * An `Object` stored as a header value or as the entity. `Null` is Java's
   * null; `Obj` is any other object, identified by its reference.
   */
  datatype Value =
    | Null
    | Text(s: string)
    | MediaTypeValue(mediaType: MediaType)
    | LocaleValue(locale: Locale)
    | TagValue(tag: EntityTag)
    | DateValue(date: Date)
    | CacheControlValue(cacheControl: CacheControl)
    | UriValue(uri: Uri)
    | CookieValue(cookie: NewCookie)
    | Obj(ref: nat)
}
