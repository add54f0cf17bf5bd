/** Canonical identifiers of cloud resources. */
module Ids {
  import opened Text

  /** The URN form (RFC 4122, section 3) is the longest text that is read as a UUID. */
  const MAX_UUID_TEXT := 45

  /** UUID parsing (RFC 4122, section 3) as a canonicalising function, and name-based identifiers
      (section 4.3) as a function into canonical identifiers. */
  datatype RawScheme = Scheme(parse: string -> Option<string>, named: string -> string)

  ghost predicate Canonical(s: RawScheme) {
    && (forall raw: string :: s.parse(raw).Some? ==>
          var u := s.parse(raw).value;
          u != "" && Trimmed(u) && s.parse(u) == Some(u))
    && (forall raw: string :: |raw| > MAX_UUID_TEXT ==> s.parse(raw).None?)
    && (forall name: string :: s.parse(s.named(name)) == Some(s.named(name)))
  }

  type IdScheme = s: RawScheme | Canonical(s)
    ghost witness Scheme(raw => if raw == "u" then Some("u") else None, name => "u")

  /** `parseCloudInstanceUUID`. */
  function CloudUuid(ids: IdScheme, raw: string): (r: Option<string>)
    ensures r.Some? ==> r.value != "" && Trimmed(r.value) && CanonOf(ids, r.value)
  {
    var t := Trim(raw);
    if t == "" then None else ids.parse(t)
  }

  /** u is its own canonical form. */
  predicate CanonOf(ids: IdScheme, u: string) {
    u != "" && Trimmed(u) && ids.parse(u) == Some(u)
  }

  /** `middlewareCMDBUUID`: total on non-blank instance ids. */
  function MiddlewareUuid(ids: IdScheme, instanceId: string): (r: Option<string>)
    ensures r.Some? <==> Inked(instanceId)
    ensures r.Some? ==> CanonOf(ids, r.value)
    ensures CloudUuid(ids, instanceId).Some? ==> r == CloudUuid(ids, instanceId)
  {
    var t := Trim(instanceId);
    if t == "" then None
    else if ids.parse(t).Some? then ids.parse(t)
    else Some(ids.named(t))
  }

  /** A canonical uuid parses to itself, so writing it and reading it back changes nothing. */
  lemma CanonRoundTrip(ids: IdScheme, u: string)
    requires CanonOf(ids, u)
    ensures CloudUuid(ids, u) == Some(u) && MiddlewareUuid(ids, u) == Some(u)
  {}
}
