/** The field validators shared by the GraphQL mutations
    (graphql/src/mutation/validators.rs). The `url` crate's parser is a
    parameter: only what the validator reads from its result is modelled. */
module Validators {
  import opened Common

  /** A character allowed in an identifier. */
  predicate IdentifierChar(c: char) {
    IsAsciiAlphanumeric(c) || c == '_'
  }

  /** `validators::identifier`: every character is an ASCII letter, an ASCII
      digit or an underscore; the empty string qualifies vacuously. */
  function Identifier(raw: string): (r: bool)
    ensures r <==> forall i :: 0 <= i < |raw| ==> IdentifierChar(raw[i])
  {
    if raw == [] then true
    else Identifier(raw[..|raw| - 1]) && IdentifierChar(raw[|raw| - 1])
  }

  /** The parts of a parsed URL the validator looks at. */
  datatype ParsedUrl = ParsedUrl(scheme: string, hasAuthority: bool)

  /** `Url::parse`: `None` when the text is not a URL. */
  type UrlParser = string -> Option<ParsedUrl>

  predicate WebScheme(scheme: string) {
    scheme == "http" || scheme == "https"
  }

  /** `validators::url`: the text parses, its scheme is http or https and it
      has an authority. */
  function Url(raw: string, parse: UrlParser): (r: bool)
    ensures parse(raw).None? ==> !r
    ensures r <==> parse(raw).Some? && WebScheme(parse(raw).value.scheme) && parse(raw).value.hasAuthority
  {
    match parse(raw)
    case None => false
    case Some(url) => WebScheme(url.scheme) && url.hasAuthority
  }

  /** A concatenation is an identifier exactly when both of its parts are. */
  lemma {:induction false} IdentifierConcat(a: string, b: string)
    ensures Identifier(a + b) <==> Identifier(a) && Identifier(b)
  {
    if b == [] {
      assert a + b == a;
    } else {
      assert (a + b)[..|a + b| - 1] == a + b[..|b| - 1];
      IdentifierConcat(a, b[..|b| - 1]);
    }
  }
}
