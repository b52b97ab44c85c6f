/** The pure type logic of a fragment: the supported-type allowlist, the
    `isSupportedType` check, and the `mimeType`, `isText` and `formats`
    getters, all functions of the fragment's Content-Type value. */
module FragmentType {
  import opened Wrappers
  import opened FragmentErrors
  import ContentType

  /** The six base types a fragment may have. */
  const SupportedTypes: seq<string> :=
    ["text/plain", "text/html", "text/markdown", "application/json", "image/jpeg", "image/png"]

  const TextTypes: seq<string> := ["text/plain", "text/html", "text/markdown"]

  /** `Fragment.isSupportedType(value)`: whether the base type of `value` is
      on the allowlist. An unparsable value is an error, as the parser throws. */
  function IsSupportedType(value: string): Result<bool, Error> {
    match ContentType.Parse(value)
    case None => Err(InvalidMediaType(value))
    case Some(base) => Ok(base in SupportedTypes)
  }

  /** A Content-Type value that a fragment may be constructed with. */
  predicate IsSupported(value: string) {
    IsSupportedType(value) == Ok(true)
  }

  /** The `mimeType` getter: the value's base type, parameters removed. */
  function MimeType(value: string): (r: string)
    requires IsSupported(value)
    ensures r in SupportedTypes
    ensures ';' !in r
  {
    ContentType.Parse(value).value
  }

  /** The `isText` getter, on a base type. */
  predicate IsText(base: string) {
    |base| >= 5 && base[..5] == "text/"
  }

  /** The `formats` getter, on a base type: the types the fragment's data may
      be converted to, the base type itself first. */
  function Formats(base: string): (r: seq<string>)
    ensures |r| >= 1 && r[0] == base
    ensures forall i, j :: 0 <= i < j < |r| ==> r[i] != r[j]
  {
    if base == "text/plain" then ["text/plain"]
    else if base == "text/html" then ["text/html", "text/plain"]
    else if base == "text/markdown" then ["text/markdown", "text/html", "text/plain"]
    else if base == "application/json" then ["application/json"]
    else if base == "image/jpeg" then ["image/jpeg", "image/png", "image/webp"]
    else if base == "image/png" then ["image/png", "image/jpeg", "image/webp"]
    else [base]
  }

  /** Every allowlisted type is accepted, with or without parameters, and its
      mime type is itself: "text/html; charset=utf-8" has mime type "text/html". */
  lemma {:induction false} SupportedTypesAccepted(b: string, params: string)
    requires b in SupportedTypes
    ensures IsSupported(b) && MimeType(b) == b
    ensures IsSupported(b + ";" + params) && MimeType(b + ";" + params) == b
  {
    AllowlistIsMediaType(b);
    ContentType.ParseBase(b);
    ContentType.ParseStripsParameters(b, params);
    ContentType.LowerOfLower(b);
  }

  lemma AllowlistIsMediaType(b: string)
    requires b in SupportedTypes
    ensures ContentType.IsMediaType(b) && ContentType.IsLower(b)
  {
    if b == "text/plain" { TypeOf(b, "text", "plain"); }
    else if b == "text/html" { TypeOf(b, "text", "html"); }
    else if b == "text/markdown" { TypeOf(b, "text", "markdown"); }
    else if b == "application/json" { TypeOf(b, "application", "json"); }
    else if b == "image/jpeg" { TypeOf(b, "image", "jpeg"); }
    else { TypeOf(b, "image", "png"); }
  }

  /** A well-formed lower-case media type outside the allowlist is answered
      with `false`, not with an error. */
  lemma {:induction false} UnlistedIsUnsupported(b: string)
    requires ContentType.IsMediaType(b) && ContentType.IsLower(b) && b !in SupportedTypes
    ensures IsSupportedType(b) == Ok(false)
  {
    ContentType.ParseBase(b);
    ContentType.LowerOfLower(b);
  }

  /** Split, with its premises about the two tokens checked on their own. */
  lemma TypeOf(b: string, t: string, sub: string)
    requires b == t + "/" + sub
    requires t in ["text", "application", "image"]
    requires sub in ["plain", "html", "markdown", "json", "jpeg", "png", "xml"]
    ensures ContentType.IsMediaType(b) && ContentType.IsLower(b)
  {
    TokenWords(t);
    TokenWords(sub);
    Split(b, t, sub);
  }

  lemma TokenWords(w: string)
    requires w in ["text", "application", "image", "plain", "html", "markdown", "json", "jpeg", "png", "xml"]
    ensures ContentType.IsToken(w) && ContentType.IsLower(w)
  {
    forall i | 0 <= i < |w| ensures 'a' <= w[i] <= 'z' {
    }
  }

  lemma Split(b: string, t: string, sub: string)
    requires b == t + "/" + sub
    requires ContentType.IsToken(t) && ContentType.IsToken(sub)
    requires ContentType.IsLower(t) && ContentType.IsLower(sub)
    ensures ContentType.IsMediaType(b) && ContentType.IsLower(b)
  {
    SlashSplit(t, sub);
    assert forall i :: 0 <= i < |b| ==> b[i] == '/' || b[i] in t || b[i] in sub;
  }

  lemma SlashSplit(t: string, sub: string)
    requires ContentType.IsToken(t) && ContentType.IsToken(sub)
    ensures ContentType.IsMediaType(t + "/" + sub)
  {
    var m := t + "/" + sub;
    assert m == t + ("/" + sub);
    SlashIndex(t, "/" + sub);
    assert m[..|t|] == t && m[|t| + 1..] == sub;
  }

  lemma SlashIndex(a: string, b: string)
    requires ContentType.IsToken(a) && |b| > 0 && b[0] == '/'
    ensures ContentType.IndexOf(a + b, '/') == Some(|a|)
  {
    ContentType.IndexOfAfterPrefix(a, b, '/');
  }

  /** The mime type of a supported value is itself supported, and is its own
      mime type: the `isSupportedType(mimeType)` check always passes. */
  lemma {:induction false} MimeTypeIsSupported(value: string)
    requires IsSupported(value)
    ensures IsSupported(MimeType(value)) && MimeType(MimeType(value)) == MimeType(value)
  {
    ContentType.ParseIdempotent(value);
  }

  /** Among the supported types, `isText` holds exactly of the three text types. */
  lemma TextTypesAreTheTextOnes(b: string)
    requires b in SupportedTypes
    ensures IsText(b) <==> b in TextTypes
  {
    if b in TextTypes {
      assert b[..5] == "text/";
    } else {
      assert b[0] != 't';
    }
  }

  /** A text type converts to itself and to the text types before it in
      TextTypes (markdown to html to plain), to nothing else. */
  lemma TextFormatsAreLowerTextTypes(j: nat, k: nat)
    requires j < |TextTypes| && k < |TextTypes|
    ensures TextTypes[j] in Formats(TextTypes[k]) <==> j <= k
    ensures forall f :: f in Formats(TextTypes[k]) ==> f in TextTypes
  {
  }

  /** jpeg and png convert to themselves, then to each other, then to webp. */
  lemma ImageFormats()
    ensures Formats("image/jpeg") == ["image/jpeg"] + ["image/png", "image/webp"]
    ensures Formats("image/png") == ["image/png"] + ["image/jpeg", "image/webp"]
  {
  }

  /** Converting a supported type to one of its formats and on to one of
      that format's formats is one of the first type's formats, and never
      turns text into non-text or back. */
  lemma FormatsClosed(b: string, f: string, g: string)
    requires b in SupportedTypes && f in Formats(b) && g in Formats(f)
    ensures g in Formats(b)
    ensures f in SupportedTypes || f == "image/webp"
    ensures IsText(f) <==> IsText(b)
  {
  }
}
