/**
 * The pure decisions of lib/api.ts: cleaning a base64 argument of its data-URL
 * prefix, the request headers, turning the generation endpoint's response into
 * a GenerationResult, the local branch of uriToBase64 and the health test.
 * The HTTP exchange itself is an input: what `fetch` resolved to, or the
 * message it (or a temp-file write before it) threw.
 */
module Api {
  import opened Types

  const DefaultGenerateError: string := "Failed to generate look"
  const NoImageError: string := "No image returned from server"
  const PngDataUrlPrefix: string := "data:image/png;base64,"
  const AuthorizationHeader: string := "Authorization"

  /** The fields the client reads from a parsed JSON body; None stands for absent, null or undefined. */
  datatype JsonBody = JsonBody(error: Option<string>, image: Option<string>, status: Option<string>)

  /** JSON.parse of the body text: a body, or the SyntaxError it throws. */
  datatype Parse = Parsed(body: JsonBody) | SyntaxError(message: string)

  /** A resolved `fetch`: `response.ok`, the body text, and that text parsed as JSON. */
  datatype HttpResponse = HttpResponse(ok: bool, text: string, json: Parse)

  /** What the request came to: a response, or an Error thrown with `message`. */
  datatype FetchOutcome = Responded(response: HttpResponse) | Threw(message: string)

  /** JavaScript truthiness of an optional string field. */
  predicate Truthy(field: Option<string>)
  {
    field.Some? && field.value != ""
  }

  /** `message || 'Failed to generate look'` */
  function OrDefault(message: string): (r: string)
    ensures r != ""
    ensures message != "" ==> r == message
    ensures message == "" ==> r == DefaultGenerateError
  {
    if message != "" then message else DefaultGenerateError
  }

  // ---------------------------------------------------------------------
  // String.prototype.indexOf / split for a one-character separator
  // ---------------------------------------------------------------------

  /** The index of the first `c` in `s` at or after `k`, or |s| when there is none. */
  function IndexFrom(s: string, c: char, k: nat): (i: nat)
    requires k <= |s|
    ensures k <= i <= |s|
    ensures forall j :: k <= j < i ==> s[j] != c
    ensures i < |s| ==> s[i] == c
    decreases |s| - k
  {
    if k == |s| then k
    else if s[k] == c then k
    else IndexFrom(s, c, k + 1)
  }

  /** s.indexOf(c), with |s| standing for "none". */
  function IndexOf(s: string, c: char): (i: nat)
    ensures i <= |s|
    ensures forall j :: 0 <= j < i ==> s[j] != c
    ensures i < |s| ==> s[i] == c
  {
    IndexFrom(s, c, 0)
  }

  /** The search finds nothing exactly when the character does not occur. */
  lemma IndexOfAbsent(s: string, c: char)
    ensures IndexOf(s, c) == |s| <==> c !in s
  {
    var i := IndexOf(s, c);
    if i < |s| {
      assert s[i] == c;
    } else {
      assert forall j :: 0 <= j < |s| ==> s[j] != c;
    }
  }

  /** The pieces of s[k..] between separators. */
  function SplitFrom(s: string, sep: char, k: nat): (parts: seq<string>)
    requires k <= |s|
    ensures |parts| >= 1
    ensures |parts| == 1 <==> IndexFrom(s, sep, k) == |s|
    ensures forall p :: 0 <= p < |parts| ==> sep !in parts[p]
    decreases |s| - k
  {
    var i := IndexFrom(s, sep, k);
    if i == |s| then [s[k..]] else [s[k..i]] + SplitFrom(s, sep, i + 1)
  }

  /** s.split(sep): the pieces between separators, never fewer than one. */
  function Split(s: string, sep: char): (parts: seq<string>)
    ensures |parts| >= 1
    ensures |parts| == 1 <==> sep !in s
    ensures forall p :: 0 <= p < |parts| ==> sep !in parts[p]
  {
    IndexOfAbsent(s, sep);
    SplitFrom(s, sep, 0)
  }

  /** parts.join(sep) */
  function Join(parts: seq<string>, sep: char): string
  {
    if parts == [] then ""
    else if |parts| == 1 then parts[0]
    else parts[0] + [sep] + Join(parts[1..], sep)
  }

  /** Joining the pieces again gives back the string. */
  lemma SplitJoin(s: string, sep: char)
    ensures Join(Split(s, sep), sep) == s
  {
    SplitFromJoin(s, sep, 0);
    assert s[0..] == s;
  }

  lemma {:induction false} SplitFromJoin(s: string, sep: char, k: nat)
    requires k <= |s|
    ensures Join(SplitFrom(s, sep, k), sep) == s[k..]
    decreases |s| - k
  {
    var i := IndexFrom(s, sep, k);
    if i < |s| {
      SplitFromJoin(s, sep, i + 1);
      JoinStep(s, k, i, sep, SplitFrom(s, sep, k), SplitFrom(s, sep, i + 1));
    }
  }

  /** One separator step of the round trip: a piece, the separator, and the joined rest. */
  lemma JoinStep(s: string, k: nat, i: nat, sep: char, parts: seq<string>, tail: seq<string>)
    requires k <= i < |s| && s[i] == sep
    requires tail != [] && Join(tail, sep) == s[i + 1..]
    requires parts == [s[k..i]] + tail
    ensures Join(parts, sep) == s[k..]
  {
    JoinCons(s[k..i], tail, sep);
    Around(s, k, i, sep);
  }

  /** Cutting s[k..] at a position and putting the character back. */
  lemma Around(s: string, k: nat, i: nat, c: char)
    requires k <= i < |s| && s[i] == c
    ensures s[k..i] + [c] + s[i + 1..] == s[k..]
  {
  }

  lemma JoinCons(piece: string, parts: seq<string>, sep: char)
    requires parts != []
    ensures Join([piece] + parts, sep) == piece + [sep] + Join(parts, sep)
  {
    assert ([piece] + parts)[1..] == parts;
  }

  /** The second piece of a split runs from after the first separator to the next one or the end. */
  lemma SplitSecondPiece(s: string, sep: char)
    requires sep in s
    ensures var i := IndexOf(s, sep); Split(s, sep)[1] == s[i + 1..IndexFrom(s, sep, i + 1)]
  {
    IndexOfAbsent(s, sep);
    var i := IndexOf(s, sep);
    assert SplitFrom(s, sep, 0) == [s[0..i]] + SplitFrom(s, sep, i + 1);
  }

  /** When `a` has no `c`, the first `c` of a + [c] + b is the one after `a`. */
  lemma IndexOfAfter(a: string, c: char, b: string)
    requires c !in a
    ensures IndexOf(a + [c] + b, c) == |a|
  {
    var s := a + [c] + b;
    assert s[|a|] == c;
    assert forall j :: 0 <= j < |a| ==> s[j] == a[j];
  }

  // ---------------------------------------------------------------------
  // generateLook
  // ---------------------------------------------------------------------

  /** `b64.includes(',') ? b64.split(',')[1] : b64` */
  function CleanBase64(b64: string): (r: string)
    ensures ',' !in b64 ==> r == b64
    ensures ',' in b64 ==> var i := IndexOf(b64, ','); r == b64[i + 1..IndexFrom(b64, ',', i + 1)]
    ensures ',' !in r
  {
    if ',' in b64 then
      SplitSecondPiece(b64, ',');
      Split(b64, ',')[1]
    else
      b64
  }

  /** Stripping the prefix of a built data URL recovers the comma-free payload. */
  lemma CleanBase64RecoversPayload(payload: string)
    requires ',' !in payload
    ensures CleanBase64(PngDataUrlPrefix + payload) == payload
  {
    var head := "data:image/png;base64";
    assert PngDataUrlPrefix + payload == head + [','] + payload;
    IndexOfAfter(head, ',', payload);
  }

  /**
   * The `headers` object filled in place: the bearer token when `authToken`
   * is truthy, nothing otherwise.
   */
  method BuildHeaders(authToken: Option<string>) returns (headers: map<string, string>)
    ensures AuthorizationHeader in headers <==> Truthy(authToken)
    ensures headers.Keys <= {AuthorizationHeader}
    ensures AuthorizationHeader in headers ==> headers[AuthorizationHeader] == "Bearer " + authToken.value
  {
    headers := map[];
    if authToken.Some? && authToken.value != "" {
      headers := headers[AuthorizationHeader := "Bearer " + authToken.value];
    }
  }

  /** The error message a non-OK response is rejected with. */
  function FailureMessage(response: HttpResponse): (message: string)
    ensures message != ""
    ensures response.json.Parsed? && Truthy(response.json.body.error) ==> message == response.json.body.error.value
    ensures response.json.SyntaxError? && response.text != "" ==> message == response.text
    ensures message == DefaultGenerateError <==>
              match response.json
              case Parsed(body) => !Truthy(body.error) || body.error.value == DefaultGenerateError
              case SyntaxError(_) => response.text == "" || response.text == DefaultGenerateError
  {
    match response.json
    case Parsed(body) => if Truthy(body.error) then body.error.value else DefaultGenerateError
    case SyntaxError(_) => OrDefault(response.text)
  }

  /**
   * generateLook from the request onwards: every throw inside the `try` is
   * caught and becomes `{ success: false, error }`.
   */
  method GenerateLookResult(outcome: FetchOutcome) returns (result: GenerationResult)
    ensures result.success ==> result.error.None? && result.image.Some?
    ensures !result.success ==> result.image.None? && result.error.Some? && result.error.value != ""
    ensures result.success <==>
              outcome.Responded? && outcome.response.ok && outcome.response.json.Parsed?
              && Truthy(outcome.response.json.body.image)
    ensures result.success ==> result.image.value == PngDataUrlPrefix + outcome.response.json.body.image.value
    ensures result.success && ',' !in outcome.response.json.body.image.value ==>
              CleanBase64(result.image.value) == outcome.response.json.body.image.value
    ensures outcome.Responded? && !outcome.response.ok ==> result.error == Some(FailureMessage(outcome.response))
    ensures (outcome.Responded? && outcome.response.ok && outcome.response.json.Parsed?
             && !Truthy(outcome.response.json.body.image)) ==> result.error == Some(NoImageError)
    ensures outcome.Responded? && outcome.response.ok && outcome.response.json.SyntaxError? ==>
              result.error == Some(OrDefault(outcome.response.json.message))
    ensures outcome.Threw? ==> result.error == Some(OrDefault(outcome.message))
  {
    var thrown: Option<string> := None;  // the message of the Error the `catch` receives
    match outcome {
      case Threw(message) =>
        thrown := Some(message);
      case Responded(response) =>
        if !response.ok {
          var errorText := response.text;
          var errorData: JsonBody;
          match response.json {
            case Parsed(body) =>
              errorData := body;
            case SyntaxError(_) =>
              errorData := JsonBody(Some(if errorText != "" then errorText else DefaultGenerateError), None, None);
          }
          thrown := Some(if Truthy(errorData.error) then errorData.error.value else DefaultGenerateError);
        } else {
          match response.json {
            case SyntaxError(message) =>
              thrown := Some(message);
            case Parsed(data) =>
              if !Truthy(data.image) {
                thrown := Some(NoImageError);
              } else {
                if ',' !in data.image.value {
                  CleanBase64RecoversPayload(data.image.value);
                }
                return GenerationResult(true, Some(PngDataUrlPrefix + data.image.value), None);
              }
          }
        }
    }
    result := GenerationResult(false, None, Some(if thrown.value != "" then thrown.value else DefaultGenerateError));
  }

  // ---------------------------------------------------------------------
  // uriToBase64 and checkHealth
  // ---------------------------------------------------------------------

  /** Where uriToBase64 gets its base64 from. */
  datatype Base64Source =
    | Inline(payload: Option<string>)   // a data: URI; None is `undefined`
    | ReadLocalFile                     // file://, ph://, assets-library://
    | FetchRemote                       // anything else

  predicate StartsWith(s: string, prefix: string)
  {
    |prefix| <= |s| && s[..|prefix|] == prefix
  }

  /** uriToBase64's choice of branch; the data: branch needs no I/O. */
  function UriToBase64Source(uri: string): (r: Base64Source)
    ensures r.Inline? <==> StartsWith(uri, "data:")
    ensures r.ReadLocalFile? <==>
              (!StartsWith(uri, "data:")
               && (StartsWith(uri, "file://") || StartsWith(uri, "ph://") || StartsWith(uri, "assets-library://")))
    ensures r.Inline? ==> (r.payload.Some? <==> ',' in uri)
    ensures r.Inline? && ',' in uri ==>
              var i := IndexOf(uri, ','); r.payload == Some(uri[i + 1..IndexFrom(uri, ',', i + 1)])
  {
    if StartsWith(uri, "data:") then
      var parts := Split(uri, ',');
      assert ',' in uri ==> parts[1] == CleanBase64(uri);
      Inline(if |parts| > 1 then Some(parts[1]) else None)
    else if StartsWith(uri, "file://") || StartsWith(uri, "ph://") || StartsWith(uri, "assets-library://") then
      ReadLocalFile
    else
      FetchRemote
  }

  /** The inline branch agrees with the prefix cleaning of generateLook. */
  lemma InlinePayloadIsCleaned(uri: string)
    requires StartsWith(uri, "data:") && ',' in uri
    ensures UriToBase64Source(uri) == Inline(Some(CleanBase64(uri)))
  {
  }

  /** checkHealth: `data.status === 'ok'`; a throw anywhere reads as false, the HTTP status is not looked at. */
  function CheckHealth(outcome: FetchOutcome): (healthy: bool)
    ensures healthy ==> outcome.Responded? && outcome.response.json.Parsed?
    ensures outcome.Responded? && outcome.response.json.Parsed? ==>
              (healthy <==> outcome.response.json.body.status == Some("ok"))
  {
    match outcome
    case Threw(_) => false
    case Responded(response) =>
      match response.json
      case Parsed(data) => data.status == Some("ok")
      case SyntaxError(_) => false
  }
}
