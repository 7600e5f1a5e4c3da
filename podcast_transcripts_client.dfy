/**
 The client transcript model: the two calls of the `PodcastTranscripts` object. The HTTP
 exchange itself is not modelled; its outcome, the status flag and what the JSON decoding
 produced, is an input, and the model decides whether the call returns the body or throws,
 and with which message.
 */
module PodcastTranscriptsClient {
  import opened JsValues

  const ResetFallback := "Unable to reset podcast transcript storage."
  const UploadFallback := "Unable to upload podcast transcripts."

  /**
   The parts of a decoded JSON object the client reads: the truthiness of `success` and the
   `error` field; the other fields (the uploaded `files`, say) are kept opaque, as `rest`.
   */
  datatype Body = Body(success: bool, error: Option<string>, rest: map<string, string>)

  /**
   What `response.json()` produced. `NoObject` stands for a rejected decoding (replaced by
   `{}`) and for a decoded `null` or primitive, on which `data?.success` and `data?.error`
   are undefined just as on `{}`.
   */
  datatype Parsed = NoObject | Object(body: Body)

  /** The response as the client sees it: `response.ok` and the decoded body. */
  datatype Response = Response(ok: bool, parsed: Parsed)

  /** One `formData.append(field, file)` entry. */
  datatype FormEntry = FormEntry(field: string, file: File)

  /** The object the client falls back to: `{}`, whose `success` and `error` are undefined. */
  const EmptyObject := Body(false, None, map[])

  function Data(parsed: Parsed): Body {
    match parsed
    case NoObject => EmptyObject
    case Object(body) => body
  }

  /**
   The decision shared by `reset` and `upload`: the call returns the decoded body only when
   the status is ok AND the body is an object whose `success` is truthy; otherwise it throws
   the body's `error` when that is truthy and `fallback` when not.
   */
  function Accept(response: Response, fallback: string): (r: Result<Body>)
    ensures r.Ok? <==> response.ok && response.parsed.Object? && response.parsed.body.success
    ensures r.Ok? ==> response.parsed == Object(r.value)
    ensures r.Err? && response.parsed.Object? && Truthy(response.parsed.body.error) ==>
              r.message == response.parsed.body.error.value
    ensures r.Err? && !(response.parsed.Object? && Truthy(response.parsed.body.error)) ==>
              r.message == fallback
  {
    var data := Data(response.parsed);
    if !response.ok || !data.success then Err(OrElse(data.error, fallback)) else Ok(data)
  }

  /** `PodcastTranscripts.reset()`, given the response to its POST. */
  function Reset(response: Response): (r: Result<Body>)
    ensures r == Accept(response, ResetFallback)
    ensures !response.ok ==> r.Err?
    ensures r.Ok? ==> response.parsed == Object(r.value) && r.value.success
    ensures r.Err? ==> r.message != ""
    ensures r.Err? ==> r.message == ResetFallback || (response.parsed.Object? && Some(r.message) == response.parsed.body.error)
  {
    Accept(response, ResetFallback)
  }

  /**
   `PodcastTranscripts.upload(files)`, given the response to its POST: the multipart body
   has one entry named `files` per file, in order (an omitted argument is the empty list),
   and the outcome is decided as for `reset` with the upload fallback.
   */
  method Upload(files: Option<seq<File>>, response: Response) returns (form: seq<FormEntry>, r: Result<Body>)
    ensures var list := if files.Some? then files.value else [];
              |form| == |list| && forall i :: 0 <= i < |list| ==> form[i] == FormEntry("files", list[i])
    ensures r == Accept(response, UploadFallback)
    ensures !response.ok ==> r.Err?
    ensures r.Ok? ==> response.parsed == Object(r.value) && r.value.success
    ensures r.Err? ==> r.message != ""
    ensures r.Err? ==> r.message == UploadFallback || (response.parsed.Object? && Some(r.message) == response.parsed.body.error)
  {
    var list := if files.Some? then files.value else [];
    form := [];
    var i := 0;
    while i < |list|
      invariant 0 <= i <= |list|
      invariant |form| == i && forall j :: 0 <= j < i ==> form[j] == FormEntry("files", list[j])
    {
      form := form + [FormEntry("files", list[i])];
      i := i + 1;
    }
    r := Accept(response, UploadFallback);
  }
}
