/** The upload form, src/components/documents/DocumentUpload.tsx: the
    chosen file and the error line, the upload mutation through the
    interceptors, and the message a failed upload shows. */
module DocumentUpload {
  import opened Common
  import opened ClientState
  import opened Api

  /** A chosen file; only its name is shown. */
  datatype File = File(name: string)

  datatype Form = Form(file: Option<File>, error: Option<string>)

  const Initial := Form(None, None)

  const UploadFailed := "Failed to upload document"

  /** The engine's message for reading `message` off `undefined` or `null`
      (V8 wording). */
  const ReadOffUndefined := "Cannot read properties of undefined (reading 'message')"
  const ReadOffNull := "Cannot read properties of null (reading 'message')"

  /** `handleFileChange`: the first chosen file replaces the old one and
      clears the error; an empty selection changes nothing. */
  function FileChange(f: Form, files: seq<File>): (r: Form)
    ensures files == [] ==> r == f
    ensures files != [] ==> r.file == Some(files[0]) && r.error.None?
  {
    if files == [] then f else Form(Some(files[0]), None)
  }

  /** The Clear button. */
  function Clear(f: Form): (r: Form)
    ensures r == Initial
  {
    Form(None, None)
  }

  /** The message a failed upload shows, as written:
      `(err.response?.data).message || 'Failed to upload document'`. The
      optional chain stops at `response`, so a missing response, or a
      `null` body, makes the handler itself throw a `TypeError`, and that
      error's message is what `onError` shows. */
  function ErrorMessageAsWritten(e: AxiosError): (m: string)
    ensures e.response.None? ==> m == ReadOffUndefined
    ensures e.response.Some? && e.response.value.body.NullBody? ==> m == ReadOffNull
    ensures e.response.Some? && e.response.value.body.ObjectBody? ==>
              m == (if Truthy(e.response.value.body.message) then e.response.value.body.message.value else UploadFailed)
  {
    match e.response
    case None => ReadOffUndefined
    case Some(resp) =>
      match resp.body
      case NullBody => ReadOffNull
      case ObjectBody(message) => if Truthy(message) then message.value else UploadFailed
  }

  /** The evident intent, `err.response?.data?.message || 'Failed to upload
      document'`: the server's non-empty message, otherwise the fallback. */
  function ErrorMessage(e: AxiosError): (m: string)
    ensures m == UploadFailed || (e.response.Some? && e.response.value.body.ObjectBody?
                                  && Truthy(e.response.value.body.message)
                                  && m == e.response.value.body.message.value)
  {
    match e.response
    case Some(HttpResponse(_, ObjectBody(Some(message)))) => if message != "" then message else UploadFailed
    case _ => UploadFailed
  }

  /** A network failure, which has no response, shows the engine's
      `TypeError` text instead of the fallback. */
  lemma NetworkFailureShowsTypeError()
    ensures ErrorMessageAsWritten(AxiosError(None)) == ReadOffUndefined
    ensures ErrorMessage(AxiosError(None)) == UploadFailed
    ensures ReadOffUndefined != UploadFailed
  {
  }

  /** The two agree whenever the server answered with an object body, and
      only then. */
  lemma AsWrittenAgreesOnObjectBodies(e: AxiosError)
    ensures ErrorMessageAsWritten(e) == ErrorMessage(e) <==> e.response.Some? && e.response.value.body.ObjectBody?
  {
    assert |ReadOffUndefined| != |UploadFailed| && |ReadOffNull| != |UploadFailed|;
    if e.response.Some? && e.response.value.body.ObjectBody? {
      var message := e.response.value.body.message;
      if message.Some? && message.value == "" {
        assert !Truthy(message);
      }
    }
  }

  /** The Upload button: nothing without a file. With one, the request goes
      through the interceptors; success invalidates `['documents']` and
      `['document-insights']`, resets the form and calls the parent's
      `onSuccess`; failure keeps the file and shows `message(error)`. The
      third component says whether `onSuccess` was called. */
  function UploadWith(c: Client, f: Form, reply: Reply<()>, message: AxiosError -> string): (r: (Client, Form, bool))
    ensures f.file.None? ==> r == (c, f, false)
    ensures f.file.Some? && reply.Ok? ==>
              && r.0 == c.(invalidated := c.invalidated + [DocumentsKey, DocumentInsightsKey])
              && r.1 == Initial && r.2
    ensures f.file.Some? && reply.Err? ==>
              && r.0 == OnResponseError(c, reply.error).0
              && r.1 == Form(f.file, Some(message(reply.error))) && !r.2
  {
    if f.file.None? then (c, f, false)
    else
      var (c1, settled) := Deliver(c, reply);
      match settled
      case Ok(_) => (c1.(invalidated := c1.invalidated + [DocumentsKey, DocumentInsightsKey]), Initial, true)
      case Err(e) => (c1, Form(f.file, Some(message(e))), false)
  }

  /** The upload as written. It sends and settles like the corrected one;
      the forms differ exactly when a failed upload's response has no
      object body, where the as-written one shows a `TypeError` text. */
  function UploadAsWritten(c: Client, f: Form, reply: Reply<()>): (r: (Client, Form, bool))
    ensures r.0 == Upload(c, f, reply).0 && r.2 == Upload(c, f, reply).2
    ensures r.1 == Upload(c, f, reply).1 <==>
              !(f.file.Some? && reply.Err? && !(reply.error.response.Some? && reply.error.response.value.body.ObjectBody?))
    ensures f.file.Some? && reply.Err? && reply.error.response.None? ==> r.1 == Form(f.file, Some(ReadOffUndefined))
  {
    if reply.Err? then
      AsWrittenAgreesOnObjectBodies(reply.error);
      UploadWith(c, f, reply, ErrorMessageAsWritten)
    else UploadWith(c, f, reply, ErrorMessageAsWritten)
  }

  /** The upload with the corrected message: a failure shows the server's
      non-empty message, and the fallback otherwise. */
  function Upload(c: Client, f: Form, reply: Reply<()>): (r: (Client, Form, bool))
    ensures f.file.None? ==> r == (c, f, false)
    ensures r.2 <==> f.file.Some? && reply.Ok?
    ensures f.file.Some? && reply.Ok? ==>
              r.1 == Initial && r.0.invalidated == c.invalidated + [DocumentsKey, DocumentInsightsKey]
    ensures f.file.Some? && reply.Err? ==>
              var resp := reply.error.response;
              r.1 == Form(f.file, Some(if resp.Some? && resp.value.body.ObjectBody? && Truthy(resp.value.body.message)
                                       then resp.value.body.message.value else UploadFailed))
  {
    UploadWith(c, f, reply, ErrorMessage)
  }

  /** The upload button is disabled without a file or while uploading. */
  predicate UploadDisabled(f: Form, isPending: bool) {
    f.file.None? || isPending
  }

  /** Uploading with no file chosen does nothing. */
  lemma NoFileNoRequest(c: Client, f: Form, reply: Reply<()>)
    requires f.file.None?
    ensures Upload(c, f, reply) == (c, f, false) && UploadAsWritten(c, f, reply) == (c, f, false)
  {
  }

  /** After a network failure the form as written shows the `TypeError`
      text; corrected, it shows the fallback. Either way the file stays. */
  lemma NetworkFailureAfterChoosingFile(c: Client, chosen: File)
    ensures var f := FileChange(Initial, [chosen]);
            && UploadAsWritten(c, f, Err(AxiosError(None))).1 == Form(Some(chosen), Some(ReadOffUndefined))
            && Upload(c, f, Err(AxiosError(None))).1 == Form(Some(chosen), Some(UploadFailed))
  {
  }

  /** Choosing a file and uploading it successfully leaves the form as it
      started, with both lists refetched. */
  lemma SuccessfulUploadResetsForm(c: Client, f: Form, chosen: File)
    ensures var (c1, f1, called) := Upload(c, FileChange(f, [chosen]), Ok(()));
            f1 == Initial && called && c1.invalidated == c.invalidated + [DocumentsKey, DocumentInsightsKey]
  {
  }
}
