/** The document list, src/components/documents/DocumentList.tsx: the
    keyword preview on each card, and the viewer and delete-confirmation
    state around the delete mutation. */
module DocumentList {
  import opened Common
  import opened ClientState
  import opened Api

  /** The fields of a listed document the list uses; `keywords` is absent
      when the metadata has none. */
  datatype Document = Document(id: string, title: string, keywords: Option<seq<string>>)

  const PreviewLength := 3

  /** The chips on a card: the first keywords, and `+N more` when some are hidden. */
  datatype KeywordPreview = KeywordPreview(shown: seq<string>, more: Option<nat>)

  /** `keywords.slice(0, 3)` and the `+{length - 3} more` chip. Absent
      keywords show no preview; an empty list shows an empty one. */
  function Preview(d: Document): (r: Option<KeywordPreview>)
    ensures r.None? <==> d.keywords.None?
    ensures r.Some? ==> var ks := d.keywords.value;
                        && r.value.shown <= ks
                        && |r.value.shown| == (if |ks| < PreviewLength then |ks| else PreviewLength)
                        && (r.value.more.Some? <==> |ks| > PreviewLength)
                        && (r.value.more.Some? ==> r.value.more.value == |ks| - PreviewLength)
  {
    match d.keywords
    case None => None
    case Some(ks) =>
      Some(KeywordPreview(Take(ks, PreviewLength), if |ks| > PreviewLength then Some(|ks| - PreviewLength) else None))
  }

  /** The preview accounts for every keyword: the chips shown plus the
      hidden count make up the whole list, and the chips are all of it
      when nothing is hidden. */
  lemma PreviewAccountsForAll(d: Document)
    requires d.keywords.Some?
    ensures var p := Preview(d).value;
            var ks := d.keywords.value;
            && |p.shown| + (if p.more.Some? then p.more.value else 0) == |ks|
            && (p.more.None? ==> p.shown == ks)
  {
  }

  /** The list's view state: the document open in the viewer and the one
      waiting for delete confirmation. */
  datatype ListView = ListView(selectedDocument: Option<Document>, documentToDelete: Option<Document>)

  const Initial := ListView(None, None)

  /** Clicking a card opens it in the viewer. */
  function ClickCard(v: ListView, d: Document): (r: ListView)
    ensures r.selectedDocument == Some(d) && r.documentToDelete == v.documentToDelete
  {
    v.(selectedDocument := Some(d))
  }

  /** Clicking a card's delete icon asks for confirmation; the click does
      not reach the card, so the viewer is left as it was. */
  function ClickDelete(v: ListView, d: Document): (r: ListView)
    ensures r.documentToDelete == Some(d) && r.selectedDocument == v.selectedDocument
  {
    v.(documentToDelete := Some(d))
  }

  /** Cancel clears the pending deletion without any request. */
  function Cancel(v: ListView): (r: ListView)
    ensures r.documentToDelete.None? && r.selectedDocument == v.selectedDocument
  {
    v.(documentToDelete := None)
  }

  /** Close shuts the viewer. */
  function CloseViewer(v: ListView): (r: ListView)
    ensures r.selectedDocument.None? && r.documentToDelete == v.documentToDelete
  {
    v.(selectedDocument := None)
  }

  /** Confirm sends `DELETE /api/v1/documents/{id}` for the pending
      document, through the interceptors. Success invalidates `['documents']`
      and clears the pending deletion; a failure leaves the dialog open.
      With nothing pending there is no dialog to confirm. The third
      component is the id a request was sent for. */
  function Confirm(c: Client, v: ListView, reply: Reply<()>): (r: (Client, ListView, Option<string>))
    ensures v.documentToDelete.None? ==> r == (c, v, None)
    ensures v.documentToDelete.Some? ==> r.2 == Some(v.documentToDelete.value.id)
    ensures v.documentToDelete.Some? && reply.Ok? ==>
              && r.0 == c.(invalidated := c.invalidated + [DocumentsKey])
              && r.1 == v.(documentToDelete := None)
    ensures v.documentToDelete.Some? && reply.Err? ==> r.0 == OnResponseError(c, reply.error).0 && r.1 == v
    ensures r.1.selectedDocument == v.selectedDocument
  {
    match v.documentToDelete
    case None => (c, v, None)
    case Some(d) =>
      var (c1, settled) := Deliver(c, reply);
      match settled
      case Ok(_) => (c1.(invalidated := c1.invalidated + [DocumentsKey]), v.(documentToDelete := None), Some(d.id))
      case Err(_) => (c1, v, Some(d.id))
  }

  /** Asking to delete and then cancelling returns to the same view; asking
      and then confirming successfully does too, with the list refetched. */
  lemma DeleteDialogRoundTrips(c: Client, v: ListView, d: Document)
    requires v.documentToDelete.None?
    ensures Cancel(ClickDelete(v, d)) == v
    ensures var (c1, v1, sent) := Confirm(c, ClickDelete(v, d), Ok(()));
            v1 == v && sent == Some(d.id) && c1.invalidated == c.invalidated + [DocumentsKey]
  {
  }

  /** A delete answered with 401 signs the tab out and sends it to
      `/login`; the dialog stays as it was until that page load replaces it. */
  lemma UnauthorisedDeleteSignsOut(c: Client, v: ListView, e: AxiosError)
    requires v.documentToDelete.Some? && HasStatus(e, 401)
    ensures var (c1, v1, _) := Confirm(c, v, Err(e));
            v1 == v && c1.token.None? && c1.location == "/login" && c1.invalidated == c.invalidated
  {
  }
}
