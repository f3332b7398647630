/** The search panel, src/components/documents/SearchDocuments.tsx: the
    search mutation, whose function swallows request errors and turns them
    into a message and an empty result list, and the state the panel shows. */
module SearchDocuments {
  import opened Common
  import opened ClientState
  import opened Api

  /** The fields of a hit the panel uses; `keywords` is absent when the
      metadata has none. */
  datatype Hit = Hit(id: string, title: string, excerpt: string, keywords: Option<seq<string>>)

  datatype SearchType = Hybrid | Semantic | Keyword

  /** `error` is a string; the empty string shows nothing. `isSuccess` is the
      mutation's success flag, which drives the "No results found" line. */
  datatype Panel = Panel(
    searchTerm: string,
    searchType: SearchType,
    results: seq<Hit>,
    error: string,
    isPending: bool,
    isSuccess: bool)

  const RateLimited := "Rate limit exceeded. Please try again later."
  const SearchFailed := "An error occurred while searching."
  const MaxKeywords := 5

  const Initial := Panel("", Hybrid, [], "", false, false)

  /** The message for a failed search request: a 429 is rate limiting,
      anything else, a missing response included, is generic. */
  function ErrorMessage(e: AxiosError): (m: string)
    ensures m == RateLimited <==> HasStatus(e, 429)
    ensures m == SearchFailed <==> !HasStatus(e, 429)
  {
    if HasStatus(e, 429) then RateLimited else SearchFailed
  }

  /** What one run of the mutation function does: the value it resolves
      with, the error text it writes (`None` when it leaves the error
      alone), and the number of requests it sends. It never rejects. */
  datatype Run = Run(client: Client, value: seq<Hit>, errorWrite: Option<string>, requests: nat)

  function MutationFn(c: Client, term: string, reply: Reply<seq<Hit>>): (r: Run)
    ensures term == "" ==> r == Run(c, [], None, 0)
    ensures term != "" ==> r.requests == 1 && r.client == Deliver(c, reply).0
    ensures term != "" && reply.Ok? ==> r.value == reply.data && r.errorWrite == Some("")
    ensures term != "" && reply.Err? ==> r.value == [] && r.errorWrite == Some(ErrorMessage(reply.error))
  {
    if term == "" then Run(c, [], None, 0)
    else
      var (c1, settled) := Deliver(c, reply);
      match settled
      case Ok(hits) => Run(c1, hits, Some(""), 1)
      case Err(e) => Run(c1, [], Some(ErrorMessage(e)), 1)
  }

  /** The mutation settles: its function has run and `onSuccess` stores
      the value as the results. */
  function Mutate(p: Panel, c: Client, reply: Reply<seq<Hit>>): (r: (Client, Panel))
    ensures !r.1.isPending && r.1.isSuccess
    ensures r.1.searchTerm == p.searchTerm && r.1.searchType == p.searchType
    ensures r.1.results == MutationFn(c, p.searchTerm, reply).value
    ensures r.1.error == (match MutationFn(c, p.searchTerm, reply).errorWrite case Some(m) => m case None => p.error)
    ensures r.0 == MutationFn(c, p.searchTerm, reply).client
  {
    var run := MutationFn(c, p.searchTerm, reply);
    (run.client, p.(results := run.value,
                    error := match run.errorWrite case Some(m) => m case None => p.error,
                    isPending := false, isSuccess := true))
  }

  /** The submit button is disabled with an empty term or a search in flight. */
  predicate SubmitDisabled(p: Panel) {
    p.searchTerm == "" || p.isPending
  }

  /** `handleSearch`: an empty term does not start the mutation at all. */
  function HandleSearch(p: Panel, c: Client, reply: Reply<seq<Hit>>): (r: (Client, Panel))
    ensures p.searchTerm == "" ==> r == (c, p)
    ensures p.searchTerm != "" ==> r == Mutate(p, c, reply)
  {
    if p.searchTerm == "" then (c, p) else Mutate(p, c, reply)
  }

  /** An empty term sends nothing and keeps the previous results; the
      mutation function's own empty-term guard is never reached this way. */
  lemma EmptyTermChangesNothing(p: Panel, c: Client, reply: Reply<seq<Hit>>)
    requires p.searchTerm == ""
    ensures HandleSearch(p, c, reply) == (c, p)
    ensures MutationFn(c, p.searchTerm, reply).requests == 0
  {
  }

  /** A search either shows its hits with no error, or shows no hits and
      exactly one of the two messages. */
  lemma SearchOutcomes(p: Panel, c: Client, reply: Reply<seq<Hit>>)
    requires p.searchTerm != ""
    ensures var q := HandleSearch(p, c, reply).1;
            || (reply.Ok? && q.results == reply.data && q.error == "")
            || (reply.Err? && q.results == [] && (q.error == RateLimited || q.error == SearchFailed))
  {
  }

  /** A failed search is still a successful mutation, so the panel shows
      the error and "No results found" together. */
  lemma FailedSearchShowsNoResultsLine(p: Panel, c: Client, e: AxiosError)
    requires p.searchTerm != ""
    ensures var q := HandleSearch(p, c, Err(e)).1;
            NoResultsLine(q) && q.error != ""
  {
  }

  /** "No results found" shows after a settled search with an empty list. */
  predicate NoResultsLine(p: Panel) {
    p.results == [] && p.isSuccess
  }

  /** A search rejected with 401 also signs the tab out; the panel's state
      is the one shown until the load of `/login` replaces the page. */
  lemma UnauthorisedSearchSignsOut(p: Panel, c: Client, e: AxiosError)
    requires p.searchTerm != "" && HasStatus(e, 401)
    ensures var (c1, q) := HandleSearch(p, c, Err(e));
            c1.token.None? && c1.location == "/login" && q.error == SearchFailed
  {
  }

  /** The keyword chips on a hit: at most the first five, in order. */
  function HitKeywords(h: Hit): (r: Option<seq<string>>)
    ensures r.None? <==> h.keywords.None?
    ensures r.Some? ==> r.value <= h.keywords.value
    ensures r.Some? ==> |r.value| == if |h.keywords.value| < MaxKeywords then |h.keywords.value| else MaxKeywords
    ensures r.Some? && |h.keywords.value| <= MaxKeywords ==> r.value == h.keywords.value
  {
    match h.keywords
    case None => None
    case Some(ks) => Some(Take(ks, MaxKeywords))
  }
}
