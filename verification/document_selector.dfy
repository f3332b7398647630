/** The chat's document picker, src/components/rag/DocumentSelector.tsx:
    the list it loads, the search filter over titles, and the selection
    edits it hands back to its parent (toggle one, select all, clear). The
    selection itself and the open flag belong to the parent. */
module DocumentSelector {
  import opened Common
  import opened ClientState

  /** The fields of a document the picker uses. */
  datatype Document = Document(id: int, title: string)

  /** The picker's own state. */
  datatype Selector = Selector(documents: seq<Document>, loading: bool, searchTerm: string, error: Option<string>)

  /** What the parent holds for the picker: whether it is open and the ids
      of the selected documents. */
  datatype Picker = Picker(isOpen: bool, selected: seq<int>)

  const LoadFailed := "Failed to load documents"

  const Initial := Selector([], false, "", None)

  /** Opening the picker starts a load: loading, with the error cleared. */
  function StartLoad(s: Selector): (r: Selector)
    ensures r.loading && r.error.None?
    ensures r.documents == s.documents && r.searchTerm == s.searchTerm
  {
    s.(loading := true, error := None)
  }

  /** The load settles: the list is replaced on an `ok` response; a non-`ok`
      response and a thrown error both keep the old list and set the error.
      Loading ends either way. */
  function FinishLoad(s: Selector, outcome: FetchOutcome<seq<Document>>): (r: Selector)
    ensures !r.loading && r.searchTerm == s.searchTerm
    ensures r.error.None? <==> outcome.Fetched? && s.error.None?
    ensures outcome.Fetched? ==> r.documents == outcome.data
    ensures !outcome.Fetched? ==> r.documents == s.documents && r.error == Some(LoadFailed)
  {
    match outcome
    case Fetched(docs) => s.(documents := docs, loading := false)
    case _ => s.(loading := false, error := Some(LoadFailed))
  }

  /** A document matches when its lower-cased title contains the
      lower-cased search term. */
  predicate MatchesTerm(d: Document, term: string) {
    Includes(Lower(d.title), Lower(term))
  }

  function MatchesTermTest(term: string): Document -> bool {
    d => MatchesTerm(d, term)
  }

  /** `filteredDocuments`: the matching documents, in list order, each as
      often as it occurs in the list; an empty term keeps every document. */
  function Filtered(docs: seq<Document>, term: string): (r: seq<Document>)
    ensures forall d :: d in r <==> d in docs && MatchesTerm(d, term)
    ensures forall d :: multiset(r)[d] == if MatchesTerm(d, term) then multiset(docs)[d] else 0
    ensures IsSubsequence(r, docs)
    ensures term == "" ==> r == docs
  {
    FilterIsSubsequence(docs, MatchesTermTest(term));
    FilterCounts(docs, MatchesTermTest(term));
    if term == "" then
      forall k | 0 <= k < |docs|
        ensures MatchesTermTest(term)(docs[k])
      {
        assert Lower(term) == "";
        IncludesEmpty(Lower(docs[k].title));
      }
      FilterKeepsAll(docs, MatchesTermTest(term));
      Filter(docs, MatchesTermTest(term))
    else
      Filter(docs, MatchesTermTest(term))
  }

  /** The search ignores the case of the term. */
  lemma FilterIgnoresTermCase(docs: seq<Document>, term: string)
    ensures Filtered(docs, term) == Filtered(docs, Lower(term))
  {
    LowerIdempotent(term);
    if term != "" {
      FilterExtensional(docs, MatchesTermTest(term), MatchesTermTest(Lower(term)));
    }
  }

  /** Keeps every id other than `id`. */
  function OtherThan(id: int): int -> bool {
    x => x != id
  }

  /** `handleDocumentToggle`: a selected id is removed, every occurrence of
      it; an unselected id is appended at the end. Membership of `id` flips
      and nothing else changes membership. */
  function Toggle(selected: seq<int>, id: int): (r: seq<int>)
    ensures (id in r) <==> (id !in selected)
    ensures forall x :: x != id ==> (x in r <==> x in selected)
    ensures id in selected ==> IsSubsequence(r, selected) && |r| < |selected|
    ensures id in selected ==> forall x :: multiset(r)[x] == if x == id then 0 else multiset(selected)[x]
    ensures id !in selected ==> |r| == |selected| + 1 && r[..|selected|] == selected && r[|selected|] == id
  {
    if id in selected then
      FilterIsSubsequence(selected, OtherThan(id));
      FilterCounts(selected, OtherThan(id));
      var r := Filter(selected, OtherThan(id));
      assert |r| < |selected| by {
        FilterShrinksWhenDropping(selected, OtherThan(id), id);
      }
      r
    else
      selected + [id]
  }

  /** A filter that drops some element shortens the array. */
  lemma {:induction false} FilterShrinksWhenDropping(xs: seq<int>, keep: int -> bool, y: int)
    requires y in xs && !keep(y)
    ensures |Filter(xs, keep)| < |xs|
    decreases |xs|
  {
    if xs[0] != y {
      FilterShrinksWhenDropping(xs[1..], keep, y);
    }
  }

  /** Toggling an unselected id twice restores the selection. */
  lemma ToggleTwiceRestores(selected: seq<int>, id: int)
    requires id !in selected
    ensures Toggle(Toggle(selected, id), id) == selected
  {
    FilterAppend(selected, [id], OtherThan(id));
    FilterKeepsAll(selected, OtherThan(id));
  }

  /** Toggling a selected id twice moves it to the end and drops its other
      occurrences: the selection is not restored. */
  lemma ToggleTwiceOnSelectedReorders()
    ensures Toggle(Toggle([1, 2], 1), 1) == [2, 1]
  {
    assert Toggle([1, 2], 1) == [2];
  }

  /** Toggling never introduces a duplicate into a duplicate-free selection. */
  lemma ToggleKeepsDistinct(selected: seq<int>, id: int)
    requires Distinct(selected)
    ensures Distinct(Toggle(selected, id))
  {
    if id in selected {
      FilterKeepsDistinct(selected, OtherThan(id));
    }
  }

  /** The ids of `docs`, in order. */
  function Ids(docs: seq<Document>): (r: seq<int>)
    ensures |r| == |docs|
    ensures forall k :: 0 <= k < |docs| ==> r[k] == docs[k].id
  {
    seq(|docs|, k requires 0 <= k < |docs| => docs[k].id)
  }

  /** `handleSelectAll`: when as many ids are selected as documents are
      shown, the selection is cleared; otherwise it becomes the shown
      documents' ids in list order. Only the two lengths are compared. */
  function SelectAll(selected: seq<int>, shown: seq<Document>): (r: seq<int>)
    ensures r == [] <==> |selected| == |shown| || shown == []
    ensures |selected| != |shown| ==> |r| == |shown| && forall k :: 0 <= k < |shown| ==> r[k] == shown[k].id
  {
    if |selected| == |shown| then [] else Ids(shown)
  }

  /** The select-all button's caption, which compares the same two lengths. */
  function SelectAllCaption(selected: seq<int>, shown: seq<Document>): string {
    if |selected| == |shown| then "Deselect All" else "Select All"
  }

  /** Pressing the button clears the selection exactly when it reads
      "Deselect All" or when nothing is shown. */
  lemma CaptionMatchesAction(selected: seq<int>, shown: seq<Document>)
    ensures SelectAllCaption(selected, shown) == "Deselect All" || shown == [] <==> SelectAll(selected, shown) == []
  {
  }

  /** With a search that matches nothing and some ids selected, the button
      reads "Select All" and pressing it clears the selection. */
  lemma SelectAllOnEmptyResultClears()
    ensures SelectAllCaption([7], []) == "Select All"
    ensures SelectAll([7], []) == []
  {
  }

  /** Pressing select-all twice clears the selection when the first press
      selected. */
  lemma SelectAllTwiceClears(selected: seq<int>, shown: seq<Document>)
    requires |selected| != |shown|
    ensures SelectAll(SelectAll(selected, shown), shown) == []
  {
  }

  /** Because only lengths are compared, a selection of one unrelated id
      against one shown document is "deselected" rather than replaced. */
  lemma SelectAllComparesLengthsOnly()
    ensures SelectAll([7], [Document(1, "a")]) == []
    ensures 1 !in [7]
  {
  }

  /** `handleSelectNone`: the selection becomes empty, the picker stays as it is. */
  function SelectNone(p: Picker): (r: Picker)
    ensures r.selected == [] && r.isOpen == p.isOpen
  {
    p.(selected := [])
  }

  /** `handleApply`, and likewise Cancel and the close button: the picker
      closes and the selection is whatever the edits made it. */
  function Apply(p: Picker): (r: Picker)
    ensures !r.isOpen && r.selected == p.selected
  {
    p.(isOpen := false)
  }

  /** The footer line: with nothing selected every document is searched. */
  function SelectionSummary(selected: seq<int>): (r: string)
    ensures selected == [] <==> r == "All documents will be searched"
    ensures selected != [] ==>
              var digits := |NatToString(|selected|)|;
              && |r| > digits && r[..digits] == NatToString(|selected|)
              && ParseDigits(r[..digits]) == |selected|
              && r[digits..] == if |selected| == 1 then " document selected" else " documents selected"
  {
    if selected == [] then "All documents will be searched"
    else
      var digits := NatToString(|selected|);
      var rest := if |selected| == 1 then " document selected" else " documents selected";
      assert CountLabel(|selected|, "document") + " selected" == digits + rest;
      NatToStringRoundTrip(|selected|);
      assert (digits + rest)[..|digits|] == digits;
      CountLabel(|selected|, "document") + " selected"
  }
}
