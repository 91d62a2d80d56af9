/** The search-and-select flow of the window: the search button rebuilds the result
    listbox from the answer to the query, and selecting an entry shows the details of
    the matching media entry. */
module Search {
  import opened Wrappers
  import opened Numerals
  import opened PyText
  import opened Media

  /** A message box: `showwarning` or `showinfo`, with its title and message. */
  datatype Dialog = Warning(title: string, message: string) | Notice(title: string, message: string)

  /** Indexing past the end of a list: Python's `IndexError`. */
  datatype LookupError = IndexError

  /** What the details view shows for an entry: the text of the details label and the
      URL of the cover it downloads. */
  datatype Shown = Shown(details: string, coverUrl: Value)

  /** What handling a selection event does. */
  datatype SelectOutcome =
    | NothingSelected             // `curselection()` is empty: nothing happens
    | Displayed(shown: Shown)     // the selected entry's details are shown
    | Failed(error: LookupError)  // the selected index is not in the list

  /** What pressing the search button does. */
  datatype SearchOutcome =
    | Rejected(warning: Dialog)              // blank query: a warning, no request
    | NoResults(query: string, notice: Dialog) // request sent, empty answer: a notice
    | Listed(query: string, first: SelectOutcome) // request sent, listbox rebuilt, first entry shown

  /** The listbox entry for the result at 0-based position `i`: `f"{i + 1}. {title}"`,
      where the title is chosen by the listing's own conditional expression. */
  function EntryLabel(i: nat, a: Anime): string
  {
    var title := if Truthy(a.title.english) then a.title.english else a.title.romaji;
    NatText(i + 1) + ". " + Str(OfText(title))
  }

  /** The details view of an entry. */
  function Present(a: Anime): Shown
  {
    Shown(DetailsText(a), CoverUrl(a))
  }

  /** `anime_list[index]` for a non-negative index (the listbox never selects a negative one). */
  function Lookup(list: seq<Anime>, index: nat): (r: Result<Anime, LookupError>)
    ensures r.Ok? <==> index < |list|
    ensures r.Ok? ==> r.value == list[index]
  {
    if index < |list| then Ok(list[index]) else Err(IndexError)
  }

  /** The list entry and the details view agree on the title: the entry, after its
      number, a dot and a space, shows exactly what the details show after "Title: ";
      and the number is the 1-based position. */
  lemma EntryMatchesDetails(i: nat, a: Anime)
    ensures |NatText(i + 1)| + 2 <= |EntryLabel(i, a)|
    ensures EntryLabel(i, a)[|NatText(i + 1)| + 2..] == DetailsLines(a)[0][|"Title: "|..]
    ensures ParseInt(EntryLabel(i, a)[..|NatText(i + 1)|]) == Some(i + 1)
  {
    var n := NatText(i + 1);
    var t := TitleText(a);
    assert EntryLabel(i, a) == n + ". " + t;
    DropPrefix(n + ". ", t);
    assert EntryLabel(i, a)[|n| + 2..] == t;
    TitleLine(a);
    DropPrefix("Title: ", t);
    assert EntryLabel(i, a)[..|n|] == n by {
      assert EntryLabel(i, a) == n + (". " + t);
    }
    ParseIntText(i + 1);
  }

  /** Dropping a prefix of a concatenation leaves the rest. */
  lemma DropPrefix(p: string, t: string)
    ensures (p + t)[|p|..] == t
  {
  }

  /** The result listbox, together with the result list its entries were built from. */
  class ResultList {
    /** The listbox's entries, top to bottom. */
    var entries: seq<string>
    /** The selected indices, in increasing order, as `curselection()` returns them. */
    var selection: seq<nat>
    /** The media list of the last search that listed anything. */
    var held: seq<Anime>

    /** Each entry is the label of the held result at its position, and the selection
        is an increasing list of positions of entries. */
    ghost predicate Valid()
      reads this
    {
      && |entries| == |held|
      && (forall k :: 0 <= k < |held| ==> entries[k] == EntryLabel(k, held[k]))
      && (forall k :: 0 <= k < |selection| ==> selection[k] < |entries|)
      && (forall k, l :: 0 <= k < l < |selection| ==> selection[k] < selection[l])
    }

    /** The empty listbox of a fresh window. */
    constructor ()
      ensures Valid() && entries == [] && selection == [] && held == []
    {
      entries, selection, held := [], [], [];
    }

    /** `on_select`: with nothing selected nothing happens; otherwise the first selected
        index is looked up in the held list and that entry's details are shown. */
    method OnSelect() returns (outcome: SelectOutcome)
      requires Valid()
      ensures selection == [] <==> outcome == NothingSelected
      ensures selection != [] ==> outcome == Displayed(Present(held[selection[0]]))
    {
      outcome := NothingSelected;
      if |selection| > 0 {
        var index := selection[0];
        var r := Lookup(held, index);
        match r
        case Ok(a) =>
          outcome := Displayed(Present(a));
        case Err(e) =>
          outcome := Failed(e);
      }
    }

    /** `on_select` as written: the first selected index is looked up in `answer`, the
        list the API returns when the search is run again with the entry's current text,
        rather than in the list the entries were built from. */
    method OnSelectRequery(answer: seq<Anime>) returns (outcome: SelectOutcome)
      requires Valid()
      ensures selection == [] ==> outcome == NothingSelected
      ensures selection != [] ==>
        outcome == if selection[0] < |answer| then Displayed(Present(answer[selection[0]]))
                   else Failed(IndexError)
    {
      outcome := NothingSelected;
      if |selection| > 0 {
        var index := selection[0];
        var r := Lookup(answer, index);
        match r
        case Ok(a) =>
          outcome := Displayed(Present(a));
        case Err(e) =>
          outcome := Failed(e);
      }
    }

    /** The user clicks entry `k`; in the listbox's default browse mode it becomes the
        only selected entry. */
    method Click(k: nat)
      requires Valid() && k < |entries|
      modifies this`selection
      ensures Valid() && selection == [k]
    {
      selection := [k];
    }

    /** `on_search`, given the text of the search entry and the media list the API answers
        for the stripped query. A blank query shows a warning and changes nothing; an empty
        answer shows a notice and changes nothing, the previous entries staying; otherwise
        the listbox is cleared and refilled with one numbered entry per result in the
        answer's order, the first entry is selected, and its details are shown. */
    method OnSearch(entry: string, response: seq<Anime>) returns (outcome: SearchOutcome)
      requires Valid()
      modifies this
      ensures Valid()
      ensures outcome.Rejected? <==> forall k :: 0 <= k < |entry| ==> IsSpace(entry[k])
      ensures Strip(entry) == "" ==>
        && outcome == Rejected(Warning("Input Error", "Please enter an anime title."))
        && unchanged(this)
      ensures Strip(entry) != "" && response == [] ==>
        && outcome == NoResults(Strip(entry),
             Notice("No Results", "No results found for \"" + Strip(entry) + "\"."))
        && unchanged(this)
      ensures Strip(entry) != "" && response != [] ==>
        && held == response
        && |entries| == |response|
        && (forall k :: 0 <= k < |response| ==> entries[k] == EntryLabel(k, response[k]))
        && selection == [0]
        && outcome == Listed(Strip(entry), Displayed(Present(response[0])))
    {
      StripEmpty(entry);
      var query := Strip(entry);
      if query == "" {
        outcome := Rejected(Warning("Input Error", "Please enter an anime title."));
        return;
      }
      var animeList := response;
      if animeList == [] {
        outcome := NoResults(query, Notice("No Results", "No results found for \"" + query + "\"."));
        return;
      }
      outcome := ListResults(query, animeList);
    }

    /** The listing part of `on_search`: clear the listbox, insert one numbered entry per
        result in order, select the first entry and handle the selection event it raises. */
    method ListResults(query: string, animeList: seq<Anime>) returns (outcome: SearchOutcome)
      requires animeList != []
      modifies this
      ensures Valid()
      ensures held == animeList
      ensures |entries| == |animeList|
      ensures forall k :: 0 <= k < |animeList| ==> entries[k] == EntryLabel(k, animeList[k])
      ensures selection == [0]
      ensures outcome == Listed(query, Displayed(Present(animeList[0])))
    {
      // delete(0, END) removes every entry, and the selection with them
      entries, selection := [], [];
      held := animeList;
      var i := 0;
      while i < |animeList|
        invariant 0 <= i <= |animeList|
        invariant |entries| == i
        invariant forall k :: 0 <= k < i ==> entries[k] == EntryLabel(k, animeList[k])
        invariant held == animeList && selection == []
      {
        var anime := animeList[i];
        var title := if Truthy(anime.title.english) then anime.title.english else anime.title.romaji;
        var line := NatText(i + 1) + ". " + Str(OfText(title));
        assert line == EntryLabel(i, animeList[i]);
        entries := entries + [line];
        i := i + 1;
      }
      // select_set(0) on the emptied selection
      selection := selection + [0];
      // event_generate("<<ListboxSelect>>") runs on_select at once
      var shown := OnSelect();
      outcome := Listed(query, shown);
    }
  }

  /** A search that lists results, then a search whose answer is empty, then a click on
      a listed entry. The entries of the first search are still on screen; the handler as
      written runs the second query again, gets the empty answer and fails with an
      IndexError, while resolving against the held list shows the clicked entry. */
  method StaleEntriesAfterNoResults(first: string, answer: seq<Anime>, second: string, k: nat)
    returns (asWritten: SelectOutcome, held: SelectOutcome)
    requires Strip(first) != "" && Strip(second) != "" && k < |answer|
    ensures asWritten == Failed(IndexError)
    ensures held == Displayed(Present(answer[k]))
  {
    var box := new ResultList();
    var o1 := box.OnSearch(first, answer);
    var o2 := box.OnSearch(second, []);
    box.Click(k);
    asWritten := box.OnSelectRequery([]);
    held := box.OnSelect();
  }

  /** A session: two searches in a row. When the second one lists nothing (blank query or
      empty answer), the entries, the selection and the held list of the first one stay. */
  method SearchTwice(first: string, answer: seq<Anime>, second: string, emptyAnswer: seq<Anime>)
    returns (box: ResultList)
    requires Strip(first) != "" && answer != []
    requires Strip(second) == "" || emptyAnswer == []
    ensures box.held == answer && box.selection == [0] && |box.entries| == |answer|
    ensures forall k :: 0 <= k < |answer| ==> box.entries[k] == EntryLabel(k, answer[k])
  {
    box := new ResultList();
    var o1 := box.OnSearch(first, answer);
    var o2 := box.OnSearch(second, emptyAnswer);
  }
}
