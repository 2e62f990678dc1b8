/** The add-species dialog: open/closed, the form, and the Wikipedia pre-fill search. */
module AddSpeciesDialog {
  import opened Optional
  import opened Text
  import opened Records
  import opened SpeciesSchema
  import opened Wikipedia

  /** The row the dialog asks the backend to insert. */
  datatype NewSpecies = NewSpecies(author: string, fields: SpeciesInput)

  const InsertFailedTitle := "Something went wrong."
  const AddedTitle := "New species added!"
  const NoArticleTitle := "No article found"
  const NoArticleDescription :=
    "No Wikipedia article matched your search. Try a different scientific or common name."
  const LoadedTitle := "Wikipedia data loaded"
  const LoadedDescription := "Description and image have been filled from Wikipedia."
  const SearchFailedTitle := "Search failed"
  const SearchFailedDescription := "Could not reach Wikipedia. Please try again."

  /** The toast for the insert's outcome. */
  function InsertToast(input: SpeciesInput, error: Option<string>): (t: Toast)
    ensures t.destructive <==> error.Some?
    ensures error.Some? ==> t.title == InsertFailedTitle && t.description == error.value
    ensures error.None? ==> t.title == AddedTitle
                            && t.description == "Successfully added " + input.scientificName + "."
  {
    match error
    case Some(message) => Toast(InsertFailedTitle, message, true)
    case None => Toast(AddedTitle, "Successfully added " + input.scientificName + ".", false)
  }

  /** The toast for a completed Wikipedia lookup. */
  function LookupToast(result: Lookup): (t: Toast)
    ensures t.destructive <==> !result.Article?
    ensures result.Article? ==> t.title == LoadedTitle && t.description == LoadedDescription
    ensures result.NoArticle? ==> t.title == NoArticleTitle && t.description == NoArticleDescription
    ensures result.LookupThrew? ==> t.title == SearchFailedTitle && t.description == SearchFailedDescription
  {
    match result
    case LookupThrew => Toast(SearchFailedTitle, SearchFailedDescription, true)
    case NoArticle => Toast(NoArticleTitle, NoArticleDescription, true)
    case Article(_, _) => Toast(LoadedTitle, LoadedDescription, false)
  }

  /** The form after a lookup: an article's extract replaces the description, a non-empty thumbnail the image. */
  function ApplyLookup(form: FormValues, result: Lookup): (r: FormValues)
    ensures !result.Article? ==> r == form
    ensures result.Article? ==> r.description == Some(result.extract)
    ensures result.Article? && result.thumbnailUrl.Some? && result.thumbnailUrl.value != [] ==>
      r.image == result.thumbnailUrl
    ensures !(result.Article? && result.thumbnailUrl.Some? && result.thumbnailUrl.value != []) ==>
      r.image == form.image
    ensures r.scientificName == form.scientificName && r.commonName == form.commonName
            && r.kingdom == form.kingdom && r.totalPopulation == form.totalPopulation
            && r.endangered == form.endangered
  {
    match result
    case Article(extract, thumbnailUrl) =>
      var withDescription := form.(description := Some(extract));
      if thumbnailUrl.Some? && thumbnailUrl.value != [] then withDescription.(image := thumbnailUrl)
      else withDescription
    case _ => form
  }

  /** The dialog component's state. */
  class Dialog {
    const userId: string
    var open: bool
    var wikiSearchQuery: string
    var wikiSearching: bool
    var form: FormValues

    constructor (userId: string)
      ensures this.userId == userId
      ensures !open && wikiSearchQuery == [] && !wikiSearching && form == DefaultValues()
    {
      this.userId := userId;
      open, wikiSearchQuery, wikiSearching := false, [], false;
      form := DefaultValues();
    }

    /** The dialog's trigger, Cancel button and close gesture. */
    method SetOpen(value: bool)
      modifies this
      ensures open == value
      ensures form == old(form) && wikiSearchQuery == old(wikiSearchQuery) && wikiSearching == old(wikiSearching)
    {
      open := value;
    }

    /** Typing into a form field (a whole new set of raw values). */
    method EditForm(values: FormValues)
      modifies this
      ensures form == values
      ensures open == old(open) && wikiSearchQuery == old(wikiSearchQuery) && wikiSearching == old(wikiSearching)
    {
      form := values;
    }

    /** Typing into the Wikipedia search box. */
    method SetWikiSearchQuery(query: string)
      modifies this
      ensures wikiSearchQuery == query
      ensures open == old(open) && form == old(form) && wikiSearching == old(wikiSearching)
    {
      wikiSearchQuery := query;
    }

    /**
     * `onSubmit`, with the backend's answer to the insert given as `error`:
     * on failure nothing changes; on success the form is reset and the dialog closes.
     */
    method OnSubmit(input: SpeciesInput, error: Option<string>) returns (row: NewSpecies, toast: Toast)
      modifies this
      ensures row == NewSpecies(userId, input)
      ensures toast == InsertToast(input, error)
      ensures error.Some? ==> open == old(open) && form == old(form)
      ensures error.None? ==> !open && form == DefaultValues()
      ensures wikiSearchQuery == old(wikiSearchQuery) && wikiSearching == old(wikiSearching)
    {
      row := NewSpecies(userId, input);
      if error.Some? {
        toast := InsertToast(input, error);
        return;
      }
      form := DefaultValues();
      open := false;
      toast := InsertToast(input, error);
    }

    /**
     * The form's submit: the schema runs on the current values; only a form it
     * accepts reaches `onSubmit` and the backend.
     */
    method Submit(isUrl: string -> bool, error: Option<string>)
      returns (row: Option<NewSpecies>, toast: Option<Toast>, fieldErrors: set<Field>)
      modifies this
      ensures fieldErrors == FieldErrors(old(form), isUrl)
      ensures fieldErrors != {} ==> row.None? && toast.None? && open == old(open) && form == old(form)
      ensures fieldErrors == {} ==>
        var input := ValidateForm(old(form), isUrl).value;
        && row == Some(NewSpecies(userId, input))
        && toast == Some(InsertToast(input, error))
        && (error.Some? ==> open == old(open) && form == old(form))
        && (error.None? ==> !open && form == DefaultValues())
      ensures wikiSearchQuery == old(wikiSearchQuery) && wikiSearching == old(wikiSearching)
    {
      match ValidateForm(form, isUrl)
      case Failure(errors) =>
        row, toast, fieldErrors := None, None, errors;
      case Success(input) =>
        var inserted, t := OnSubmit(input, error);
        row, toast, fieldErrors := Some(inserted), Some(t), {};
    }

    /** `handleWikipediaSearch` up to the `await`: a blank query does nothing, otherwise the search starts. */
    method BeginWikipediaSearch() returns (started: bool)
      modifies this
      ensures started <==> !AllSpace(wikiSearchQuery)
      ensures wikiSearching == (started || old(wikiSearching))
      ensures open == old(open) && form == old(form) && wikiSearchQuery == old(wikiSearchQuery)
    {
      if Trim(wikiSearchQuery) == [] {
        return false;
      }
      wikiSearching := true;
      started := true;
    }

    /** `handleWikipediaSearch` after the `await`: fill the form from the result; the `finally` clears the flag. */
    method CompleteWikipediaSearch(result: Lookup) returns (toast: Toast)
      modifies this
      ensures !wikiSearching
      ensures form == ApplyLookup(old(form), result)
      ensures toast == LookupToast(result)
      ensures open == old(open) && wikiSearchQuery == old(wikiSearchQuery)
    {
      form := ApplyLookup(form, result);
      toast := LookupToast(result);
      wikiSearching := false;
    }

    /** `handleWikipediaSearch`, with Wikipedia's answers given as `opensearch` and `summaryOf`. */
    method HandleWikipediaSearch(opensearch: string -> Response, summaryOf: string -> Response)
      returns (toast: Option<Toast>)
      modifies this
      ensures AllSpace(wikiSearchQuery) ==>
        toast.None? && form == old(form) && wikiSearching == old(wikiSearching)
      ensures !AllSpace(wikiSearchQuery) ==>
        var result := FetchWikipediaSummary(wikiSearchQuery, opensearch, summaryOf);
        && !wikiSearching
        && toast == Some(LookupToast(result))
        && form == ApplyLookup(old(form), result)
      ensures open == old(open) && wikiSearchQuery == old(wikiSearchQuery)
    {
      var started := BeginWikipediaSearch();
      if !started {
        return None;
      }
      var result := FetchWikipediaSummary(wikiSearchQuery, opensearch, summaryOf);
      var t := CompleteWikipediaSearch(result);
      toast := Some(t);
    }
  }
}
