/**
 * The Wikipedia pre-fill lookup: an opensearch request for a title, then a
 * summary request for that title, each answered by a JSON document.
 */
module Wikipedia {
  import opened Optional
  import opened Text

  /** A parsed JSON document. */
  datatype Json =
    | JNull
    | JBool(b: bool)
    | JNumber(n: real)
    | JString(s: string)
    | JArray(items: seq<Json>)
    | JObject(fields: map<string, Json>)

  /** How an HTTP request ended: it threw (network failure, unparsable body), answered non-2xx, or answered a document. */
  datatype Response = Threw | NotOk | Ok(body: Json)

  /** What the lookup reports: it threw, found nothing, or found an extract and perhaps a thumbnail. */
  datatype Lookup = LookupThrew | NoArticle | Article(extract: string, thumbnailUrl: Option<string>)

  /** `j.key`: the property's value, or `None` for undefined (only objects have the properties read here). */
  function Property(j: Json, key: string): (r: Option<Json>)
    ensures r.Some? <==> j.JObject? && key in j.fields
  {
    if j.JObject? && key in j.fields then Some(j.fields[key]) else None
  }

  predicate Nullish(v: Option<Json>) {
    v.None? || v.value.JNull?
  }

  /** The opensearch title: the first entry of the document's second array, if it is a non-empty string. */
  function SearchTitle(searchJson: Json): (r: Option<string>)
    ensures r.Some? <==>
      && searchJson.JArray? && |searchJson.items| >= 2
      && searchJson.items[1].JArray? && |searchJson.items[1].items| >= 1
      && searchJson.items[1].items[0].JString? && searchJson.items[1].items[0].s != []
    ensures r.Some? ==> r.value == searchJson.items[1].items[0].s && r.value != []
  {
    var titles :=
      if searchJson.JArray? && |searchJson.items| >= 2 && searchJson.items[1].JArray?
      then searchJson.items[1].items else [];
    if |titles| == 0 then None
    else match titles[0]
      case JString(t) => if t == [] then None else Some(t)
      case _ => None
  }

  /** The title as the summary endpoint expects it: every space becomes an underscore. */
  function SummaryTitle(title: string): (r: string)
    ensures |r| == |title| && ' ' !in r
    ensures forall i :: 0 <= i < |title| ==> r[i] == (if title[i] == ' ' then '_' else title[i])
  {
    seq(|title|, i requires 0 <= i < |title| => if title[i] == ' ' then '_' else title[i])
  }

  lemma SummaryTitleIdempotent(title: string)
    ensures SummaryTitle(SummaryTitle(title)) == SummaryTitle(title)
  {
  }

  /** The summary's extract, if it is a non-empty string. */
  function Extract(summary: Json): (r: Option<string>)
    ensures r.Some? <==> exists e :: e != [] && Property(summary, "extract") == Some(JString(e))
    ensures r.Some? ==> Property(summary, "extract") == Some(JString(r.value))
  {
    match Property(summary, "extract")
    case Some(JString(e)) => if e == [] then None else Some(e)
    case _ => None
  }

  /** `v` as a string URL; a present value of another JSON type gives no URL. */
  function AsUrl(v: Json): Option<string> {
    if v.JString? then Some(v.s) else None
  }

  /** `summary.thumbnail?.source ?? summary.thumbnail?.uri ?? null`. */
  function ThumbnailUrl(summary: Json): (r: Option<string>)
    ensures Nullish(Property(summary, "thumbnail")) ==> r.None?
    ensures r.Some? ==>
      var t := Property(summary, "thumbnail").value;
      Property(t, "source") == Some(JString(r.value))
      || (Nullish(Property(t, "source")) && Property(t, "uri") == Some(JString(r.value)))
    ensures !Nullish(Property(summary, "thumbnail"))
            && Property(Property(summary, "thumbnail").value, "source").Some?
            && Property(Property(summary, "thumbnail").value, "source").value.JString? ==>
      r == Some(Property(Property(summary, "thumbnail").value, "source").value.s)
    ensures !Nullish(Property(summary, "thumbnail"))
            && Nullish(Property(Property(summary, "thumbnail").value, "source"))
            && Property(Property(summary, "thumbnail").value, "uri").Some?
            && Property(Property(summary, "thumbnail").value, "uri").value.JString? ==>
      r == Some(Property(Property(summary, "thumbnail").value, "uri").value.s)
  {
    var thumbnail := Property(summary, "thumbnail");
    if Nullish(thumbnail) then None
    else
      var source := Property(thumbnail.value, "source");
      var uri := Property(thumbnail.value, "uri");
      if !Nullish(source) then AsUrl(source.value)
      else if !Nullish(uri) then AsUrl(uri.value)
      else None
  }

  /**
   * `fetchWikipediaSummary`. The servers' answers are inputs: `opensearch`
   * answers a search for a (trimmed) query, `summaryOf` a summary request
   * for an (underscored) title.
   */
  function FetchWikipediaSummary(query: string, opensearch: string -> Response, summaryOf: string -> Response)
    : (r: Lookup)
    ensures r.Article? ==>
      && opensearch(Trim(query)).Ok?
      && SearchTitle(opensearch(Trim(query)).body).Some?
      && var title := SearchTitle(opensearch(Trim(query)).body).value;
      && summaryOf(SummaryTitle(title)).Ok?
      && var summary := summaryOf(SummaryTitle(title)).body;
      && r.extract != []
      && Property(summary, "extract") == Some(JString(r.extract))
      && r.thumbnailUrl == ThumbnailUrl(summary)
    ensures opensearch(Trim(query)).NotOk? ==> r == NoArticle
    ensures opensearch(Trim(query)).Threw? ==> r == LookupThrew
    ensures opensearch(Trim(query)).Ok? && SearchTitle(opensearch(Trim(query)).body).None? ==> r == NoArticle
    ensures opensearch(Trim(query)).Ok? && SearchTitle(opensearch(Trim(query)).body).Some? ==>
      var outcome := summaryOf(SummaryTitle(SearchTitle(opensearch(Trim(query)).body).value));
      && (outcome.Threw? ==> r == LookupThrew)
      && (outcome.NotOk? ==> r == NoArticle)
      && (outcome.Ok? && outcome.body.JNull? ==> r == LookupThrew)
      && (outcome.Ok? && !outcome.body.JNull? && Extract(outcome.body).None? ==> r == NoArticle)
      && (outcome.Ok? && !outcome.body.JNull? && Extract(outcome.body).Some? ==>
            r == Article(Extract(outcome.body).value, ThumbnailUrl(outcome.body)))
  {
    match opensearch(Trim(query))
    case Threw => LookupThrew
    case NotOk => NoArticle
    case Ok(searchJson) =>
      match SearchTitle(searchJson)
      case None => NoArticle
      case Some(title) =>
        match summaryOf(SummaryTitle(title))
        case Threw => LookupThrew
        case NotOk => NoArticle
        case Ok(summary) =>
          // reading `.extract` of a null document throws
          if summary.JNull? then LookupThrew
          else match Extract(summary)
            case None => NoArticle
            case Some(e) => Article(e, ThumbnailUrl(summary))
  }

  /** Whitespace around the search text does not change the lookup. */
  lemma LookupIgnoresPadding(a: string, query: string, b: string,
                             opensearch: string -> Response, summaryOf: string -> Response)
    requires AllSpace(a) && AllSpace(b)
    ensures FetchWikipediaSummary(a + query + b, opensearch, summaryOf)
         == FetchWikipediaSummary(query, opensearch, summaryOf)
  {
    TrimIgnoresPadding(a, query, b);
  }
}
