# Species catalogue: a Dafny model of its client-side rules

The application is a small species catalogue. Signed-in users browse species
records, add new ones (optionally pre-filled from Wikipedia), open a card's
detail view, and edit or delete their own records. A separate page draws a bar
chart of animal speeds from a CSV file. Storage, authentication and access
rules belong to a hosted backend. This model covers the logic that runs in the
browser:

- the **species search filter**. It is a case-insensitive substring match over
  the scientific name, common name and description, and it keeps list order
  (`species_search.dfy`);
- the **add-species form** (`species_schema.dfy`, `wikipedia.dfy`,
  `add_species_dialog.dfy`). This covers:
  - per-field validation and normalisation;
  - the default values;
  - the endangered and kingdom select encodings;
  - parsing of the Wikipedia opensearch and summary documents;
  - the dialog state that submit and search change;
- the **species card** (`species_card.dfy`). This covers the description
  preview, the detail-view labels, the author-only actions, and the four dialog
  flags that edit and delete move between;
- the **sign-in form** (`user_auth_form.dfy`). This covers email lowercasing,
  rate-limit classification of backend errors, the resulting toast, and the
  loading flag;
- the **speed chart's arithmetic** (`animal_speed_graph.dfy`). This covers row
  defaults, canvas size and margins, the y-axis ceiling, x-axis tick thinning,
  and the legend;
- the **navigation bar's** link list (`navbar.dfy`).

Shared modules:

- `optional.dfy` holds `Option` and `Result`;
- `text.dfy` models JavaScript's `trim`, `toLowerCase` and `includes`;
- `records.dfy` holds the species and profile rows and the toast.

Each asynchronous handler (`onSubmit`, `handleDelete`, `handleWikipediaSearch`)
is a method of a class whose fields are the component's `useState` flags. The
handler is split at its `await` into a `Begin…` and a `Complete…` method. The
backend's or Wikipedia's answer is a parameter of the `Complete…` method. A
composite method runs both halves. This is how the model shows each busy flag
raised while the call is in flight and lowered afterwards.

## Model

| member | source | states |
|---|---|---|
| SpeciesSearch.FilterSpecies | app/species/species-list-with-search.tsx:27-36 | A blank or whitespace-only search returns the list unchanged. The result is a subsequence of the input, so order is kept and it is no longer than the input. Otherwise every kept record matches the normalised query, and every matching record is kept. Each record appears as many times as it does in the input if it matches, and not at all otherwise. |
| SpeciesSearch.NormaliseQuery | app/species/species-list-with-search.tsx:28-29 | The trimmed, lowercased query is empty exactly when the search text is all whitespace. It is lowercase and has no whitespace at either end. |
| SpeciesSearch.Matches | app/species/species-list-with-search.tsx:31-34 | The filter's predicate: the query occurs in the lowercased scientific name, common name or description, and a null field never matches. Its meaning is stated by `Text.ContainsIff` and `NullFieldsNeverMatch`. |
| SpeciesSearch.KeepMatching | app/species/species-list-with-search.tsx:30-35 | Soundness: kept records come from the input and match. Completeness: every matching record is kept. Each record is kept as many times as it occurs. The result is a subsequence of the input. |
| SpeciesSearch.NullFieldsNeverMatch | app/species/species-list-with-search.tsx:32-34 | A null common name or description never causes a match: the record then matches iff the query occurs in one of its other fields. With both null, only the lowercased scientific name counts. |
| SpeciesSearch.KeepMatchingIdempotent | app/species/species-list-with-search.tsx:30-35 | Filtering the filtered list with the same query changes nothing. |
| SpeciesSearch.FilterSpeciesIdempotent | app/species/species-list-with-search.tsx:27-36 | Applying the search filter twice with the same text equals applying it once. |
| SpeciesSearch.FilterIgnoresPadding | app/species/species-list-with-search.tsx:28 | Leading and trailing whitespace added to the search text does not change the result. |
| SpeciesSearch.FilterIgnoresCase | app/species/species-list-with-search.tsx:28 | Two search texts that agree after lowercasing give the same result. |
| Text.Trim | app/species/species-list-with-search.tsx:28 | `trim` leaves no whitespace at either end and never lengthens its input. The result is empty iff the input is all whitespace. |
| Text.TrimSplit | app/species/species-list-with-search.tsx:28 | Every string is some whitespace, then its trimmed form, then some whitespace. With `NoEdgeSpace` this pins `trim` down exactly. |
| Text.TrimIdempotent | app/species/species-list-with-search.tsx:28 | Trimming a trimmed string changes nothing. |
| Text.TrimIgnoresPadding | app/species/species-list-with-search.tsx:28 | Whitespace added around a string does not change its trimmed form. |
| Text.LowerTrimCommute | app/species/species-list-with-search.tsx:28 | Lowercasing then trimming equals trimming then lowercasing. |
| Text.ContainsIff | app/species/species-list-with-search.tsx:32-34 | `includes` holds exactly when the needle occurs at some index of the haystack. |
| Text.Contains | app/species/species-list-with-search.tsx:32-34 | `includes`, written recursively over the haystack. `ContainsIff` ties it to the index-based occurrence predicate. |
| Text.LowerIdempotent | app/login/user-auth-form.tsx:36 | Lowercasing is idempotent and its result has no upper-case letters. |
| Text.Lower | app/login/user-auth-form.tsx:36 | `toLowerCase` keeps the length. Each capital A–Z becomes the small letter 32 code points above it, and every other character is unchanged. |
| Navbar.NavLinks | app/_components-navbar/navbar.tsx:12-32 | "Home" (/) is always first. Signed out, it is the only link. Signed in, there are five links: Home, then Species (/species), Users (/users), Species Speed (/species-speed) and Species Chatbot (/species-chatbot), in that order. All hrefs are distinct. |
| Navbar.SignedOutIsPrefix | app/_components-navbar/navbar.tsx:12-32 | The signed-out links are a proper prefix of the signed-in links. |
| UserAuthForm.NormaliseEmail | app/login/user-auth-form.tsx:36 | The address sent is the input lowercased. It has the same length, each capital becomes its small letter, other characters are unchanged, and lowercasing it again changes nothing. |
| UserAuthForm.IsRateLimit | app/login/user-auth-form.tsx:45 | The case-insensitive test for "rate limit" or "too many requests". `IsRateLimitIff` and `IsRateLimitIgnoresCase` state its meaning. |
| UserAuthForm.IsRateLimitIff | app/login/user-auth-form.tsx:45 | An error counts as rate-limiting iff its lowercased message contains "rate limit" or "too many requests". |
| UserAuthForm.IsRateLimitIgnoresCase | app/login/user-auth-form.tsx:45 | The classification does not depend on letter case. |
| UserAuthForm.SignInToast | app/login/user-auth-form.tsx:44-58 | There is exactly one toast per submission, and it is destructive iff there was an error. No error gives "Check your email". A rate-limit error gives the fixed rate-limit title and text. Any other error gives "Something went wrong." with the raw message. |
| UserAuthForm.AuthForm.constructor | app/login/user-auth-form.tsx:30 | The form starts not loading. |
| UserAuthForm.AuthForm.BeginSignIn | app/login/user-auth-form.tsx:34-36 | Before the call, `isLoading` is raised and the lowercased email is produced. |
| UserAuthForm.AuthForm.CompleteSignIn | app/login/user-auth-form.tsx:42-58 | After the call, `isLoading` is false and the toast is the one for the outcome. |
| UserAuthForm.AuthForm.OnSubmit | app/login/user-auth-form.tsx:33-59 | For any outcome, the submission ends with `isLoading` false. It sends the lowercased email and shows the outcome's toast. |
| SpeciesCard.Take | app/species/species-card.tsx:76 | `slice(0, n)` is the prefix of length min(n, length of the string). |
| SpeciesCard.DescriptionPreview | app/species/species-card.tsx:76 | The preview is empty iff the description is null or empty. Otherwise it is a head followed by "...", at most 153 characters in all. The head is the first 150 characters with the whitespace at both ends removed: those characters are some whitespace, then the head, then some whitespace, and the head has no whitespace at either end. |
| SpeciesCard.EndangeredLabelInjective | app/species/species-card.tsx:102-106 | "Not set", "Yes" and "No" each belong to one endangered state only. |
| SpeciesCard.EndangeredLabel | app/species/species-card.tsx:102-106 | "Not set" for null, "Yes" for true and "No" for false. `EndangeredLabelInjective` and `SpeciesSchema.EndangeredLabelsAgree` state its properties. |
| SpeciesCard.OrDash | app/species/species-card.tsx:89 | A present common name or description is shown as is; a null one as "—". |
| SpeciesCard.AuthorLine | app/species/species-card.tsx:116-118 | The line is "—" iff there is no profile. Otherwise it is the display name, then " (", the email and ")", with nothing else in it. |
| SpeciesCard.IsAuthor | app/species/species-card.tsx:33 | The viewer is the author when their id equals the record's `author`. `AuthorActions` states what that decides. |
| SpeciesCard.AuthorActions | app/species/species-card.tsx:121-130 | Edit and delete are offered, in that order, iff the viewer is the record's author. |
| SpeciesCard.DeleteToast | app/species/species-card.tsx:51-64 | A failed delete shows "Something went wrong." with the backend's message. A successful one shows "Species deleted" with "<scientific name> has been removed.". |
| SpeciesCard.Card.constructor | app/species/species-card.tsx:29-32 | All four flags start false. |
| SpeciesCard.Card.SetDetailOpen | app/species/species-card.tsx:77 | The detail dialog's own open/close sets only `detailOpen`. |
| SpeciesCard.Card.OpenEdit | app/species/species-card.tsx:35-38 | Closes the detail view and opens the editor. The other flags are unchanged. |
| SpeciesCard.Card.OpenDeleteConfirm | app/species/species-card.tsx:40-43 | Closes the detail view and opens the confirmation. The other flags are unchanged. |
| SpeciesCard.Card.CancelDelete | app/species/species-card.tsx:143 | Cancel closes the confirmation and nothing else. |
| SpeciesCard.Card.BeginDelete | app/species/species-card.tsx:46 | While the delete is in flight, `isDeleting` is true. The dialogs are unchanged. |
| SpeciesCard.Card.CompleteDelete | app/species/species-card.tsx:49-64 | `isDeleting` becomes false. The confirmation closes only on success. The toast is the one for the outcome. |
| SpeciesCard.Card.HandleDelete | app/species/species-card.tsx:45-65 | For any outcome, `handleDelete` ends with `isDeleting` false. On error the confirmation stays as it was; on success it is closed. |
| SpeciesSchema.ParseKingdom | app/species/add-species-dialog.tsx:55 | A kingdom is accepted iff it is one of the six listed names, and it maps back to that name. |
| SpeciesSchema.KingdomRoundTrip | app/species/add-species-dialog.tsx:55 | Every kingdom's name is a listed option and parses back to that kingdom. |
| SpeciesSchema.ScientificNameRule | app/species/add-species-dialog.tsx:58-62 | The scientific name is accepted iff it is not all whitespace. The value stored is the trimmed string, which is non-empty. |
| SpeciesSchema.NullableText | app/species/add-species-dialog.tsx:63-66 | A null, empty or blank value becomes null. Anything else becomes its trimmed, non-empty form. |
| SpeciesSchema.NullableTextIdempotent | app/species/add-species-dialog.tsx:74-77 | Normalising a normalised value changes nothing. |
| SpeciesSchema.PopulationRule | app/species/add-species-dialog.tsx:68 | The population is accepted iff it is null or an integer ≥ 1. An accepted number is stored as the integer equal to it. |
| SpeciesSchema.ImageRule | app/species/add-species-dialog.tsx:69-73 | The image is accepted iff it is null or a URL. It is stored normalised like the other text fields. |
| SpeciesSchema.FieldErrors | app/species/add-species-dialog.tsx:57-79 | Scientific name, kingdom, population and image are each refused exactly when their rule rejects them. Common name, description and endangered are never refused. |
| SpeciesSchema.FieldSet | app/species/add-species-dialog.tsx:57-79 | The error set holds exactly the flagged fields. |
| SpeciesSchema.ValidateForm | app/species/add-species-dialog.tsx:57-79 | The form is accepted iff no field is refused, and a refusal lists every refused field. On success, every field holds its normalised value: trimmed or nulled text, the kingdom whose name was entered, and a population equal to the number entered. |
| SpeciesSchema.DefaultValuesNeedScientificName | app/species/add-species-dialog.tsx:83-91 | The default (and reset) form is refused for its empty scientific name and nothing else. |
| SpeciesSchema.DefaultValues | app/species/add-species-dialog.tsx:83-91 | The initial and reset form: empty scientific name, kingdom "Animalia", every nullable field null. `DefaultValuesNeedScientificName` states what the schema makes of it. |
| SpeciesSchema.EncodeEndangered | app/species/add-species-dialog.tsx:323 | The select value shown for null, true and false: "not_set", "yes", "no". `EndangeredRoundTrip` is its partner. |
| SpeciesSchema.DecodeEndangered | app/species/add-species-dialog.tsx:320-322 | The field value for a chosen select value: null for "not_set", otherwise whether it is "yes". `EndangeredSelectRoundTrip` is its partner. |
| SpeciesSchema.EndangeredRoundTrip | app/species/add-species-dialog.tsx:320-323 | Decoding the select value of null, true or false gives the value back. |
| SpeciesSchema.EndangeredSelectRoundTrip | app/species/add-species-dialog.tsx:320-323 | Encoding the decoded value of "not_set", "yes" or "no" gives the string back. |
| SpeciesSchema.EndangeredLabelsAgree | app/species/add-species-dialog.tsx:331-333 | The select item shown for a value has the label the species card shows for it. |
| Wikipedia.Property | app/species/add-species-dialog.tsx:44-47 | A property is defined only on an object that has that key. |
| Wikipedia.SearchTitle | app/species/add-species-dialog.tsx:37-39 | A title exists iff the document is an array whose second element is an array starting with a non-empty string. The title is that string. |
| Wikipedia.SummaryTitle | app/species/add-species-dialog.tsx:41 | Every space becomes "_" and nothing else changes, so the result has no spaces. |
| Wikipedia.SummaryTitleIdempotent | app/species/add-species-dialog.tsx:41 | Replacing spaces twice equals replacing them once. |
| Wikipedia.Extract | app/species/add-species-dialog.tsx:48-49 | The extract is present iff the summary's `extract` is a non-empty string, and it is that string. |
| Wikipedia.ThumbnailUrl | app/species/add-species-dialog.tsx:50-51 | There is no thumbnail without a thumbnail object. A string `source` wins. When `source` is null or missing, a string `uri` is used; otherwise there is none. |
| Wikipedia.FetchWikipediaSummary | app/species/add-species-dialog.tsx:30-53 | The outcome of every path. A search that threw gives a failure, and a non-2xx search or a missing title gives no article. Given a title, a summary request that threw or returned a null body gives a failure. A non-2xx summary or a missing extract gives no article. Otherwise the result is an article with the extract and the thumbnail of the summary for the trimmed query's underscored title. |
| Wikipedia.LookupIgnoresPadding | app/species/add-species-dialog.tsx:31 | Whitespace around the query does not change the lookup. |
| AddSpeciesDialog.InsertToast | app/species/add-species-dialog.tsx:120-135 | An insert error shows "Something went wrong." with the backend's message. Success shows "New species added!" with "Successfully added <name>.". |
| AddSpeciesDialog.LookupToast | app/species/add-species-dialog.tsx:143-162 | A found article shows "Wikipedia data loaded" / "Description and image have been filled from Wikipedia.". No article shows "No article found" with its advice to try another name. A thrown lookup shows "Search failed" / "Could not reach Wikipedia. Please try again.". Only the first is non-destructive. |
| AddSpeciesDialog.ApplyLookup | app/species/add-species-dialog.tsx:151-152 | An article's extract replaces the description. The image changes only for a non-empty thumbnail. No other field changes, and without an article the form is untouched. |
| AddSpeciesDialog.Dialog.constructor | app/species/add-species-dialog.tsx:95-103 | The dialog starts closed, with an empty search box, not searching, and the default form. |
| AddSpeciesDialog.Dialog.SetOpen | app/species/add-species-dialog.tsx:169 | Opening or closing the dialog changes nothing else. |
| AddSpeciesDialog.Dialog.EditForm | app/species/add-species-dialog.tsx:216-359 | Editing fields changes only the form values. |
| AddSpeciesDialog.Dialog.SetWikiSearchQuery | app/species/add-species-dialog.tsx:192 | Typing in the search box changes only the query. |
| AddSpeciesDialog.Dialog.OnSubmit | app/species/add-species-dialog.tsx:105-136 | The row sent is the validated input with the user as author. On error the dialog and form are untouched. On success the form is reset to the defaults and the dialog closes. The search box is kept either way. |
| AddSpeciesDialog.Dialog.Submit | app/species/add-species-dialog.tsx:184 | A form the schema refuses sends nothing, shows no toast and changes nothing. An accepted form behaves as `onSubmit` with its normalised values. |
| AddSpeciesDialog.Dialog.BeginWikipediaSearch | app/species/add-species-dialog.tsx:139-140 | A blank query does nothing. Otherwise `wikiSearching` is raised. |
| AddSpeciesDialog.Dialog.CompleteWikipediaSearch | app/species/add-species-dialog.tsx:142-165 | The lookup's result is applied to the form and its toast chosen. `wikiSearching` ends false on every path. |
| AddSpeciesDialog.Dialog.HandleWikipediaSearch | app/species/add-species-dialog.tsx:138-166 | A blank query changes nothing and shows no toast. Otherwise the form gets the lookup's effect, one toast is shown, and `wikiSearching` ends false. |
| AnimalSpeedGraph.ToDatum | app/species-speed/animal-speed-graph.tsx:30-34 | A present name and speed are kept. A missing name becomes "" and a missing speed 0. The diet is the lowercased input, or "" when missing. |
| AnimalSpeedGraph.ToData | app/species-speed/animal-speed-graph.tsx:30-34 | Each CSV row gives one datum, in order. |
| AnimalSpeedGraph.ShouldDraw | app/species-speed/animal-speed-graph.tsx:40 | The chart is drawn exactly when there is a container and at least one datum. |
| AnimalSpeedGraph.ComputeLayout | app/species-speed/animal-speed-graph.tsx:44-50 | The canvas is at least 600×400 and at least the container's size (800×500 when unknown). The inner area is width − 200 by height − 190, so at least 400×210. |
| AnimalSpeedGraph.MaxSpeed | app/species-speed/animal-speed-graph.tsx:66 | No data gives no maximum. Otherwise the maximum is some datum's speed and at least every speed. |
| AnimalSpeedGraph.CeilToTen | app/species-speed/animal-speed-graph.tsx:68 | The result is the smallest multiple of 10 that is ≥ x, for every integer x. |
| AnimalSpeedGraph.YDomainTop | app/species-speed/animal-speed-graph.tsx:66-69 | The y-domain's top is a multiple of 10 and ≥ every speed. With data it is less than 10 above the fastest; without data it is 120. |
| AnimalSpeedGraph.TickStep | app/species-speed/animal-speed-graph.tsx:90 | The step is max(1, n div 25) ≥ 1. It is 1 iff n < 50, and for n ≥ 25 it is the quotient of n by 25. |
| AnimalSpeedGraph.TickValues | app/species-speed/animal-speed-graph.tsx:89-93 | The domain names whose index is a multiple of the step. `TickValuesShape` states which names they are. |
| AnimalSpeedGraph.TickValuesShape | app/species-speed/animal-speed-graph.tsx:89-93 | The labels are exactly the names at indices 0, step, 2·step, … in order. The first name is always included, and there are ⌈n / step⌉ ≤ n labels. |
| AnimalSpeedGraph.BarColor | app/species-speed/animal-speed-graph.tsx:71-77 | The colour scale gives a colour exactly for the three listed diets. |
| AnimalSpeedGraph.BarColorMatchesDietColors | app/species-speed/animal-speed-graph.tsx:17-21 | Each known diet's bar gets its `DIET_COLORS` entry. |
| AnimalSpeedGraph.Legend | app/species-speed/animal-speed-graph.tsx:136-151 | The legend has three rows: Herbivore, Omnivore, Carnivore. Row i sits at offset 22·i. Each row's swatch is the colour its bars get. |
| AnimalSpeedGraph.LegendOrigin | app/species-speed/animal-speed-graph.tsx:132-134 | The legend starts 90 left of the right margin and level with the top margin. |

## Left out

- All calls to the hosted backend (insert, delete, select, `signInWithOtp`,
  session and user lookup). Their outcome (no error, or an error message) is a
  parameter. The species and users pages, which only fetch and redirect, are
  not part of this model.
- `fetch`, `encodeURIComponent` and JSON parsing. A request's outcome (threw,
  non-2xx, or a parsed document) is given as a function of the requested
  (trimmed) query or (underscored) title. Percent-encoding is a platform
  function and is not modelled.
- Wikipedia.ThumbnailUrl: a `thumbnail.source` or `thumbnail.uri` that is
  present but neither a string nor null yields no thumbnail. The source code
  would instead pass such a value on to the form unchanged.
- zod's `.url()` and `.email()` checks are library behaviour. `.url()` is the
  opaque predicate `isUrl`; the sign-in form's email check is not modelled.
- The raw population is a `real`, the number the input field produces. NaN and
  infinities are not modelled.
- Chart speeds are integers. `Number(row.speed) || 0` is represented by an
  already-parsed optional integer. Band positions, bar heights, label rotation
  and other floating-point geometry are not modelled.
- The band scale's domain is taken as the list of names the scale reports.
  d3's removal of duplicate names is library behaviour and is not modelled.
- SpeciesCard.Take: lengths and slices count characters (Unicode scalar
  values), whereas JavaScript's `slice` and `length` count UTF-16 code units.
  A character outside the Basic Multilingual Plane counts once here and twice
  in the source. For text containing such characters, the preview's
  150-character cut and its 153 bound are therefore measured in a different
  unit than the program uses.
- AnimalSpeedGraph.ComputeLayout: the `?? 800` and `?? 500` fallbacks are modelled
  as a missing container size. In the source they never apply, because an
  element's `clientWidth` and `clientHeight` are always numbers.
- AnimalSpeedGraph.BarColor: diets outside the three known ones are not
  modelled. d3's ordinal scale would grow its domain and reuse colours for
  them.
- D3 drawing and DOM mutation (`innerHTML`, `append`, the legend's `forEach`)
  are not modelled. The chart model stops at the values those calls receive.
- `toLowerCase` and `trim` are modelled on characters taken one at a time.
  Case mapping is ASCII only. Whitespace is the ASCII set plus NBSP and the
  byte-order mark, with no Unicode normalisation or full case folding.
- React rendering, hooks, router refreshes and toast display are not modelled.
  A toast is a returned value and the `useState` flags are class fields.
- The edit-species dialog is not part of this model.
