/**
 * The add-species form's schema: what each field accepts and how it is
 * normalised, the form's default values, and the two select encodings.
 */
module SpeciesSchema {
  import opened Optional
  import opened Text
  import opened Records
  import SpeciesCard

  /** The kingdom enum's options, in select order. */
  const KingdomOptions: seq<string> := ["Animalia", "Plantae", "Fungi", "Protista", "Archaea", "Bacteria"]

  function KingdomName(k: Kingdom): string {
    match k
    case Animalia => "Animalia"
    case Plantae => "Plantae"
    case Fungi => "Fungi"
    case Protista => "Protista"
    case Archaea => "Archaea"
    case Bacteria => "Bacteria"
  }

  /** The enum check: one of the six names, spelled exactly. */
  function ParseKingdom(s: string): (r: Option<Kingdom>)
    ensures r.Some? <==> s in KingdomOptions
    ensures r.Some? ==> KingdomName(r.value) == s
  {
    if s == "Animalia" then Some(Animalia)
    else if s == "Plantae" then Some(Plantae)
    else if s == "Fungi" then Some(Fungi)
    else if s == "Protista" then Some(Protista)
    else if s == "Archaea" then Some(Archaea)
    else if s == "Bacteria" then Some(Bacteria)
    else None
  }

  lemma KingdomRoundTrip(k: Kingdom)
    ensures ParseKingdom(KingdomName(k)) == Some(k)
    ensures KingdomName(k) in KingdomOptions
  {
  }

  /** The form fields, as named in validation errors. */
  datatype Field = ScientificNameField | CommonNameField | KingdomField | PopulationField
                 | ImageField | DescriptionField | EndangeredField

  /**
   * The form's raw values. The population is the number the input produced
   * (`+event.target.value`), so it may be fractional; `None` is null.
   */
  datatype FormValues = FormValues(
    scientificName: string,
    commonName: Option<string>,
    kingdom: string,
    totalPopulation: Option<real>,
    image: Option<string>,
    description: Option<string>,
    endangered: Option<bool>)

  /** The values the schema hands to `onSubmit`. */
  datatype SpeciesInput = SpeciesInput(
    scientificName: string,
    commonName: Option<string>,
    kingdom: Kingdom,
    totalPopulation: Option<int>,
    image: Option<string>,
    description: Option<string>,
    endangered: Option<bool>)

  /** `defaultValues`, also what the form is reset to after a successful insert. */
  function DefaultValues(): FormValues {
    FormValues("", None, "Animalia", None, None, None, None)
  }

  /** `scientific_name`: trimmed, at least one character, trimmed again. */
  function ScientificNameRule(s: string): (r: Option<string>)
    ensures r.Some? <==> !AllSpace(s)
    ensures r.Some? ==> r.value == Trim(s) && r.value != [] && NoEdgeSpace(r.value)
  {
    var t := Trim(s);
    if |t| < 1 then None
    else
      TrimIdempotent(s);
      Some(Trim(t))
  }

  /** The nullable text transform: null, empty and blank become null, anything else is trimmed. */
  function NullableText(v: Option<string>): (r: Option<string>)
    ensures r.None? <==> v.None? || AllSpace(v.value)
    ensures r.Some? ==> r.value == Trim(v.value) && r.value != [] && NoEdgeSpace(r.value)
  {
    if v.None? || v.value == [] || Trim(v.value) == [] then None else Some(Trim(v.value))
  }

  lemma NullableTextIdempotent(v: Option<string>)
    ensures NullableText(NullableText(v)) == NullableText(v)
  {
    if NullableText(v).Some? {
      TrimIdempotent(v.value);
    }
  }

  predicate IsInteger(x: real) {
    x.Floor as real == x
  }

  /** What `total_population` accepts: null, or an integer that is at least 1. */
  predicate PopulationOk(p: Option<real>) {
    p.None? || (IsInteger(p.value) && p.value >= 1.0)
  }

  /** `total_population`: `.int().positive().min(1).nullable()`. */
  function PopulationRule(p: Option<real>): (r: Option<Option<int>>)
    ensures r.Some? <==> PopulationOk(p)
    ensures r.Some? && p.Some? ==> r.value == Some(p.value.Floor) && r.value.value >= 1
    ensures r.Some? && p.Some? ==> r.value.value as real == p.value
    ensures r.Some? && p.None? ==> r.value == None
  {
    match p
    case None => Some(None)
    case Some(x) => if IsInteger(x) && x > 0.0 && x >= 1.0 then Some(Some(x.Floor)) else None
  }

  /** `image`: null, or a URL (as judged by `isUrl`), then the nullable text transform. */
  function ImageRule(image: Option<string>, isUrl: string -> bool): (r: Option<Option<string>>)
    ensures r.Some? <==> image.None? || isUrl(image.value)
    ensures r.Some? ==> r.value == NullableText(image)
  {
    match image
    case None => Some(None)
    case Some(s) => if isUrl(s) then Some(NullableText(image)) else None
  }

  /** The fields the schema refuses: each schema field whose rule rejects its value. */
  function FieldErrors(f: FormValues, isUrl: string -> bool): (errors: set<Field>)
    ensures ScientificNameField in errors <==> AllSpace(f.scientificName)
    ensures KingdomField in errors <==> f.kingdom !in KingdomOptions
    ensures PopulationField in errors <==> !PopulationOk(f.totalPopulation)
    ensures ImageField in errors <==> f.image.Some? && !isUrl(f.image.value)
    ensures CommonNameField !in errors && DescriptionField !in errors && EndangeredField !in errors
  {
    var sci := ScientificNameRule(f.scientificName).None?;
    var kingdom := ParseKingdom(f.kingdom).None?;
    var population := PopulationRule(f.totalPopulation).None?;
    var image := ImageRule(f.image, isUrl).None?;
    FieldSet(sci, kingdom, population, image)
  }

  /** The set holding exactly the flagged fields. */
  function FieldSet(sci: bool, kingdom: bool, population: bool, image: bool): (errors: set<Field>)
    ensures ScientificNameField in errors <==> sci
    ensures KingdomField in errors <==> kingdom
    ensures PopulationField in errors <==> population
    ensures ImageField in errors <==> image
    ensures CommonNameField !in errors && DescriptionField !in errors && EndangeredField !in errors
  {
    (if sci then {ScientificNameField} else {})
    + (if kingdom then {KingdomField} else {})
    + (if population then {PopulationField} else {})
    + (if image then {ImageField} else {})
  }

  /** The whole schema: the normalised values, or every field it refuses. */
  function ValidateForm(f: FormValues, isUrl: string -> bool): (r: Result<SpeciesInput, set<Field>>)
    ensures r.Failure? ==> r.error == FieldErrors(f, isUrl) && r.error != {}
    ensures r.Success? <==> FieldErrors(f, isUrl) == {}
    ensures r.Success? ==>
      && r.value.scientificName == Trim(f.scientificName)
      && r.value.commonName == NullableText(f.commonName)
      && KingdomName(r.value.kingdom) == f.kingdom
      && (r.value.totalPopulation.Some? ==> r.value.totalPopulation.value >= 1)
      && (r.value.totalPopulation.Some? <==> f.totalPopulation.Some?)
      && (r.value.totalPopulation.Some? ==> r.value.totalPopulation.value as real == f.totalPopulation.value)
      && r.value.image == NullableText(f.image)
      && r.value.description == NullableText(f.description)
      && r.value.endangered == f.endangered
  {
    var errors := FieldErrors(f, isUrl);
    if errors != {} then Failure(errors)
    else
      assert ScientificNameField !in errors && KingdomField !in errors;
      assert PopulationField !in errors && ImageField !in errors;
      Success(SpeciesInput(
        ScientificNameRule(f.scientificName).value,
        NullableText(f.commonName),
        ParseKingdom(f.kingdom).value,
        PopulationRule(f.totalPopulation).value,
        ImageRule(f.image, isUrl).value,
        NullableText(f.description),
        f.endangered))
  }

  /** The freshly opened (or reset) form is refused for its empty scientific name alone. */
  lemma DefaultValuesNeedScientificName(isUrl: string -> bool)
    ensures ValidateForm(DefaultValues(), isUrl) == Failure({ScientificNameField})
  {
    assert AllSpace(DefaultValues().scientificName);
    assert DefaultValues().kingdom in KingdomOptions;
    var errors := FieldErrors(DefaultValues(), isUrl);
    assert errors == {ScientificNameField} by {
      forall x | x in errors ensures x == ScientificNameField {}
    }
  }

  /** The endangered select's value for a field value. */
  function EncodeEndangered(v: Option<bool>): string {
    match v
    case None => "not_set"
    case Some(b) => if b then "yes" else "no"
  }

  /** The field value for a chosen select value. */
  function DecodeEndangered(s: string): Option<bool> {
    if s == "not_set" then None else Some(s == "yes")
  }

  const EndangeredValues: seq<string> := ["not_set", "yes", "no"]

  /** The select items' labels, indexed like `EndangeredValues`. */
  const EndangeredItemLabels: seq<string> := ["Not set", "Yes", "No"]

  lemma EndangeredRoundTrip(v: Option<bool>)
    ensures DecodeEndangered(EncodeEndangered(v)) == v
    ensures EncodeEndangered(v) in EndangeredValues
  {
  }

  lemma EndangeredSelectRoundTrip(s: string)
    requires s in EndangeredValues
    ensures EncodeEndangered(DecodeEndangered(s)) == s
  {
  }

  /** The item the select shows for a value carries the label the species card shows for it. */
  lemma EndangeredLabelsAgree(v: Option<bool>)
    ensures exists i :: 0 <= i < 3 && EndangeredValues[i] == EncodeEndangered(v)
                        && EndangeredItemLabels[i] == SpeciesCard.EndangeredLabel(v)
  {
    match v
    case None => assert EndangeredValues[0] == EncodeEndangered(v);
    case Some(b) =>
      if b { assert EndangeredValues[1] == EncodeEndangered(v); }
      else { assert EndangeredValues[2] == EncodeEndangered(v); }
  }
}
