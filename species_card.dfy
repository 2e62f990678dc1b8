/** One card of the species list: what it displays and its four dialog flags. */
module SpeciesCard {
  import opened Optional
  import opened Text
  import opened Records

  const PreviewLength := 150
  const Ellipsis := "..."
  const Dash := "—"
  const GenericErrorTitle := "Something went wrong."
  const DeletedTitle := "Species deleted"

  /** The first `n` characters of `s` (`s.slice(0, n)`). */
  function Take(s: string, n: nat): (r: string)
    ensures |r| <= n && r <= s
    ensures |r| == if |s| <= n then |s| else n
  {
    if |s| <= n then s else s[..n]
  }

  /** The card's one-paragraph preview: empty for a missing or empty description, else a trimmed 150-character head and an ellipsis. */
  function DescriptionPreview(description: Option<string>): (r: string)
    ensures r == [] <==> description.None? || description.value == []
    ensures r != [] ==> 3 <= |r| <= PreviewLength + 3 && r[|r| - 3..] == Ellipsis
    ensures r != [] ==> NoEdgeSpace(r[..|r| - 3])
    ensures r != [] ==> exists p, q :: AllSpace(p) && AllSpace(q)
                                       && Take(description.value, PreviewLength) == p + r[..|r| - 3] + q
  {
    match description
    case None => []
    case Some(d) =>
      if d == [] then []
      else
        var head := Trim(Take(d, PreviewLength));
        TrimPadded(Take(d, PreviewLength));
        assert (head + Ellipsis)[..|head + Ellipsis| - 3] == head;
        head + Ellipsis
  }

  /** The detail view's "Endangered" line. */
  function EndangeredLabel(endangered: Option<bool>): string {
    match endangered
    case None => "Not set"
    case Some(b) => if b then "Yes" else "No"
  }

  /** Each of the three states has its own label. */
  lemma EndangeredLabelInjective(x: Option<bool>, y: Option<bool>)
    ensures EndangeredLabel(x) == EndangeredLabel(y) <==> x == y
  {
  }

  /** A nullable text field in the detail view: its value, or a dash when null. */
  function OrDash(field: Option<string>): (r: string)
    ensures field.Some? ==> r == field.value
    ensures field.None? ==> r == Dash
  {
    field.GetOr(Dash)
  }

  /** The detail view's "Author" line. */
  function AuthorLine(profiles: Option<Profile>): (r: string)
    ensures r == Dash <==> profiles.None?
    ensures profiles.Some? ==>
      var p := profiles.value;
      |r| == |p.displayName| + |p.email| + 3
      && r[..|p.displayName|] == p.displayName
      && r[|p.displayName|..|p.displayName| + 2] == " ("
      && r[|r| - |p.email| - 1..] == p.email + ")"
  {
    match profiles
    case None => Dash
    case Some(p) =>
      var r := p.displayName + " (" + p.email + ")";
      assert r[|r| - |p.email| - 1..] == p.email + ")";
      assert r[|p.displayName|..|p.displayName| + 2] == " (";
      r
  }

  function IsAuthor(userId: string, species: Species): bool {
    userId == species.author
  }

  datatype CardAction = EditSpecies | DeleteSpecies

  /** The buttons at the foot of the detail view: edit and delete, for the author only. */
  function AuthorActions(userId: string, species: Species): (r: seq<CardAction>)
    ensures r != [] <==> userId == species.author
    ensures r != [] ==> r == [EditSpecies, DeleteSpecies]
  {
    if IsAuthor(userId, species) then [EditSpecies, DeleteSpecies] else []
  }

  /** The toast shown once the delete request has returned. */
  function DeleteToast(species: Species, error: Option<string>): (t: Toast)
    ensures t.destructive <==> error.Some?
    ensures error.Some? ==> t.title == GenericErrorTitle && t.description == error.value
    ensures error.None? ==> t.title == DeletedTitle
                            && t.description == species.scientificName + " has been removed."
  {
    match error
    case Some(message) => Toast(GenericErrorTitle, message, true)
    case None => Toast(DeletedTitle, species.scientificName + " has been removed.", false)
  }

  /** The card component's state: which dialogs are open and whether a delete is in flight. */
  class Card {
    const species: Species
    const userId: string
    var detailOpen: bool
    var editOpen: bool
    var deleteConfirmOpen: bool
    var isDeleting: bool

    constructor (species: Species, userId: string)
      ensures this.species == species && this.userId == userId
      ensures !detailOpen && !editOpen && !deleteConfirmOpen && !isDeleting
    {
      this.species := species;
      this.userId := userId;
      detailOpen, editOpen, deleteConfirmOpen, isDeleting := false, false, false, false;
    }

    /** "Learn More" and the detail dialog's own open/close. */
    method SetDetailOpen(open: bool)
      modifies this
      ensures detailOpen == open
      ensures editOpen == old(editOpen) && deleteConfirmOpen == old(deleteConfirmOpen)
      ensures isDeleting == old(isDeleting)
    {
      detailOpen := open;
    }

    /** `openEdit`: close the detail dialog and open the edit dialog. */
    method OpenEdit()
      modifies this
      ensures !detailOpen && editOpen
      ensures deleteConfirmOpen == old(deleteConfirmOpen) && isDeleting == old(isDeleting)
    {
      detailOpen := false;
      editOpen := true;
    }

    /** `openDeleteConfirm`: close the detail dialog and ask for confirmation. */
    method OpenDeleteConfirm()
      modifies this
      ensures !detailOpen && deleteConfirmOpen
      ensures editOpen == old(editOpen) && isDeleting == old(isDeleting)
    {
      detailOpen := false;
      deleteConfirmOpen := true;
    }

    /** The confirmation dialog's Cancel button. */
    method CancelDelete()
      modifies this
      ensures !deleteConfirmOpen
      ensures detailOpen == old(detailOpen) && editOpen == old(editOpen) && isDeleting == old(isDeleting)
    {
      deleteConfirmOpen := false;
    }

    /** `handleDelete` up to the `await`: mark the delete as in flight. */
    method BeginDelete()
      modifies this
      ensures isDeleting
      ensures detailOpen == old(detailOpen) && editOpen == old(editOpen)
      ensures deleteConfirmOpen == old(deleteConfirmOpen)
    {
      isDeleting := true;
    }

    /** `handleDelete` after the `await`: clear the flag; close the confirmation only on success. */
    method CompleteDelete(error: Option<string>) returns (toast: Toast)
      modifies this
      ensures !isDeleting
      ensures deleteConfirmOpen == (old(deleteConfirmOpen) && error.Some?)
      ensures detailOpen == old(detailOpen) && editOpen == old(editOpen)
      ensures toast == DeleteToast(species, error)
    {
      isDeleting := false;
      if error.Some? {
        toast := DeleteToast(species, error);
        return;
      }
      deleteConfirmOpen := false;
      toast := DeleteToast(species, error);
    }

    /** `handleDelete`, with the backend's answer given as `error`. */
    method HandleDelete(error: Option<string>) returns (toast: Toast)
      modifies this
      ensures !isDeleting
      ensures error.Some? ==> deleteConfirmOpen == old(deleteConfirmOpen)
      ensures error.None? ==> !deleteConfirmOpen
      ensures detailOpen == old(detailOpen) && editOpen == old(editOpen)
      ensures toast == DeleteToast(species, error)
    {
      BeginDelete();
      toast := CompleteDelete(error);
    }
  }
}
