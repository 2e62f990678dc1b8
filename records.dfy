/** The rows the application reads from its backend, and the notifications it shows. */
module Records {
  import opened Optional

  /** The six kingdoms of the species table's enum. */
  datatype Kingdom = Animalia | Plantae | Fungi | Protista | Archaea | Bacteria

  /** The embedded author profile (`display_name`, `email`). */
  datatype Profile = Profile(displayName: string, email: string)

  /** A species row with its author's profile embedded; `None` stands for SQL null. */
  datatype Species = Species(
    id: int,
    scientificName: string,
    commonName: Option<string>,
    kingdom: Kingdom,
    totalPopulation: Option<int>,
    image: Option<string>,
    description: Option<string>,
    endangered: Option<bool>,
    author: string,
    profiles: Option<Profile>)

  /** A toast notification; `destructive` is the red error variant. */
  datatype Toast = Toast(title: string, description: string, destructive: bool)
}
