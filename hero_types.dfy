/**
 * The entities shared by the backend and the frontend: the three universes a
 * hero belongs to, the three account roles, the hero record (with and without
 * its `_id`) and the user record the frontend keeps after logging in.
 * Timestamps are integers (milliseconds); `new Date()` is not modelled.
 */
module HeroTypes {

  import opened Common

  /** The `univers` enumeration of the hero schema. */
  datatype Universe = Marvel | DC | Autre

  function UniverseName(u: Universe): (r: string)
    ensures |r| >= 2
  {
    match u
    case Marvel => "Marvel"
    case DC => "DC"
    case Autre => "Autre"
  }

  /** The inverse of `UniverseName`: the one universe a string spells, if any. */
  function ParseUniverse(s: string): (r: Option<Universe>)
  {
    if s == "Marvel" then Some(Marvel)
    else if s == "DC" then Some(DC)
    else if s == "Autre" then Some(Autre)
    else None
  }

  lemma UniverseNameRoundTrip(u: Universe)
    ensures ParseUniverse(UniverseName(u)) == Some(u)
  {
  }

  /** Only the three names parse, and each parses to the universe it names. */
  lemma ParseUniverseInverse(s: string)
    ensures ParseUniverse(s).Some? <==> s in {"Marvel", "DC", "Autre"}
    ensures ParseUniverse(s).Some? ==> UniverseName(ParseUniverse(s).value) == s
  {
  }

  /** The account roles, weakest last. */
  datatype Role = Admin | Editor | Viewer

  function RoleName(r: Role): (s: string)
  {
    match r
    case Admin => "admin"
    case Editor => "editor"
    case Viewer => "viewer"
  }

  lemma RoleNameInjective(a: Role, b: Role)
    ensures RoleName(a) == RoleName(b) ==> a == b
  {
  }

  /** A hero as the API returns it, `_id` included. */
  datatype Hero = Hero(
    id: string,
    nom: string,
    alias: string,
    univers: Universe,
    pouvoirs: seq<string>,
    description: string,
    image: string,
    origine: string,
    premiereApparition: string,
    createdAt: int,
    updatedAt: int)

  /** A hero document without `_id`, as handed to the hero collection. */
  datatype HeroDoc = HeroDoc(
    nom: string,
    alias: string,
    univers: Universe,
    pouvoirs: seq<string>,
    description: string,
    image: string,
    origine: string,
    premiereApparition: string,
    createdAt: int,
    updatedAt: int)

  /** The user the frontend holds once authenticated. */
  datatype User = User(id: string, username: string, name: string, email: string, role: Role)
}
