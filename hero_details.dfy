/**
 * The hero details page (frontend/src/pages/HeroDetails.tsx): its own copy of
 * the image URL rule, the universe badge, the actions offered, the "modified"
 * line, and the page state driven by loading the hero and by the delete
 * button. The answers of the hero API and of the confirmation dialog are
 * parameters; navigation is recorded as the path navigated to.
 */
module HeroDetails {

  import opened Common
  import opened Strings
  import opened HeroTypes
  import HeroCard
  import DataTransformer
  import Db
  import Storage

  /** `getImageSrc`, written out again on this page. */
  function GetImageSrc(image: string): (r: string)
    ensures r == HeroCard.GetImageSrc(image)
  {
    if image == "" then ""
    else if StartsWith(image, "http://") || StartsWith(image, "https://") then image
    else if StartsWith(image, "/") then image
    else HeroCard.ImageHost + image
  }

  const MarvelBadge: string := "bg-red-500"
  const DCBadge: string := "bg-blue-500"
  const OtherBadge: string := "bg-gray-500"

  /** `getUniversColor` of the badge: red for Marvel, blue for DC, gray otherwise. */
  function BadgeColor(univers: string): (r: string)
    ensures r == MarvelBadge <==> univers == "Marvel"
    ensures r == DCBadge <==> univers == "DC"
    ensures r == OtherBadge <==> univers != "Marvel" && univers != "DC"
  {
    match univers
    case "Marvel" => MarvelBadge
    case "DC" => DCBadge
    case _ => OtherBadge
  }

  /** The badge and the card label agree on which universe is which colour. */
  lemma BadgeFollowsCard(univers: string)
    ensures BadgeColor(univers) == MarvelBadge <==> HeroCard.UniversColor(univers) == HeroCard.MarvelColor
    ensures BadgeColor(univers) == DCBadge <==> HeroCard.UniversColor(univers) == HeroCard.DCColor
    ensures BadgeColor(univers) == OtherBadge <==> HeroCard.UniversColor(univers) == HeroCard.OtherColor
  {
  }

  /** The edit link of the page: for a logged-in admin or editor. */
  predicate ShowsEdit(user: Option<User>) {
    user.Some? && (user.value.role == Admin || user.value.role == Editor)
  }

  /** The delete button of the page: for a logged-in admin only. */
  predicate ShowsDelete(user: Option<User>) {
    user.Some? && user.value.role == Admin
  }

  /** The page offers the same actions as the card, to the same users. */
  lemma ActionsAsOnCard(user: Option<User>)
    ensures ShowsEdit(user) <==> HeroCard.ShowsEdit(user)
    ensures ShowsDelete(user) <==> HeroCard.ShowsDelete(user)
    ensures ShowsDelete(user) ==> ShowsEdit(user)
  {
  }

  /** The "Modifié le" line. */
  predicate ShowsModified(h: Hero) {
    h.updatedAt != h.createdAt
  }

  /** A hero fresh from the loader shows the line exactly when the two clock
      readings taken for it differ, and the document stored for it, with the
      defaults filled in and the names trimmed, keeps both timestamps. */
  lemma ModifiedLine(raw: DataTransformer.RawHero, c: int, u: int)
    requires DataTransformer.Transformable(raw)
    ensures ShowsModified(DataTransformer.TransformHeroData(raw, c, u).value) <==> c != u
    ensures var d := Storage.Cast(Db.FillDefaults(DataTransformer.TransformHeroData(raw, c, u).value));
      d.createdAt == c && d.updatedAt == u
  {
    var h := DataTransformer.TransformHeroData(raw, c, u).value;
    Db.FillDefaultsProperties(h);
    Storage.CastProperties(Db.FillDefaults(h));
  }

  /** What the page renders. */
  datatype PageView = Spinner | NotShown(message: string) | Details(hero: Hero)

  const LoadError: string := "Impossible de charger les détails du héros"
  const NotFound: string := "Héros non trouvé"
  const DeleteError: string := "Erreur lors de la suppression du héros"
  const DashboardPath: string := "/dashboard"

  class HeroDetailsPage {
    var hero: Option<Hero>
    var isLoading: bool
    var error: string
    /** The `_id`s handed to `heroApi.deleteHero`, in order. */
    var deleteCalls: seq<string>
    var navigatedTo: Option<string>
    var alerts: seq<string>

    constructor ()
      ensures hero.None? && isLoading && error == ""
      ensures deleteCalls == [] && navigatedTo.None? && alerts == []
    {
      hero := None;
      isLoading := true;
      error := "";
      deleteCalls := [];
      navigatedTo := None;
      alerts := [];
    }

    /** The render: a spinner while loading, the error or "not found" when
        there is no hero to show, the details otherwise. */
    function View(): (r: PageView)
      reads this
      ensures r.Spinner? <==> isLoading
      ensures r.Details? <==> !isLoading && error == "" && hero.Some?
      ensures r.Details? ==> r.hero == hero.value
      ensures r.NotShown? ==> r.message == if error != "" then error else NotFound
    {
      if isLoading then Spinner
      else if error != "" || hero.None? then NotShown(if error != "" then error else NotFound)
      else Details(hero.value)
    }

    /** The effect on mount: `fetchHero` runs only when the route has an id
        that is not empty; `response` is what `getHeroById` answered, `None`
        when it threw. */
    method Mount(id: Option<string>, response: Option<Hero>)
      modifies this
      ensures (id.None? || id.value == "") ==>
        hero == old(hero) && isLoading == old(isLoading) && error == old(error)
      ensures id.Some? && id.value != "" && response.Some? ==>
        hero == response && error == old(error) && !isLoading
      ensures id.Some? && id.value != "" && response.None? ==>
        hero == old(hero) && error == LoadError && !isLoading
      ensures id.Some? && id.value != "" ==> !View().Spinner?
      ensures id.Some? && id.value != "" && response.Some? && old(error) == "" ==> View() == Details(response.value)
      ensures id.Some? && id.value != "" && response.None? ==> View() == NotShown(LoadError)
      ensures deleteCalls == old(deleteCalls) && navigatedTo == old(navigatedTo) && alerts == old(alerts)
    {
      if id.Some? && id.value != "" {
        if response.Some? {
          hero := response;
        } else {
          error := LoadError;
        }
        isLoading := false;
      }
    }

    /** `handleDelete`: nothing without a hero or without confirmation;
        otherwise the delete call, then the dashboard or an alert. */
    method HandleDelete(confirmed: bool, deleteSucceeds: bool)
      modifies this
      ensures old(hero).None? || !confirmed ==>
        deleteCalls == old(deleteCalls) && navigatedTo == old(navigatedTo) && alerts == old(alerts)
      ensures old(hero).Some? && confirmed ==> deleteCalls == old(deleteCalls) + [old(hero).value.id]
      ensures old(hero).Some? && confirmed && deleteSucceeds ==>
        navigatedTo == Some(DashboardPath) && alerts == old(alerts)
      ensures old(hero).Some? && confirmed && !deleteSucceeds ==>
        navigatedTo == old(navigatedTo) && alerts == old(alerts) + [DeleteError]
      ensures hero == old(hero) && isLoading == old(isLoading) && error == old(error)
    {
      if hero.None? {
        return;
      }
      if confirmed {
        deleteCalls := deleteCalls + [hero.value.id];
        if deleteSucceeds {
          navigatedTo := Some(DashboardPath);
        } else {
          alerts := alerts + [DeleteError];
        }
      }
    }
  }
}
