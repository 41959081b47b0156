/**
 * The decisions of the hero card (frontend/src/components/HeroCard.tsx):
 * the URL an image is shown from, the colour of the universe label, the
 * truncated list of powers and which actions a user is offered. Rendering
 * itself, the image error fallback and the confirmation dialog are not
 * modelled; the answer of the dialog is a parameter.
 */
module HeroCard {

  import opened Common
  import opened Strings
  import opened HeroTypes
  import RoleMiddleware
  import DataTransformer
  import HeroController

  // ---------------------------------------------------------------------
  // getImageSrc
  // ---------------------------------------------------------------------

  /** Where relative image paths of the public hero data set are served. */
  const ImageHost: string := "https://" + "raw.githubusercontent.com/akabab/superhero-api/master/api/images/"

  /** A URL the browser can load as it is: absolute or from the backend's root. */
  predicate IsLoadable(image: string) {
    StartsWith(image, "http://") || StartsWith(image, "https://") || StartsWith(image, "/")
  }

  /** `getImageSrc(image)`; an absent image is the empty string. */
  function GetImageSrc(image: string): (r: string)
    ensures r == "" <==> image == ""
    ensures image != "" ==> IsLoadable(r) && EndsWith(r, image)
  {
    if image == "" then ""
    else if StartsWith(image, "http://") || StartsWith(image, "https://") then image
    else if StartsWith(image, "/") then image
    else
      var r := ImageHost + image;
      assert ImageHost[..8] == "https://";
      assert r[..8] == ImageHost[..8];
      assert r[|r| - |image|..] == image;
      r
  }

  /** The three cases: no image, a loadable URL kept as it is, and a relative
      path put under the image host. */
  lemma GetImageSrcCases(image: string)
    ensures image == "" ==> GetImageSrc(image) == ""
    ensures IsLoadable(image) ==> GetImageSrc(image) == image
    ensures image != "" && !IsLoadable(image) ==> GetImageSrc(image) == ImageHost + image
  {
  }

  /** Normalising twice is normalising once. */
  lemma GetImageSrcIdempotent(image: string)
    ensures GetImageSrc(GetImageSrc(image)) == GetImageSrc(image)
  {
    if image != "" {
      assert IsLoadable(GetImageSrc(image));
    }
  }

  /** The image the data transformer produces is shown as it is. */
  lemma TransformedImageShown(raw: DataTransformer.RawHero, c: int, u: int)
    requires DataTransformer.Transformable(raw)
    ensures var image := DataTransformer.TransformHeroData(raw, c, u).value.image;
      GetImageSrc(image) == image
  {
    var image := DataTransformer.TransformHeroData(raw, c, u).value.image;
    var images := raw.images.value;
    assert image == DataTransformer.ImageUrl(images);
    if image != "" {
      var rest := if images.md.Truthy() then images.md.s else images.lg.s;
      assert image == DataTransformer.ImageBase + rest;
      assert DataTransformer.ImageBase[..8] == "https://";
      assert image[..8] == DataTransformer.ImageBase[..8];
    }
  }

  /** An uploaded image, stored by the backend under "/uploads/", is shown as
      it is. */
  lemma UploadedImageShown(filename: string)
    ensures GetImageSrc(HeroController.UploadsPrefix + filename) == HeroController.UploadsPrefix + filename
  {
    assert (HeroController.UploadsPrefix + filename)[..1] == "/";
  }

  // ---------------------------------------------------------------------
  // getUniversColor
  // ---------------------------------------------------------------------

  const MarvelColor: string := "bg-red-100 text-red-800"
  const DCColor: string := "bg-blue-100 text-blue-800"
  const OtherColor: string := "bg-gray-100 text-gray-800"

  /** `getUniversColor(univers)`: red for Marvel, blue for DC, gray otherwise. */
  function UniversColor(univers: string): (r: string)
    ensures r == MarvelColor <==> univers == "Marvel"
    ensures r == DCColor <==> univers == "DC"
    ensures r == OtherColor <==> univers != "Marvel" && univers != "DC"
  {
    match univers
    case "Marvel" => MarvelColor
    case "DC" => DCColor
    case _ => OtherColor
  }

  /** Each universe of a hero gets a colour of its own. */
  lemma UniverseColorsDistinct(a: Universe, b: Universe)
    ensures UniversColor(UniverseName(a)) == UniversColor(UniverseName(b)) <==> a == b
  {
  }

  // ---------------------------------------------------------------------
  // The powers shown
  // ---------------------------------------------------------------------

  /** The chips shown and the "+n autres" note, when there is one. */
  datatype PowerDisplay = PowerDisplay(chips: seq<string>, more: Option<string>)

  function Min(a: int, b: int): int {
    if a <= b then a else b
  }

  /** `pouvoirs.slice(0, 3)` and the note shown when there are more than three. */
  function PowerDisplayOf(pouvoirs: seq<string>): (r: PowerDisplay)
    ensures |r.chips| == Min(3, |pouvoirs|)
    ensures r.chips == pouvoirs[..|r.chips|]
    ensures r.more.Some? <==> |pouvoirs| > 3
    ensures r.more.Some? ==> r.more.value == "+" + IntToString(|pouvoirs| - 3) + " autres"
  {
    var chips := if |pouvoirs| <= 3 then pouvoirs else pouvoirs[..3];
    var more := if |pouvoirs| > 3 then Some("+" + IntToString(|pouvoirs| - 3) + " autres") else None;
    PowerDisplay(chips, more)
  }

  /** The note counts exactly the powers that are not shown. */
  lemma NoteCountsHidden(pouvoirs: seq<string>)
    requires |pouvoirs| > 3
    ensures var r := PowerDisplayOf(pouvoirs);
      var hidden := ParseDecimal(r.more.value[1..|r.more.value| - 7]);
      |r.chips| + hidden == |pouvoirs| && pouvoirs == r.chips + pouvoirs[3..] && hidden == |pouvoirs[3..]|
  {
    var n := IntToString(|pouvoirs| - 3);
    var note := "+" + n + " autres";
    assert note[1..|note| - 7] == n;
    IntToStringRoundTrip(|pouvoirs| - 3);
  }

  // ---------------------------------------------------------------------
  // The actions offered
  // ---------------------------------------------------------------------

  /** The edit link: for a logged-in admin or editor. */
  predicate ShowsEdit(user: Option<User>) {
    user.Some? && (user.value.role == Admin || user.value.role == Editor)
  }

  /** The delete button: for a logged-in admin only. */
  predicate ShowsDelete(user: Option<User>) {
    user.Some? && user.value.role == Admin
  }

  /** The card offers an action exactly when the backend route behind it
      would let the user through; nobody logged in is offered neither. */
  lemma ActionsMatchRoutes(user: Option<User>)
    ensures user.None? ==> !ShowsEdit(user) && !ShowsDelete(user)
    ensures user.Some? ==>
      (ShowsEdit(user) <==>
        RoleMiddleware.RouteGate(RoleMiddleware.UpdateHero,
                                 Some(RoleMiddleware.AuthUser(RoleName(user.value.role)))).Next?)
    ensures user.Some? ==>
      (ShowsDelete(user) <==>
        RoleMiddleware.RouteGate(RoleMiddleware.DeleteHero,
                                 Some(RoleMiddleware.AuthUser(RoleName(user.value.role)))).Next?)
    ensures ShowsDelete(user) ==> ShowsEdit(user)
  {
    if user.Some? {
      RoleMiddleware.RouteAccess(RoleMiddleware.UpdateHero, user.value.role);
      RoleMiddleware.RouteAccess(RoleMiddleware.DeleteHero, user.value.role);
    }
  }

  /** `handleDelete`: the `_id` handed to `onDelete`, only once confirmed. */
  function DeleteRequest(hero: Hero, confirmed: bool): (r: Option<string>)
    ensures r.Some? <==> confirmed
    ensures r.Some? ==> r.value == hero.id
  {
    if confirmed then Some(hero.id) else None
  }
}
