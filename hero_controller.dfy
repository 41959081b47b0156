/**
 * The logic of backend/src/controllers/heroController.ts that does not go
 * through MongoDB: the mock-data branch of `getHeroes`, the query and sort
 * documents built for `Hero.find(query).sort(sortOptions)`, and the rule for
 * the `image` field in `createHero` and `updateHero`. Query parameters that
 * are absent are the empty string; request bodies are maps from field names
 * to string values.
 */
module HeroController {

  import opened Common
  import opened HeroTypes
  import opened HeroQuery

  // ---------------------------------------------------------------------
  // getHeroes, mock branch
  // ---------------------------------------------------------------------

  /** `let filtered = [...mockHeroes]` and the steps that reassign it. The
      mock list is a value here, so it cannot be changed by the sort. */
  method GetHeroesMock(mockHeroes: seq<Hero>, search: string, univers: string, sortBy: string,
                       collate: (string, string) -> int)
    returns (filtered: seq<Hero>)
    ensures filtered == FilterAndSort(mockHeroes, search, univers, sortBy, collate)
  {
    filtered := mockHeroes;
    if search != "" {
      filtered := Filter(filtered, SearchTest(search));
    }
    assert filtered == SearchStep(mockHeroes, search);
    if univers != "" {
      filtered := Filter(filtered, UniversTest(univers));
    }
    TwoStepsSelect(mockHeroes, search, univers);
    assert filtered == Selected(mockHeroes, search, univers);
    filtered := SortStep(filtered, sortBy, collate);
  }

  // ---------------------------------------------------------------------
  // getHeroes, MongoDB branch: the query and the sort options
  // ---------------------------------------------------------------------

  /** `{ field: { $regex: pattern, $options: options } }`. */
  datatype RegexClause = RegexClause(field: string, pattern: string, options: string)

  /** The query document: `$or` and `univers` are present or absent. */
  datatype Query = Query(or: Option<seq<RegexClause>>, univers: Option<string>)

  /** The sort document: `nom` and `createdAt` are present or absent. */
  datatype SortOptions = SortOptions(nom: Option<int>, createdAt: Option<int>)

  /** `let query = {}` and the two conditional field assignments. */
  method BuildQuery(search: string, univers: string) returns (query: Query)
    ensures query.or.Some? <==> search != ""
    ensures query.or.Some? ==>
      query.or.value == [RegexClause("nom", search, "i"), RegexClause("alias", search, "i")]
    ensures query.univers.Some? <==> univers != ""
    ensures query.univers.Some? ==> query.univers.value == univers
  {
    query := Query(None, None);
    if search != "" {
      query := query.(or := Some([RegexClause("nom", search, "i"), RegexClause("alias", search, "i")]));
    }
    if univers != "" {
      query := query.(univers := Some(univers));
    }
  }

  /** `let sortOptions = {}` and the conditional field assignment. */
  method BuildSortOptions(sortBy: string) returns (options: SortOptions)
    ensures options.nom.Some? <==> SortKeyOf(sortBy) == ByName
    ensures options.createdAt.Some? <==> SortKeyOf(sortBy) == ByDate
    ensures options.nom.Some? ==> options.nom.value == 1
    ensures options.createdAt.Some? ==> options.createdAt.value == -1
  {
    options := SortOptions(None, None);
    if sortBy == "name" {
      options := options.(nom := Some(1));
    } else if sortBy == "date" {
      options := options.(createdAt := Some(-1));
    }
  }

  // ---------------------------------------------------------------------
  // createHero and updateHero: the image field
  // ---------------------------------------------------------------------

  const UploadsPrefix: string := "/uploads/"

  /** The body of `createHero` with `image` set from the uploaded file name,
      or to "" when nothing was uploaded, whatever the body says. */
  function CreateHeroData(body: map<string, string>, upload: Option<string>): (r: map<string, string>)
    ensures "image" in r
    ensures r["image"] == if upload.Some? then UploadsPrefix + upload.value else ""
    ensures r.Keys == body.Keys + {"image"}
    ensures forall k :: k in body && k != "image" ==> r[k] == body[k]
  {
    body["image" := if upload.Some? then UploadsPrefix + upload.value else ""]
  }

  /** The body of `updateHero`: `image` is replaced only when a file came with
      the request; otherwise the body passes through unchanged. */
  function UpdateHeroData(body: map<string, string>, upload: Option<string>): (r: map<string, string>)
    ensures upload.None? ==> r == body
    ensures upload.Some? ==> "image" in r && r["image"] == UploadsPrefix + upload.value
    ensures forall k :: k in body && k != "image" ==> k in r && r[k] == body[k]
    ensures r.Keys == if upload.Some? then body.Keys + {"image"} else body.Keys
  {
    if upload.Some? then body["image" := UploadsPrefix + upload.value] else body
  }

  /** With a file, creating and updating store the same image; without one,
      creating clears it while updating keeps whatever image the body names. */
  lemma CreateAndUpdateAgree(body: map<string, string>, upload: Option<string>)
    ensures upload.Some? ==> CreateHeroData(body, upload) == UpdateHeroData(body, upload)
    ensures upload.None? && "image" in body ==>
      UpdateHeroData(body, upload)["image"] == body["image"] && CreateHeroData(body, upload)["image"] == ""
  {
  }
}
