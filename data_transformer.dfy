/**
 * The data-shaping pipeline that turns the entries of the superhero JSON file
 * into normalized heroes: power tags derived from six stats, the publisher
 * classified into a universe, a French description sentence, the image URL,
 * and the loader that keeps the entries with a name and an id and transforms
 * them in order, giving up with an empty list on any failure.
 */
module DataTransformer {

  import opened Common
  import opened Strings
  import opened HeroTypes

  // ---------------------------------------------------------------------
  // Raw JSON entries
  // ---------------------------------------------------------------------

  datatype PowerStats = PowerStats(intelligence: int, strength: int, speed: int,
                                   durability: int, power: int, combat: int)

  datatype Biography = Biography(fullName: JsText, placeOfBirth: JsText, firstAppearance: JsText,
                                 publisher: JsText, alignment: JsText)

  datatype Work = Work(occupation: JsText)

  datatype Images = Images(md: JsText, lg: JsText)

  /** One entry of the `superheros` array. A missing sub-object is `None`; a
      missing or null `name` is `""` and a missing `id` is `0`, which the loader
      treats alike since both are falsy. */
  datatype RawHero = RawHero(id: int, name: string, powerstats: Option<PowerStats>,
                             biography: Option<Biography>, work: Option<Work>,
                             images: Option<Images>)

  // ---------------------------------------------------------------------
  // Power tags
  // ---------------------------------------------------------------------

  datatype Stat = Intelligence | Strength | Speed | Durability | Power | Combat

  function StatValue(ps: PowerStats, s: Stat): int {
    match s
    case Intelligence => ps.intelligence
    case Strength => ps.strength
    case Speed => ps.speed
    case Durability => ps.durability
    case Power => ps.power
    case Combat => ps.combat
  }

  /** A base tag needs a stat above 70, an extreme tag a stat of at least 90. */
  datatype Tier = Base | Extreme

  predicate Reaches(v: int, tier: Tier) {
    match tier
    case Base => v > 70
    case Extreme => v >= 90
  }

  type TagRule = (Stat, string)

  /** The six base tags, in the order the stats are checked. */
  const BaseTags: seq<TagRule> := [
    (Intelligence, "Intelligence"), (Strength, "Super force"), (Speed, "Super vitesse"),
    (Durability, "Durabilite"), (Power, "Pouvoirs surhumains"), (Combat, "Combat")]

  /** The three extreme tags, checked after all the base tags. */
  const ExtremeTags: seq<TagRule> := [
    (Intelligence, "Genie intellectuel"), (Strength, "Force extreme"), (Speed, "Vitesse supersonique")]

  /** The tag given to a hero with no stat above 70. */
  const FallbackTag: string := "Pouvoirs varies"

  function Names(rules: seq<TagRule>): (r: seq<string>)
    ensures |r| == |rules|
    ensures forall i :: 0 <= i < |rules| ==> r[i] == rules[i].1
  {
    if rules == [] then [] else Names(rules[..|rules| - 1]) + [rules[|rules| - 1].1]
  }

  /** The nine tag names in the order they can be produced. */
  function AllTagNames(): (r: seq<string>)
    ensures |r| == 9
  {
    Names(BaseTags) + Names(ExtremeTags)
  }

  /** One rule's contribution: its name when its stat reaches the tier. */
  function TagIf(rule: TagRule, ps: PowerStats, tier: Tier): seq<string> {
    if Reaches(StatValue(ps, rule.0), tier) then [rule.1] else []
  }

  /** The names of the rules whose stat reaches the tier, in rule order. */
  function TagsOf(rules: seq<TagRule>, ps: PowerStats, tier: Tier): seq<string> {
    if rules == [] then []
    else TagsOf(rules[..|rules| - 1], ps, tier) + TagIf(rules[|rules| - 1], ps, tier)
  }

  /** The earned names are the rule names with some left out, order kept. */
  lemma {:induction false} TagsOfOrdered(rules: seq<TagRule>, ps: PowerStats, tier: Tier)
    ensures IsSubsequence(TagsOf(rules, ps, tier), Names(rules))
    ensures forall t :: t in TagsOf(rules, ps, tier) ==> t in Names(rules)
  {
    if rules != [] {
      var init, last := rules[..|rules| - 1], rules[|rules| - 1];
      TagsOfOrdered(init, ps, tier);
      assert Names(rules) == Names(init) + [last.1];
      assert IsSubsequence(TagIf(last, ps, tier), [last.1]);
      SubsequenceAppend(TagsOf(init, ps, tier), Names(init), TagIf(last, ps, tier), [last.1]);
    }
    SubsequenceElements(TagsOf(rules, ps, tier), Names(rules));
  }

  /** The tags a hero's stats earn: base tags, then extreme tags. */
  function EarnedTags(ps: PowerStats): seq<string> {
    TagsOf(BaseTags, ps, Base) + TagsOf(ExtremeTags, ps, Extreme)
  }

  /** The powers list of a transformed hero. */
  function PowerTags(ps: PowerStats): seq<string> {
    if EarnedTags(ps) == [] then [FallbackTag] else EarnedTags(ps)
  }

  predicate AllAtMost70(ps: PowerStats) {
    ps.intelligence <= 70 && ps.strength <= 70 && ps.speed <= 70
    && ps.durability <= 70 && ps.power <= 70 && ps.combat <= 70
  }

  /** Checking one more rule appends that rule's tag, if any. */
  lemma TagsOfStep(rules: seq<TagRule>, k: nat, ps: PowerStats, tier: Tier)
    requires 0 < k <= |rules|
    ensures TagsOf(rules[..k], ps, tier) == TagsOf(rules[..k - 1], ps, tier) + TagIf(rules[k - 1], ps, tier)
  {
    assert rules[..k][..k - 1] == rules[..k - 1];
  }

  /** Lines 54-59 of `extractPowers`: the six base checks, in stat order. */
  method PushBaseTags(ps: PowerStats) returns (powers: seq<string>)
    ensures powers == TagsOf(BaseTags, ps, Base)
  {
    var b := BaseTags;
    powers := [];
    assert powers == TagsOf(b[..0], ps, Base);
    if ps.intelligence > 70 { powers := powers + ["Intelligence"]; }
    TagsOfStep(b, 1, ps, Base);
    assert powers == TagsOf(b[..1], ps, Base);
    if ps.strength > 70 { powers := powers + ["Super force"]; }
    TagsOfStep(b, 2, ps, Base);
    assert powers == TagsOf(b[..2], ps, Base);
    if ps.speed > 70 { powers := powers + ["Super vitesse"]; }
    TagsOfStep(b, 3, ps, Base);
    assert powers == TagsOf(b[..3], ps, Base);
    if ps.durability > 70 { powers := powers + ["Durabilite"]; }
    TagsOfStep(b, 4, ps, Base);
    assert powers == TagsOf(b[..4], ps, Base);
    if ps.power > 70 { powers := powers + ["Pouvoirs surhumains"]; }
    TagsOfStep(b, 5, ps, Base);
    assert powers == TagsOf(b[..5], ps, Base);
    if ps.combat > 70 { powers := powers + ["Combat"]; }
    TagsOfStep(b, 6, ps, Base);
    assert b[..6] == b;
  }

  /** Lines 62-64 of `extractPowers`: the three extreme checks, pushed after the base tags. */
  method PushExtremeTags(ps: PowerStats, base: seq<string>) returns (powers: seq<string>)
    ensures powers == base + TagsOf(ExtremeTags, ps, Extreme)
  {
    var e := ExtremeTags;
    powers := base;
    assert powers == base + TagsOf(e[..0], ps, Extreme);
    if ps.intelligence >= 90 { powers := powers + ["Genie intellectuel"]; }
    TagsOfStep(e, 1, ps, Extreme);
    assert powers == base + TagsOf(e[..1], ps, Extreme);
    if ps.strength >= 90 { powers := powers + ["Force extreme"]; }
    TagsOfStep(e, 2, ps, Extreme);
    assert powers == base + TagsOf(e[..2], ps, Extreme);
    if ps.speed >= 90 { powers := powers + ["Vitesse supersonique"]; }
    TagsOfStep(e, 3, ps, Extreme);
    assert e[..3] == e;
  }

  /** `extractPowers`: the base tags, then the extreme tags, then the fallback
      when nothing was pushed. */
  method ExtractPowers(ps: PowerStats) returns (powers: seq<string>)
    ensures powers == PowerTags(ps)
  {
    powers := PushBaseTags(ps);
    powers := PushExtremeTags(ps, powers);
    if |powers| == 0 {
      powers := [FallbackTag];
    }
  }

  lemma {:induction false} NoTagReached(rules: seq<TagRule>, ps: PowerStats, tier: Tier)
    requires forall i :: 0 <= i < |rules| ==> !Reaches(StatValue(ps, rules[i].0), tier)
    ensures TagsOf(rules, ps, tier) == []
  {
    if rules != [] {
      NoTagReached(rules[..|rules| - 1], ps, tier);
    }
  }

  /** The fallback is given exactly when no stat is above 70. */
  lemma FallbackIffAllLow(ps: PowerStats)
    ensures PowerTags(ps) == [FallbackTag] <==> AllAtMost70(ps)
    ensures |PowerTags(ps)| >= 1
  {
    if AllAtMost70(ps) {
      var b, e := BaseTags, ExtremeTags;
      assert b[0].0 == Intelligence && b[1].0 == Strength && b[2].0 == Speed;
      assert b[3].0 == Durability && b[4].0 == Power && b[5].0 == Combat;
      assert e[0].0 == Intelligence && e[1].0 == Strength && e[2].0 == Speed;
      NoTagReached(b, ps, Base);
      NoTagReached(e, ps, Extreme);
    } else {
      TagPresence(ps);
      NamesDistinct();
      var i :| 0 <= i < 6 && StatValue(ps, BaseTags[i].0) > 70 by {
        var b := BaseTags;
        assert b[0].0 == Intelligence && b[1].0 == Strength && b[2].0 == Speed;
        assert b[3].0 == Durability && b[4].0 == Power && b[5].0 == Combat;
      }
      assert BaseTags[i].1 in PowerTags(ps);
      assert BaseTags[i].1 == AllTagNames()[i];
    }
  }

  lemma {:induction false} NamesDistinct()
    ensures Distinct(AllTagNames())
    ensures FallbackTag !in AllTagNames()
  {
    var n := AllTagNames();
    assert n == ["Intelligence", "Super force", "Super vitesse", "Durabilite", "Pouvoirs surhumains",
                 "Combat", "Genie intellectuel", "Force extreme", "Vitesse supersonique"];
  }

  /** The earned tags come in the fixed order of the nine names. */
  lemma EarnedInOrder(ps: PowerStats)
    ensures IsSubsequence(EarnedTags(ps), AllTagNames())
  {
    TagsOfOrdered(BaseTags, ps, Base);
    TagsOfOrdered(ExtremeTags, ps, Extreme);
    SubsequenceAppend(TagsOf(BaseTags, ps, Base), Names(BaseTags),
                      TagsOf(ExtremeTags, ps, Extreme), Names(ExtremeTags));
  }

  /** At most nine tags, none twice, and the fallback never beside another tag. */
  lemma PowerTagsShape(ps: PowerStats)
    ensures Distinct(PowerTags(ps))
    ensures |PowerTags(ps)| <= 9
    ensures FallbackTag in PowerTags(ps) ==> PowerTags(ps) == [FallbackTag]
  {
    EarnedInOrder(ps);
    NamesDistinct();
    SubsequenceOfDistinct(EarnedTags(ps), AllTagNames());
    SubsequenceLength(EarnedTags(ps), AllTagNames());
    SubsequenceElements(EarnedTags(ps), AllTagNames());
  }

  lemma {:induction false} TagOfRule(rules: seq<TagRule>, ps: PowerStats, tier: Tier, i: nat)
    requires i < |rules| && Distinct(Names(rules))
    ensures rules[i].1 in TagsOf(rules, ps, tier) <==> Reaches(StatValue(ps, rules[i].0), tier)
  {
    var n := |rules|;
    var init, last := rules[..n - 1], rules[n - 1];
    var names := Names(rules);
    assert TagsOf(rules, ps, tier) == TagsOf(init, ps, tier) + TagIf(last, ps, tier);
    assert Distinct(Names(init)) by {
      forall a, b | 0 <= a < b < n - 1 ensures Names(init)[a] != Names(init)[b] {
        assert names[a] != names[b];
      }
    }
    if i == n - 1 {
      TagsOfOrdered(init, ps, tier);
      assert last.1 !in Names(init) by {
        forall a | 0 <= a < n - 1 ensures Names(init)[a] != last.1 {
          assert names[a] != names[n - 1];
        }
      }
    } else {
      TagOfRule(init, ps, tier, i);
      assert init[i] == rules[i];
      assert names[i] != names[n - 1];
    }
  }

  /** Each base tag is present exactly when its stat is above 70, and each
      extreme tag exactly when its stat is at least 90. */
  lemma TagPresence(ps: PowerStats)
    ensures forall i :: 0 <= i < |BaseTags| ==>
      (BaseTags[i].1 in PowerTags(ps) <==> StatValue(ps, BaseTags[i].0) > 70)
    ensures forall i :: 0 <= i < |ExtremeTags| ==>
      (ExtremeTags[i].1 in PowerTags(ps) <==> StatValue(ps, ExtremeTags[i].0) >= 90)
  {
    TagsOfOrdered(BaseTags, ps, Base);
    TagsOfOrdered(ExtremeTags, ps, Extreme);
    NamesDistinct();
    var nb, ne := Names(BaseTags), Names(ExtremeTags);
    assert AllTagNames() == nb + ne;
    assert Distinct(nb) by {
      forall a, b | 0 <= a < b < |nb| ensures nb[a] != nb[b] {
        assert AllTagNames()[a] == nb[a] && AllTagNames()[b] == nb[b];
      }
    }
    assert Distinct(ne) by {
      forall a, b | 0 <= a < b < |ne| ensures ne[a] != ne[b] {
        assert AllTagNames()[6 + a] == ne[a] && AllTagNames()[6 + b] == ne[b];
      }
    }
    forall i | 0 <= i < |BaseTags|
      ensures BaseTags[i].1 in PowerTags(ps) <==> StatValue(ps, BaseTags[i].0) > 70
    {
      TagOfRule(BaseTags, ps, Base, i);
      assert nb[i] !in ne by {
        forall j | 0 <= j < |ne| ensures ne[j] != nb[i] {
          assert AllTagNames()[6 + j] == ne[j] && AllTagNames()[i] == nb[i];
        }
      }
      assert BaseTags[i].1 != FallbackTag by { assert AllTagNames()[i] == nb[i]; }
    }
    forall i | 0 <= i < |ExtremeTags|
      ensures ExtremeTags[i].1 in PowerTags(ps) <==> StatValue(ps, ExtremeTags[i].0) >= 90
    {
      TagOfRule(ExtremeTags, ps, Extreme, i);
      assert ne[i] !in nb by {
        forall j | 0 <= j < |nb| ensures nb[j] != ne[i] {
          assert AllTagNames()[6 + i] == ne[i] && AllTagNames()[j] == nb[j];
        }
      }
      assert ExtremeTags[i].1 != FallbackTag by { assert AllTagNames()[6 + i] == ne[i]; }
    }
  }

  /** A stat of at least 90 earns the stat's base tag and its extreme tag. */
  lemma VeryHighStatGivesBoth(ps: PowerStats)
    ensures ps.intelligence >= 90 ==> "Intelligence" in PowerTags(ps) && "Genie intellectuel" in PowerTags(ps)
    ensures ps.strength >= 90 ==> "Super force" in PowerTags(ps) && "Force extreme" in PowerTags(ps)
    ensures ps.speed >= 90 ==> "Super vitesse" in PowerTags(ps) && "Vitesse supersonique" in PowerTags(ps)
  {
    TagPresence(ps);
    assert BaseTags[0] == (Intelligence, "Intelligence") && ExtremeTags[0] == (Intelligence, "Genie intellectuel");
    assert BaseTags[1] == (Strength, "Super force") && ExtremeTags[1] == (Strength, "Force extreme");
    assert BaseTags[2] == (Speed, "Super vitesse") && ExtremeTags[2] == (Speed, "Vitesse supersonique");
  }

  // ---------------------------------------------------------------------
  // Universe
  // ---------------------------------------------------------------------

  const MarvelKeywords: seq<string> := ["Marvel Comics", "Marvel", "Timely Comics", "Atlas Comics"]
  const DCKeywords: seq<string> := ["DC Comics", "DC", "Detective Comics", "All-American Publications"]

  /** `keywords.some(k => text.includes(k.toLowerCase()))`. */
  predicate AnyKeyword(text: string, keywords: seq<string>)
  {
    exists i :: 0 <= i < |keywords| && Contains(text, ToLower(keywords[i]))
  }

  /** `normalizeUniverse`: case-insensitive keyword search, Marvel first. */
  function NormalizeUniverse(publisher: JsText): Universe {
    if !publisher.Truthy() then Autre
    else if AnyKeyword(ToLower(publisher.s), MarvelKeywords) then Marvel
    else if AnyKeyword(ToLower(publisher.s), DCKeywords) then DC
    else Autre
  }

  lemma MarvelKeywordsLowered()
    ensures ToLower(MarvelKeywords[0]) == "marvel comics"
    ensures ToLower(MarvelKeywords[1]) == "marvel"
    ensures ToLower(MarvelKeywords[2]) == "timely comics"
    ensures ToLower(MarvelKeywords[3]) == "atlas comics"
  {
  }

  lemma DCKeywordsLowered()
    ensures ToLower(DCKeywords[0]) == "dc comics"
    ensures ToLower(DCKeywords[1]) == "dc"
    ensures ToLower(DCKeywords[2]) == "detective comics"
    ensures ToLower(DCKeywords[3]) == "all-american publications"
  {
    PublisherLowered();
  }

  lemma PublisherLowered()
    ensures ToLower("All-American Publications") == "all-american publications"
  {
  }

  /** The Marvel test reduces to three substrings, since "marvel comics" contains "marvel". */
  lemma MarvelTest(t: string)
    ensures AnyKeyword(t, MarvelKeywords) <==>
      Contains(t, "marvel") || Contains(t, "timely comics") || Contains(t, "atlas comics")
  {
    MarvelKeywordsLowered();
    if Contains(t, "marvel comics") {
      assert StartsWith("marvel comics", "marvel");
      ContainsTransitive(t, "marvel comics", "marvel");
    }
    if Contains(t, "marvel") {
      assert Contains(t, ToLower(MarvelKeywords[1]));
    } else if Contains(t, "timely comics") {
      assert Contains(t, ToLower(MarvelKeywords[2]));
    } else if Contains(t, "atlas comics") {
      assert Contains(t, ToLower(MarvelKeywords[3]));
    }
  }

  lemma DCTest(t: string)
    ensures AnyKeyword(t, DCKeywords) <==>
      Contains(t, "dc") || Contains(t, "detective comics") || Contains(t, "all-american publications")
  {
    DCKeywordsLowered();
    if Contains(t, "dc comics") {
      assert StartsWith("dc comics", "dc");
      ContainsTransitive(t, "dc comics", "dc");
    }
    if Contains(t, "dc") {
      assert Contains(t, ToLower(DCKeywords[1]));
    } else if Contains(t, "detective comics") {
      assert Contains(t, ToLower(DCKeywords[2]));
    } else if Contains(t, "all-american publications") {
      assert Contains(t, ToLower(DCKeywords[3]));
    }
  }

  /** The classification, stated on the lower-cased publisher: an empty or
      missing publisher is Autre, a Marvel keyword wins over a DC keyword, and
      "dc" without a Marvel keyword gives DC. */
  lemma UniverseClassification(publisher: JsText)
    ensures !publisher.Truthy() ==> NormalizeUniverse(publisher) == Autre
    ensures publisher.Truthy() ==>
      var t := ToLower(publisher.s);
      var marvel := Contains(t, "marvel") || Contains(t, "timely comics") || Contains(t, "atlas comics");
      var dc := Contains(t, "dc") || Contains(t, "detective comics") || Contains(t, "all-american publications");
      (NormalizeUniverse(publisher) == Marvel <==> marvel) &&
      (NormalizeUniverse(publisher) == DC <==> !marvel && dc) &&
      (NormalizeUniverse(publisher) == Autre <==> !marvel && !dc)
  {
    if publisher.Truthy() {
      MarvelTest(ToLower(publisher.s));
      DCTest(ToLower(publisher.s));
    }
  }

  /** Matching ignores case: lower-casing the publisher changes nothing. */
  lemma UniverseIgnoresCase(p: string)
    ensures NormalizeUniverse(Text(ToLower(p))) == NormalizeUniverse(Text(p))
  {
    ToLowerIdempotent(p);
  }

  // ---------------------------------------------------------------------
  // Description
  // ---------------------------------------------------------------------

  /** `good` is a hero, `bad` a villain, anything else (missing included) an anti-hero. */
  function RoleNoun(alignment: JsText): (r: string)
  {
    if alignment == Text("good") then "heros"
    else if alignment == Text("bad") then "mechant"
    else "anti-heros"
  }

  /** A field worth a clause: a non-empty string other than "-". */
  predicate Informative(v: JsText) {
    v.Truthy() && v.s != "-"
  }

  function Opening(name: string, bio: Biography): string {
    bio.fullName.Or(name) + " est un " + RoleNoun(bio.alignment)
      + " de l'univers " + bio.publisher.Interpolated() + "."
  }

  const OccupationLead: string := " Professionnellement, "
  const OriginLead: string := " Originaire de "

  function OccupationClause(occupation: string): string {
    OccupationLead + ToLower(occupation) + "."
  }

  function OriginClause(place: string): string {
    OriginLead + place + "."
  }

  /** The description sentence of a hero. */
  function DescriptionOf(name: string, bio: Biography, work: Work): string {
    Opening(name, bio)
      + (if Informative(work.occupation) then OccupationClause(work.occupation.s) else "")
      + (if Informative(bio.placeOfBirth) then OriginClause(bio.placeOfBirth.s) else "")
  }

  /** `createDescription`: the opening sentence, then up to two `+=` clauses. */
  method CreateDescription(name: string, bio: Biography, work: Work) returns (description: string)
    ensures description == DescriptionOf(name, bio, work)
  {
    var fullName := bio.fullName.Or(name);
    var alignment := RoleNoun(bio.alignment);
    description := fullName + " est un " + alignment + " de l'univers " + bio.publisher.Interpolated() + ".";
    assert description == Opening(name, bio);
    if work.occupation.Truthy() && work.occupation.s != "-" {
      description := description + (" Professionnellement, " + ToLower(work.occupation.s) + ".");
    }
    assert description == Opening(name, bio)
      + (if Informative(work.occupation) then OccupationClause(work.occupation.s) else "");
    if bio.placeOfBirth.Truthy() && bio.placeOfBirth.s != "-" {
      description := description + (" Originaire de " + bio.placeOfBirth.s + ".");
    }
  }

  lemma ThreeParts(o: string, x: string, y: string)
    ensures StartsWith(o + x + y, o)
    ensures (o + x + y)[|o|..] == x + y
    ensures EndsWith(o + x + y, y)
  {
    assert (o + x + y)[..|o|] == o;
    assert (o + x + y)[|o + x + y| - |y|..] == y;
  }

  lemma OccupationClauseLeads(occupation: string, y: string)
    ensures StartsWith(OccupationClause(occupation) + y, OccupationClause(occupation))
    ensures StartsWith(OccupationClause(occupation) + y, OccupationLead)
  {
    var c := OccupationClause(occupation);
    assert (c + y)[..|c|] == c;
    assert c[..|OccupationLead|] == OccupationLead;
    assert (c + y)[..|OccupationLead|] == c[..|OccupationLead|];
  }

  /** The origin clause cannot be mistaken for the occupation clause. */
  lemma OriginClauseNotOccupation(place: string)
    ensures !StartsWith(OriginClause(place), OccupationLead)
  {
    var c := OriginClause(place);
    assert c[1] == 'O';
    if |OccupationLead| <= |c| {
      assert c[..|OccupationLead|][1] == 'O';
    }
  }

  /** What every description looks like: it opens with the fixed sentence; the
      text after it starts with the occupation clause exactly when the
      occupation is informative; it ends with the origin clause when the place
      of birth is informative, and otherwise stops after the occupation part. */
  lemma DescriptionShape(name: string, bio: Biography, work: Work)
    ensures var r := DescriptionOf(name, bio, work);
      var o := Opening(name, bio);
      StartsWith(r, o) &&
      (StartsWith(r[|o|..], OccupationLead) <==> Informative(work.occupation)) &&
      (Informative(work.occupation) ==> StartsWith(r[|o|..], OccupationClause(work.occupation.s))) &&
      (Informative(bio.placeOfBirth) ==> EndsWith(r, OriginClause(bio.placeOfBirth.s))) &&
      (!Informative(bio.placeOfBirth) ==>
        r == o + (if Informative(work.occupation) then OccupationClause(work.occupation.s) else ""))
  {
    var o := Opening(name, bio);
    var occ := if Informative(work.occupation) then OccupationClause(work.occupation.s) else "";
    var ori := if Informative(bio.placeOfBirth) then OriginClause(bio.placeOfBirth.s) else "";
    assert DescriptionOf(name, bio, work) == o + occ + ori;
    ThreeParts(o, occ, ori);
    if Informative(work.occupation) {
      OccupationClauseLeads(work.occupation.s, ori);
    } else if Informative(bio.placeOfBirth) {
      assert occ + ori == ori;
      OriginClauseNotOccupation(bio.placeOfBirth.s);
    } else {
      assert occ + ori == "";
    }
    if !Informative(bio.placeOfBirth) {
      assert o + occ + ori == o + occ;
    }
  }

  /** The description of the opening sentence alone: both clauses absent. */
  lemma OpeningOnly(name: string, bio: Biography, work: Work)
    requires !Informative(work.occupation) && !Informative(bio.placeOfBirth)
    ensures DescriptionOf(name, bio, work) == Opening(name, bio)
  {
  }

  // ---------------------------------------------------------------------
  // One hero
  // ---------------------------------------------------------------------

  const ImageBase: string := "https://" + "raw.githubusercontent.com/akabab/superhero-api/master/api/images/"

  /** `md || lg` prefixed with the image host, or "" when both are empty. */
  function ImageUrl(images: Images): string {
    if images.md.Truthy() then ImageBase + images.md.s
    else if images.lg.Truthy() then ImageBase + images.lg.s
    else ""
  }

  predicate Transformable(raw: RawHero) {
    raw.powerstats.Some? && raw.biography.Some? && raw.work.Some? && raw.images.Some?
  }

  /** `transformHeroData`; `None` stands for the exception thrown when a
      sub-object it dereferences is missing. The two timestamps are the two
      `new Date()` readings. */
  function TransformHeroData(raw: RawHero, createdAt: int, updatedAt: int): (r: Option<Hero>)
    ensures r.Some? <==> Transformable(raw)
  {
    if !Transformable(raw) then None
    else
      var bio := raw.biography.value;
      Some(Hero(
        id := IntToString(raw.id),
        nom := raw.name,
        alias := bio.fullName.Or(raw.name),
        univers := NormalizeUniverse(bio.publisher),
        pouvoirs := PowerTags(raw.powerstats.value),
        description := DescriptionOf(raw.name, bio, raw.work.value),
        image := ImageUrl(raw.images.value),
        origine := bio.placeOfBirth.Or("Inconnu"),
        premiereApparition := bio.firstAppearance.Or("Inconnue"),
        createdAt := createdAt,
        updatedAt := updatedAt))
  }

  /** The fields of a transformed hero: the id reads back as the source id, the
      image is empty or hangs off the image host, a "-" place of birth is kept,
      and the powers list is never empty. */
  lemma TransformedFields(raw: RawHero, c: int, u: int)
    requires Transformable(raw)
    ensures var h := TransformHeroData(raw, c, u).value;
      IsDecimal(h.id) && ParseDecimal(h.id) == raw.id &&
      h.nom == raw.name &&
      (raw.name != "" ==> h.alias != "") &&
      h.description != "" &&
      (h.image == "" <==> !raw.images.value.md.Truthy() && !raw.images.value.lg.Truthy()) &&
      (h.image != "" ==> StartsWith(h.image, ImageBase)) &&
      (raw.biography.value.placeOfBirth == Text("-") ==> h.origine == "-") &&
      h.origine != "" && h.premiereApparition != "" &&
      |h.pouvoirs| >= 1 &&
      h.createdAt == c && h.updatedAt == u
  {
    IntToStringRoundTrip(raw.id);
    FallbackIffAllLow(raw.powerstats.value);
    DescriptionShape(raw.name, raw.biography.value, raw.work.value);
    var im := raw.images.value;
    if im.md.Truthy() {
      assert (ImageBase + im.md.s)[..|ImageBase|] == ImageBase;
    } else if im.lg.Truthy() {
      assert (ImageBase + im.lg.s)[..|ImageBase|] == ImageBase;
    }
  }

  /** The A-Bomb entry of the data set, with every sub-object present. */
  function ABomb(work: Option<Work>, images: Option<Images>): RawHero {
    RawHero(1, "A-Bomb", Some(PowerStats(38, 100, 17, 80, 24, 64)),
            Some(Biography(Undefined, Text("-"), Undefined, Text("Marvel Comics"), Text("good"))),
            work, images)
  }

  /** Six rules contribute their tags one after the other. */
  lemma TagsOfSix(rules: seq<TagRule>, ps: PowerStats, tier: Tier)
    requires |rules| == 6
    ensures TagsOf(rules, ps, tier) == TagIf(rules[0], ps, tier) + TagIf(rules[1], ps, tier)
      + TagIf(rules[2], ps, tier) + TagIf(rules[3], ps, tier) + TagIf(rules[4], ps, tier)
      + TagIf(rules[5], ps, tier)
  {
    assert rules[..3] + rules[3..] == rules;
    TagsOfThree(rules[..3], ps, tier);
    TagsOfThree(rules[3..], ps, tier);
    TagsOfAppend(rules[..3], rules[3..], ps, tier);
  }

  /** Three rules contribute their tags one after the other. */
  lemma TagsOfThree(rules: seq<TagRule>, ps: PowerStats, tier: Tier)
    requires |rules| == 3
    ensures TagsOf(rules, ps, tier) ==
      TagIf(rules[0], ps, tier) + TagIf(rules[1], ps, tier) + TagIf(rules[2], ps, tier)
  {
    assert rules[..0] == [];
    TagsOfStep(rules, 1, ps, tier);
    TagsOfStep(rules, 2, ps, tier);
    TagsOfStep(rules, 3, ps, tier);
    assert rules[..3] == rules;
  }

  /** Checking two lists of rules one after the other. */
  lemma {:induction false} TagsOfAppend(a: seq<TagRule>, b: seq<TagRule>, ps: PowerStats, tier: Tier)
    ensures TagsOf(a + b, ps, tier) == TagsOf(a, ps, tier) + TagsOf(b, ps, tier)
    decreases |b|
  {
    if b != [] {
      var init := b[..|b| - 1];
      assert (a + b)[..|a + b| - 1] == a + init;
      assert (a + b)[|a + b| - 1] == b[|b| - 1];
      TagsOfAppend(a, init, ps, tier);
    } else {
      assert a + b == a;
    }
  }

  lemma ABombBaseTags(ps: PowerStats)
    requires ps == PowerStats(38, 100, 17, 80, 24, 64)
    ensures TagsOf(BaseTags, ps, Base) == ["Super force", "Durabilite"]
  {
    TagsOfSix(BaseTags, ps, Base);
    assert TagIf(BaseTags[0], ps, Base) == [];
    assert TagIf(BaseTags[1], ps, Base) == ["Super force"];
    assert TagIf(BaseTags[2], ps, Base) == [];
    assert TagIf(BaseTags[3], ps, Base) == ["Durabilite"];
    assert TagIf(BaseTags[4], ps, Base) == [];
    assert TagIf(BaseTags[5], ps, Base) == [];
  }

  lemma ABombExtremeTags(ps: PowerStats)
    requires ps == PowerStats(38, 100, 17, 80, 24, 64)
    ensures TagsOf(ExtremeTags, ps, Extreme) == ["Force extreme"]
  {
    TagsOfThree(ExtremeTags, ps, Extreme);
    assert TagIf(ExtremeTags[0], ps, Extreme) == [];
    assert TagIf(ExtremeTags[1], ps, Extreme) == ["Force extreme"];
    assert TagIf(ExtremeTags[2], ps, Extreme) == [];
  }

  lemma ABombPowers()
    ensures PowerTags(PowerStats(38, 100, 17, 80, 24, 64)) == ["Super force", "Durabilite", "Force extreme"]
  {
    var ps := PowerStats(38, 100, 17, 80, 24, 64);
    ABombBaseTags(ps);
    ABombExtremeTags(ps);
    assert EarnedTags(ps) == ["Super force", "Durabilite"] + ["Force extreme"];
  }

  lemma ABombDescription(bio: Biography)
    requires bio == Biography(Undefined, Text("-"), Undefined, Text("Marvel Comics"), Text("good"))
    ensures DescriptionOf("A-Bomb", bio, Work(Undefined)) ==
      "A-Bomb" + " est un " + "heros" + " de l'univers " + "Marvel Comics" + "."
  {
    OpeningOnly("A-Bomb", bio, Work(Undefined));
    assert bio.fullName.Or("A-Bomb") == "A-Bomb";
    assert RoleNoun(bio.alignment) == "heros";
    assert bio.publisher.Interpolated() == "Marvel Comics";
  }

  lemma ABombUniverse()
    ensures NormalizeUniverse(Text("Marvel Comics")) == Marvel
  {
    MarvelKeywordsLowered();
    var t := ToLower("Marvel Comics");
    assert t == ToLower(MarvelKeywords[0]);
    assert StartsWith(t, ToLower(MarvelKeywords[0]));
  }

  /** With its `work` and `images` objects the entry is a Marvel hero with the
      strength, durability and extreme-strength tags and a one-sentence
      description, since its place of birth is "-"; without them the
      transform throws. */
  lemma ABombTransformed()
    ensures var h := TransformHeroData(ABomb(Some(Work(Undefined)), Some(Images(Undefined, Undefined))), 0, 0).value;
      h.univers == Marvel &&
      h.pouvoirs == ["Super force", "Durabilite", "Force extreme"] &&
      h.description == "A-Bomb" + " est un " + "heros" + " de l'univers " + "Marvel Comics" + "." &&
      h.alias == "A-Bomb" && h.origine == "-" && h.image == ""
    ensures TransformHeroData(ABomb(None, None), 0, 0).None?
  {
    ABombPowers();
    ABombUniverse();
    ABombDescription(Biography(Undefined, Text("-"), Undefined, Text("Marvel Comics"), Text("good")));
  }

  // ---------------------------------------------------------------------
  // The loader
  // ---------------------------------------------------------------------

  /** The parsed file: `superheros` is `None` when it is missing or not an array;
      a `None` entry is a `null` element. */
  datatype Document = Document(superheros: Option<seq<Option<RawHero>>>)

  /** What reading and parsing the file gave. */
  datatype SourceFile = Missing | Malformed | Parsed(doc: Document)

  /** The loader's filter `hero && hero.name && hero.id`. */
  predicate Admitted(e: Option<RawHero>) {
    e.Some? && e.value.name != "" && e.value.id != 0
  }

  function Kept(entries: seq<Option<RawHero>>): (r: seq<Option<RawHero>>)
    ensures forall i :: 0 <= i < |r| ==> Admitted(r[i])
  {
    Filter(entries, Admitted)
  }

  /** The filter keeps exactly the admitted entries, in their order in the file. */
  lemma KeptEntries(entries: seq<Option<RawHero>>)
    ensures IsSubsequence(Kept(entries), entries)
    ensures forall e :: e in Kept(entries) <==> e in entries && Admitted(e)
  {
    FilterIsSubsequence(entries, Admitted);
  }

  /** The `map` step over the kept entries with transform `f`; entry `k + i`
      reads the clock twice, at `2(k + i)` and `2(k + i) + 1`. `None` when some
      entry throws. */
  function MapEntries(es: seq<Option<RawHero>>, f: (RawHero, int, int) -> Option<Hero>,
                      clock: nat -> int, k: nat): Option<seq<Hero>>
    decreases |es|
  {
    if es == [] then Some([])
    else
      var rest := MapEntries(es[1..], f, clock, k + 1);
      if es[0].Some? && f(es[0].value, clock(2 * k), clock(2 * k + 1)).Some? && rest.Some? then
        Some([f(es[0].value, clock(2 * k), clock(2 * k + 1)).value] + rest.value)
      else None
  }

  /** Entry `i` of `es` does not throw under `f`. */
  predicate MapsAt(es: seq<Option<RawHero>>, f: (RawHero, int, int) -> Option<Hero>,
                   clock: nat -> int, k: nat, i: nat)
    requires i < |es|
  {
    es[i].Some? && f(es[i].value, clock(2 * (k + i)), clock(2 * (k + i) + 1)).Some?
  }

  /** The map succeeds exactly when no entry throws, and then gives one hero
      per entry, in order, each with its own two clock readings. */
  lemma {:induction false} MapEntriesSpec(es: seq<Option<RawHero>>, f: (RawHero, int, int) -> Option<Hero>,
                                          clock: nat -> int, k: nat)
    ensures MapEntries(es, f, clock, k).Some? <==> forall i :: 0 <= i < |es| ==> MapsAt(es, f, clock, k, i)
    ensures MapEntries(es, f, clock, k).Some? ==>
      var hs := MapEntries(es, f, clock, k).value;
      |hs| == |es| &&
      forall i :: 0 <= i < |es| ==>
        MapsAt(es, f, clock, k, i) && hs[i] == f(es[i].value, clock(2 * (k + i)), clock(2 * (k + i) + 1)).value
    decreases |es|
  {
    if es != [] {
      var tail := es[1..];
      MapEntriesSpec(tail, f, clock, k + 1);
      forall i | 1 <= i < |es| ensures MapsAt(es, f, clock, k, i) == MapsAt(tail, f, clock, k + 1, i - 1) {
        assert tail[i - 1] == es[i];
        assert k + 1 + (i - 1) == k + i;
      }
      if MapEntries(es, f, clock, k).Some? {
        var hs := MapEntries(es, f, clock, k).value;
        forall i | 1 <= i < |es|
          ensures MapsAt(es, f, clock, k, i) && hs[i] == f(es[i].value, clock(2 * (k + i)), clock(2 * (k + i) + 1)).value
        {
          assert tail[i - 1] == es[i];
          assert k + 1 + (i - 1) == k + i;
        }
      } else if MapsAt(es, f, clock, k, 0) {
        var j :| 0 <= j < |tail| && !MapsAt(tail, f, clock, k + 1, j);
        assert !MapsAt(es, f, clock, k, j + 1);
      }
    }
  }

  predicate AllTransformable(es: seq<Option<RawHero>>) {
    forall i :: 0 <= i < |es| ==> es[i].Some? && Transformable(es[i].value)
  }

  /** `loadAndTransformHeroes`, with the file read and the parse abstracted into `file`. */
  function LoadAndTransformHeroes(file: SourceFile, clock: nat -> int): seq<Hero> {
    match file
    case Missing => []
    case Malformed => []
    case Parsed(doc) =>
      if doc.superheros.None? then []
      else
        match MapEntries(Kept(doc.superheros.value), TransformHeroData, clock, 0)
        case None => []
        case Some(hs) => hs
  }

  /** `MapsAt` at offset 0 reads the clock at `2i` and `2i + 1`. */
  lemma MapsAtZero(es: seq<Option<RawHero>>, f: (RawHero, int, int) -> Option<Hero>, clock: nat -> int, i: nat)
    requires i < |es|
    ensures MapsAt(es, f, clock, 0, i) == (es[i].Some? && f(es[i].value, clock(2 * i), clock(2 * i + 1)).Some?)
  {
    assert 2 * (0 + i) == 2 * i;
  }

  /** For a transform that throws on an entry exactly when it lacks a
      sub-object, the map fails exactly when one of the entries lacks one, and
      otherwise transforms each of them in order. */
  lemma MapOutcome(kept: seq<Option<RawHero>>, f: (RawHero, int, int) -> Option<Hero>, clock: nat -> int)
    requires forall i :: 0 <= i < |kept| ==>
      kept[i].Some? && (f(kept[i].value, clock(2 * i), clock(2 * i + 1)).Some? <==> Transformable(kept[i].value))
    ensures var m := MapEntries(kept, f, clock, 0);
      (m.Some? <==> AllTransformable(kept)) &&
      (m.Some? ==>
        |m.value| == |kept| &&
        forall i :: 0 <= i < |kept| ==> m.value[i] == f(kept[i].value, clock(2 * i), clock(2 * i + 1)).value)
  {
    var m := MapEntries(kept, f, clock, 0);
    MapEntriesSpec(kept, f, clock, 0);
    forall i | 0 <= i < |kept|
      ensures MapsAt(kept, f, clock, 0, i) <==> Transformable(kept[i].value)
    {
      MapsAtZero(kept, f, clock, i);
    }
    assert m.Some? <==> AllTransformable(kept);
    if m.Some? {
      forall i | 0 <= i < |kept|
        ensures m.value[i] == f(kept[i].value, clock(2 * i), clock(2 * i + 1)).value
      {
        assert 2 * (0 + i) == 2 * i && 2 * (0 + i) + 1 == 2 * i + 1;
      }
    }
  }

  /** The map over the kept entries with `transformHeroData`. */
  lemma KeptOutcome(kept: seq<Option<RawHero>>, clock: nat -> int)
    requires forall i :: 0 <= i < |kept| ==> kept[i].Some?
    ensures var m := MapEntries(kept, TransformHeroData, clock, 0);
      (m.Some? <==> AllTransformable(kept)) &&
      (m.Some? ==>
        |m.value| == |kept| &&
        forall i :: 0 <= i < |kept| ==>
          m.value[i] == TransformHeroData(kept[i].value, clock(2 * i), clock(2 * i + 1)).value)
  {
    MapOutcome(kept, TransformHeroData, clock);
  }

  /** The loader gives `[]` when the file is missing or unreadable, when there is
      no `superheros` array, or when some kept entry throws; otherwise it gives
      one hero per kept entry, in source order. */
  lemma LoaderOutcome(file: SourceFile, clock: nat -> int)
    ensures file.Missing? || file.Malformed? ==> LoadAndTransformHeroes(file, clock) == []
    ensures file.Parsed? && file.doc.superheros.None? ==> LoadAndTransformHeroes(file, clock) == []
    ensures file.Parsed? && file.doc.superheros.Some? ==>
      var kept := Kept(file.doc.superheros.value);
      var out := LoadAndTransformHeroes(file, clock);
      (!AllTransformable(kept) ==> out == []) &&
      (AllTransformable(kept) ==>
        |out| == |kept| &&
        forall i :: 0 <= i < |kept| ==>
          out[i] == TransformHeroData(kept[i].value, clock(2 * i), clock(2 * i + 1)).value)
  {
    if file.Parsed? && file.doc.superheros.Some? {
      KeptOutcome(Kept(file.doc.superheros.value), clock);
    }
  }

  /** A hero with every text field the hero schema requires filled in (the
      image may be empty) and an id that reads back as a non-zero number. */
  predicate Complete(h: Hero) {
    h.nom != "" && h.alias != "" && h.description != "" && h.origine != ""
    && h.premiereApparition != "" && IsDecimal(h.id) && ParseDecimal(h.id) != 0
  }

  /** Every loaded hero is complete: entries with id 0 or no name never get
      through, and the transform fills the other required fields. */
  lemma LoadedHeroesComplete(file: SourceFile, clock: nat -> int)
    ensures forall h :: h in LoadAndTransformHeroes(file, clock) ==> Complete(h)
  {
    var out := LoadAndTransformHeroes(file, clock);
    if file.Parsed? && file.doc.superheros.Some? && out != [] {
      var kept := Kept(file.doc.superheros.value);
      LoaderOutcome(file, clock);
      forall h | h in out ensures Complete(h) {
        var i :| 0 <= i < |out| && out[i] == h;
        TransformedFields(kept[i].value, clock(2 * i), clock(2 * i + 1));
      }
    }
  }
}
