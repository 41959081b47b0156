/**
 * The list rules shared by the mock branch of `getHeroes`
 * (backend/src/controllers/heroController.ts) and `filterAndSortHeroes`
 * (frontend/src/pages/Dashboard.tsx), which spell out the same pipeline: keep
 * the heroes whose `nom` or `alias` contains the search text ignoring case,
 * keep those of the chosen universe, then sort by name or by date.
 *
 * A parameter that is absent is the empty string: both are falsy, so in both
 * cases no filter is applied. `Array.prototype.sort` is stable; here it is
 * the stable insertion sort `SortBy`, which agrees with every stable sort
 * when the comparator is a total preorder. `localeCompare` is the parameter
 * `collate`.
 */
module HeroQuery {

  import opened Common
  import opened Strings
  import opened HeroTypes

  // ---------------------------------------------------------------------
  // The two filters
  // ---------------------------------------------------------------------

  /** The search predicate: `nom` or `alias` contains the text, ignoring case. */
  predicate MatchesSearch(h: Hero, search: string) {
    Contains(ToLower(h.nom), ToLower(search)) || Contains(ToLower(h.alias), ToLower(search))
  }

  /** `hero.univers === univers`. */
  predicate InUnivers(h: Hero, univers: string) {
    UniverseName(h.univers) == univers
  }

  /** A hero passes when every filter that is switched on accepts it. */
  predicate Passes(h: Hero, search: string, univers: string) {
    (search != "" ==> MatchesSearch(h, search)) && (univers != "" ==> InUnivers(h, univers))
  }

  /** The heroes that pass, in their original order. */
  function Selected(hs: seq<Hero>, search: string, univers: string): (r: seq<Hero>)
    ensures forall h :: h in r <==> h in hs && Passes(h, search, univers)
  {
    Filter(hs, h => Passes(h, search, univers))
  }

  /** The callback of the search `filter`. */
  function SearchTest(search: string): Hero -> bool {
    h => MatchesSearch(h, search)
  }

  /** The callback of the universe `filter`. */
  function UniversTest(univers: string): Hero -> bool {
    h => InUnivers(h, univers)
  }

  /** `if (search) filtered = filtered.filter(...)`. */
  function SearchStep(hs: seq<Hero>, search: string): seq<Hero> {
    if search != "" then Filter(hs, SearchTest(search)) else hs
  }

  /** `if (univers) filtered = filtered.filter(...)`. */
  function UniversStep(hs: seq<Hero>, univers: string): seq<Hero> {
    if univers != "" then Filter(hs, UniversTest(univers)) else hs
  }

  /** Filtering by search and then by universe selects what both filters
      accept together. */
  lemma TwoStepsSelect(hs: seq<Hero>, search: string, univers: string)
    ensures UniversStep(SearchStep(hs, search), univers) == Selected(hs, search, univers)
  {
    var p := (h: Hero) => Passes(h, search, univers);
    if search != "" && univers != "" {
      FilterFilter(hs, SearchTest(search), UniversTest(univers), p);
    } else if search != "" {
      FilterSame(hs, SearchTest(search), p);
    } else if univers != "" {
      FilterSame(hs, UniversTest(univers), p);
    } else {
      FilterAll(hs, p);
    }
  }

  /** An empty search and an empty universe select everything. */
  lemma NoFilterSelectsAll(hs: seq<Hero>)
    ensures Selected(hs, "", "") == hs
  {
    FilterAll(hs, h => Passes(h, "", ""));
  }

  /** The text searched for always matches itself, whatever its case. */
  lemma SearchFindsOwnName(h: Hero)
    ensures MatchesSearch(h, h.nom) && MatchesSearch(h, h.alias)
  {
    var n := ToLower(h.nom);
    assert n[..|n|] == n;
    var a := ToLower(h.alias);
    assert a[..|a|] == a;
  }

  // ---------------------------------------------------------------------
  // Sorting
  // ---------------------------------------------------------------------

  /** `sortBy`: "name", "date", or anything else. */
  datatype SortKey = ByName | ByDate | NoSort

  function SortKeyOf(sortBy: string): SortKey {
    if sortBy == "name" then ByName else if sortBy == "date" then ByDate else NoSort
  }

  /** `(a, b) => a.nom.localeCompare(b.nom)`. */
  function NameCmp(collate: (string, string) -> int): (Hero, Hero) -> int {
    (a: Hero, b: Hero) => collate(a.nom, b.nom)
  }

  /** `(a, b) => b.createdAt - a.createdAt`: the most recent first. */
  function DateCmp(): (Hero, Hero) -> int {
    (a: Hero, b: Hero) => b.createdAt - a.createdAt
  }

  /** A comparator that orders consistently: any two elements compare, and
      "not after" is transitive. */
  ghost predicate TotalPreorder(cmp: (Hero, Hero) -> int) {
    (forall a, b :: cmp(a, b) <= 0 || cmp(b, a) <= 0)
    && (forall a, b, c :: cmp(a, b) <= 0 && cmp(b, c) <= 0 ==> cmp(a, c) <= 0)
  }

  /** The same for a string comparison such as `localeCompare`. */
  ghost predicate TotalStringPreorder(collate: (string, string) -> int) {
    (forall a, b :: collate(a, b) <= 0 || collate(b, a) <= 0)
    && (forall a, b, c :: collate(a, b) <= 0 && collate(b, c) <= 0 ==> collate(a, c) <= 0)
  }

  /** No element is ordered after one that follows it. */
  predicate Sorted(s: seq<Hero>, cmp: (Hero, Hero) -> int) {
    forall i, j :: 0 <= i < j < |s| ==> cmp(s[i], s[j]) <= 0
  }

  /** Puts `x` before the first element it is not after. */
  function Insert(x: Hero, s: seq<Hero>, cmp: (Hero, Hero) -> int): (r: seq<Hero>)
    ensures multiset(r) == multiset(s) + multiset{x}
  {
    if s == [] then [x]
    else if cmp(x, s[0]) <= 0 then [x] + s
    else
      assert s == [s[0]] + s[1..];
      [s[0]] + Insert(x, s[1..], cmp)
  }

  /** `filtered.sort(cmp)`: stable insertion sort. */
  function SortBy(s: seq<Hero>, cmp: (Hero, Hero) -> int): (r: seq<Hero>)
    ensures multiset(r) == multiset(s)
  {
    if s == [] then []
    else
      assert s == [s[0]] + s[1..];
      Insert(s[0], SortBy(s[1..], cmp), cmp)
  }

  /** An element ordered before every element of a sorted sequence can lead it. */
  lemma SortedCons(x: Hero, s: seq<Hero>, cmp: (Hero, Hero) -> int)
    requires Sorted(s, cmp)
    requires forall k :: 0 <= k < |s| ==> cmp(x, s[k]) <= 0
    ensures Sorted([x] + s, cmp)
  {
    var r := [x] + s;
    forall i, j | 0 <= i < j < |r| ensures cmp(r[i], r[j]) <= 0 {
      assert r[j] == s[j - 1];
      if i > 0 {
        assert r[i] == s[i - 1];
      }
    }
  }

  lemma SortedTail(s: seq<Hero>, cmp: (Hero, Hero) -> int)
    requires s != [] && Sorted(s, cmp)
    ensures Sorted(s[1..], cmp)
    ensures forall k :: 0 <= k < |s[1..]| ==> cmp(s[0], s[1..][k]) <= 0
  {
    forall i, j | 0 <= i < j < |s[1..]| ensures cmp(s[1..][i], s[1..][j]) <= 0 {
      assert s[1..][i] == s[i + 1] && s[1..][j] == s[j + 1];
    }
    forall k | 0 <= k < |s[1..]| ensures cmp(s[0], s[1..][k]) <= 0 {
      assert s[1..][k] == s[k + 1];
    }
  }

  lemma {:induction false} InsertSorted(x: Hero, s: seq<Hero>, cmp: (Hero, Hero) -> int)
    requires TotalPreorder(cmp) && Sorted(s, cmp)
    ensures Sorted(Insert(x, s, cmp), cmp)
  {
    if s == [] {
    } else {
      SortedTail(s, cmp);
      if cmp(x, s[0]) <= 0 {
        forall k | 0 <= k < |s| ensures cmp(x, s[k]) <= 0 {
          if k > 0 {
            assert s[k] == s[1..][k - 1];
            assert cmp(x, s[0]) <= 0 && cmp(s[0], s[k]) <= 0;
          }
        }
        SortedCons(x, s, cmp);
      } else {
        InsertSorted(x, s[1..], cmp);
        var t := Insert(x, s[1..], cmp);
        assert cmp(s[0], x) <= 0;
        forall k | 0 <= k < |t| ensures cmp(s[0], t[k]) <= 0 {
          assert t[k] in multiset(t);
          if t[k] != x {
            assert t[k] in multiset(s[1..]);
            var m :| 0 <= m < |s[1..]| && s[1..][m] == t[k];
          }
        }
        SortedCons(s[0], t, cmp);
      }
    }
  }

  /** Under a consistent comparator the result is ordered. */
  lemma {:induction false} SortBySorted(s: seq<Hero>, cmp: (Hero, Hero) -> int)
    requires TotalPreorder(cmp)
    ensures Sorted(SortBy(s, cmp), cmp)
  {
    if s != [] {
      SortBySorted(s[1..], cmp);
      InsertSorted(s[0], SortBy(s[1..], cmp), cmp);
    }
  }

  /** Sorting what is already in order changes nothing (the sort is stable). */
  lemma {:induction false} SortOfSorted(s: seq<Hero>, cmp: (Hero, Hero) -> int)
    requires Sorted(s, cmp)
    ensures SortBy(s, cmp) == s
  {
    if s != [] {
      assert Sorted(s[1..], cmp) by {
        forall i, j | 0 <= i < j < |s[1..]| ensures cmp(s[1..][i], s[1..][j]) <= 0 {
          assert s[1..][i] == s[i + 1] && s[1..][j] == s[j + 1];
        }
      }
      SortOfSorted(s[1..], cmp);
      if |s| > 1 {
        assert cmp(s[0], s[1]) <= 0;
      }
      assert s == [s[0]] + s[1..];
    }
  }

  lemma DateCmpTotal()
    ensures TotalPreorder(DateCmp())
  {
  }

  lemma NameCmpTotal(collate: (string, string) -> int)
    requires TotalStringPreorder(collate)
    ensures TotalPreorder(NameCmp(collate))
  {
    var cmp := NameCmp(collate);
    forall a: Hero, b: Hero, c: Hero | cmp(a, b) <= 0 && cmp(b, c) <= 0 ensures cmp(a, c) <= 0 {
      assert collate(a.nom, b.nom) <= 0 && collate(b.nom, c.nom) <= 0;
    }
    forall a: Hero, b: Hero ensures cmp(a, b) <= 0 || cmp(b, a) <= 0 {
      assert collate(a.nom, b.nom) <= 0 || collate(b.nom, a.nom) <= 0;
    }
  }

  // ---------------------------------------------------------------------
  // The whole pipeline
  // ---------------------------------------------------------------------

  /** The selected heroes, sorted as `sortBy` asks. */
  function Ordered(s: seq<Hero>, sortBy: string, collate: (string, string) -> int): seq<Hero> {
    match SortKeyOf(sortBy)
    case ByName => SortBy(s, NameCmp(collate))
    case ByDate => SortBy(s, DateCmp())
    case NoSort => s
  }

  /** The closing `if (sortBy === 'name') ... else if (sortBy === 'date') ...`
      block, which sorts the filtered copy. */
  method SortStep(filtered: seq<Hero>, sortBy: string, collate: (string, string) -> int)
    returns (sorted: seq<Hero>)
    ensures sorted == Ordered(filtered, sortBy, collate)
  {
    sorted := filtered;
    if sortBy == "name" {
      sorted := SortBy(sorted, NameCmp(collate));
    } else if sortBy == "date" {
      sorted := SortBy(sorted, DateCmp());
    }
  }

  function FilterAndSort(hs: seq<Hero>, search: string, univers: string, sortBy: string,
                         collate: (string, string) -> int): seq<Hero> {
    Ordered(Selected(hs, search, univers), sortBy, collate)
  }

  /** The result holds exactly the heroes that pass both filters, each as
      often as in the input; without a recognised sort key it is the input
      with the others deleted, in the original order; by date the most recent
      comes first; by name it follows `collate` when that is consistent. */
  lemma FilterAndSortSpec(hs: seq<Hero>, search: string, univers: string, sortBy: string,
                          collate: (string, string) -> int)
    ensures var r := FilterAndSort(hs, search, univers, sortBy, collate);
      (forall h :: h in r <==> h in hs && Passes(h, search, univers)) &&
      multiset(r) == multiset(Selected(hs, search, univers)) &&
      (SortKeyOf(sortBy) == NoSort ==> r == Selected(hs, search, univers) && IsSubsequence(r, hs)) &&
      (SortKeyOf(sortBy) == ByDate ==>
        forall i, j :: 0 <= i < j < |r| ==> r[i].createdAt >= r[j].createdAt) &&
      (SortKeyOf(sortBy) == ByName && TotalStringPreorder(collate) ==>
        forall i, j :: 0 <= i < j < |r| ==> collate(r[i].nom, r[j].nom) <= 0)
  {
    var sel := Selected(hs, search, univers);
    var r := FilterAndSort(hs, search, univers, sortBy, collate);
    FilterIsSubsequence(hs, h => Passes(h, search, univers));
    assert forall h :: h in r <==> h in multiset(r);
    assert forall h :: h in sel <==> h in multiset(sel);
    match SortKeyOf(sortBy)
    case ByName =>
      if TotalStringPreorder(collate) {
        NameCmpTotal(collate);
        SortBySorted(sel, NameCmp(collate));
      }
    case ByDate =>
      DateCmpTotal();
      SortBySorted(sel, DateCmp());
    case NoSort =>
  }
}
