/**
 * The list logic of the dashboard page (frontend/src/pages/Dashboard.tsx):
 * `filterAndSortHeroes`, the removal of a deleted hero, the per-universe
 * counts and the visibility of the "add a hero" button. The React state of
 * the page is the fields of `Dashboard`; each `setX(v)` is an assignment.
 */
module Dashboard {

  import opened Common
  import opened HeroTypes
  import opened HeroQuery
  import RoleMiddleware

  /** The callback of the delete `filter`. */
  function IdIsNot(id: string): Hero -> bool {
    (h: Hero) => h.id != id
  }

  /** The heroes kept after deleting `id`: exactly those with another `_id`,
      in the order they had; nothing changes when no hero had that `_id`. */
  lemma DeleteKeepsOthers(hs: seq<Hero>, id: string)
    ensures var r := Filter(hs, IdIsNot(id));
      (forall h :: h in r <==> h in hs && h.id != id) && IsSubsequence(r, hs) &&
      ((forall h :: h in hs ==> h.id != id) ==> r == hs)
  {
    FilterIsSubsequence(hs, IdIsNot(id));
    if forall h :: h in hs ==> h.id != id {
      FilterAll(hs, IdIsNot(id));
    }
  }

  /** The number of heroes of universe `u`. */
  function CountOf(hs: seq<Hero>, u: Universe): (n: nat)
    ensures n <= |hs|
  {
    if hs == [] then 0
    else CountOf(hs[..|hs| - 1], u) + (if hs[|hs| - 1].univers == u then 1 else 0)
  }

  /** A universe is counted exactly when some hero belongs to it. */
  lemma {:induction false} CountPositive(hs: seq<Hero>, u: Universe)
    ensures CountOf(hs, u) > 0 <==> exists h :: h in hs && h.univers == u
  {
    if hs != [] {
      var init := hs[..|hs| - 1];
      CountPositive(init, u);
      assert hs == init + [hs[|hs| - 1]];
      assert forall h :: h in hs <==> h in init || h == hs[|hs| - 1];
    }
  }

  lemma CountOfSnoc(hs: seq<Hero>, h: Hero, u: Universe)
    ensures CountOf(hs + [h], u) == CountOf(hs, u) + (if h.univers == u then 1 else 0)
  {
    assert (hs + [h])[..|hs|] == hs;
  }

  /** The three counts together account for every hero. */
  lemma {:induction false} CountsSum(hs: seq<Hero>)
    ensures CountOf(hs, Marvel) + CountOf(hs, DC) + CountOf(hs, Autre) == |hs|
    decreases |hs|
  {
    if hs != [] {
      var init := hs[..|hs| - 1];
      assert hs == init + [hs[|hs| - 1]];
      CountsSum(init);
      CountOfSnoc(init, hs[|hs| - 1], Marvel);
      CountOfSnoc(init, hs[|hs| - 1], DC);
      CountOfSnoc(init, hs[|hs| - 1], Autre);
    }
  }

  /** `universStats.X || 0`. */
  function StatOrZero(stats: map<Universe, nat>, u: Universe): nat {
    if u in stats then stats[u] else 0
  }

  /** The statistics hold the count of every universe of `hs`, and only
      universes that occur get a key. */
  predicate CountsOf(stats: map<Universe, nat>, hs: seq<Hero>) {
    forall u :: (u in stats <==> CountOf(hs, u) > 0) && StatOrZero(stats, u) == CountOf(hs, u)
  }

  /** One step of the `reduce` for one universe. */
  lemma CountsStepAt(stats: map<Universe, nat>, hs: seq<Hero>, h: Hero, u: Universe)
    requires (u in stats <==> CountOf(hs, u) > 0) && StatOrZero(stats, u) == CountOf(hs, u)
    ensures var s2 := stats[h.univers := StatOrZero(stats, h.univers) + 1];
      (u in s2 <==> CountOf(hs + [h], u) > 0) && StatOrZero(s2, u) == CountOf(hs + [h], u)
  {
    CountOfSnoc(hs, h, u);
  }

  /** One step of the `reduce`: `acc[u] = (acc[u] || 0) + 1`. */
  lemma CountsStep(stats: map<Universe, nat>, hs: seq<Hero>, h: Hero)
    requires CountsOf(stats, hs)
    ensures CountsOf(stats[h.univers := StatOrZero(stats, h.univers) + 1], hs + [h])
  {
    var s2 := stats[h.univers := StatOrZero(stats, h.univers) + 1];
    forall u
      ensures (u in s2 <==> CountOf(hs + [h], u) > 0) && StatOrZero(s2, u) == CountOf(hs + [h], u)
    {
      CountsStepAt(stats, hs, h, u);
    }
  }

  /** `user?.role !== 'viewer'`: also true when nobody is logged in. */
  predicate ShowsAddHero(user: Option<User>) {
    user.None? || user.value.role != Viewer
  }

  /** For a logged-in user the button is shown exactly when the route that
      creates a hero would let them through. */
  lemma AddHeroMatchesRoute(u: User)
    ensures ShowsAddHero(Some(u)) <==>
      RoleMiddleware.RouteGate(RoleMiddleware.CreateHero, Some(RoleMiddleware.AuthUser(RoleName(u.role)))).Next?
  {
    RoleMiddleware.RouteAccess(RoleMiddleware.CreateHero, u.role);
  }

  class Dashboard {
    var heroes: seq<Hero>
    var filteredHeroes: seq<Hero>
    var searchQuery: string
    var selectedUnivers: string
    var sortBy: string
    /** Whether the delete-error alert has been shown. */
    var alerted: bool

    constructor ()
      ensures heroes == [] && filteredHeroes == [] && searchQuery == "" && selectedUnivers == ""
        && sortBy == "" && !alerted
    {
      heroes, filteredHeroes := [], [];
      searchQuery, selectedUnivers, sortBy := "", "", "";
      alerted := false;
    }

    /** `filterAndSortHeroes`, on a copy of `heroes`. */
    method FilterAndSortHeroes(collate: (string, string) -> int)
      modifies this
      ensures filteredHeroes == FilterAndSort(heroes, searchQuery, selectedUnivers, sortBy, collate)
      ensures heroes == old(heroes) && searchQuery == old(searchQuery)
        && selectedUnivers == old(selectedUnivers) && sortBy == old(sortBy) && alerted == old(alerted)
    {
      var filtered := heroes;
      if searchQuery != "" {
        filtered := Filter(filtered, SearchTest(searchQuery));
      }
      assert filtered == SearchStep(heroes, searchQuery);
      if selectedUnivers != "" {
        filtered := Filter(filtered, UniversTest(selectedUnivers));
      }
      TwoStepsSelect(heroes, searchQuery, selectedUnivers);
      filtered := SortStep(filtered, sortBy, collate);
      filteredHeroes := filtered;
    }

    /** `handleDeleteHero(id)`; `deleted` tells whether the API call worked. */
    method HandleDeleteHero(id: string, deleted: bool)
      modifies this
      ensures heroes == if deleted then Filter(old(heroes), IdIsNot(id)) else old(heroes)
      ensures alerted == (old(alerted) || !deleted)
      ensures filteredHeroes == old(filteredHeroes) && searchQuery == old(searchQuery)
        && selectedUnivers == old(selectedUnivers) && sortBy == old(sortBy)
    {
      if deleted {
        heroes := Filter(heroes, IdIsNot(id));
      } else {
        alerted := true;
      }
    }

    /** `getUniversStats`: the `reduce` that counts heroes per universe. A
        universe is a key exactly when some hero belongs to it. */
    method GetUniversStats() returns (stats: map<Universe, nat>)
      ensures forall u :: u in stats <==> exists h :: h in heroes && h.univers == u
      ensures forall u :: u in stats ==> stats[u] == CountOf(heroes, u)
      ensures forall u :: StatOrZero(stats, u) == CountOf(heroes, u)
    {
      var hs := heroes;
      stats := map[];
      var i := 0;
      while i < |hs|
        invariant 0 <= i <= |hs|
        invariant CountsOf(stats, hs[..i])
      {
        CountsStep(stats, hs[..i], hs[i]);
        assert hs[..i + 1] == hs[..i] + [hs[i]];
        var u := hs[i].univers;
        stats := stats[u := (if u in stats then stats[u] else 0) + 1];
        i := i + 1;
      }
      assert hs[..|hs|] == hs;
      forall u ensures u in stats <==> exists h :: h in hs && h.univers == u {
        CountPositive(hs, u);
      }
    }
  }
}
