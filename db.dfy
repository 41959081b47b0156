/**
 * `initializeDatabase` of backend/src/config/db.ts: seed the hero collection
 * from the transformed heroes when it is empty (the hero schema may reject
 * them), then seed the three default
 * accounts when the user collection is empty. Every failure is caught and
 * logged; writes done before the failure stay. The password hashing function
 * is a parameter.
 */
module Db {

  import opened Common
  import opened HeroTypes
  import opened Strings
  import opened Storage
  import DataTransformer

  // ---------------------------------------------------------------------
  // Heroes: `_id` removed, falsy fields replaced by defaults
  // ---------------------------------------------------------------------

  /** `value || fallback` on a string field. */
  function OrDefault(value: string, fallback: string): (r: string)
    ensures value != "" ==> r == value
    ensures value == "" ==> r == fallback
  {
    if value != "" then value else fallback
  }

  /** The document inserted for one transformed hero. `univers` is always one of
      the three names and `pouvoirs` always an array, so neither is ever falsy
      and both are kept as they are (an empty array included). */
  function FillDefaults(h: Hero): HeroDoc {
    HeroDoc(
      nom := OrDefault(h.nom, "Unknown Hero"),
      alias := OrDefault(h.alias, "Unknown"),
      univers := h.univers,
      pouvoirs := h.pouvoirs,
      description := OrDefault(h.description, "No description available"),
      image := h.image,
      origine := OrDefault(h.origine, "Unknown"),
      premiereApparition := OrDefault(h.premiereApparition, "Unknown"),
      createdAt := h.createdAt,
      updatedAt := h.updatedAt)
  }

  /** The hero with its `_id` dropped and nothing else touched. */
  function StripId(h: Hero): HeroDoc {
    HeroDoc(h.nom, h.alias, h.univers, h.pouvoirs, h.description, h.image,
            h.origine, h.premiereApparition, h.createdAt, h.updatedAt)
  }

  /** The string fields `FillDefaults` fills in are all non-empty. */
  predicate Filled(h: Hero) {
    h.nom != "" && h.alias != "" && h.description != "" && h.origine != ""
    && h.premiereApparition != ""
  }

  /** The defaults keep every field that was already filled in and change
      nothing else than `_id` when nothing was missing. The schema accepts the
      result unless a name or alias is whitespace only: a truthy string is
      kept, and the schema's `trim` then leaves it empty. */
  lemma FillDefaultsProperties(h: Hero)
    ensures var d := FillDefaults(h);
      d.univers == h.univers && d.pouvoirs == h.pouvoirs && d.image == h.image
      && d.createdAt == h.createdAt && d.updatedAt == h.updatedAt
      && (h.nom != "" ==> d.nom == h.nom) && (h.alias != "" ==> d.alias == h.alias)
      && (h.description != "" ==> d.description == h.description)
      && (h.origine != "" ==> d.origine == h.origine)
      && (h.premiereApparition != "" ==> d.premiereApparition == h.premiereApparition)
      && d.description != "" && d.origine != "" && d.premiereApparition != ""
    ensures Filled(h) <==> FillDefaults(h) == StripId(h)
    ensures SchemaValid(FillDefaults(h)) <==>
      (h.nom == "" || Trim(h.nom) != "") && (h.alias == "" || Trim(h.alias) != "")
  {
    var unknownHero, unknown := "Unknown Hero", "Unknown";
    assert IsTrimmed(unknownHero) && IsTrimmed(unknown);
    TrimOfTrimmed(unknownHero);
    TrimOfTrimmed(unknown);
  }

  /** `transformedHeroes.map(...)`. */
  function HeroesForDb(hs: seq<Hero>): (r: seq<HeroDoc>)
    ensures |r| == |hs|
    ensures forall i :: 0 <= i < |hs| ==> r[i] == FillDefaults(hs[i])
  {
    seq(|hs|, i requires 0 <= i < |hs| => FillDefaults(hs[i]))
  }

  /** What is inserted has the length and order of the transformed heroes; on
      the loader's output the defaults never fire, so each document is exactly
      the hero without its `_id`, and the schema accepts it exactly when its
      name and alias are not whitespace only. */
  lemma HeroesForDbOfLoaded(file: DataTransformer.SourceFile, clock: nat -> int)
    ensures var hs := DataTransformer.LoadAndTransformHeroes(file, clock);
      var docs := HeroesForDb(hs);
      |docs| == |hs| &&
      (forall i :: 0 <= i < |hs| ==>
        docs[i] == StripId(hs[i]) &&
        (SchemaValid(docs[i]) <==> Trim(hs[i].nom) != "" && Trim(hs[i].alias) != ""))
  {
    var hs := DataTransformer.LoadAndTransformHeroes(file, clock);
    DataTransformer.LoadedHeroesComplete(file, clock);
    forall i | 0 <= i < |hs|
      ensures HeroesForDb(hs)[i] == StripId(hs[i]) &&
        (SchemaValid(HeroesForDb(hs)[i]) <==> Trim(hs[i].nom) != "" && Trim(hs[i].alias) != "")
    {
      assert hs[i] in hs;
      FillDefaultsProperties(hs[i]);
    }
  }

  // ---------------------------------------------------------------------
  // The default accounts
  // ---------------------------------------------------------------------

  function AdminAccount(hash: string -> string): UserDoc {
    UserDoc("admin", "Administrator", "admin@example.com", hash("admin123"), "admin")
  }

  function EditorAccount(hash: string -> string): UserDoc {
    UserDoc("editor", "Editor User", "editor@example.com", hash("editor123"), "editor")
  }

  function ViewerAccount(hash: string -> string): UserDoc {
    UserDoc("viewer", "Viewer User", "viewer@example.com", hash("viewer123"), "viewer")
  }

  /** The three accounts in the order they are saved. */
  function DefaultUsers(hash: string -> string): seq<UserDoc> {
    [AdminAccount(hash), EditorAccount(hash), ViewerAccount(hash)]
  }

  /** Exactly three accounts, admin, editor and viewer in that order; each role
      is its username, each password is the username followed by "123", and no
      two accounts share a username or an email. */
  lemma DefaultUsersShape(hash: string -> string)
    ensures var us := DefaultUsers(hash);
      |us| == 3 &&
      us[0].username == "admin" && us[1].username == "editor" && us[2].username == "viewer" &&
      (forall i :: 0 <= i < 3 ==>
        us[i].role == us[i].username && us[i].passwordHash == hash(us[i].username + "123")) &&
      (forall i, j :: 0 <= i < j < 3 ==> us[i].username != us[j].username && us[i].email != us[j].email)
  {
    var us := DefaultUsers(hash);
    assert us[0].username + "123" == "admin123";
    assert us[1].username + "123" == "editor123";
    assert us[2].username + "123" == "viewer123";
  }

  // ---------------------------------------------------------------------
  // initializeDatabase
  // ---------------------------------------------------------------------

  /** Saves the three default accounts one after the other, stopping at the
      first failure. */
  method SaveDefaultUsers(store: Store, hash: string -> string) returns (ok: bool)
    modifies store
    ensures store.heroes == old(store.heroes)
    ensures !store.flaky ==> ok
    ensures ok ==> store.users == old(store.users) + DefaultUsers(hash)
    ensures exists k :: 0 <= k <= 3 && store.users == old(store.users) + DefaultUsers(hash)[..k]
  {
    var us := DefaultUsers(hash);
    ghost var before := store.users;
    assert store.users == before + us[..0];
    ok := store.Save(us[0]);
    if !ok { return; }
    assert store.users == before + us[..1];
    ok := store.Save(us[1]);
    if !ok { return; }
    assert store.users == before + us[..2];
    ok := store.Save(us[2]);
    if !ok { return; }
    assert store.users == before + us[..3];
    assert us[..3] == us;
  }

  /** The hero step throws on a fresh collection: there is something to
      insert and the schema rejects one of the documents. */
  predicate HeroStepRejects(transformed: seq<Hero>) {
    |transformed| > 0 && !AllValid(HeroesForDb(transformed))
  }

  /** `initializeDatabase`. `failed` tells whether the catch block ran.
      Heroes are written only to an empty collection and only when there is
      something to insert; users only to an empty collection; the user step
      runs whether or not heroes were written, but not after a failure. */
  method InitializeDatabase(store: Store, transformed: seq<Hero>, hash: string -> string)
    returns (failed: bool)
    modifies store
    ensures store.heroes == old(store.heroes)
      || (old(|store.heroes|) == 0 && |transformed| > 0 && IsPrefix(store.heroes, CastAll(HeroesForDb(transformed))))
    ensures store.users == old(store.users)
      || (old(|store.users|) == 0 && IsPrefix(store.users, DefaultUsers(hash)))
    ensures store.users != old(store.users) ==>
      store.heroes == (if old(|store.heroes|) == 0 then CastAll(HeroesForDb(transformed)) else old(store.heroes))
    ensures !failed ==>
      store.heroes == (if old(|store.heroes|) == 0 then CastAll(HeroesForDb(transformed)) else old(store.heroes))
      && store.users == (if old(|store.users|) == 0 then DefaultUsers(hash) else old(store.users))
    ensures HeroStepRejects(transformed) && old(|store.heroes|) == 0 ==>
      failed && store.heroes == old(store.heroes) && store.users == old(store.users)
    ensures !store.flaky ==> (failed <==> HeroStepRejects(transformed) && old(|store.heroes|) == 0)
    ensures old(|store.heroes|) > 0 && old(|store.users|) > 0 ==>
      store.heroes == old(store.heroes) && store.users == old(store.users)
  {
    failed := false;
    var ok, heroCount := store.CountHeroes();
    if !ok { return true; }
    if heroCount == 0 && |transformed| > 0 {
      ok := store.InsertMany(HeroesForDb(transformed));
      if !ok { return true; }
    }
    assert store.heroes == (if old(|store.heroes|) == 0 then CastAll(HeroesForDb(transformed)) else old(store.heroes));
    var userCount;
    ok, userCount := store.CountUsers();
    if !ok { return true; }
    if userCount == 0 {
      ok := SaveDefaultUsers(store, hash);
      if !ok { return true; }
    }
  }
}
