/**
 * `seedDatabase` of backend/src/utils/seedDatabase.ts: when the hero file
 * exists and the hero collection is empty, insert the parsed file, which the
 * hero schema may reject; then, when
 * the user collection is empty, save an admin and an editor account whose
 * passwords are handed over in plain text. Every failure is caught and
 * logged and stops the routine; writes done before it stay.
 */
module SeedDatabase {

  import opened HeroTypes
  import opened Storage

  /** What `existsSync` and `JSON.parse(readFileSync(...))` give. */
  datatype HeroFile = NoFile | Unparsable | Parsed(docs: seq<HeroDoc>)

  const SeedAdmin: UserDoc := UserDoc("admin", "Administrator", "admin@example.com", "admin123", "admin")
  const SeedEditor: UserDoc := UserDoc("editor", "Editor User", "editor@example.com", "editor123", "editor")

  /** The accounts in the order they are saved: two of them, without a viewer. */
  function SeedUsers(): (r: seq<UserDoc>)
    ensures |r| == 2 && r[0].role == "admin" && r[1].role == "editor"
    ensures forall u :: u in r ==> u.role == u.username && u.role != "viewer"
  {
    [SeedAdmin, SeedEditor]
  }

  /** The heroes the routine means to end with. */
  function HeroTarget(file: HeroFile, heroes: seq<HeroDoc>): seq<HeroDoc> {
    if file.Parsed? && |heroes| == 0 then CastAll(file.docs) else heroes
  }

  /** The users the routine means to end with. */
  function UserTarget(users: seq<UserDoc>): seq<UserDoc> {
    if |users| == 0 then SeedUsers() else users
  }

  /** Saves admin, then editor, stopping at the first failure. */
  method SaveSeedUsers(store: Store) returns (ok: bool)
    modifies store
    ensures store.heroes == old(store.heroes)
    ensures !store.flaky ==> ok
    ensures ok ==> store.users == old(store.users) + SeedUsers()
    ensures exists k :: 0 <= k <= 2 && store.users == old(store.users) + SeedUsers()[..k]
  {
    var us := SeedUsers();
    ghost var before := store.users;
    assert store.users == before + us[..0];
    ok := store.Save(us[0]);
    if !ok { return; }
    assert store.users == before + us[..1];
    ok := store.Save(us[1]);
    if !ok { return; }
    assert store.users == before + us[..2];
    assert us[..2] == us;
  }

  /** The hero step throws on a fresh collection: the file does not parse,
      or one of its documents fails the schema. */
  predicate HeroStepRejects(file: HeroFile) {
    file.Unparsable? || (file.Parsed? && !AllValid(file.docs))
  }

  /** `seedDatabase`. `failed` tells whether the catch block ran. The file is
      checked before the hero count, and parsed and inserted only when the
      collection is empty, so a bad file is harmless once heroes exist; a
      missing file skips the hero step but not the user step, while a bad
      one on an empty collection skips both. */
  method Seed(store: Store, file: HeroFile) returns (failed: bool)
    modifies store
    ensures store.heroes == old(store.heroes)
      || (file.Parsed? && old(|store.heroes|) == 0 && IsPrefix(store.heroes, CastAll(file.docs)))
    ensures store.users == old(store.users)
      || (old(|store.users|) == 0 && IsPrefix(store.users, SeedUsers()))
    ensures store.users != old(store.users) ==> store.heroes == HeroTarget(file, old(store.heroes))
    ensures !failed ==>
      store.heroes == HeroTarget(file, old(store.heroes)) && store.users == UserTarget(old(store.users))
    ensures HeroStepRejects(file) && old(|store.heroes|) == 0 ==>
      failed && store.heroes == old(store.heroes) && store.users == old(store.users)
    ensures !store.flaky ==> (failed <==> HeroStepRejects(file) && old(|store.heroes|) == 0)
    ensures old(|store.heroes|) > 0 && old(|store.users|) > 0 ==>
      store.heroes == old(store.heroes) && store.users == old(store.users)
  {
    failed := false;
    if file != NoFile {
      var ok, heroesCount := store.CountHeroes();
      if !ok { return true; }
      if heroesCount == 0 {
        if file.Unparsable? { return true; }
        ok := store.InsertMany(file.docs);
        if !ok { return true; }
      }
    }
    assert store.heroes == HeroTarget(file, old(store.heroes));
    var ok, usersCount := store.CountUsers();
    if !ok { return true; }
    if usersCount == 0 {
      ok := SaveSeedUsers(store);
      if !ok { return true; }
    }
  }
}
