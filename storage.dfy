/**
 * An in-memory stand-in for the two MongoDB collections the seeding routines
 * touch: heroes and users. Every operation either succeeds or fails; a store
 * built with `flaky` set may fail on any call (the failure is chosen
 * nondeterministically), one built without it fails only where the hero
 * schema (backend/src/models/Hero.ts) rejects a document. An `insertMany`
 * casts and validates all of its documents before writing any; once past
 * validation, one that fails may have stored a prefix of them, as an ordered
 * bulk insert does. A failed `save` stores nothing.
 */
module Storage {

  import opened Common
  import opened Strings
  import opened HeroTypes

  /** A user document: the password hash is whatever string was handed over. */
  datatype UserDoc = UserDoc(username: string, name: string, email: string,
                             passwordHash: string, role: string)

  /** `a` is `b` with nothing, or something, cut off its end. */
  predicate IsPrefix<T(==)>(a: seq<T>, b: seq<T>) {
    |a| <= |b| && b[..|a|] == a
  }

  /** The casting the hero schema applies: `nom` and `alias` are declared
      with `trim`. */
  function Cast(d: HeroDoc): HeroDoc {
    d.(nom := Trim(d.nom), alias := Trim(d.alias))
  }

  /** `required` on the schema's string fields: each must be present and
      non-empty once cast, so a whitespace-only `nom` or `alias` fails. The
      `univers` enum and the `pouvoirs` array type hold by `HeroDoc`'s types. */
  predicate SchemaValid(d: HeroDoc) {
    Trim(d.nom) != "" && Trim(d.alias) != "" && d.description != "" && d.origine != ""
    && d.premiereApparition != ""
  }

  predicate AllValid(docs: seq<HeroDoc>) {
    forall i :: 0 <= i < |docs| ==> SchemaValid(docs[i])
  }

  /** The documents as the collection stores them. */
  function CastAll(docs: seq<HeroDoc>): (r: seq<HeroDoc>)
    ensures |r| == |docs|
    ensures forall i :: 0 <= i < |docs| ==> r[i] == Cast(docs[i])
  {
    seq(|docs|, i requires 0 <= i < |docs| => Cast(docs[i]))
  }

  /** Casting trims the two names, keeps every other field, does not change
      whether the document is valid, and does nothing a second time. */
  lemma CastProperties(d: HeroDoc)
    ensures var c := Cast(d);
      IsTrimmed(c.nom) && IsTrimmed(c.alias) &&
      c.univers == d.univers && c.pouvoirs == d.pouvoirs && c.description == d.description &&
      c.image == d.image && c.origine == d.origine && c.premiereApparition == d.premiereApparition &&
      c.createdAt == d.createdAt && c.updatedAt == d.updatedAt &&
      (SchemaValid(c) <==> SchemaValid(d)) && Cast(c) == c
    ensures IsTrimmed(d.nom) && IsTrimmed(d.alias) ==> Cast(d) == d
  {
    TrimIdempotent(d.nom);
    TrimIdempotent(d.alias);
    if IsTrimmed(d.nom) && IsTrimmed(d.alias) {
      TrimOfTrimmed(d.nom);
      TrimOfTrimmed(d.alias);
    }
  }

  class Store {
    var heroes: seq<HeroDoc>
    var users: seq<UserDoc>
    const flaky: bool

    constructor (heroes0: seq<HeroDoc>, users0: seq<UserDoc>, flaky0: bool)
      ensures heroes == heroes0 && users == users0 && flaky == flaky0
    {
      heroes, users, flaky := heroes0, users0, flaky0;
    }

    /** `Hero.countDocuments()`. */
    method CountHeroes() returns (ok: bool, count: nat)
      ensures !flaky ==> ok
      ensures ok ==> count == |heroes|
    {
      if flaky { ok := *; } else { ok := true; }
      count := if ok then |heroes| else 0;
    }

    /** `User.countDocuments()`. */
    method CountUsers() returns (ok: bool, count: nat)
      ensures !flaky ==> ok
      ensures ok ==> count == |users|
    {
      if flaky { ok := *; } else { ok := true; }
      count := if ok then |users| else 0;
    }

    /** `Hero.insertMany(docs)`: a document the schema rejects fails the call
        with nothing written; otherwise, on success all of the cast documents
        are appended, and on failure some prefix of them may have been. */
    method InsertMany(docs: seq<HeroDoc>) returns (ok: bool)
      modifies this
      ensures users == old(users)
      ensures !AllValid(docs) ==> !ok && heroes == old(heroes)
      ensures AllValid(docs) && !flaky ==> ok
      ensures ok ==> heroes == old(heroes) + CastAll(docs)
      ensures !ok ==> exists k :: 0 <= k <= |docs| && heroes == old(heroes) + CastAll(docs)[..k]
    {
      if !AllValid(docs) {
        assert heroes == old(heroes) + CastAll(docs)[..0];
        return false;
      }
      if flaky { ok := *; } else { ok := true; }
      if ok {
        heroes := heroes + CastAll(docs);
      } else {
        var k :| 0 <= k <= |docs|;
        heroes := heroes + CastAll(docs)[..k];
      }
    }

    /** `new User(u).save()`: on success `u` is appended, on failure nothing changes. */
    method Save(u: UserDoc) returns (ok: bool)
      modifies this
      ensures heroes == old(heroes)
      ensures !flaky ==> ok
      ensures users == if ok then old(users) + [u] else old(users)
    {
      if flaky { ok := *; } else { ok := true; }
      if ok {
        users := users + [u];
      }
    }

    /** `User.findOne({ $or: [{ username }, { email }] })`. */
    method FindUser(username: string, email: string) returns (ok: bool, found: Option<UserDoc>)
      ensures !flaky ==> ok
      ensures ok ==> found == FirstClash(users, username, email)
    {
      if flaky { ok := *; } else { ok := true; }
      found := if ok then FirstClash(users, username, email) else None;
    }
  }

  /** `u` shares the username or the email. */
  predicate Clashes(u: UserDoc, username: string, email: string) {
    u.username == username || u.email == email
  }

  /** The first user sharing the username or the email, if any. */
  function FirstClash(users: seq<UserDoc>, username: string, email: string): (r: Option<UserDoc>)
    ensures r.None? <==> forall u :: u in users ==> !Clashes(u, username, email)
    ensures r.Some? ==> r.value in users && Clashes(r.value, username, email)
    ensures r.Some? ==> exists i :: 0 <= i < |users| && users[i] == r.value &&
                                    (forall j :: 0 <= j < i ==> !Clashes(users[j], username, email))
  {
    if users == [] then None
    else if Clashes(users[0], username, email) then
      Some(users[0])
    else
      var r := FirstClash(users[1..], username, email);
      assert forall u :: u in users ==> u == users[0] || u in users[1..];
      if r.Some? then
        var i :| 0 <= i < |users[1..]| && users[1..][i] == r.value &&
                 (forall j :: 0 <= j < i ==> !Clashes(users[1..][j], username, email));
        assert users[i + 1] == r.value;
        assert forall j :: 0 <= j < i + 1 ==> !Clashes(users[j], username, email) by {
          forall j | 0 <= j < i + 1 ensures !Clashes(users[j], username, email) {
            if j > 0 { assert users[j] == users[1..][j - 1]; }
          }
        }
        r
      else r
  }
}
