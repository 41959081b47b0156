/**
 * The decisions of backend/src/controllers/authController.ts: the validation
 * rules of the two forms, `register` against the user collection, and the
 * mock-data branch of `login`. Missing body fields are the empty string;
 * `isEmail` and `bcrypt.compare` are parameters; the JSON Web Token put in
 * successful responses is not modelled.
 */
module AuthController {

  import opened Common
  import opened Strings
  import opened Storage

  /** The user fields a successful response carries. */
  datatype PublicUser = PublicUser(id: string, username: string, name: string, email: string, role: string)

  /** A status code with a message and, on success, the user; or the 400
      answer to a failed validation, whose body is the list of validation
      errors (its entries are not modelled). */
  datatype Response =
    | Response(status: int, message: string, user: Option<PublicUser>)
    | ValidationErrors(status: int)

  // ---------------------------------------------------------------------
  // Validation
  // ---------------------------------------------------------------------

  const Roles: seq<string> := ["admin", "editor", "viewer"]

  datatype RegisterBody = RegisterBody(username: string, name: string, email: string,
                                       password: string, role: Option<string>)

  /** The two variation selectors, U+FE0E and U+FE0F. */
  predicate IsVariationSelector(c: char) {
    c == '\U{FE0E}' || c == '\U{FE0F}'
  }

  /** The length `isLength` compares: one per character (a surrogate pair
      counts once), except that the variation selectors count for nothing. */
  function IsLengthCount(s: string): (n: nat)
    ensures n <= |s|
    ensures n == |s| <==> forall i :: 0 <= i < |s| ==> !IsVariationSelector(s[i])
    ensures n == 0 <==> forall i :: 0 <= i < |s| ==> IsVariationSelector(s[i])
  {
    if s == [] then 0
    else
      var n := IsLengthCount(s[..|s| - 1]) + (if IsVariationSelector(s[|s| - 1]) then 0 else 1);
      assert forall i :: 0 <= i < |s| - 1 ==> s[..|s| - 1][i] == s[i];
      n
  }

  /** The count of a concatenation is the sum of the counts; with the count of
      one character this fixes the count of every string. */
  lemma {:induction false} IsLengthCountAppend(a: string, b: string)
    ensures IsLengthCount(a + b) == IsLengthCount(a) + IsLengthCount(b)
    ensures forall c :: IsLengthCount([c]) == if IsVariationSelector(c) then 0 else 1
    decreases |b|
  {
    forall c ensures IsLengthCount([c]) == if IsVariationSelector(c) then 0 else 1 {
      assert [c][..0] == [];
    }
    if b == [] {
      assert a + b == a;
    } else {
      var init := b[..|b| - 1];
      assert (a + b)[..|a + b| - 1] == a + init;
      assert (a + b)[|a + b| - 1] == b[|b| - 1];
      IsLengthCountAppend(a, init);
    }
  }

  /** `registerValidation`: `role`, when present, must be one of the three. */
  predicate RegisterValid(b: RegisterBody, isEmail: string -> bool) {
    3 <= IsLengthCount(b.username) <= 50 && 2 <= IsLengthCount(b.name) <= 100 && isEmail(b.email)
    && IsLengthCount(b.password) >= 6 && (b.role.Some? ==> b.role.value in Roles)
  }

  /** "ab" followed by U+FE0F has three characters but counts two, so it is
      too short for a username. */
  lemma VariationSelectorNotCounted(b: RegisterBody, isEmail: string -> bool)
    requires b.username == "ab" + ['\U{FE0F}']
    ensures IsLengthCount(b.username) == 2
    ensures !RegisterValid(b, isEmail)
  {
    IsLengthCountAppend("ab", ['\U{FE0F}']);
    IsLengthCountAppend("a", "b");
    assert "a" + "b" == "ab";
  }

  /** `loginValidation`. */
  predicate LoginValid(username: string, password: string) {
    username != "" && password != ""
  }

  // ---------------------------------------------------------------------
  // register
  // ---------------------------------------------------------------------

  /** `role || 'viewer'`. */
  function RoleOrViewer(role: Option<string>): (r: string)
    ensures role.Some? && role.value != "" ==> r == role.value
    ensures role.None? || role.value == "" ==> r == "viewer"
  {
    if role.Some? && role.value != "" then role.value else "viewer"
  }

  /** The user document `register` saves; the password goes in as given. */
  function NewUser(b: RegisterBody): UserDoc {
    UserDoc(b.username, b.name, b.email, b.password, RoleOrViewer(b.role))
  }

  /** A valid registration always ends with one of the three roles, the
      viewer role when none was asked for. */
  lemma RegisteredRole(b: RegisterBody, isEmail: string -> bool)
    requires RegisterValid(b, isEmail)
    ensures NewUser(b).role in Roles
    ensures b.role.None? ==> NewUser(b).role == "viewer"
  {
  }

  /** `register`. `newId` is the `_id` the database gives the new user. */
  method Register(store: Store, b: RegisterBody, isEmail: string -> bool, newId: string)
    returns (res: Response)
    modifies store
    ensures store.heroes == old(store.heroes)
    ensures res.status in {201, 400, 500}
    ensures res.ValidationErrors? <==> !RegisterValid(b, isEmail)
    ensures res.ValidationErrors? ==> res.status == 400
    ensures res.status == 201 <==> store.users == old(store.users) + [NewUser(b)]
    ensures res.status == 201 ==>
      RegisterValid(b, isEmail)
      && FirstClash(old(store.users), b.username, b.email).None?
      && res.Response? && res.user == Some(PublicUser(newId, b.username, b.name, b.email, RoleOrViewer(b.role)))
    ensures res.status != 201 ==> store.users == old(store.users)
    ensures RegisterValid(b, isEmail) && FirstClash(old(store.users), b.username, b.email).Some? ==>
      res.status != 201
    ensures !store.flaky && RegisterValid(b, isEmail) ==>
      (res.status == 400 <==> FirstClash(old(store.users), b.username, b.email).Some?)
      && (res.status == 400 ==> res.Response? && res.message == "User already exists")
  {
    if !RegisterValid(b, isEmail) {
      return ValidationErrors(400);
    }
    var ok, existing := store.FindUser(b.username, b.email);
    if !ok {
      return Response(500, "Error registering user", None);
    }
    if existing.Some? {
      return Response(400, "User already exists", None);
    }
    var user := NewUser(b);
    ok := store.Save(user);
    if !ok {
      return Response(500, "Error registering user", None);
    }
    res := Response(201, "User registered successfully",
                    Some(PublicUser(newId, user.username, user.name, user.email, user.role)));
  }

  // ---------------------------------------------------------------------
  // login, mock branch
  // ---------------------------------------------------------------------

  /** An entry of the in-memory user list. */
  datatype MockUser = MockUser(id: string, username: string, name: string, email: string,
                               passwordHash: string, role: string)

  /** `mockUsers.find(u => u.username === username)`. */
  function FindByUsername(users: seq<MockUser>, username: string): (r: Option<MockUser>)
    ensures r.None? <==> forall u :: u in users ==> u.username != username
    ensures r.Some? ==> r.value in users && r.value.username == username
  {
    if users == [] then None
    else if users[0].username == username then Some(users[0])
    else
      var r := FindByUsername(users[1..], username);
      assert forall u :: u in users ==> u == users[0] || u in users[1..];
      r
  }

  /** `find` returns the first entry with that username. */
  lemma {:induction false} FindByUsernameFirst(users: seq<MockUser>, username: string, i: nat)
    requires i < |users| && users[i].username == username
    ensures FindByUsername(users, username).Some?
    ensures (forall j :: 0 <= j < i ==> users[j].username != username) ==>
      FindByUsername(users, username).value == users[i]
  {
    if i > 0 && users[0].username != username {
      FindByUsernameFirst(users[1..], username, i - 1);
      assert users[1..][i - 1] == users[i];
      assert forall j :: 0 <= j < i - 1 ==> users[1..][j] == users[j + 1];
    }
  }

  const BcryptPrefix: string := "$2b$"

  /** When the mock branch accepts a password for an account found by name. */
  predicate MockAccepts(u: MockUser, username: string, password: string,
                        compare: (string, string) -> bool) {
    (username == "admin" && password == "admin123")
    || (username == "editor" && password == "editor123")
    || (StartsWith(u.passwordHash, BcryptPrefix) && compare(password, u.passwordHash))
  }

  function Public(u: MockUser): PublicUser {
    PublicUser(u.id, u.username, u.name, u.email, u.role)
  }

  /** `login` while MongoDB is not connected: `let validPassword` set through
      an if/else chain. */
  method MockLogin(mockUsers: seq<MockUser>, username: string, password: string,
                   compare: (string, string) -> bool)
    returns (res: Response)
    ensures res.status in {200, 400, 401}
    ensures res.status == 400 <==> !LoginValid(username, password)
    ensures res.ValidationErrors? <==> !LoginValid(username, password)
    ensures LoginValid(username, password) && FindByUsername(mockUsers, username).None? ==>
      res == Response(401, "Invalid credentials", None)
    ensures res.status == 200 <==>
      LoginValid(username, password)
      && FindByUsername(mockUsers, username).Some?
      && MockAccepts(FindByUsername(mockUsers, username).value, username, password, compare)
    ensures res.status == 200 ==> res.Response? && res.user == Some(Public(FindByUsername(mockUsers, username).value))
    ensures res.status == 401 ==> res.Response? && res.message == "Invalid credentials" && res.user.None?
  {
    if !LoginValid(username, password) {
      return ValidationErrors(400);
    }
    var user := FindByUsername(mockUsers, username);
    if user.None? {
      return Response(401, "Invalid credentials", None);
    }
    var validPassword := false;
    if username == "admin" && password == "admin123" {
      validPassword := true;
    } else if username == "editor" && password == "editor123" {
      validPassword := true;
    } else if StartsWith(user.value.passwordHash, BcryptPrefix) {
      validPassword := compare(password, user.value.passwordHash);
    }
    if !validPassword {
      return Response(401, "Invalid credentials", None);
    }
    res := Response(200, "Login successful", Some(Public(user.value)));
  }

  /** The two default accounts get in with their default passwords whatever
      their stored hash says, as long as they are in the list. */
  lemma DefaultPasswordsBypassHash(u: MockUser, compare: (string, string) -> bool)
    ensures MockAccepts(u, "admin", "admin123", compare)
    ensures MockAccepts(u, "editor", "editor123", compare)
  {
  }

  /** Any other account whose stored password is not a bcrypt hash can never
      log in, whatever password is sent. */
  lemma PlainHashNeverAccepted(u: MockUser, username: string, password: string,
                               compare: (string, string) -> bool)
    requires !StartsWith(u.passwordHash, BcryptPrefix)
    requires !(username == "admin" && password == "admin123")
    requires !(username == "editor" && password == "editor123")
    ensures !MockAccepts(u, username, password, compare)
  {
  }
}
