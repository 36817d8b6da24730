/**
 * The user routes of the API: sign-up, login and account deletion over the
 * user collection. Password hashing, hash comparison and token signing are
 * library calls, given here as function parameters.
 */
module Users {
  import opened Common
  import opened Response

  /** A stored user. */
  datatype User = User(
    id: Id, userName: string, email: string, passwordHash: string, isActive: bool, preferences: Option<string>)

  /** The request body of /signup, stored as given apart from the password. */
  datatype SignupBody = SignupBody(
    userName: Option<string>, email: Option<string>, passwordHash: Option<string>,
    isActive: Option<bool>, preferences: Option<string>)

  /** The user fields a successful login returns, and the claims signed into its token. */
  datatype Profile = Profile(id: Id, email: string, userName: string)

  /** The `data` of the success envelopes these routes send. */
  datatype Payload =
    | Added(message: string, description: User)
    | LoggedIn(message: string, user: Profile, token: string)
    | Note(text: string)

  const UserExists: string := "User already exists"
  const BothRequired: string := "Both fields are required"
  const MustContainAt: string := "Email must contain '@'"
  const WrongCredentials: string := "email or password wrong"
  const UserNotFound: string := "User not found"
  const AddedMessage: string := "user added succesfully"
  const LoginMessage: string := "Login successful"
  const DeletedMessage: string := "User deleted successfully"
  /** The lifetime given to `jwt.sign`. */
  const TokenLifetime: string := "1h"

  /** `email.includes("@")`. */
  predicate HasAt(email: string) {
    '@' in email
  }

  /** `User.findOne({ email })`: the first user with that email. */
  function FindByEmail(users: seq<User>, email: string): (r: Option<User>)
    ensures r.Some? <==> exists u :: u in users && u.email == email
    ensures r.Some? ==> r.value in users && r.value.email == email
  {
    if users == [] then None
    else if users[0].email == email then Some(users[0])
    else FindByEmail(users[1..], email)
  }

  /** `User.findByIdAndDelete(id)`: every other user stays, in order. */
  function RemoveById(users: seq<User>, id: Id): (r: seq<User>)
    ensures forall u :: u in r ==> u in users && u.id != id
    ensures forall u :: u in users && u.id != id ==> u in r
    ensures |r| <= |users|
  {
    if users == [] then []
    else (if users[0].id == id then [] else [users[0]]) + RemoveById(users[1..], id)
  }

  /** The schema's `required` validators: userName, email and passwordHash are non-empty. */
  predicate SchemaValid(u: User) {
    u.userName != "" && u.email != "" && u.passwordHash != ""
  }

  /** Every stored user has an id below the counter, passes the schema and has an '@' in its email. */
  ghost predicate Stored(users: seq<User>, next: Id) {
    forall i :: 0 <= i < |users| ==> users[i].id < next && SchemaValid(users[i]) && HasAt(users[i].email)
  }

  /** No two users share an id or an email. */
  ghost predicate Distinct(users: seq<User>) {
    forall i, j :: 0 <= i < j < |users| ==> users[i].id != users[j].id && users[i].email != users[j].email
  }

  /** Is the body's email one that is already registered? */
  predicate Registered(users: seq<User>, email: Option<string>) {
    email.Some? && FindByEmail(users, email.value).Some?
  }

  /**
   * The guards of /signup in the order the handler runs them: duplicate
   * email, then missing fields, then the '@' check. `None` means all passed.
   */
  function SignupRefusal(users: seq<User>, body: SignupBody): (r: Option<string>)
    ensures r.None? <==>
      !Registered(users, body.email) && Present(body.email) && Present(body.passwordHash) && HasAt(body.email.value)
    ensures Registered(users, body.email) ==> r == Some(UserExists)
    ensures !Registered(users, body.email) && !(Present(body.email) && Present(body.passwordHash)) ==> r == Some(BothRequired)
    ensures !Registered(users, body.email) && Present(body.email) && Present(body.passwordHash) && !HasAt(body.email.value) ==>
      r == Some(MustContainAt)
  {
    if Registered(users, body.email) then Some(UserExists)
    else if !Present(body.email) || !Present(body.passwordHash) then Some(BothRequired)
    else if !HasAt(body.email.value) then Some(MustContainAt)
    else None
  }

  /** The user `User.create` is given: the body with its password replaced by the hash of it. */
  function NewUser(id: Id, body: SignupBody, hashed: string): (u: User)
    requires body.email.Some?
    ensures u.id == id && u.email == body.email.value && u.passwordHash == hashed
    ensures u.userName == body.userName.GetOr("") && u.preferences == body.preferences
    ensures u.isActive == body.isActive.GetOr(true)
  {
    User(id, body.userName.GetOr(""), body.email.value, hashed, body.isActive.GetOr(true), body.preferences)
  }

  /** The duplicate check keeps users distinct: a user with a fresh id and an unregistered email can join. */
  lemma AddUnregisteredKeepsDistinct(users: seq<User>, u: User)
    requires Distinct(users)
    requires FindByEmail(users, u.email).None?
    requires forall i :: 0 <= i < |users| ==> users[i].id != u.id
    ensures Distinct(users + [u])
  {
    var s := users + [u];
    forall i, j | 0 <= i < j < |s| ensures s[i].id != s[j].id && s[i].email != s[j].email {
      if j == |users| {
        assert s[i] in users;
      }
    }
  }

  /**
   * A user signed up with an unregistered email is the one a later login
   * with that email finds; lookups of every other email are unaffected.
   */
  lemma {:induction false} FindAfterSignup(users: seq<User>, u: User, email: string)
    requires FindByEmail(users, u.email).None?
    ensures FindByEmail(users + [u], u.email) == Some(u)
    ensures email != u.email ==> FindByEmail(users + [u], email) == FindByEmail(users, email)
  {
    if users == [] {
      assert users + [u] == [u];
    } else {
      assert (users + [u])[1..] == users[1..] + [u];
      assert users[0] in users;
      FindAfterSignup(users[1..], u, email);
    }
  }

  /** The user collection. */
  class UserDirectory {
    var users: seq<User>
    var nextId: Id

    ghost predicate Valid()
      reads this
    {
      Stored(users, nextId) && Distinct(users)
    }

    constructor ()
      ensures Valid() && users == []
    {
      users := [];
      nextId := 0;
    }

    /** POST /signup. */
    method Signup(body: SignupBody, hash: string -> string) returns (reply: Reply<Payload>)
      requires Valid()
      modifies this
      ensures Valid()
      ensures SignupRefusal(old(users), body).Some? ==>
        reply == Rejected(BAD_REQUEST, SignupRefusal(old(users), body).value) && unchanged(this)
      ensures SignupRefusal(old(users), body).None? ==>
        var u := NewUser(old(nextId), body, hash(body.passwordHash.value));
        && (SchemaValid(u) ==>
              users == old(users) + [u] && nextId == old(nextId) + 1 && reply == Accepted(CREATED, Added(AddedMessage, u)))
        && (!SchemaValid(u) ==> reply == Crashed() && unchanged(this))
    {
      var refusal := SignupRefusal(users, body);
      if refusal.Some? {
        return Rejected(BAD_REQUEST, refusal.value);
      }
      var u := NewUser(nextId, body, hash(body.passwordHash.value));
      if !SchemaValid(u) {
        // the schema's validation error lands in the catch branch
        return Crashed();
      }
      AddUnregisteredKeepsDistinct(users, u);
      users := users + [u];
      nextId := nextId + 1;
      reply := Accepted(CREATED, Added(AddedMessage, u));
    }

    /**
     * POST /login: missing fields (400), no '@' (400), unknown email (404),
     * wrong password (401), in that order; success returns the user's id,
     * email and name and a token signed over them.
     */
    method Login(email: Option<string>, password: Option<string>,
                 check: (string, string) -> bool, sign: (Profile, string) -> string)
      returns (reply: Reply<Payload>)
      ensures !Present(email) || !Present(password) ==> reply == Rejected(BAD_REQUEST, BothRequired)
      ensures Present(email) && Present(password) ==>
        var e := email.value;
        var found := FindByEmail(users, e);
        && (!HasAt(e) ==> reply == Rejected(BAD_REQUEST, MustContainAt))
        && (HasAt(e) && found.None? ==> reply == Rejected(NOT_FOUND, WrongCredentials))
        && (HasAt(e) && found.Some? && !check(password.value, found.value.passwordHash) ==>
              reply == Rejected(UNAUTHORIZED, WrongCredentials))
        && (HasAt(e) && found.Some? && check(password.value, found.value.passwordHash) ==>
              var p := Profile(found.value.id, found.value.email, found.value.userName);
              reply == Accepted(OK, LoggedIn(LoginMessage, p, sign(p, TokenLifetime))))
    {
      if !Present(email) || !Present(password) {
        return Rejected(BAD_REQUEST, BothRequired);
      }
      if !HasAt(email.value) {
        return Rejected(BAD_REQUEST, MustContainAt);
      }
      var found := FindByEmail(users, email.value);
      if found.None? {
        return Rejected(NOT_FOUND, WrongCredentials);
      }
      var u := found.value;
      if !check(password.value, u.passwordHash) {
        return Rejected(UNAUTHORIZED, WrongCredentials);
      }
      var p := Profile(u.id, u.email, u.userName);
      reply := Accepted(OK, LoggedIn(LoginMessage, p, sign(p, TokenLifetime)));
    }

    /**
     * DELETE /delete/:id: removes the user with that id whoever the requester
     * is; the requester's identity is not consulted.
     */
    method Delete(requester: Id, id: Id) returns (reply: Reply<Payload>)
      requires Valid()
      modifies this`users
      ensures Valid()
      ensures users == RemoveById(old(users), id)
      ensures (exists u :: u in old(users) && u.id == id) ==> reply == Accepted(OK, Note(DeletedMessage))
      ensures !(exists u :: u in old(users) && u.id == id) ==> reply == Rejected(NOT_FOUND, UserNotFound) && users == old(users)
    {
      var found := exists u :: u in users && u.id == id;
      RemoveKeepsValid(users, nextId, id);
      if !found {
        RemoveMissing(users, id);
      }
      users := RemoveById(users, id);
      if found {
        reply := Accepted(OK, Note(DeletedMessage));
      } else {
        reply := Rejected(NOT_FOUND, UserNotFound);
      }
    }
  }

  /** Removing users keeps ids, emails and field validity as they were. */
  lemma RemoveKeepsValid(users: seq<User>, next: Id, id: Id)
    requires Stored(users, next) && Distinct(users)
    ensures Stored(RemoveById(users, id), next) && Distinct(RemoveById(users, id))
  {
    var r := RemoveById(users, id);
    forall i | 0 <= i < |r| ensures r[i].id < next && SchemaValid(r[i]) && HasAt(r[i].email) {
      assert r[i] in r;
    }
    RemoveKeepsDistinct(users, id);
  }

  /** The tail of a distinct list is distinct, and shares no id or email with the head. */
  lemma DistinctSplit(users: seq<User>)
    requires users != [] && Distinct(users)
    ensures Distinct(users[1..])
    ensures forall u :: u in users[1..] ==> u.id != users[0].id && u.email != users[0].email
  {
    var tail := users[1..];
    forall i, j | 0 <= i < j < |tail| ensures tail[i].id != tail[j].id && tail[i].email != tail[j].email {
      assert tail[i] == users[i + 1] && tail[j] == users[j + 1];
    }
    forall u | u in tail ensures u.id != users[0].id && u.email != users[0].email {
      var k :| 0 <= k < |tail| && tail[k] == u;
      assert users[k + 1] == u;
    }
  }

  /** A user sharing no id or email with a distinct list can be put in front of it. */
  lemma DistinctCons(x: User, rest: seq<User>)
    requires Distinct(rest)
    requires forall u :: u in rest ==> u.id != x.id && u.email != x.email
    ensures Distinct([x] + rest)
  {
    var r := [x] + rest;
    forall i, j | 0 <= i < j < |r| ensures r[i].id != r[j].id && r[i].email != r[j].email {
      assert r[j] == rest[j - 1];
      if i == 0 {
        assert rest[j - 1] in rest;
      } else {
        assert r[i] == rest[i - 1];
      }
    }
  }

  /** Removing users keeps distinct users distinct in both id and email. */
  lemma {:induction false} RemoveKeepsDistinct(users: seq<User>, id: Id)
    requires Distinct(users)
    ensures Distinct(RemoveById(users, id))
  {
    if users != [] {
      DistinctSplit(users);
      var rest := RemoveById(users[1..], id);
      RemoveKeepsDistinct(users[1..], id);
      if users[0].id != id {
        DistinctCons(users[0], rest);
        assert RemoveById(users, id) == [users[0]] + rest;
      } else {
        assert RemoveById(users, id) == rest;
      }
    }
  }

  /** Deleting an id nobody has changes nothing. */
  lemma {:induction false} RemoveMissing(users: seq<User>, id: Id)
    requires !(exists u :: u in users && u.id == id)
    ensures RemoveById(users, id) == users
  {
    if users != [] {
      assert users[0] in users;
      assert forall u :: u in users[1..] ==> u in users;
      RemoveMissing(users[1..], id);
      assert users == [users[0]] + users[1..];
    }
  }
}
