/**
 * The older authentication controller: `register` and `login` over its own
 * account collection, answering with bare `{ message }` bodies.
 */
module Auth {
  import opened Common

  /** A stored account; `password` holds the hash of the password. */
  datatype Account = Account(id: Id, username: string, email: string, password: string)

  /** `res.status(status).json({ message, token? })`. */
  datatype AuthReply = AuthReply(status: int, message: string, token: Option<string>)

  const AlreadyRegistered: string := "Bu e-posta zaten kayıtlı."
  const Registered: string := "Kayıt başarılı"
  const AccountNotFound: string := "Kullanıcı bulunamadı"
  const WrongPassword: string := "Hatalı şifre"
  const LoggedIn: string := "Giriş başarılı"
  const ServerError: string := "Sunucu hatası"
  /** The lifetime given to `jwt.sign`. */
  const TokenLifetime: string := "1d"

  /** `User.findOne({ email })`: the first account with that email. */
  function FindAccount(accounts: seq<Account>, email: string): (r: Option<Account>)
    ensures r.Some? <==> exists a :: a in accounts && a.email == email
    ensures r.Some? ==> r.value in accounts && r.value.email == email
  {
    if accounts == [] then None
    else if accounts[0].email == email then Some(accounts[0])
    else FindAccount(accounts[1..], email)
  }

  /**
   * An account registered with an unregistered email is the one a later
   * login with that email finds; lookups of every other email are unaffected.
   */
  lemma {:induction false} FindAfterRegister(accounts: seq<Account>, a: Account, email: string)
    requires FindAccount(accounts, a.email).None?
    ensures FindAccount(accounts + [a], a.email) == Some(a)
    ensures email != a.email ==> FindAccount(accounts + [a], email) == FindAccount(accounts, email)
  {
    if accounts == [] {
      assert accounts + [a] == [a];
    } else {
      assert (accounts + [a])[1..] == accounts[1..] + [a];
      assert accounts[0] in accounts;
      FindAfterRegister(accounts[1..], a, email);
    }
  }

  /** The account collection. */
  class AccountStore {
    var accounts: seq<Account>
    var nextId: Id

    ghost predicate Valid()
      reads this
    {
      && (forall i :: 0 <= i < |accounts| ==> accounts[i].id < nextId)
      && (forall i, j :: 0 <= i < j < |accounts| ==> accounts[i].id != accounts[j].id)
      && (forall i, j :: 0 <= i < j < |accounts| ==> accounts[i].email != accounts[j].email)
    }

    constructor ()
      ensures Valid() && accounts == []
    {
      accounts := [];
      nextId := 0;
    }

    /**
     * `register`: a registered email is refused with 400; otherwise exactly one
     * account is saved, holding the hash of the password. A missing password
     * makes the hashing library throw, which the handler reports as 500.
     */
    method Register(username: string, email: string, password: Option<string>, hash: string -> string)
      returns (reply: AuthReply)
      requires Valid()
      modifies this
      ensures Valid()
      ensures FindAccount(old(accounts), email).Some? ==>
        reply == AuthReply(400, AlreadyRegistered, None) && unchanged(this)
      ensures FindAccount(old(accounts), email).None? && password.None? ==>
        reply == AuthReply(500, ServerError, None) && unchanged(this)
      ensures FindAccount(old(accounts), email).None? && password.Some? ==>
        && accounts == old(accounts) + [Account(old(nextId), username, email, hash(password.value))]
        && nextId == old(nextId) + 1
        && reply == AuthReply(200, Registered, None)
    {
      if FindAccount(accounts, email).Some? {
        return AuthReply(400, AlreadyRegistered, None);
      }
      if password.None? {
        return AuthReply(500, ServerError, None);
      }
      var a := Account(nextId, username, email, hash(password.value));
      forall i | 0 <= i < |accounts| ensures accounts[i].email != email {
        assert accounts[i] in accounts;
      }
      accounts := accounts + [a];
      nextId := nextId + 1;
      reply := AuthReply(200, Registered, None);
    }

    /**
     * `login`: an unknown email and a wrong password are both answered with
     * 400; a success carries a token whose only claim is the account id.
     */
    method Login(email: string, password: Option<string>,
                 check: (string, string) -> bool, sign: (Id, string) -> string)
      returns (reply: AuthReply)
      ensures FindAccount(accounts, email).None? ==> reply == AuthReply(400, AccountNotFound, None)
      ensures FindAccount(accounts, email).Some? ==>
        var a := FindAccount(accounts, email).value;
        && (password.None? ==> reply == AuthReply(500, ServerError, None))
        && (password.Some? && !check(password.value, a.password) ==> reply == AuthReply(400, WrongPassword, None))
        && (password.Some? && check(password.value, a.password) ==>
              reply == AuthReply(200, LoggedIn, Some(sign(a.id, TokenLifetime))))
      ensures reply.status != 200 ==> reply.token.None?
    {
      var found := FindAccount(accounts, email);
      if found.None? {
        return AuthReply(400, AccountNotFound, None);
      }
      var a := found.value;
      if password.None? {
        // the comparison library throws on a missing password
        return AuthReply(500, ServerError, None);
      }
      if !check(password.value, a.password) {
        return AuthReply(400, WrongPassword, None);
      }
      reply := AuthReply(200, LoggedIn, Some(sign(a.id, TokenLifetime)));
    }
  }
}
