/** The authentication handlers: logging in with an email or a username and a password, and
    renewing a credential. */
module AuthController {
  import opened Common
  import opened Models
  import ServerUtils

  /** The fields of a login request body. */
  datatype LoginBody = LoginBody(email: Option<string>, username: Option<string>, password: Option<string>)

  /** The column a login looks the account up by. */
  datatype LookupKey = ByEmail(email: string) | ByUsername(username: string)

  datatype TypeView = TypeView(id: int, name: string)

  /** The account a login returns and puts in the credential: never the password. */
  datatype SessionAccount = SessionAccount(id: int, email: string, username: string, accountType: TypeView)

  /** The checks of `authAccount` before the table: the password and one of email and username
      must be given; the email is the key when given, the username otherwise. */
  function LoginKey(b: LoginBody): (r: Result<LookupKey, Message>)
    ensures r.Err? <==> (!Given(b.email) && !Given(b.username)) || !Given(b.password)
    ensures r.Err? ==> r.error == MissingDetailsErr
    ensures r.Ok? && Given(b.email) ==> r.value == ByEmail(b.email.value)
    ensures r.Ok? && !Given(b.email) ==> r.value == ByUsername(b.username.value)
  {
    if (!Given(b.email) && !Given(b.username)) || !Given(b.password) then Err(MissingDetailsErr)
    else if Given(b.email) then Ok(ByEmail(b.email.value))
    else Ok(ByUsername(b.username.value))
  }

  predicate KeyMatches(row: AccountRow, key: LookupKey) {
    match key
    case ByEmail(e) => row.email == e
    case ByUsername(u) => row.username == u
  }

  /** The unique email and username columns let a key match at most one account. */
  lemma KeyMatchesAtMostOne(accounts: map<int, AccountRow>, types: map<int, TypeRow>, key: LookupKey, a: int, b: int)
    requires AccountsValid(accounts, types)
    requires a in accounts && b in accounts && KeyMatches(accounts[a], key) && KeyMatches(accounts[b], key)
    ensures a == b
  {
  }

  /** `Account.findOne` by the key, with the account type joined in. */
  method Lookup(store: Store, key: LookupKey) returns (found: Option<SessionAccount>, password: string)
    requires store.Valid()
    ensures found.None? <==> !exists a :: a in store.accounts && KeyMatches(store.accounts[a], key)
    ensures found.Some? ==>
      var f := found.value;
      f.id in store.accounts && KeyMatches(store.accounts[f.id], key) &&
      var row := store.accounts[f.id];
      password == row.password &&
      f == SessionAccount(f.id, row.email, row.username, TypeView(row.accountTypeId, store.types[row.accountTypeId].name))
  {
    if !exists a :: a in store.accounts && KeyMatches(store.accounts[a], key) {
      return None, "";
    }
    var a :| a in store.accounts && KeyMatches(store.accounts[a], key);
    var row := store.accounts[a];
    found := Some(SessionAccount(a, row.email, row.username, TypeView(row.accountTypeId, store.types[row.accountTypeId].name)));
    password := row.password;
  }

  /** `authAccount` as written: the account's fields are read before the check for a missing
      account, so an unknown email or username ends in the error handler with 422. `compare`
      is the password check of the hashing library. */
  method AuthAccountAsWritten(store: Store, b: LoginBody, compare: (string, string) -> bool) returns (r: Response<SessionAccount>)
    requires store.Valid()
    ensures LoginKey(b).Err? ==> r == Fail(400, MissingDetailsErr)
    ensures LoginKey(b).Ok? && !(exists a :: a in store.accounts && KeyMatches(store.accounts[a], LoginKey(b).value)) ==>
      r == Fail(422, NullDereference)
    ensures r.Done? ==>
      LoginKey(b).Ok? && r.payload.id in store.accounts &&
      KeyMatches(store.accounts[r.payload.id], LoginKey(b).value) &&
      compare(b.password.value, store.accounts[r.payload.id].password)
  {
    var key := LoginKey(b);
    if key.Err? {
      return Fail(400, key.error);
    }
    var found, password := Lookup(store, key.value);
    if found.None? {
      return Fail(422, NullDereference);
    }
    if compare(b.password.value, password) {
      r := Done(found.value);
    } else {
      r := Fail(401, FailAuthErr);
    }
  }

  /** `authAccount` with the missing-account check before the field reads: an unknown account is
      refused like a wrong password. The reply carries the id, email, username and account type
      of the one account the key names, and no password. */
  method AuthAccount(store: Store, b: LoginBody, compare: (string, string) -> bool) returns (r: Response<SessionAccount>)
    requires store.Valid()
    ensures LoginKey(b).Err? ==> r == Fail(400, MissingDetailsErr)
    ensures LoginKey(b).Ok? ==>
      var key := LoginKey(b).value;
      (r.Done? <==> exists a :: a in store.accounts && KeyMatches(store.accounts[a], key) &&
                               compare(b.password.value, store.accounts[a].password)) &&
      (r.Fail? ==> r == Fail(401, FailAuthErr))
    ensures r.Done? ==>
      var key := LoginKey(b).value;
      forall a :: a in store.accounts && KeyMatches(store.accounts[a], key) ==>
        var row := store.accounts[a];
        r.payload == SessionAccount(a, row.email, row.username, TypeView(row.accountTypeId, store.types[row.accountTypeId].name))
  {
    var key := LoginKey(b);
    if key.Err? {
      return Fail(400, key.error);
    }
    var found, password := Lookup(store, key.value);
    if found.None? {
      return Fail(401, FailAuthErr);
    }
    forall a | a in store.accounts && KeyMatches(store.accounts[a], key.value)
      ensures a == found.value.id
    {
      KeyMatchesAtMostOne(store.accounts, store.types, key.value, a, found.value.id);
    }
    if compare(b.password.value, password) {
      r := Done(found.value);
    } else {
      r := Fail(401, FailAuthErr);
    }
  }

  /** `refreshToken`: a usable credential is renewed for the account it carries; an expired one
      is refused with the library's message, anything else as unauthorized. */
  function RefreshToken(d: Decoded): (r: Response<Principal>)
    ensures r.Done? <==> d.Verified?
    ensures r.Done? ==> r.payload == d.account
    ensures r.Fail? ==> r == AuthFailure(d)
  {
    if d.Verified? then Done(d.account) else AuthFailure(d)
  }

  /** A request without an `Authorization` header is refused as unauthorized. */
  lemma RefreshWithoutHeader(verify: string -> Decoded)
    ensures RefreshToken(ServerUtils.Credentials(None, verify)) == Fail(401, UnauthorizedErr)
  {
  }

  /** A header with two spaces in a row never reaches the verifier and is refused as
      unauthorized, whatever the verifier would say. */
  lemma RefreshWithDoubleSpace(scheme: string, token: string, verify: string -> Decoded)
    ensures RefreshToken(ServerUtils.Credentials(Some(scheme + "  " + token), verify)) == Fail(401, UnauthorizedErr)
  {
    ServerUtils.DoubleSpaceIsMalformed(scheme, token);
  }
}
