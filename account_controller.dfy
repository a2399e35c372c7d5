/** The account handlers: sign-up of a user, creation of an administrator by an administrator,
    update and deletion of an account, and the reading of a find query into find options. */
module AccountController {
  import opened Common
  import opened JsText
  import opened Models

  const MaxUsernameLength: int := 16
  const PasswordMinLength: int := 4
  const PasswordMaxLength: int := 24

  /** The username that would be shadowed by the route `/api/snippets/count`. */
  const ReservedUsername: string := "count"

  /** The username pattern `^([a-zA-Z0-9_-]{1,16})$`. */
  predicate ValidUsername(username: string) {
    1 <= |username| <= MaxUsernameLength && forall i :: 0 <= i < |username| ==> IsHandleChar(username[i])
  }

  /** The password length check, on `password.length`: UTF-16 code units. */
  predicate ValidPassword(password: string) {
    PasswordMinLength <= CodeUnitLength(password) <= PasswordMaxLength
  }

  /** The fields of a request body. */
  datatype AccountBody = AccountBody(
    email: Option<string>, username: Option<string>, password: Option<string>, accountTypeId: Option<int>)

  datatype NewAccount = NewAccount(email: string, username: string, password: string)

  datatype TypeView = TypeView(id: int, name: string)

  /** The account a sign-up returns (the token made from it is not modelled). */
  datatype CreatedUser = CreatedUser(id: int, username: string, email: string, accountType: TypeView)

  datatype CreatedAdmin = CreatedAdmin(id: int, username: string, email: string)

  /** The columns `update` reads back; never the password. */
  datatype AccountView = AccountView(id: int, accountTypeId: int, email: string, username: string)

  /** `parseCreateRequest`: the first failing check, in the order email given, username given,
      password given, email pattern, username pattern, password length; otherwise exactly the
      three fields. `isEmail` is the email pattern. */
  function ParseCreateRequest(b: AccountBody, isEmail: string -> bool): (r: Result<NewAccount, Message>)
    ensures r.Ok? <==>
      Given(b.email) && Given(b.username) && Given(b.password) &&
      isEmail(b.email.value) && ValidUsername(b.username.value) && ValidPassword(b.password.value)
    ensures r.Ok? ==> r.value == NewAccount(b.email.value, b.username.value, b.password.value)
    ensures !Given(b.email) ==> r == Err(MissingEmailErr)
    ensures Given(b.email) && !Given(b.username) ==> r == Err(MissingUsernameErr)
    ensures Given(b.email) && Given(b.username) && !Given(b.password) ==> r == Err(MissingPasswordErr)
    ensures Given(b.email) && Given(b.username) && Given(b.password) && !isEmail(b.email.value) ==>
      r == Err(InvalidEmailErr)
    ensures (Given(b.email) && Given(b.username) && Given(b.password) && isEmail(b.email.value) &&
             !ValidUsername(b.username.value)) ==> r == Err(InvalidUsernameErr)
    ensures (Given(b.email) && Given(b.username) && Given(b.password) && isEmail(b.email.value) &&
             ValidUsername(b.username.value) && !ValidPassword(b.password.value)) ==> r == Err(InvalidPasswordErr)
  {
    if !Given(b.email) then Err(MissingEmailErr)
    else if !Given(b.username) then Err(MissingUsernameErr)
    else if !Given(b.password) then Err(MissingPasswordErr)
    else if !isEmail(b.email.value) then Err(InvalidEmailErr)
    else if !ValidUsername(b.username.value) then Err(InvalidUsernameErr)
    else if !ValidPassword(b.password.value) then Err(InvalidPasswordErr)
    else Ok(NewAccount(b.email.value, b.username.value, b.password.value))
  }

  /** The reserved username passes the username pattern, so only the explicit guard keeps it out. */
  lemma ReservedUsernameMatchesPattern()
    ensures ValidUsername(ReservedUsername)
  {
    assert forall i :: 0 <= i < |ReservedUsername| ==> 'a' <= ReservedUsername[i] <= 'z';
  }

  /** `getFindAccountOptions`: some account has the email or the username of the body. An
      absent field matches no row. */
  predicate FindsAccount(accounts: map<int, AccountRow>, b: AccountBody)
    ensures b.email.None? && b.username.None? ==> !FindsAccount(accounts, b)
    ensures forall a :: a in accounts && b.email == Some(accounts[a].email) ==> FindsAccount(accounts, b)
    ensures forall a :: a in accounts && b.username == Some(accounts[a].username) ==> FindsAccount(accounts, b)
  {
    exists a :: a in accounts &&
      ((b.email.Some? && accounts[a].email == b.email.value) ||
       (b.username.Some? && accounts[a].username == b.username.value))
  }

  /** A body that passed the existence check and the parse breaks no unique index. */
  lemma {:induction false} NotFoundMeansNoClash(accounts: map<int, AccountRow>, b: AccountBody, isEmail: string -> bool, password: string, typeId: int, id: int)
    requires !FindsAccount(accounts, b) && ParseCreateRequest(b, isEmail).Ok?
    ensures !AccountClash(accounts, id, AccountRow(b.email.value, b.username.value, password, typeId))
  {
    var row := AccountRow(b.email.value, b.username.value, password, typeId);
    if AccountClash(accounts, id, row) {
      var a :| a in accounts && a != id && (accounts[a].email == row.email || accounts[a].username == row.username);
      assert FindsAccount(accounts, b);
    }
  }

  /** The id of the type named `name`, if there is one. */
  method FindTypeByName(store: Store, name: string) returns (id: Option<int>)
    ensures id.Some? <==> exists t :: t in store.types && store.types[t].name == name
    ensures id.Some? ==> id.value in store.types && store.types[id.value].name == name
  {
    if exists t :: t in store.types && store.types[t].name == name {
      var t :| t in store.types && store.types[t].name == name;
      id := Some(t);
    } else {
      id := None;
    }
  }

  /** `createAccount`: parse the body, hash the password with `hash`, look up the type named
      `typeName` and insert the account. A missing type is read through a null reference. */
  method CreateAccount(store: Store, b: AccountBody, typeName: string, isEmail: string -> bool, hash: string -> string)
    returns (r: Result<(int, int), Message>)
    requires store.Valid()
    modifies store
    ensures store.Valid()
    ensures ParseCreateRequest(b, isEmail).Err? ==> r == Err(ParseCreateRequest(b, isEmail).error) && unchanged(store)
    ensures ParseCreateRequest(b, isEmail).Ok? && !(exists t :: t in old(store.types) && old(store.types)[t].name == typeName) ==>
      r == Err(NullDereference) && unchanged(store)
    ensures r.Err? ==> unchanged(store)
    ensures r.Ok? ==>
      ParseCreateRequest(b, isEmail).Ok? &&
      var (id, typeId) := r.value;
      var row := AccountRow(b.email.value, b.username.value, hash(b.password.value), typeId);
      typeId in old(store.types) && old(store.types)[typeId].name == typeName &&
      id !in old(store.accounts) && store.accounts == old(store.accounts)[id := row]
    ensures (ParseCreateRequest(b, isEmail).Ok? && (exists t :: t in old(store.types) && old(store.types)[t].name == typeName) &&
             !AccountClash(old(store.accounts), old(store.nextAccountId), AccountRow(b.email.value, b.username.value, "", 0)) &&
             hash(b.password.value) != "") ==> r.Ok?
    ensures store.types == old(store.types) && store.snippets == old(store.snippets)
  {
    var parsed := ParseCreateRequest(b, isEmail);
    if parsed.Err? {
      return Err(parsed.error);
    }
    var account := parsed.value;
    var password := hash(account.password);
    var typeId := FindTypeByName(store, typeName);
    if typeId.None? {
      return Err(NullDereference);
    }
    var row := AccountRow(account.email, account.username, password, typeId.value);
    var inserted := store.InsertAccount(row);
    match inserted
    case Err(e) => r := Err(DatabaseError(e));
    case Ok(id) => r := Ok((id, typeId.value));
  }

  /** `createUser`: the reserved username first, then an existing account with the email or the
      username, then the parse, then the creation under the type "User". */
  method CreateUser(store: Store, b: AccountBody, isEmail: string -> bool, hash: string -> string)
    returns (r: Response<CreatedUser>)
    requires store.Valid()
    modifies store
    ensures store.Valid()
    ensures b.username == Some(ReservedUsername) ==> r == Fail(422, ForbiddenUsernameErr)
    ensures b.username != Some(ReservedUsername) && FindsAccount(old(store.accounts), b) ==>
      r == Fail(422, AccountExistsErr)
    ensures (b.username != Some(ReservedUsername) && !FindsAccount(old(store.accounts), b) &&
             ParseCreateRequest(b, isEmail).Err?) ==> r == Fail(422, ParseCreateRequest(b, isEmail).error)
    ensures r.Fail? ==> r.status == 422 && unchanged(store)
    ensures r.Done? ==>
      b.username != Some(ReservedUsername) && !FindsAccount(old(store.accounts), b) &&
      ParseCreateRequest(b, isEmail).Ok? &&
      r.payload.email == b.email.value && r.payload.username == b.username.value &&
      r.payload.accountType.name == "User" &&
      r.payload.accountType.id in old(store.types) && old(store.types)[r.payload.accountType.id].name == "User" &&
      r.payload.id !in old(store.accounts) &&
      store.accounts == old(store.accounts)[r.payload.id :=
        AccountRow(b.email.value, b.username.value, hash(b.password.value), r.payload.accountType.id)]
    ensures (b.username != Some(ReservedUsername) && !FindsAccount(old(store.accounts), b) &&
             ParseCreateRequest(b, isEmail).Ok? && hash(b.password.value) != "" &&
             exists t :: t in old(store.types) && old(store.types)[t].name == "User") ==> r.Done?
    ensures store.types == old(store.types) && store.snippets == old(store.snippets)
  {
    if b.username == Some(ReservedUsername) {
      return Fail(422, ForbiddenUsernameErr);
    }
    if FindsAccount(store.accounts, b) {
      return Fail(422, AccountExistsErr);
    }
    if ParseCreateRequest(b, isEmail).Ok? {
      NotFoundMeansNoClash(store.accounts, b, isEmail, "", 0, store.nextAccountId);
    }
    var created := CreateAccount(store, b, "User", isEmail, hash);
    match created
    case Err(m) => r := Fail(422, m);
    case Ok((id, typeId)) =>
      r := Done(CreatedUser(id, b.username.value, b.email.value, TypeView(typeId, "User")));
  }

  /** `createAdmin`: the reserved username before the credential, then 401 and 403, and only then
      the existence check and the creation under the type "Admin". */
  method CreateAdmin(store: Store, d: Decoded, b: AccountBody, isEmail: string -> bool, hash: string -> string)
    returns (r: Response<CreatedAdmin>)
    requires store.Valid()
    modifies store
    ensures store.Valid()
    ensures b.username == Some(ReservedUsername) ==> r == Fail(422, ForbiddenUsernameErr)
    ensures b.username != Some(ReservedUsername) && !d.Verified? ==> r == AuthFailure(d)
    ensures b.username != Some(ReservedUsername) && d.Verified? && !IsAdmin(d.account) ==> r == Fail(403, ForbiddenErr)
    ensures (b.username != Some(ReservedUsername) && d.Verified? && IsAdmin(d.account) &&
             FindsAccount(old(store.accounts), b)) ==> r == Fail(422, AccountExistsErr)
    ensures (b.username != Some(ReservedUsername) && d.Verified? && IsAdmin(d.account) &&
             !FindsAccount(old(store.accounts), b) && ParseCreateRequest(b, isEmail).Err?) ==>
      r == Fail(422, ParseCreateRequest(b, isEmail).error)
    ensures (b.username != Some(ReservedUsername) && d.Verified? && IsAdmin(d.account) &&
             !FindsAccount(old(store.accounts), b) && ParseCreateRequest(b, isEmail).Ok? &&
             !(exists t :: t in old(store.types) && old(store.types)[t].name == "Admin")) ==>
      r == Fail(422, NullDereference)
    ensures r.Fail? ==> unchanged(store)
    ensures r.Done? ==>
      d.Verified? && IsAdmin(d.account) && b.username != Some(ReservedUsername) &&
      !FindsAccount(old(store.accounts), b) && ParseCreateRequest(b, isEmail).Ok? &&
      r.payload == CreatedAdmin(r.payload.id, b.username.value, b.email.value) &&
      r.payload.id !in old(store.accounts) && r.payload.id in store.accounts &&
      var row := store.accounts[r.payload.id];
      row == AccountRow(b.email.value, b.username.value, hash(b.password.value), row.accountTypeId) &&
      row.accountTypeId in old(store.types) && old(store.types)[row.accountTypeId].name == "Admin" &&
      store.accounts == old(store.accounts)[r.payload.id := row]
    ensures (b.username != Some(ReservedUsername) && d.Verified? && IsAdmin(d.account) &&
             !FindsAccount(old(store.accounts), b) && ParseCreateRequest(b, isEmail).Ok? &&
             hash(b.password.value) != "" &&
             exists t :: t in old(store.types) && old(store.types)[t].name == "Admin") ==> r.Done?
    ensures store.types == old(store.types) && store.snippets == old(store.snippets)
  {
    if b.username == Some(ReservedUsername) {
      return Fail(422, ForbiddenUsernameErr);
    }
    if !d.Verified? {
      return AuthFailure(d);
    }
    if !IsAdmin(d.account) {
      return Fail(403, ForbiddenErr);
    }
    if FindsAccount(store.accounts, b) {
      return Fail(422, AccountExistsErr);
    }
    if ParseCreateRequest(b, isEmail).Ok? {
      NotFoundMeansNoClash(store.accounts, b, isEmail, "", 0, store.nextAccountId);
    }
    var created := CreateAccount(store, b, "Admin", isEmail, hash);
    match created
    case Err(m) => r := Fail(422, m);
    case Ok((id, _)) => r := Done(CreatedAdmin(id, b.username.value, b.email.value));
  }

  /** The contents of the update record of `update`, once the password is hashed. */
  datatype UpdatePlan = UpdatePlan(email: Option<string>, accountTypeId: Option<int>, password: Option<string>)

  /** The part of `update` between the credential and the table: a non-administrator may only
      update their own account; a given email must match the pattern; an account type is taken
      only from an administrator updating someone else, and an administrator naming a type for
      their own account is refused; a given password must have a valid length. The record
      holds the email, the account type and the (not yet hashed) password, nothing else. */
  function UpdateDecision(actor: Principal, id: int, b: AccountBody, isEmail: string -> bool): (r: Response<UpdatePlan>)
    ensures !IsAdmin(actor) && actor.id != id ==> r == Fail(403, ForbiddenErr)
    ensures r == Fail(400, InvalidEmailErr) <==>
      (IsAdmin(actor) || actor.id == id) && Given(b.email) && !isEmail(b.email.value)
    ensures ((IsAdmin(actor) || actor.id == id) && !(Given(b.email) && !isEmail(b.email.value)) &&
             GivenId(b.accountTypeId) && IsAdmin(actor) && actor.id == id) ==> r == Fail(403, ForbiddenErr)
    ensures r == Fail(400, InvalidPasswordErr) <==>
      (IsAdmin(actor) || actor.id == id) && !(Given(b.email) && !isEmail(b.email.value)) &&
      !(GivenId(b.accountTypeId) && IsAdmin(actor) && actor.id == id) &&
      Given(b.password) && !ValidPassword(b.password.value)
    ensures r.Done? <==>
      (IsAdmin(actor) || actor.id == id) && !(Given(b.email) && !isEmail(b.email.value)) &&
      !(GivenId(b.accountTypeId) && IsAdmin(actor) && actor.id == id) &&
      !(Given(b.password) && !ValidPassword(b.password.value))
    ensures r.Done? ==>
      r.payload.email == (if Given(b.email) then b.email else None) &&
      r.payload.accountTypeId == (if GivenId(b.accountTypeId) && IsAdmin(actor) then b.accountTypeId else None) &&
      r.payload.password == (if Given(b.password) then b.password else None)
    ensures r.Done? && r.payload.accountTypeId.Some? ==> IsAdmin(actor) && actor.id != id
    ensures r.Fail? ==> r.status == 400 || r.status == 403
  {
    if !IsAdmin(actor) && actor.id != id then Fail(403, ForbiddenErr)
    else if Given(b.email) && !isEmail(b.email.value) then Fail(400, InvalidEmailErr)
    else if GivenId(b.accountTypeId) && IsAdmin(actor) && actor.id == id then Fail(403, ForbiddenErr)
    else if Given(b.password) && !ValidPassword(b.password.value) then Fail(400, InvalidPasswordErr)
    else Done(UpdatePlan(
      if Given(b.email) then b.email else None,
      if GivenId(b.accountTypeId) && IsAdmin(actor) then b.accountTypeId else None,
      if Given(b.password) then b.password else None))
  }

  /** The checks of `update`, one after the other as the handler runs them. */
  method PlanUpdate(actor: Principal, id: int, b: AccountBody, isEmail: string -> bool) returns (r: Response<UpdatePlan>)
    ensures r == UpdateDecision(actor, id, b, isEmail)
  {
    if !IsAdmin(actor) && actor.id != id {
      return Fail(403, ForbiddenErr);
    }
    var plan := UpdatePlan(None, None, None);
    if Given(b.email) {
      if !isEmail(b.email.value) {
        return Fail(400, InvalidEmailErr);
      }
      plan := plan.(email := b.email);
    }
    if GivenId(b.accountTypeId) && IsAdmin(actor) {
      if actor.id != id {
        plan := plan.(accountTypeId := b.accountTypeId);
      } else {
        return Fail(403, ForbiddenErr);
      }
    }
    if Given(b.password) {
      if !ValidPassword(b.password.value) {
        return Fail(400, InvalidPasswordErr);
      }
      plan := plan.(password := b.password);
    }
    r := Done(plan);
  }

  /** The changes the table applies for a plan: the password hashed by `hash`. */
  function PlannedChanges(p: UpdatePlan, hash: string -> string): AccountChanges {
    AccountChanges(p.email, p.accountTypeId, if p.password.Some? then Some(hash(p.password.value)) else None)
  }

  /** `update`: an unusable credential is 401; the plan's refusals are sent as they are; the table
      applies the plan, with the password hashed by `hash`; the reply is the updated account read
      back, or nothing when no account has the id. */
  method Update(store: Store, d: Decoded, id: int, b: AccountBody, isEmail: string -> bool, hash: string -> string)
    returns (r: Response<Option<AccountView>>)
    requires store.Valid()
    modifies store
    ensures store.Valid()
    ensures !d.Verified? ==> r == AuthFailure(d) && unchanged(store)
    ensures d.Verified? && !IsAdmin(d.account) && d.account.id != id ==> r == Fail(403, ForbiddenErr) && unchanged(store)
    ensures d.Verified? && UpdateDecision(d.account, id, b, isEmail).Fail? ==>
      var refusal := UpdateDecision(d.account, id, b, isEmail);
      r == Fail(refusal.status, refusal.message) && unchanged(store)
    ensures d.Verified? && UpdateDecision(d.account, id, b, isEmail).Done? && id !in old(store.accounts) ==>
      r == Done(None) && unchanged(store)
    ensures d.Verified? && UpdateDecision(d.account, id, b, isEmail).Done? && id in old(store.accounts) ==>
      var row := ApplyAccountChanges(old(store.accounts)[id], PlannedChanges(UpdateDecision(d.account, id, b, isEmail).payload, hash));
      (r.Done? <==> row.email != "" && row.password != "" &&
                    !AccountClash(old(store.accounts), id, row) && row.accountTypeId in old(store.types)) &&
      (row.email != "" && row.password != "" && AccountClash(old(store.accounts), id, row) ==>
         r == Fail(422, DatabaseError(UniqueViolation))) &&
      (r.Done? ==> store.accounts == old(store.accounts)[id := row] &&
                   r.payload == Some(AccountView(id, row.accountTypeId, row.email, row.username)))
    ensures r.Fail? ==> unchanged(store)
    ensures r.Done? ==>
      d.Verified? && (IsAdmin(d.account) || d.account.id == id) &&
      (id !in old(store.accounts) ==> r.payload == None && unchanged(store)) &&
      (id in old(store.accounts) ==>
        var old_row := old(store.accounts)[id];
        var changes := AccountChanges(
          if Given(b.email) then b.email else None,
          if GivenId(b.accountTypeId) && IsAdmin(d.account) then b.accountTypeId else None,
          if Given(b.password) then Some(hash(b.password.value)) else None);
        var row := ApplyAccountChanges(old_row, changes);
        store.accounts == old(store.accounts)[id := row] &&
        r.payload == Some(AccountView(id, row.accountTypeId, row.email, row.username)))
    ensures r.Done? && id in old(store.accounts) && !IsAdmin(d.account) ==>
      store.accounts[id].accountTypeId == old(store.accounts)[id].accountTypeId
    ensures store.types == old(store.types) && store.snippets == old(store.snippets)
  {
    if !d.Verified? {
      return AuthFailure(d);
    }
    var plan := PlanUpdate(d.account, id, b, isEmail);
    if plan.Fail? {
      return Fail(plan.status, plan.message);
    }
    var changes := PlannedChanges(plan.payload, hash);
    var count := store.UpdateAccount(id, changes);
    if count.Err? {
      return Fail(422, DatabaseError(count.error));
    }
    if id in store.accounts {
      var row := store.accounts[id];
      r := Done(Some(AccountView(id, row.accountTypeId, row.email, row.username)));
    } else {
      r := Done(None);
    }
  }

  /** The permission rule of `remove`: an administrator may delete any account but their own, any
      other account only itself. */
  predicate MayRemove(actor: Principal, id: int)
    ensures IsAdmin(actor) ==> (MayRemove(actor, id) <==> actor.id != id)
    ensures !IsAdmin(actor) ==> (MayRemove(actor, id) <==> actor.id == id)
  {
    IsAdmin(actor) != (actor.id == id)
  }

  /** `remove`: 401, then 403 when the rule refuses, then 200 for one deleted row and 404
      otherwise; the account's snippets go with it. */
  method Remove(store: Store, d: Decoded, id: int) returns (r: Response<Message>)
    requires store.Valid()
    modifies store
    ensures store.Valid()
    ensures !d.Verified? ==> r == AuthFailure(d) && unchanged(store)
    ensures d.Verified? && !MayRemove(d.account, id) ==> r == Fail(403, ForbiddenErr) && unchanged(store)
    ensures d.Verified? && MayRemove(d.account, id) ==>
      (r == Done(DeletedAccountMsg) <==> id in old(store.accounts)) &&
      (r != Done(DeletedAccountMsg) ==> r == Fail(404, AccountNotFoundErr)) &&
      store.accounts == old(store.accounts) - {id} &&
      store.snippets == WithoutAuthor(old(store.snippets), id)
    ensures store.types == old(store.types)
  {
    if !d.Verified? {
      return AuthFailure(d);
    }
    if !MayRemove(d.account, id) {
      return Fail(403, ForbiddenErr);
    }
    var count := store.DestroyAccount(id);
    if count == 1 {
      r := Done(DeletedAccountMsg);
    } else {
      r := Fail(404, AccountNotFoundErr);
    }
  }

  /** The related tables a find request can ask to be joined in. */
  datatype Include = Snippets | AccountType

  /** The query fields of a find request, as strings; `None` when absent. */
  datatype AccountQuery = AccountQuery(
    includes: Option<string>, limit: Option<string>, offset: Option<string>,
    id: Option<string>, accountTypeId: Option<string>, authorId: Option<string>,
    username: Option<string>, email: Option<string>)

  /** The conjunction of equalities a find request filters on. */
  datatype AccountFilter = AccountFilter(
    id: Option<string>, accountTypeId: Option<string>, username: Option<string>, email: Option<string>)

  datatype FindOptions = FindOptions(limit: int, offset: int, filter: AccountFilter, joins: seq<Include>)

  /** ASCII upper-case letters mapped to lower case. */
  function LowerCase(s: string): (t: string)
    ensures |t| == |s|
    ensures forall i :: 0 <= i < |s| ==>
      t[i] == (if 'A' <= s[i] <= 'Z' then (s[i] as int - 'A' as int + 'a' as int) as char else s[i])
  {
    if s == [] then [] else
      var c := s[0];
      [if 'A' <= c <= 'Z' then (c as int - 'A' as int + 'a' as int) as char else c] + LowerCase(s[1..])
  }

  /** The join a piece of the `include` list names, if any. */
  function IncludeOf(piece: string): Option<Include> {
    var p := LowerCase(piece);
    if p == "snippets" then Some(Snippets)
    else if p == "accounttype" then Some(AccountType)
    else None
  }

  /** The joins named by the pieces, in order, unknown pieces skipped. */
  function IncludesOf(pieces: seq<string>): (r: seq<Include>)
    ensures |r| <= |pieces|
    ensures forall j :: 0 <= j < |r| ==> exists k :: 0 <= k < |pieces| && IncludeOf(pieces[k]) == Some(r[j])
  {
    if pieces == [] then []
    else
      var rest := IncludesOf(pieces[..|pieces| - 1]);
      match IncludeOf(pieces[|pieces| - 1])
      case Some(inc) => rest + [inc]
      case None => rest
  }

  /** The `forEach` over the pieces of the `include` list. */
  method CollectIncludes(pieces: seq<string>) returns (joins: seq<Include>)
    ensures joins == IncludesOf(pieces)
  {
    joins := [];
    var i := 0;
    while i < |pieces|
      invariant 0 <= i <= |pieces|
      invariant joins == IncludesOf(pieces[..i])
    {
      assert pieces[..i + 1][..i] == pieces[..i];
      var inc := IncludeOf(pieces[i]);
      if inc.Some? {
        joins := joins + [inc.value];
      }
      i := i + 1;
    }
    assert pieces[..|pieces|] == pieces;
  }

  /** The limit of a find request: the parsed limit capped at the maximum, else the maximum. */
  function LimitOf(raw: Option<string>): (l: int)
    ensures l <= LimitCap
    ensures !Given(raw) || ParseInt(raw.value).None? ==> l == LimitCap
    ensures Given(raw) && ParseInt(raw.value).Some? ==>
      l == ParseInt(raw.value).value || (l == LimitCap && ParseInt(raw.value).value > LimitCap)
  {
    if Given(raw) && ParseInt(raw.value).Some? && ParseInt(raw.value).value < LimitCap then ParseInt(raw.value).value
    else LimitCap
  }

  /** `createFindPromise`: the default limit and offset, overridden by a usable `limit` (capped)
      and `offset`; the joins named in the comma-separated `include`; the equality filters of the
      given fields, `authorId` standing for the account id and taking precedence over `id`. */
  method CreateFindOptions(q: AccountQuery) returns (o: FindOptions)
    ensures o.limit == LimitOf(q.limit)
    ensures o.limit <= LimitCap
    ensures o.offset == (if Given(q.offset) && ParseInt(q.offset.value).Some? then ParseInt(q.offset.value).value else 0)
    ensures o.joins == (if Given(q.includes) then IncludesOf(Split(q.includes.value, ',')) else [])
    ensures o.filter.id == (if Given(q.authorId) then q.authorId else if Given(q.id) then q.id else None)
    ensures o.filter.accountTypeId == (if Given(q.accountTypeId) then q.accountTypeId else None)
    ensures o.filter.username == (if Given(q.username) then q.username else None)
    ensures o.filter.email == (if Given(q.email) then q.email else None)
  {
    var joins: seq<Include> := [];
    if Given(q.includes) {
      joins := CollectIncludes(Split(q.includes.value, ','));
    }
    var limit := LimitCap;
    if Given(q.limit) {
      var parsed := ParseInt(q.limit.value);
      if parsed.Some? {
        limit := if parsed.value < LimitCap then parsed.value else LimitCap;
      }
    }
    var offset := 0;
    if Given(q.offset) {
      var parsed := ParseInt(q.offset.value);
      if parsed.Some? {
        offset := parsed.value;
      }
    }
    var filter := AccountFilter(None, None, None, None);
    if Given(q.id) {
      filter := filter.(id := q.id);
    }
    if Given(q.accountTypeId) {
      filter := filter.(accountTypeId := q.accountTypeId);
    }
    if Given(q.authorId) {
      filter := filter.(id := q.authorId);
    }
    if Given(q.username) {
      filter := filter.(username := q.username);
    }
    if Given(q.email) {
      filter := filter.(email := q.email);
    }
    o := FindOptions(limit, offset, filter, joins);
  }

  /** Every join named by a piece of the `include` list appears, spelt in any case. */
  lemma {:induction false} NamedIncludesAppear(pieces: seq<string>, k: int)
    requires 0 <= k < |pieces| && IncludeOf(pieces[k]).Some?
    ensures IncludeOf(pieces[k]).value in IncludesOf(pieces)
  {
    if k < |pieces| - 1 {
      NamedIncludesAppear(pieces[..|pieces| - 1], k);
    }
  }
}
