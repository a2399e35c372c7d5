/** The signed-in account as the client remembers it in `localStorage`: its id, username,
    email and account-type name. */
module ClientAccount {
  import opened Common
  import opened JsText
  import opened WebStorage
  import ClientAuth

  const IdKey: string := "accountId"
  const UsernameKey: string := "accountUsername"
  const EmailKey: string := "accountEmail"
  const TypeKey: string := "accountTypeName"

  /** The account type of an account object; the name may be missing or not a string. */
  datatype AccountTypeObject = AccountTypeObject(name: Option<string>)

  /** The account object `saveAccount` is given; the account type may be null. The id is an
      integer, and the username and email are strings. */
  datatype AccountObject = AccountObject(id: int, username: string, email: string, accountType: Option<AccountTypeObject>)

  /** The `TypeError`s of `saveAccount` that the types above leave possible. */
  datatype SaveFailure = AccountTypeMissing | AccountTypeNameMissing

  /** What `getAccount` returns: each field is `None` where the storage has no entry, and the
      id is `None` where it reads as NaN. */
  datatype StoredAccount = StoredAccount(id: Option<int>, username: Option<string>, email: Option<string>, typeName: Option<string>)

  /** The checks of `saveAccount`: the account type first, then its name. */
  function SaveCheck(a: AccountObject): (r: Option<SaveFailure>)
    ensures r.None? <==> a.accountType.Some? && a.accountType.value.name.Some?
    ensures a.accountType.None? ==> r == Some(AccountTypeMissing)
    ensures a.accountType.Some? && a.accountType.value.name.None? ==> r == Some(AccountTypeNameMissing)
  {
    if a.accountType.None? then Some(AccountTypeMissing)
    else if a.accountType.value.name.None? then Some(AccountTypeNameMissing)
    else None
  }

  /** The storage after `saveAccount(a)`: the four keys hold the id's numeral, the username,
      the email and the type name, and no other key changes. */
  function Saved(items: map<string, string>, a: AccountObject): (r: map<string, string>)
    requires SaveCheck(a).None?
    ensures Item(r, IdKey) == Some(IntToString(a.id))
    ensures Item(r, UsernameKey) == Some(a.username) && Item(r, EmailKey) == Some(a.email)
    ensures Item(r, TypeKey) == a.accountType.value.name
    ensures AgreeOutside(items, r, {IdKey, UsernameKey, EmailKey, TypeKey})
  {
    items[IdKey := IntToString(a.id)][UsernameKey := a.username][EmailKey := a.email]
      [TypeKey := a.accountType.value.name.value]
  }

  /** `getAccountId`: the stored id read by `parseInt`; `None` is NaN. */
  function AccountId(items: map<string, string>): (id: Option<int>)
    ensures IdKey !in items ==> id.None?
    ensures IdKey in items ==> id == ParseInt(items[IdKey])
  {
    match Item(items, IdKey)
    case None => None
    case Some(s) => ParseInt(s)
  }

  /** `getAccount`, from the four getters. */
  function StoredAccountOf(items: map<string, string>): (a: StoredAccount)
    ensures a.id == (if IdKey in items then ParseInt(items[IdKey]) else None)
    ensures a.username == (if UsernameKey in items then Some(items[UsernameKey]) else None)
    ensures a.email == (if EmailKey in items then Some(items[EmailKey]) else None)
    ensures a.typeName == (if TypeKey in items then Some(items[TypeKey]) else None)
  {
    StoredAccount(AccountId(items), Item(items, UsernameKey), Item(items, EmailKey), Item(items, TypeKey))
  }

  /** The storage after `removeAccount`: the four keys are gone, and no other key changes. */
  function Removed(items: map<string, string>): (r: map<string, string>)
    ensures IdKey !in r && UsernameKey !in r && EmailKey !in r && TypeKey !in r
    ensures AgreeOutside(items, r, {IdKey, UsernameKey, EmailKey, TypeKey})
    ensures r.Keys <= items.Keys
  {
    items - {IdKey, UsernameKey, EmailKey, TypeKey}
  }

  /** After a save, `getAccount` gives back the saved id, username, email and type name. */
  lemma {:induction false} GetAfterSave(items: map<string, string>, a: AccountObject)
    requires SaveCheck(a).None?
    ensures StoredAccountOf(Saved(items, a)) ==
      StoredAccount(Some(a.id), Some(a.username), Some(a.email), Some(a.accountType.value.name.value))
  {
    ParseIntOfIntToString(a.id);
  }

  /** After a removal nothing is remembered. */
  lemma GetAfterRemove(items: map<string, string>)
    ensures StoredAccountOf(Removed(items)) == StoredAccount(None, None, None, None)
  {
  }

  /** The account and the credential live under different keys: signing the credential out
      keeps the account, and removing the account keeps the credential. */
  lemma AccountAndTokenAreIndependent(items: map<string, string>)
    ensures StoredAccountOf(ClientAuth.WithoutToken(items)) == StoredAccountOf(items)
    ensures Item(Removed(items), ClientAuth.TokenKey) == Item(items, ClientAuth.TokenKey)
    ensures ClientAuth.IssueTime(Removed(items)) == ClientAuth.IssueTime(items)
  {
    var w := ClientAuth.WithoutToken(items);
    assert Item(w, IdKey) == Item(items, IdKey);
    assert Item(Removed(items), ClientAuth.IssueTimeKey) == Item(items, ClientAuth.IssueTimeKey);
  }

  /** `saveAccount`: a rejected account leaves the storage alone. */
  method SaveAccount(local: Storage, a: AccountObject) returns (r: Option<SaveFailure>)
    modifies local
    ensures r == SaveCheck(a)
    ensures r.Some? ==> local.items == old(local.items)
    ensures r.None? ==> local.items == Saved(old(local.items), a)
  {
    if a.accountType.None? {
      return Some(AccountTypeMissing);
    } else if a.accountType.value.name.None? {
      return Some(AccountTypeNameMissing);
    }
    local.SetItem(IdKey, IntToString(a.id));
    local.SetItem(UsernameKey, a.username);
    local.SetItem(EmailKey, a.email);
    local.SetItem(TypeKey, a.accountType.value.name.value);
    r := None;
  }

  /** `getAccountId`. */
  method GetAccountId(local: Storage) returns (id: Option<int>)
    ensures id == AccountId(local.items)
  {
    var stored := Item(local.items, IdKey);
    id := if stored.Some? then ParseInt(stored.value) else None;
  }

  /** `getAccount`. */
  method GetAccount(local: Storage) returns (a: StoredAccount)
    ensures a == StoredAccountOf(local.items)
  {
    var id := GetAccountId(local);
    a := StoredAccount(id, Item(local.items, UsernameKey), Item(local.items, EmailKey), Item(local.items, TypeKey));
  }

  /** `removeAccount`. */
  method RemoveAccount(local: Storage)
    modifies local
    ensures local.items == Removed(old(local.items))
  {
    local.RemoveItem(IdKey);
    local.RemoveItem(UsernameKey);
    local.RemoveItem(EmailKey);
    local.RemoveItem(TypeKey);
    assert local.items == old(local.items) - {IdKey, UsernameKey, EmailKey, TypeKey};
  }
}
