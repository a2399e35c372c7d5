/** The three tables behind the controllers (accounts, account types, snippets) and the
    constraints their models declare: unique and non-empty account email and username,
    non-empty password, unique (author, name) and (author, body) for snippets, a cascade
    from an account to its snippets and a restriction on deleting a referenced type. */
module Models {
  import opened Common

  datatype AccountRow = AccountRow(email: string, username: string, password: string, accountTypeId: int)

  datatype TypeRow = TypeRow(name: string)

  datatype SnippetRow = SnippetRow(authorId: int, name: string, body: string)

  /** The fields an account update may set: email, account type and (hashed) password. */
  datatype AccountChanges = AccountChanges(email: Option<string>, accountTypeId: Option<int>, password: Option<string>)

  /** The fields a snippet update may set: name and body. */
  datatype SnippetChanges = SnippetChanges(name: Option<string>, body: Option<string>)

  /** Which snippets a request addresses: the one with `id`, and when `authorId` is given only
      if that account wrote it. */
  datatype SnippetWhere = SnippetWhere(id: int, authorId: Option<int>)

  /** The two account types that can be neither renamed nor deleted. */
  predicate IsProtectedTypeName(name: string) {
    name == "Admin" || name == "User"
  }

  predicate AccountsValid(accounts: map<int, AccountRow>, types: map<int, TypeRow>) {
    && (forall a :: a in accounts ==>
          accounts[a].email != "" && accounts[a].username != "" && accounts[a].password != "" &&
          accounts[a].accountTypeId in types)
    && (forall a, b :: a in accounts && b in accounts && a != b ==>
          accounts[a].email != accounts[b].email && accounts[a].username != accounts[b].username)
  }

  predicate TypesValid(types: map<int, TypeRow>) {
    && (forall t :: t in types ==> types[t].name != "")
    && (forall t, u :: t in types && u in types && t != u ==> types[t].name != types[u].name)
  }

  predicate SnippetsValid(snippets: map<int, SnippetRow>, accounts: map<int, AccountRow>) {
    && (forall s :: s in snippets ==> snippets[s].authorId in accounts)
    && (forall s, t :: s in snippets && t in snippets && s != t && snippets[s].authorId == snippets[t].authorId ==>
          snippets[s].name != snippets[t].name && snippets[s].body != snippets[t].body)
  }

  /** Some account other than `id` already has the email or the username of `row`. */
  predicate AccountClash(accounts: map<int, AccountRow>, id: int, row: AccountRow) {
    exists a :: a in accounts && a != id && (accounts[a].email == row.email || accounts[a].username == row.username)
  }

  predicate TypeClash(types: map<int, TypeRow>, id: int, name: string) {
    exists t :: t in types && t != id && types[t].name == name
  }

  /** Some snippet other than `id` by the same author already has the name or the body of `row`. */
  predicate SnippetClash(snippets: map<int, SnippetRow>, id: int, row: SnippetRow) {
    exists s :: s in snippets && s != id && snippets[s].authorId == row.authorId &&
      (snippets[s].name == row.name || snippets[s].body == row.body)
  }

  function ApplyAccountChanges(row: AccountRow, c: AccountChanges): (r: AccountRow)
    ensures r.username == row.username
  {
    AccountRow(
      if c.email.Some? then c.email.value else row.email,
      row.username,
      if c.password.Some? then c.password.value else row.password,
      if c.accountTypeId.Some? then c.accountTypeId.value else row.accountTypeId)
  }

  function ApplySnippetChanges(row: SnippetRow, c: SnippetChanges): (r: SnippetRow)
    ensures r.authorId == row.authorId
  {
    SnippetRow(
      row.authorId,
      if c.name.Some? then c.name.value else row.name,
      if c.body.Some? then c.body.value else row.body)
  }

  predicate Matches(where: SnippetWhere, id: int, row: SnippetRow) {
    id == where.id && (where.authorId.None? || where.authorId.value == row.authorId)
  }

  /** The snippets left after the account `id` is deleted: the cascade removes exactly the
      snippets it wrote. */
  function WithoutAuthor(snippets: map<int, SnippetRow>, id: int): (r: map<int, SnippetRow>)
    ensures forall s :: s in r <==> s in snippets && snippets[s].authorId != id
    ensures forall s :: s in r ==> r[s] == snippets[s]
  {
    map s | s in snippets && snippets[s].authorId != id :: snippets[s]
  }

  /** The indexes are per author: two authors may each hold a snippet with the same name and
      the same body. */
  lemma DifferentAuthorsMayShare(name: string, body: string)
    ensures exists accounts: map<int, AccountRow>, snippets: map<int, SnippetRow> ::
      SnippetsValid(snippets, accounts) && 1 in snippets && 2 in snippets &&
      snippets[1].name == snippets[2].name == name && snippets[1].body == snippets[2].body == body
  {
    var accounts := map[1 := AccountRow("a@b.co", "a", "hash", 1), 2 := AccountRow("c@d.co", "c", "hash", 1)];
    var snippets := map[1 := SnippetRow(1, name, body), 2 := SnippetRow(2, name, body)];
    assert SnippetsValid(snippets, accounts);
  }

  /** The cascade keeps snippet integrity: removing an account together with its snippets
      leaves every remaining snippet with an existing author and keeps both indexes. */
  lemma {:induction false} CascadeKeepsSnippetsValid(snippets: map<int, SnippetRow>, accounts: map<int, AccountRow>, id: int)
    requires SnippetsValid(snippets, accounts)
    ensures SnippetsValid(WithoutAuthor(snippets, id), accounts - {id})
  {
    var r := WithoutAuthor(snippets, id);
    forall s | s in r ensures r[s].authorId in accounts - {id} {
      assert r[s] == snippets[s];
    }
  }

  /** The database: one map per table, keyed by the auto-increment id, with the next id each
      table hands out. */
  class Store {
    var accounts: map<int, AccountRow>
    var types: map<int, TypeRow>
    var snippets: map<int, SnippetRow>
    var nextAccountId: int
    var nextTypeId: int
    var nextSnippetId: int

    ghost predicate Valid()
      reads this
    {
      && AccountsValid(accounts, types)
      && TypesValid(types)
      && SnippetsValid(snippets, accounts)
      && (forall a :: a in accounts ==> a < nextAccountId)
      && (forall t :: t in types ==> t < nextTypeId)
      && (forall s :: s in snippets ==> s < nextSnippetId)
    }

    constructor ()
      ensures Valid()
      ensures accounts == map[] && types == map[] && snippets == map[]
    {
      accounts, types, snippets := map[], map[], map[];
      nextAccountId, nextTypeId, nextSnippetId := 1, 1, 1;
    }

    /** `Account.create`: the column validations, then the unique columns, then the
        reference to the account type. */
    method InsertAccount(row: AccountRow) returns (r: Result<int, StoreFailure>)
      requires Valid()
      modifies this
      ensures Valid()
      ensures r == Err(EmptyField) <==> row.email == "" || row.username == "" || row.password == ""
      ensures r == Err(UniqueViolation) <==>
        row.email != "" && row.username != "" && row.password != "" &&
        AccountClash(old(accounts), old(nextAccountId), row)
      ensures r == Err(ForeignKeyViolation) <==>
        row.email != "" && row.username != "" && row.password != "" &&
        !AccountClash(old(accounts), old(nextAccountId), row) && row.accountTypeId !in old(types)
      ensures r.Ok? <==>
        row.email != "" && row.username != "" && row.password != "" &&
        !AccountClash(old(accounts), old(nextAccountId), row) && row.accountTypeId in old(types)
      ensures r.Err? ==> unchanged(this)
      ensures r.Ok? ==> r.value !in old(accounts) && accounts == old(accounts)[r.value := row]
      ensures types == old(types) && snippets == old(snippets)
    {
      if row.email == "" || row.username == "" || row.password == "" {
        return Err(EmptyField);
      }
      if AccountClash(accounts, nextAccountId, row) {
        return Err(UniqueViolation);
      }
      if row.accountTypeId !in types {
        return Err(ForeignKeyViolation);
      }
      r := Ok(nextAccountId);
      accounts := accounts[nextAccountId := row];
      nextAccountId := nextAccountId + 1;
    }

    /** `Account.update(changes, {where: {id}})`: the number of rows changed, or the
        constraint the change would break. */
    method UpdateAccount(id: int, changes: AccountChanges) returns (r: Result<nat, StoreFailure>)
      requires Valid()
      modifies this
      ensures Valid()
      ensures id !in old(accounts) ==> r == Ok(0) && unchanged(this)
      ensures id in old(accounts) ==>
        var row := ApplyAccountChanges(old(accounts)[id], changes);
        (r.Ok? <==> row.email != "" && row.password != "" &&
                    !AccountClash(old(accounts), id, row) && row.accountTypeId in old(types)) &&
        (r == Err(EmptyField) <==> row.email == "" || row.password == "") &&
        (r == Err(UniqueViolation) <==> row.email != "" && row.password != "" && AccountClash(old(accounts), id, row)) &&
        (r.Ok? ==> r.value == 1 && accounts == old(accounts)[id := row])
      ensures r.Err? ==> unchanged(this)
      ensures types == old(types) && snippets == old(snippets) && nextAccountId == old(nextAccountId)
    {
      if id !in accounts {
        return Ok(0);
      }
      var row := ApplyAccountChanges(accounts[id], changes);
      if row.email == "" || row.password == "" {
        return Err(EmptyField);
      }
      if AccountClash(accounts, id, row) {
        return Err(UniqueViolation);
      }
      if row.accountTypeId !in types {
        return Err(ForeignKeyViolation);
      }
      accounts := accounts[id := row];
      r := Ok(1);
    }

    /** `Account.destroy({where: {id}})`: the number of accounts deleted; the account's
        snippets go with it. */
    method DestroyAccount(id: int) returns (count: nat)
      requires Valid()
      modifies this
      ensures Valid()
      ensures count == (if id in old(accounts) then 1 else 0)
      ensures accounts == old(accounts) - {id}
      ensures snippets == WithoutAuthor(old(snippets), id)
      ensures types == old(types)
    {
      count := if id in accounts then 1 else 0;
      CascadeKeepsSnippetsValid(snippets, accounts, id);
      snippets := WithoutAuthor(snippets, id);
      accounts := accounts - {id};
    }

    /** `AccountType.findOrCreate({where: {name}})`: the existing type of that name, or a new
        one; `created` tells which. */
    method FindOrCreateType(name: string) returns (id: int, created: bool)
      requires Valid() && name != ""
      modifies this
      ensures Valid()
      ensures id in types && types[id].name == name
      ensures created <==> !TypeClash(old(types), old(nextTypeId), name)
      ensures !created ==> unchanged(this)
      ensures created ==> id !in old(types) && types == old(types)[id := TypeRow(name)]
      ensures accounts == old(accounts) && snippets == old(snippets)
    {
      if TypeClash(types, nextTypeId, name) {
        id :| id in types && types[id].name == name;
        created := false;
      } else {
        id, created := nextTypeId, true;
        types := types[id := TypeRow(name)];
        nextTypeId := nextTypeId + 1;
      }
    }

    /** `AccountType.update({name}, {where: {id, name not in [Admin, User]}})`. */
    method UpdateType(id: int, name: Option<string>) returns (r: Result<nat, StoreFailure>)
      requires Valid()
      requires name.Some? ==> name.value != ""
      modifies this
      ensures Valid()
      ensures (id !in old(types) || IsProtectedTypeName(old(types)[id].name)) ==> r == Ok(0)
      ensures r == Err(UniqueViolation) <==>
        id in old(types) && !IsProtectedTypeName(old(types)[id].name) &&
        name.Some? && TypeClash(old(types), id, name.value)
      ensures r.Err? ==> r.error == UniqueViolation
      ensures r.Ok? && r.value == 1 ==> types == old(types)[id := if name.Some? then TypeRow(name.value) else old(types)[id]]
      ensures r.Err? || r == Ok(0) ==> unchanged(this)
      ensures r.Ok? ==> r.value == (if id in old(types) && !IsProtectedTypeName(old(types)[id].name) then 1 else 0)
      ensures accounts == old(accounts) && snippets == old(snippets)
    {
      if id !in types || IsProtectedTypeName(types[id].name) {
        return Ok(0);
      }
      if name.Some? {
        if TypeClash(types, id, name.value) {
          return Err(UniqueViolation);
        }
        types := types[id := TypeRow(name.value)];
      }
      r := Ok(1);
    }

    /** `AccountType.destroy({where: {id, name not in [Admin, User]}})`: refused while an
        account still has the type. */
    method DestroyType(id: int) returns (r: Result<nat, StoreFailure>)
      requires Valid()
      modifies this
      ensures Valid()
      ensures (id !in old(types) || IsProtectedTypeName(old(types)[id].name)) ==> r == Ok(0)
      ensures r == Err(ForeignKeyViolation) <==>
        id in old(types) && !IsProtectedTypeName(old(types)[id].name) &&
        exists a :: a in old(accounts) && old(accounts)[a].accountTypeId == id
      ensures r.Err? ==> r.error == ForeignKeyViolation
      ensures r == Ok(1) ==> types == old(types) - {id}
      ensures r != Ok(1) ==> unchanged(this)
      ensures r.Ok? ==> r.value == (if id in old(types) && !IsProtectedTypeName(old(types)[id].name) then 1 else 0)
      ensures accounts == old(accounts) && snippets == old(snippets)
    {
      if id !in types || IsProtectedTypeName(types[id].name) {
        return Ok(0);
      }
      if exists a :: a in accounts && accounts[a].accountTypeId == id {
        return Err(ForeignKeyViolation);
      }
      types := types - {id};
      r := Ok(1);
    }

    /** `Snippet.create`: the author must exist and the author's names and bodies stay unique. */
    method InsertSnippet(row: SnippetRow) returns (r: Result<int, StoreFailure>)
      requires Valid()
      modifies this
      ensures Valid()
      ensures r == Err(ForeignKeyViolation) <==> row.authorId !in old(accounts)
      ensures r.Ok? <==> row.authorId in old(accounts) && !SnippetClash(old(snippets), old(nextSnippetId), row)
      ensures r.Err? ==> unchanged(this)
      ensures r.Ok? ==> r.value !in old(snippets) && snippets == old(snippets)[r.value := row]
      ensures accounts == old(accounts) && types == old(types)
    {
      if row.authorId !in accounts {
        return Err(ForeignKeyViolation);
      }
      if SnippetClash(snippets, nextSnippetId, row) {
        return Err(UniqueViolation);
      }
      r := Ok(nextSnippetId);
      snippets := snippets[nextSnippetId := row];
      nextSnippetId := nextSnippetId + 1;
    }

    /** `Snippet.update(changes, {where})`: the number of rows matched and changed. */
    method UpdateSnippet(where: SnippetWhere, changes: SnippetChanges) returns (r: Result<nat, StoreFailure>)
      requires Valid()
      modifies this
      ensures Valid()
      ensures !(where.id in old(snippets) && Matches(where, where.id, old(snippets)[where.id])) ==>
        r == Ok(0) && unchanged(this)
      ensures where.id in old(snippets) && Matches(where, where.id, old(snippets)[where.id]) ==>
        var row := ApplySnippetChanges(old(snippets)[where.id], changes);
        (r.Ok? <==> !SnippetClash(old(snippets), where.id, row)) &&
        (r.Ok? ==> r.value == 1 && snippets == old(snippets)[where.id := row]) &&
        (r.Err? ==> r.error == UniqueViolation && unchanged(this))
      ensures accounts == old(accounts) && types == old(types) && nextSnippetId == old(nextSnippetId)
    {
      if where.id !in snippets || !Matches(where, where.id, snippets[where.id]) {
        return Ok(0);
      }
      var row := ApplySnippetChanges(snippets[where.id], changes);
      if SnippetClash(snippets, where.id, row) {
        return Err(UniqueViolation);
      }
      snippets := snippets[where.id := row];
      r := Ok(1);
    }

    /** `Snippet.destroy({where})`: the number of rows deleted. */
    method DestroySnippet(where: SnippetWhere) returns (count: nat)
      requires Valid()
      modifies this
      ensures Valid()
      ensures count == (if where.id in old(snippets) && Matches(where, where.id, old(snippets)[where.id]) then 1 else 0)
      ensures snippets == if count == 1 then old(snippets) - {where.id} else old(snippets)
      ensures accounts == old(accounts) && types == old(types)
    {
      if where.id in snippets && Matches(where, where.id, snippets[where.id]) {
        count := 1;
        snippets := snippets - {where.id};
      } else {
        count := 0;
      }
    }
  }
}
