/** The account-type handlers: only an administrator may create, rename or delete a type, the
    types "Admin" and "User" behave as absent for renaming and deleting, and a find query is
    read into a name filter, a limit and an offset. */
module AccountTypeController {
  import opened Common
  import opened JsText
  import opened Models

  const MinNameLength: int := 4
  const MaxNameLength: int := 24

  /** The account-type name pattern `^([a-zA-Z]{4,24})$`. */
  predicate ValidTypeName(name: string) {
    MinNameLength <= |name| <= MaxNameLength && forall i :: 0 <= i < |name| ==> IsAsciiLetter(name[i])
  }

  datatype TypeView = TypeView(id: int, name: string)

  /** The reply to a successful rename: the name if one was set, and the id. */
  datatype UpdatedType = UpdatedType(name: Option<string>, id: int)

  /** The gate every handler of this controller passes first: 401 for an unusable credential,
      403 for an account that is not an administrator; `None` lets the request through. */
  function AdminGate<T>(d: Decoded): (r: Option<Response<T>>)
    ensures r.None? <==> d.Verified? && IsAdmin(d.account)
    ensures !d.Verified? ==> r == Some(AuthFailure(d))
    ensures d.Verified? && !IsAdmin(d.account) ==> r == Some(Fail(403, ForbiddenErr))
  {
    if !d.Verified? then Some(AuthFailure(d))
    else if !IsAdmin(d.account) then Some(Fail(403, ForbiddenErr))
    else None
  }

  /** What `create` should send after the gate: 400 for a missing or malformed name, and
      otherwise the find-or-create of that name. */
  function CheckNewName(name: Option<string>): (r: Result<string, Message>)
    ensures !Given(name) ==> r == Err(MissingAccountTypeNameErr)
    ensures Given(name) && !ValidTypeName(name.value) ==> r == Err(InvalidAccountTypeNameErr)
    ensures r.Ok? <==> Given(name) && ValidTypeName(name.value)
    ensures r.Ok? ==> r.value == name.value
  {
    if !Given(name) then Err(MissingAccountTypeNameErr)
    else if !ValidTypeName(name.value) then Err(InvalidAccountTypeNameErr)
    else Ok(name.value)
  }

  /** `create` as written: the 400 for a rejected name is sent but the handler goes on, so the
      find-or-create of a malformed but non-empty name still runs, and adds that type. The
      reply is the first one sent. */
  method CreateAsWritten(store: Store, d: Decoded, name: Option<string>) returns (r: Response<TypeView>)
    requires store.Valid()
    modifies store
    ensures store.Valid()
    ensures AdminGate<TypeView>(d).Some? ==> r == AdminGate<TypeView>(d).value && unchanged(store)
    ensures AdminGate<TypeView>(d).None? && CheckNewName(name).Err? ==> r == Fail(400, CheckNewName(name).error)
    ensures AdminGate<TypeView>(d).None? && Given(name) ==>
      (exists t :: t in store.types && store.types[t].name == name.value) &&
      (TypeClash(old(store.types), old(store.nextTypeId), name.value) ==> unchanged(store))
    ensures store.accounts == old(store.accounts) && store.snippets == old(store.snippets)
  {
    var gate := AdminGate<TypeView>(d);
    if gate.Some? {
      return gate.value;
    }
    var check := CheckNewName(name);
    if check.Err? {
      r := Fail(400, check.error);
    }
    if Given(name) {
      var id, created := store.FindOrCreateType(name.value);
      if check.Ok? {
        r := Done(TypeView(id, name.value));
      }
    }
  }

  /** A counterexample for `create` as written: an administrator creating the type "abc" on an
      empty table is refused with 400, and "abc" is in the table afterwards. */
  method MalformedNameIsStillCreated() returns (r: Response<TypeView>, stored: bool)
    ensures r == Fail(400, InvalidAccountTypeNameErr)
    ensures stored
  {
    var store := new Store();
    var admin := Verified(Principal(1, "Admin"));
    assert |"abc"| < MinNameLength;
    r := CreateAsWritten(store, admin, Some("abc"));
    stored := exists t :: t in store.types && store.types[t].name == "abc";
  }

  /** `create` with the missing `return`s added: a rejected name changes nothing, a valid one
      yields the type of that name, created only when no type has it. */
  method Create(store: Store, d: Decoded, name: Option<string>) returns (r: Response<TypeView>)
    requires store.Valid()
    modifies store
    ensures store.Valid()
    ensures AdminGate<TypeView>(d).Some? ==> r == AdminGate<TypeView>(d).value && unchanged(store)
    ensures AdminGate<TypeView>(d).None? && CheckNewName(name).Err? ==>
      r == Fail(400, CheckNewName(name).error) && unchanged(store)
    ensures r.Done? ==>
      AdminGate<TypeView>(d).None? && CheckNewName(name) == Ok(r.payload.name) &&
      r.payload.id in store.types && store.types[r.payload.id] == TypeRow(r.payload.name) &&
      (TypeClash(old(store.types), old(store.nextTypeId), r.payload.name) ==> unchanged(store)) &&
      (!TypeClash(old(store.types), old(store.nextTypeId), r.payload.name) ==>
         r.payload.id !in old(store.types) && store.types == old(store.types)[r.payload.id := TypeRow(r.payload.name)])
    ensures AdminGate<TypeView>(d).None? && CheckNewName(name).Ok? ==> r.Done?
    ensures store.accounts == old(store.accounts) && store.snippets == old(store.snippets)
  {
    var gate := AdminGate<TypeView>(d);
    if gate.Some? {
      return gate.value;
    }
    var check := CheckNewName(name);
    if check.Err? {
      return Fail(400, check.error);
    }
    var id, created := store.FindOrCreateType(check.value);
    r := Done(TypeView(id, check.value));
  }

  /** `update`. A rejected name sends 400 and the handler then goes on with an empty update,
      which changes no modelled column; the reply is the 400. A type named "Admin" or "User"
      is reported as not found. */
  method Update(store: Store, d: Decoded, id: int, name: Option<string>) returns (r: Response<UpdatedType>)
    requires store.Valid()
    modifies store
    ensures store.Valid()
    ensures AdminGate<UpdatedType>(d).Some? ==> r == AdminGate<UpdatedType>(d).value && unchanged(store)
    ensures AdminGate<UpdatedType>(d).None? && Given(name) && !ValidTypeName(name.value) ==>
      r == Fail(400, InvalidAccountTypeNameErr) && store.types == old(store.types)
    ensures (AdminGate<UpdatedType>(d).None? && !(Given(name) && !ValidTypeName(name.value)) &&
             (id !in old(store.types) || IsProtectedTypeName(old(store.types)[id].name))) ==>
      r == Fail(404, AccountTypeNotFoundErr) && store.types == old(store.types)
    ensures r.Done? ==>
      id in old(store.types) && !IsProtectedTypeName(old(store.types)[id].name) &&
      r.payload == UpdatedType(if Given(name) then name else None, id) &&
      store.types == old(store.types)[id := if Given(name) then TypeRow(name.value) else old(store.types)[id]]
    ensures (AdminGate<UpdatedType>(d).None? && !(Given(name) && !ValidTypeName(name.value)) &&
             id in old(store.types) && !IsProtectedTypeName(old(store.types)[id].name)) ==>
      (Given(name) && TypeClash(old(store.types), id, name.value) ==> r == Fail(422, DatabaseError(UniqueViolation))) &&
      (!(Given(name) && TypeClash(old(store.types), id, name.value)) ==> r.Done?)
    ensures r.Fail? ==> store.types == old(store.types)
    ensures store.accounts == old(store.accounts) && store.snippets == old(store.snippets)
  {
    var gate := AdminGate<UpdatedType>(d);
    if gate.Some? {
      return gate.value;
    }
    var newName: Option<string> := None;
    var rejected := false;
    if Given(name) {
      if !ValidTypeName(name.value) {
        rejected := true;
      } else {
        newName := name;
      }
    }
    var count := store.UpdateType(id, newName);
    if rejected {
      r := Fail(400, InvalidAccountTypeNameErr);
    } else {
      match count
      case Err(e) => r := Fail(422, DatabaseError(e));
      case Ok(n) =>
        if n == 0 {
          r := Fail(404, AccountTypeNotFoundErr);
        } else {
          r := Done(UpdatedType(newName, id));
        }
    }
  }

  /** `remove`: a type named "Admin" or "User" is reported as not found, and a type some
      account still has is refused by the table. */
  method Remove(store: Store, d: Decoded, id: int) returns (r: Response<Message>)
    requires store.Valid()
    modifies store
    ensures store.Valid()
    ensures AdminGate<Message>(d).Some? ==> r == AdminGate<Message>(d).value && unchanged(store)
    ensures AdminGate<Message>(d).None? ==>
      var deletable := id in old(store.types) && !IsProtectedTypeName(old(store.types)[id].name);
      var referenced := exists a :: a in old(store.accounts) && old(store.accounts)[a].accountTypeId == id;
      (!deletable ==> r == Fail(404, AccountTypeNotFoundErr) && unchanged(store)) &&
      (deletable && referenced ==> r == Fail(422, DatabaseError(ForeignKeyViolation)) && unchanged(store)) &&
      (deletable && !referenced ==> r == Done(DeletedAccountTypeMsg) && store.types == old(store.types) - {id})
    ensures store.accounts == old(store.accounts) && store.snippets == old(store.snippets)
  {
    var gate := AdminGate<Message>(d);
    if gate.Some? {
      return gate.value;
    }
    var count := store.DestroyType(id);
    match count
    case Err(e) => r := Fail(422, DatabaseError(e));
    case Ok(n) =>
      if n == 0 {
        r := Fail(404, AccountTypeNotFoundErr);
      } else {
        r := Done(DeletedAccountTypeMsg);
      }
  }

  /** The query fields of a find request, as strings; `None` when absent. */
  datatype TypeQuery = TypeQuery(name: Option<string>, limit: Option<string>, offset: Option<string>)

  /** The find options: an exact name filter, a limit and an offset, each present only when
      the query gives one that can be used. */
  datatype TypeFindOptions = TypeFindOptions(name: Option<string>, limit: Option<int>, offset: Option<int>)

  /** `parseFindQuery`. */
  method ParseFindQuery(q: TypeQuery) returns (o: TypeFindOptions)
    ensures o.name == (if Given(q.name) then q.name else None)
    ensures o.limit.Some? <==> Given(q.limit) && ParseInt(q.limit.value).Some?
    ensures o.limit.Some? ==>
      o.limit.value <= LimitCap &&
      o.limit.value == (if ParseInt(q.limit.value).value < LimitCap then ParseInt(q.limit.value).value else LimitCap)
    ensures o.offset.Some? <==> Given(q.offset) && ParseInt(q.offset.value).Some?
    ensures o.offset.Some? ==> o.offset == ParseInt(q.offset.value)
  {
    o := TypeFindOptions(None, None, None);
    if Given(q.name) {
      o := o.(name := q.name);
    }
    if Given(q.limit) {
      var limit := ParseInt(q.limit.value);
      if limit.Some? {
        o := o.(limit := Some(if limit.value < LimitCap then limit.value else LimitCap));
      }
    }
    if Given(q.offset) {
      var offset := ParseInt(q.offset.value);
      if offset.Some? {
        o := o.(offset := offset);
      }
    }
  }
}
