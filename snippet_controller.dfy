/** The snippet handlers: create a snippet for the credential's account, update or delete a
    snippet, and serve the body of a snippet addressed by its author's username and its name. */
module SnippetController {
  import opened Common
  import opened Models
  import JsText

  const MinNameLength: int := 4
  const MaxNameLength: int := 24
  const MaxBodyLength: int := 10000

  /** The snippet-name pattern `^([a-zA-Z0-9_-]{4,24})$`. */
  predicate ValidName(name: string) {
    MinNameLength <= |name| <= MaxNameLength && forall i :: 0 <= i < |name| ==> IsHandleChar(name[i])
  }

  /** The body length check, on `body.length`: UTF-16 code units. */
  predicate ValidBody(body: string) {
    JsText.CodeUnitLength(body) <= MaxBodyLength
  }

  /** The fields of a request body. `authorId` is what a client may send; no handler reads it. */
  datatype SnippetBody = SnippetBody(name: Option<string>, body: Option<string>, authorId: Option<int>)

  datatype NewSnippet = NewSnippet(name: string, body: string)

  datatype SnippetView = SnippetView(id: int, authorId: int, name: string, body: string)

  /** The reply to a successful update: the fields that were set and the snippet id. */
  datatype UpdatedSnippet = UpdatedSnippet(name: Option<string>, body: Option<string>, id: int)

  /** `parseCreateRequest`: the first failing check, in the order name given, body given, name
      pattern, body length; otherwise exactly the name and the body. */
  function ParseCreateRequest(b: SnippetBody): (r: Result<NewSnippet, Message>)
    ensures r.Ok? <==> Given(b.name) && Given(b.body) && ValidName(b.name.value) && ValidBody(b.body.value)
    ensures r.Ok? ==> r.value == NewSnippet(b.name.value, b.body.value)
    ensures !Given(b.name) ==> r == Err(SnippetNameMissingErr)
    ensures Given(b.name) && !Given(b.body) ==> r == Err(SnippetBodyMissingErr)
    ensures Given(b.name) && Given(b.body) && !ValidName(b.name.value) ==> r == Err(InvalidSnippetNameErr)
    ensures Given(b.name) && Given(b.body) && ValidName(b.name.value) && !ValidBody(b.body.value) ==>
      r == Err(InvalidSnippetBodyErr)
  {
    if !Given(b.name) then Err(SnippetNameMissingErr)
    else if !Given(b.body) then Err(SnippetBodyMissingErr)
    else if !ValidName(b.name.value) then Err(InvalidSnippetNameErr)
    else if !ValidBody(b.body.value) then Err(InvalidSnippetBodyErr)
    else Ok(NewSnippet(b.name.value, b.body.value))
  }

  /** The decision `create` takes before the table: 401 for an unusable credential, then 400 for
      a rejected body, otherwise the row to insert, whose author is the credential's account. */
  function CreateDecision(d: Decoded, b: SnippetBody): (r: Result<SnippetRow, Response<SnippetView>>)
    ensures !d.Verified? ==> r == Err(AuthFailure(d))
    ensures d.Verified? && ParseCreateRequest(b).Err? ==> r == Err(Fail(400, ParseCreateRequest(b).error))
    ensures r.Ok? <==> d.Verified? && ParseCreateRequest(b).Ok?
    ensures r.Ok? ==> r.value == SnippetRow(d.account.id, b.name.value, b.body.value)
  {
    if !d.Verified? then Err(AuthFailure(d))
    else
      match ParseCreateRequest(b)
      case Err(m) => Err(Fail(400, m))
      case Ok(s) => Ok(SnippetRow(d.account.id, s.name, s.body))
  }

  /** The given fields of an update pass their checks. */
  predicate UpdateFieldsValid(b: SnippetBody) {
    !(Given(b.name) && !ValidName(b.name.value)) && !(Given(b.body) && !ValidBody(b.body.value))
  }

  /** The update record of `update`: a given name must match the pattern and a given body must
      fit, name checked first; the record holds the given name and body and nothing else. */
  method BuildUpdate(b: SnippetBody) returns (r: Result<SnippetChanges, Message>)
    ensures r == Err(InvalidSnippetNameErr) <==> Given(b.name) && !ValidName(b.name.value)
    ensures r == Err(InvalidSnippetBodyErr) <==>
      !(Given(b.name) && !ValidName(b.name.value)) && Given(b.body) && !ValidBody(b.body.value)
    ensures r.Ok? ==>
      r.value.name == (if Given(b.name) then b.name else None) &&
      r.value.body == (if Given(b.body) then b.body else None)
    ensures r.Ok? <==> UpdateFieldsValid(b)
  {
    var changes := SnippetChanges(None, None);
    if Given(b.name) {
      if !ValidName(b.name.value) {
        return Err(InvalidSnippetNameErr);
      }
      changes := changes.(name := b.name);
    }
    if Given(b.body) {
      if !ValidBody(b.body.value) {
        return Err(InvalidSnippetBodyErr);
      }
      changes := changes.(body := b.body);
    }
    r := Ok(changes);
  }

  /** The rows `update` addresses: the snippet `id` if the actor wrote it, whatever the actor's
      role. */
  function UpdateWhere(actor: Principal, id: int): (w: SnippetWhere)
    ensures forall row: SnippetRow :: Matches(w, id, row) <==> row.authorId == actor.id
    ensures forall other: int, row: SnippetRow :: other != id ==> !Matches(w, other, row)
  {
    SnippetWhere(id, Some(actor.id))
  }

  /** The rows `remove` addresses: the snippet `id`, for an administrator whoever wrote it and for
      anyone else only if they wrote it. */
  function RemoveWhere(actor: Principal, id: int): (w: SnippetWhere)
    ensures forall row: SnippetRow :: Matches(w, id, row) <==> IsAdmin(actor) || row.authorId == actor.id
    ensures forall other: int, row: SnippetRow :: other != id ==> !Matches(w, other, row)
  {
    if IsAdmin(actor) then SnippetWhere(id, None) else SnippetWhere(id, Some(actor.id))
  }

  /** An administrator may delete a snippet they may not update. */
  lemma AdminDeletesWhatItCannotUpdate(admin: Principal, id: int, row: SnippetRow)
    requires IsAdmin(admin) && row.authorId != admin.id
    ensures Matches(RemoveWhere(admin, id), id, row) && !Matches(UpdateWhere(admin, id), id, row)
  {
    assert Matches(RemoveWhere(admin, id), id, row) <==> IsAdmin(admin) || row.authorId == admin.id;
  }

  /** `create`. */
  method Create(store: Store, d: Decoded, b: SnippetBody) returns (r: Response<SnippetView>)
    requires store.Valid()
    modifies store
    ensures store.Valid()
    ensures CreateDecision(d, b).Err? ==> r == CreateDecision(d, b).error && unchanged(store)
    ensures CreateDecision(d, b).Ok? ==>
      var row := CreateDecision(d, b).value;
      (r.Done? <==> row.authorId in old(store.accounts) &&
                    !SnippetClash(old(store.snippets), old(store.nextSnippetId), row)) &&
      (r.Done? ==> r.payload == SnippetView(r.payload.id, row.authorId, row.name, row.body) &&
                   r.payload.id !in old(store.snippets) &&
                   store.snippets == old(store.snippets)[r.payload.id := row]) &&
      (r.Fail? ==> r.status == 422 && r.message.DatabaseError? && unchanged(store))
    ensures store.accounts == old(store.accounts) && store.types == old(store.types)
  {
    var decision := CreateDecision(d, b);
    if decision.Err? {
      return decision.error;
    }
    var row := decision.value;
    var inserted := store.InsertSnippet(row);
    match inserted
    case Err(e) => r := Fail(422, DatabaseError(e));
    case Ok(id) => r := Done(SnippetView(id, row.authorId, row.name, row.body));
  }

  /** `update`: no snippet of another author is ever changed, and a snippet that is absent or
      written by someone else is reported as not found. */
  method Update(store: Store, d: Decoded, id: int, b: SnippetBody) returns (r: Response<UpdatedSnippet>)
    requires store.Valid()
    modifies store
    ensures store.Valid()
    ensures !d.Verified? ==> r == AuthFailure(d) && unchanged(store)
    ensures d.Verified? && Given(b.name) && !ValidName(b.name.value) ==>
      r == Fail(400, InvalidSnippetNameErr) && unchanged(store)
    ensures d.Verified? && !(Given(b.name) && !ValidName(b.name.value)) && Given(b.body) && !ValidBody(b.body.value) ==>
      r == Fail(400, InvalidSnippetBodyErr) && unchanged(store)
    ensures (d.Verified? && UpdateFieldsValid(b) &&
             (id !in old(store.snippets) || old(store.snippets)[id].authorId != d.account.id)) ==>
      r == Fail(404, SnippetNotFoundErr) && unchanged(store)
    ensures r.Done? ==>
      d.Verified? && id in old(store.snippets) && old(store.snippets)[id].authorId == d.account.id &&
      r.payload.id == id &&
      r.payload.name == (if Given(b.name) then b.name else None) &&
      r.payload.body == (if Given(b.body) then b.body else None) &&
      store.snippets == old(store.snippets)[id := ApplySnippetChanges(old(store.snippets)[id], SnippetChanges(r.payload.name, r.payload.body))]
    ensures (d.Verified? && UpdateFieldsValid(b) &&
             id in old(store.snippets) && old(store.snippets)[id].authorId == d.account.id) ==>
      var row := ApplySnippetChanges(old(store.snippets)[id], SnippetChanges(
        if Given(b.name) then b.name else None, if Given(b.body) then b.body else None));
      (SnippetClash(old(store.snippets), id, row) ==> r == Fail(422, DatabaseError(UniqueViolation))) &&
      (!SnippetClash(old(store.snippets), id, row) ==> r.Done?)
    ensures r.Fail? ==> unchanged(store)
    ensures store.accounts == old(store.accounts) && store.types == old(store.types)
  {
    if !d.Verified? {
      return AuthFailure(d);
    }
    var changes := BuildUpdate(b);
    if changes.Err? {
      return Fail(400, changes.error);
    }
    var where := UpdateWhere(d.account, id);
    var count := store.UpdateSnippet(where, changes.value);
    match count
    case Err(e) => r := Fail(422, DatabaseError(e));
    case Ok(n) =>
      if n == 0 {
        r := Fail(404, SnippetNotFoundErr);
      } else {
        r := Done(UpdatedSnippet(changes.value.name, changes.value.body, id));
      }
  }

  /** `remove`. */
  method Remove(store: Store, d: Decoded, id: int) returns (r: Response<Message>)
    requires store.Valid()
    modifies store
    ensures store.Valid()
    ensures !d.Verified? ==> r == AuthFailure(d) && unchanged(store)
    ensures d.Verified? ==>
      var allowed := id in old(store.snippets) &&
        (IsAdmin(d.account) || old(store.snippets)[id].authorId == d.account.id);
      (allowed ==> r == Done(DeletedSnippetMsg) && store.snippets == old(store.snippets) - {id}) &&
      (!allowed ==> r == Fail(404, SnippetNotFoundErr) && store.snippets == old(store.snippets))
    ensures store.accounts == old(store.accounts) && store.types == old(store.types)
  {
    if !d.Verified? {
      return AuthFailure(d);
    }
    var count := store.DestroySnippet(RemoveWhere(d.account, id));
    if count == 0 {
      r := Fail(404, SnippetNotFoundErr);
    } else {
      r := Done(DeletedSnippetMsg);
    }
  }

  /** `findUserSnippet`: the body of the snippet `name` of the account `username`. The lookups
      ask for exactly one account and exactly one snippet; the unique username and the unique
      (author, name) index make "exactly one" the same as "some". */
  method FindUserSnippet(store: Store, username: string, name: string) returns (r: Response<string>)
    requires store.Valid()
    ensures r.Done? <==> exists a, s ::
      a in store.accounts && store.accounts[a].username == username &&
      s in store.snippets && store.snippets[s].authorId == a && store.snippets[s].name == name
    ensures r.Done? ==> forall a, s ::
      a in store.accounts && store.accounts[a].username == username &&
      s in store.snippets && store.snippets[s].authorId == a && store.snippets[s].name == name ==>
      r.payload == store.snippets[s].body
    ensures r.Fail? ==> r == Fail(404, SnippetNotFoundErr)
  {
    if !exists a :: a in store.accounts && store.accounts[a].username == username {
      return Fail(404, SnippetNotFoundErr);
    }
    var a :| a in store.accounts && store.accounts[a].username == username;
    if !exists s :: s in store.snippets && store.snippets[s].authorId == a && store.snippets[s].name == name {
      return Fail(404, SnippetNotFoundErr);
    }
    var s :| s in store.snippets && store.snippets[s].authorId == a && store.snippets[s].name == name;
    r := Done(store.snippets[s].body);
  }
}
