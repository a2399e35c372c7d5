/** The client's credential store: the bearer token and the time it was issued, kept in
    `localStorage`, and the decision, by the token's age, to use it, renew it or drop it. */
module ClientAuth {
  import opened Common
  import opened JsText
  import opened WebStorage

  const TokenKey: string := "token"
  const IssueTimeKey: string := "tokenIssueTime"

  /** How long a token lives, in milliseconds: one day. */
  const TokenLifespan: int := 86400000

  /** The message a failed renewal rejects with. */
  const RenewalFailedMessage: string := "jwt expired"

  /** `isUserAuthenticated`: `getItem` finds a token, that is, some token is stored. */
  predicate IsAuthenticated(items: map<string, string>)
    ensures IsAuthenticated(items) <==> TokenKey in items
  {
    Item(items, TokenKey).Some?
  }

  /** `getTokenIssueTime`: the stored issue time read by `parseInt`; `None` is NaN, which is
      what a missing or unreadable entry gives. */
  function IssueTime(items: map<string, string>): (t: Option<int>)
    ensures IssueTimeKey !in items ==> t.None?
    ensures IssueTimeKey in items ==> t == ParseInt(items[IssueTimeKey])
  {
    match Item(items, IssueTimeKey)
    case None => None
    case Some(s) => ParseInt(s)
  }

  /** The storage after `setToken(token)` at time `now`: the token and the time are stored,
      the time reads back as `now`, and no other key changes. */
  function WithToken(items: map<string, string>, token: string, now: int): (r: map<string, string>)
    ensures Item(r, TokenKey) == Some(token) && IsAuthenticated(r)
    ensures IssueTime(r) == Some(now)
    ensures AgreeOutside(items, r, {TokenKey, IssueTimeKey})
  {
    ParseIntOfIntToString(now);
    items[TokenKey := token][IssueTimeKey := IntToString(now)]
  }

  /** The storage after `deauthenticateUser`: the token and its time are gone, and no other
      key changes. */
  function WithoutToken(items: map<string, string>): (r: map<string, string>)
    ensures !IsAuthenticated(r) && IssueTimeKey !in r && IssueTime(r).None?
    ensures AgreeOutside(items, r, {TokenKey, IssueTimeKey})
    ensures r.Keys <= items.Keys
  {
    items - {TokenKey, IssueTimeKey}
  }

  /** The age of the stored token at time `now`; `None` when the issue time is NaN. */
  function TokenAge(items: map<string, string>, now: int): (age: Option<int>)
    ensures age.Some? <==> IssueTime(items).Some?
    ensures age.Some? ==> age.value == now - IssueTime(items).value
  {
    match IssueTime(items)
    case None => None
    case Some(t) => Some(now - t)
  }

  /** What `getToken` does with a token of a given age. */
  datatype TokenStep = UseStored | Renew | Expire

  /** A token up to half its lifespan old is used as it is, an older one that has not yet lived
      its whole lifespan is renewed, and one past its lifespan is dropped. A NaN age fails
      both comparisons, so the stored value is used. */
  function Step(age: Option<int>): (s: TokenStep)
    ensures s == UseStored <==> age.None? || age.value <= TokenLifespan / 2
    ensures s == Renew <==> age.Some? && TokenLifespan / 2 < age.value <= TokenLifespan
    ensures s == Expire <==> age.Some? && age.value > TokenLifespan
  {
    if age.Some? && age.value > TokenLifespan / 2 then
      if age.value > TokenLifespan then Expire else Renew
    else UseStored
  }

  /** An older token never takes an earlier step: use, then renew, then drop. */
  lemma StepIsMonotone(a: int, b: int)
    requires a <= b
    ensures Step(Some(a)) == Expire ==> Step(Some(b)) == Expire
    ensures Step(Some(b)) == UseStored ==> Step(Some(a)) == UseStored
  {
  }

  /** The step for a stored issue time: half a day of use, half a day of renewal, then drop. */
  lemma StepOfIssueTime(items: map<string, string>, issued: int, now: int)
    requires IssueTime(items) == Some(issued)
    ensures TokenAge(items, now) == Some(now - issued)
    ensures now - issued <= TokenLifespan / 2 ==> Step(TokenAge(items, now)) == UseStored
    ensures TokenLifespan / 2 < now - issued <= TokenLifespan ==> Step(TokenAge(items, now)) == Renew
    ensures now - issued > TokenLifespan ==> Step(TokenAge(items, now)) == Expire
  {
  }

  /** A token set at `issued` is used as it is for half a day, renewed over the next half day,
      and dropped after that. */
  lemma StepOfTokenSetAt(items: map<string, string>, token: string, issued: int, now: int)
    ensures var after := WithToken(items, token, issued);
      TokenAge(after, now) == Some(now - issued) &&
      (now - issued <= TokenLifespan / 2 ==> Step(TokenAge(after, now)) == UseStored) &&
      (TokenLifespan / 2 < now - issued <= TokenLifespan ==> Step(TokenAge(after, now)) == Renew) &&
      (now - issued > TokenLifespan ==> Step(TokenAge(after, now)) == Expire)
  {
    StepOfIssueTime(WithToken(items, token, issued), issued, now);
  }

  /** A credential that was never stored, or was dropped, is used as it is: an empty token. */
  lemma WithoutTokenUsesNothing(items: map<string, string>, now: int)
    ensures var after := WithoutToken(items);
      Step(TokenAge(after, now)) == UseStored && Item(after, TokenKey).None?
  {
  }

  /** How the deferred value `getToken` returns settles. `Pending` is one that never settles. */
  datatype TokenOutcome = Resolved(token: Option<string>) | Rejected(message: string) | Pending

  /** `setToken`. */
  method SetToken(local: Storage, token: string, now: int)
    modifies local
    ensures local.items == WithToken(old(local.items), token, now)
  {
    local.SetItem(TokenKey, token);
    local.SetItem(IssueTimeKey, IntToString(now));
  }

  /** `deauthenticateUser`. */
  method DeauthenticateUser(local: Storage)
    modifies local
    ensures local.items == WithoutToken(old(local.items))
  {
    local.RemoveItem(TokenKey);
    local.RemoveItem(IssueTimeKey);
    assert local.items == old(local.items) - {TokenKey, IssueTimeKey};
  }

  /** `getToken` as written. `renew` is the server's answer to a renewal request carrying the
      given token: the new token, or `None` when the request fails. A successful renewal calls
      a method `Auth` does not have, so the handler throws before it stores or resolves the
      new token, and the failure handler rejects with "jwt expired". A token past its lifespan
      is dropped and the deferred value never settles. */
  method GetTokenAsWritten(local: Storage, now: int, renew: Option<string> -> Option<string>) returns (o: TokenOutcome)
    modifies local
    ensures var stored := Item(old(local.items), TokenKey);
      match Step(TokenAge(old(local.items), now))
      case UseStored => o == Resolved(stored) && local.items == old(local.items)
      case Renew => o == Rejected(RenewalFailedMessage) && local.items == old(local.items)
      case Expire => o == Pending && local.items == WithoutToken(old(local.items))
  {
    var token := Item(local.items, TokenKey);
    var age := TokenAge(local.items, now);
    if age.Some? && age.value > TokenLifespan / 2 {
      if age.value > TokenLifespan {
        DeauthenticateUser(local);
        o := Pending;
      } else {
        var renewed := renew(token);
        o := Rejected(RenewalFailedMessage);
      }
    } else {
      o := Resolved(token);
    }
  }

  /** A token set just over half a day ago takes the renewal path, whatever the server says. */
  lemma HalfDayOldTokenIsRenewed(items: map<string, string>, token: string, issued: int)
    ensures Step(TokenAge(WithToken(items, token, issued), issued + TokenLifespan / 2 + 1)) == Renew
  {
    StepOfTokenSetAt(items, token, issued, issued + TokenLifespan / 2 + 1);
  }

  /** `getToken` with the renewal stored by `setToken`: the new token is stored with the time
      `now` and resolved, and a failed renewal rejects with "jwt expired" and changes nothing. */
  method GetToken(local: Storage, now: int, renew: Option<string> -> Option<string>) returns (o: TokenOutcome)
    modifies local
    ensures var stored := Item(old(local.items), TokenKey);
      match Step(TokenAge(old(local.items), now))
      case UseStored => o == Resolved(stored) && local.items == old(local.items)
      case Renew =>
        (renew(stored).Some? ==>
           o == Resolved(renew(stored)) && local.items == WithToken(old(local.items), renew(stored).value, now)) &&
        (renew(stored).None? ==> o == Rejected(RenewalFailedMessage) && local.items == old(local.items))
      case Expire => o == Pending && local.items == WithoutToken(old(local.items))
  {
    var token := Item(local.items, TokenKey);
    var age := TokenAge(local.items, now);
    if age.Some? && age.value > TokenLifespan / 2 {
      if age.value > TokenLifespan {
        DeauthenticateUser(local);
        o := Pending;
      } else {
        var renewed := renew(token);
        if renewed.Some? {
          SetToken(local, renewed.value, now);
          o := Resolved(renewed);
        } else {
          o := Rejected(RenewalFailedMessage);
        }
      }
    } else {
      o := Resolved(token);
    }
  }

  /** After a renewal the token is fresh again: the next `getToken` at the same time uses it. */
  lemma RenewedTokenIsFresh(items: map<string, string>, token: string, now: int)
    ensures Step(TokenAge(WithToken(items, token, now), now)) == UseStored
  {
    StepOfTokenSetAt(items, token, now, now);
  }
}
