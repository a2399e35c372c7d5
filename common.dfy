/** Types shared by the server controllers: optional values, results, the message
    table of the server's string configuration, HTTP responses and the decoded
    bearer credential. */
module Common {

  datatype Option<+T> = None | Some(value: T)

  datatype Result<+T, +E> = Ok(value: T) | Err(error: E)

  /** JavaScript truthiness of an optional string field of a request: present and non-empty. */
  predicate Given(o: Option<string>) {
    o.Some? && o.value != ""
  }

  /** JavaScript truthiness of an optional numeric field of a request: present and non-zero. */
  predicate GivenId(o: Option<int>) {
    o.Some? && o.value != 0
  }

  predicate IsAsciiLetter(c: char) {
    'a' <= c <= 'z' || 'A' <= c <= 'Z'
  }

  /** The character class `[a-zA-Z0-9_-]` of the username and snippet-name patterns. */
  predicate IsHandleChar(c: char) {
    IsAsciiLetter(c) || '0' <= c <= '9' || c == '_' || c == '-'
  }

  /** Failures the database reports when a row breaks a declared constraint. */
  datatype StoreFailure =
    | UniqueViolation      // a unique index or unique column would hold a duplicate
    | ForeignKeyViolation  // a reference to a missing row, or a restricted delete
    | EmptyField           // a `notEmpty` column validation

  /** The messages a controller can send: one constructor per entry of the string table,
      plus the messages that come from a library error. */
  datatype Message =
    | MissingEmailErr | InvalidEmailErr | MissingUsernameErr | InvalidUsernameErr
    | MissingPasswordErr | InvalidPasswordErr | AccountExistsErr | AccountNotFoundErr
    | AccountTypeNotFoundErr | UnauthorizedErr | ForbiddenErr
    | DeletedAccountMsg | DeletedAccountTypeMsg | DeletedSnippetMsg | MissingDetailsErr
    | SnippetBodyMissingErr | InvalidSnippetBodyErr | SnippetNameMissingErr
    | InvalidSnippetNameErr | SnippetNotFoundErr | ForbiddenUsernameErr
    | MissingAccountTypeNameErr | InvalidAccountTypeNameErr | FailAuthErr
    | TokenError(text: string)       // the message of a token verification error
    | DatabaseError(failure: StoreFailure)
    | NullDereference                // the message of a TypeError from reading a field of null

  /** The text the string table gives each message key; `None` for library-made messages. */
  function Text(m: Message): (t: Option<string>)
    ensures t.None? <==> m.TokenError? || m.DatabaseError? || m.NullDereference?
  {
    match m
    case MissingEmailErr => Some("Email address not provided")
    case InvalidEmailErr => Some("Email address is invalid")
    case MissingUsernameErr => Some("Username not provided")
    case InvalidUsernameErr => Some("Username is invalid")
    case MissingPasswordErr => Some("Password not provided")
    case InvalidPasswordErr => Some("Password is invalid")
    case AccountExistsErr => Some("This account already exists")
    case AccountNotFoundErr => Some("Account not found")
    case AccountTypeNotFoundErr => Some("Account type not found")
    case UnauthorizedErr => Some("Unauthorized")
    case ForbiddenErr => Some("Forbidden")
    case DeletedAccountMsg => Some("Deleted account")
    case DeletedAccountTypeMsg => Some("Deleted account type")
    case DeletedSnippetMsg => Some("Deleted snippet")
    case MissingDetailsErr => Some("Missing username or password")
    case SnippetBodyMissingErr => Some("Missing snippet body")
    case InvalidSnippetBodyErr => Some("Snippet body is invalid")
    case SnippetNameMissingErr => Some("Missing snippet name")
    case InvalidSnippetNameErr => Some("Snippet name is invalid")
    case SnippetNotFoundErr => Some("Snippet not found")
    case ForbiddenUsernameErr => Some("Cannot create an account with this username")
    case MissingAccountTypeNameErr => Some("Missing account type name")
    case InvalidAccountTypeNameErr => Some("Invalid account type name")
    case FailAuthErr => Some("Could not authenticate user")
    case TokenError(_) => None
    case DatabaseError(_) => None
    case NullDereference => None
  }

  /** Maximum number of rows a find request may ask for. */
  const LimitCap: int := 25

  /** What a handler sends: an error status with a `{message}` body, or 200 with a payload. */
  datatype Response<+T> = Fail(status: nat, message: Message) | Done(payload: T) {
    function Status(): nat {
      if Fail? then status else 200
    }
  }

  /** The identity carried by a credential: the account id and the name of its account type. */
  datatype Principal = Principal(id: int, typeName: string)

  predicate IsAdmin(p: Principal) {
    p.typeName == "Admin"
  }

  /** The outcome of decoding a bearer credential: the embedded principal, an expiry error
      (with the library's message) or any other failure. */
  datatype Decoded = Verified(account: Principal) | Expired(message: string) | Invalid

  /** The reply every handler sends when the credential cannot be used. */
  function AuthFailure<T>(d: Decoded): (r: Response<T>)
    requires !d.Verified?
    ensures r.Fail? && r.status == 401
    ensures d.Expired? ==> r.message == TokenError(d.message)
    ensures d.Invalid? ==> r.message == UnauthorizedErr
  {
    if d.Expired? then Fail(401, TokenError(d.message)) else Fail(401, UnauthorizedErr)
  }
}
