/**
 * The account collection and the account controller: account creation, the
 * password step of the login (which issues a one-time passcode) and the
 * passcode step (which issues the session tokens). The store is a sequence of
 * account records plus the next free id; an error leaves the store as it was.
 * The clock `now` (milliseconds), the `Math.random()` draw, the password hash
 * and its salt are inputs.
 */
module Users {
  import opened Wrappers
  import opened Js
  import opened Permissions
  import opened Credentials
  import opened Tokens

  datatype User = User(
    id: nat,
    image: Option<string>,
    firstName: string,
    lastName: string,
    designation: string,
    username: string,
    email: string,
    phone: string,
    password: PasswordHash,
    userRole: Option<string>,
    enableCustomAccess: bool,
    isVerified: bool,
    otp: Option<nat>,
    otpExpiry: Option<int>,
    customPermissions: seq<PermissionEntry>,
    createdAt: nat,
    updatedAt: nat)

  datatype UserStore = UserStore(users: seq<User>, nextId: nat)

  /** The body of an account-creation request; `None` is a field left out or `null`. */
  datatype CreateUserRequest = CreateUserRequest(
    image: Option<string>,
    firstName: Option<string>,
    lastName: Option<string>,
    designation: Option<string>,
    username: Option<string>,
    email: Option<string>,
    phone: Option<string>,
    password: Option<string>,
    confirmPassword: Option<string>,
    userRole: Option<string>,
    enableCustomAccess: Option<bool>,
    customPermissions: Option<seq<PermissionEntry>>)

  datatype UserError =
    | MissingFields        // "Please fill in all required fields", 400
    | PasswordMismatch     // "Passwords do not match", 400
    | RoleConflict         // "Cannot enable both custom access and assign a role", 400
    | AlreadyExists        // "User with this email, username, or phone already exists", 400
    | InvalidCredentials   // "Invalid email or password", 400
    | InvalidEmail         // "Invalid email", 400
    | OtpExpired           // "OTP expired. Please try login again.", 400
    | InvalidOtp           // "Invalid OTP", 400
    | ServerError          // anything thrown and caught: 500

  /** Passcode lifetime: 10 minutes, in milliseconds. */
  const OtpLifetime: nat := 10 * 60 * 1000

  /** A created account together with the session tokens the creation also issues. */
  datatype Created = Created(store: UserStore, user: User, tokens: TokenPair)

  /** The passcode handed to the mail sender; delivery failures are swallowed, so it never affects the result. */
  datatype Dispatch = Dispatch(to: string, code: nat)

  datatype OtpIssued = OtpIssued(store: UserStore, dispatch: Dispatch)

  /** The account fields echoed by a successful passcode check. */
  datatype LoginSummary = LoginSummary(
    id: nat, firstName: string, lastName: string, email: string, role: Option<string>)

  datatype LoggedIn = LoggedIn(store: UserStore, summary: LoginSummary, tokens: TokenPair)

  // ---------------------------------------------------------------------------
  // Store invariant

  predicate IdsBelow(s: UserStore) {
    forall i :: 0 <= i < |s.users| ==> s.users[i].id < s.nextId
  }

  /** Ids, emails, usernames and phones are pairwise distinct. */
  predicate Distinct(users: seq<User>) {
    forall i, j :: 0 <= i < j < |users| ==>
      && users[i].id != users[j].id
      && users[i].email != users[j].email
      && users[i].username != users[j].username
      && users[i].phone != users[j].phone
  }

  /** What every stored account satisfies. */
  predicate WellFormed(u: User) {
    && u.firstName != "" && u.lastName != "" && u.designation != ""
    && u.username != "" && u.email != "" && u.phone != ""
    // one authorisation source at a time
    && !(u.enableCustomAccess && u.userRole.Some?)
    && (!u.enableCustomAccess ==> u.customPermissions == [])
    && (forall k :: 0 <= k < |u.customPermissions| ==> Complete(u.customPermissions[k]))
    // a pending passcode is six digits and has an expiry
    && (u.otp.Some? ==> 100000 <= u.otp.value <= 999999 && u.otpExpiry.Some?)
  }

  predicate Valid(s: UserStore) {
    && IdsBelow(s)
    && Distinct(s.users)
    && (forall i :: 0 <= i < |s.users| ==> WellFormed(s.users[i]))
  }

  // ---------------------------------------------------------------------------
  // Lookup

  /** `findOne({ email })`: the first account with that email. */
  function FindByEmail(users: seq<User>, email: string): (r: Option<nat>)
    ensures r.Some? ==> r.value < |users| && users[r.value].email == email
    ensures r.Some? ==> forall j :: 0 <= j < r.value ==> users[j].email != email
    ensures r.None? ==> forall j :: 0 <= j < |users| ==> users[j].email != email
  {
    if users == [] then None
    else if users[0].email == email then Some(0)
    else
      match FindByEmail(users[1..], email)
      case None => None
      case Some(i) => Some(i + 1)
  }

  /** `user.save()` on the account at position `i`: that account is replaced, every other one kept. */
  function SaveAt(s: UserStore, i: nat, u: User): (t: UserStore)
    requires i < |s.users|
    ensures |t.users| == |s.users| && t.nextId == s.nextId && t.users[i] == u
    ensures forall j :: 0 <= j < |s.users| && j != i ==> t.users[j] == s.users[j]
  {
    s.(users := s.users[i := u])
  }

  // ---------------------------------------------------------------------------
  // createUser

  /** The seven fields the controller insists on; `designation` is not among them. */
  predicate HasRequired(req: CreateUserRequest) {
    && Truthy(req.firstName) && Truthy(req.lastName) && Truthy(req.username)
    && Truthy(req.email) && Truthy(req.phone) && Truthy(req.password)
    && Truthy(req.confirmPassword)
  }

  predicate CustomAccess(req: CreateUserRequest) {
    req.enableCustomAccess == Some(true)
  }

  /** The role reference as stored: none for an absent, empty or `"null"` value. */
  function NormalisedRole(userRole: Option<string>): (r: Option<string>)
    ensures r.None? <==> NoRoleText(userRole)
    ensures r.Some? ==> r == userRole
  {
    if NoRoleText(userRole) then None else userRole
  }

  /** The conflict test as the controller writes it: on the raw role value. */
  predicate ConflictAsWritten(req: CreateUserRequest) {
    CustomAccess(req) && Truthy(req.userRole)
  }

  /** The conflict test on the role value the account would actually store. */
  predicate Conflict(req: CreateUserRequest) {
    CustomAccess(req) && NormalisedRole(req.userRole).Some?
  }

  /** An existing account matching the email, the username or the phone. */
  predicate Clashes(u: User, req: CreateUserRequest)
    requires HasRequired(req)
  {
    u.email == req.email.value || u.username == req.username.value || u.phone == req.phone.value
  }

  /** The validation chain, first failure wins; `conflict` is the verdict of the role/custom-access test. */
  function Check(users: seq<User>, req: CreateUserRequest, conflict: bool): (r: Option<UserError>)
    ensures !HasRequired(req) ==> r == Some(MissingFields)
    ensures HasRequired(req) && req.password != req.confirmPassword ==> r == Some(PasswordMismatch)
    ensures HasRequired(req) && req.password == req.confirmPassword && conflict ==> r == Some(RoleConflict)
    ensures HasRequired(req) && req.password == req.confirmPassword && !conflict ==>
      (r == Some(AlreadyExists) <==> exists i :: 0 <= i < |users| && Clashes(users[i], req))
    ensures r.None? || r == Some(MissingFields) || r == Some(PasswordMismatch)
      || r == Some(RoleConflict) || r == Some(AlreadyExists)
    ensures r.None? <==>
      && HasRequired(req) && req.password == req.confirmPassword && !conflict
      && !(exists i :: 0 <= i < |users| && Clashes(users[i], req))
  {
    if !HasRequired(req) then Some(MissingFields)
    else if req.password.value != req.confirmPassword.value then Some(PasswordMismatch)
    else if conflict then Some(RoleConflict)
    else if exists i :: 0 <= i < |users| && Clashes(users[i], req) then Some(AlreadyExists)
    else None
  }

  /** The new account document after the schema's defaults and the pre-save hook. */
  function NewUser(id: nat, req: CreateUserRequest, h: Hasher, salt: nat, now: nat): (u: User)
    requires HasRequired(req) && Truthy(req.designation)
    ensures u.id == id
    ensures u.firstName == req.firstName.value && u.lastName == req.lastName.value
    ensures u.designation == req.designation.value
    ensures u.username == req.username.value && u.email == req.email.value && u.phone == req.phone.value
    ensures u.createdAt == now && u.updatedAt == now
    ensures u.password.salt == salt && ComparePassword(h, req.password.value, u.password)
    ensures u.userRole == NormalisedRole(req.userRole)
    ensures u.enableCustomAccess == req.enableCustomAccess.GetOr(false)
    ensures !CustomAccess(req) ==> u.customPermissions == []
    ensures CustomAccess(req) ==> |u.customPermissions| == |req.customPermissions.GetOr([])|
    ensures forall k :: 0 <= k < |u.customPermissions| ==>
      u.customPermissions[k] == WithAccountDefaults(req.customPermissions.value[k])
    ensures u.image.None? <==> !Truthy(req.image)
    ensures !u.isVerified && u.otp.None? && u.otpExpiry.None?
  {
    User(
      id := id,
      image := if Truthy(req.image) then req.image else None,
      firstName := req.firstName.value,
      lastName := req.lastName.value,
      designation := req.designation.value,
      username := req.username.value,
      email := req.email.value,
      phone := req.phone.value,
      password := PreSave(h, salt, Assigned(req.password.value)),
      userRole := NormalisedRole(req.userRole),
      enableCustomAccess := req.enableCustomAccess.GetOr(false),
      isVerified := false,
      otp := None,
      otpExpiry := None,
      customPermissions := if CustomAccess(req) then AccountDefaultsAll(req.customPermissions.GetOr([])) else [],
      createdAt := now,
      updatedAt := now)
  }

  /** Run the checks with the given conflict verdict, then save (the schema requires `designation`). */
  function CreateWith(s: UserStore, req: CreateUserRequest, conflict: bool, h: Hasher, salt: nat, now: nat)
    : (r: Result<Created, UserError>)
    ensures Check(s.users, req, conflict).Some? ==> r == Err(Check(s.users, req, conflict).value)
    ensures Check(s.users, req, conflict).None? && !Truthy(req.designation) ==> r == Err(ServerError)
    ensures r.Ok? <==> Check(s.users, req, conflict).None? && Truthy(req.designation)
    ensures r.Ok? ==>
      && r.value.store == UserStore(s.users + [r.value.user], s.nextId + 1)
      && r.value.user == NewUser(s.nextId, req, h, salt, now)
      && r.value.tokens == GenerateTokens(s.nextId, now)
  {
    match Check(s.users, req, conflict)
    case Some(e) => Err(e)
    case None =>
      if !Truthy(req.designation) then Err(ServerError)
      else
        var u := NewUser(s.nextId, req, h, salt, now);
        Ok(Created(UserStore(s.users + [u], s.nextId + 1), u, GenerateTokens(u.id, now)))
  }

  /** `createUser` as written: the conflict test reads the raw role value. */
  function CreateUserAsWritten(s: UserStore, req: CreateUserRequest, h: Hasher, salt: nat, now: nat)
    : (r: Result<Created, UserError>)
    ensures r == Err(RoleConflict) <==>
      HasRequired(req) && req.password == req.confirmPassword && CustomAccess(req) && Truthy(req.userRole)
  {
    CreateWith(s, req, ConflictAsWritten(req), h, salt, now)
  }

  /** `createUser` with the conflict test on the normalised role value. */
  function CreateUser(s: UserStore, req: CreateUserRequest, h: Hasher, salt: nat, now: nat)
    : (r: Result<Created, UserError>)
    ensures !HasRequired(req) ==> r == Err(MissingFields)
    ensures HasRequired(req) && req.password != req.confirmPassword ==> r == Err(PasswordMismatch)
    ensures r == Err(RoleConflict) <==>
      HasRequired(req) && req.password == req.confirmPassword && CustomAccess(req) && !NoRoleText(req.userRole)
    ensures r.Ok? ==> forall i :: 0 <= i < |s.users| ==>
      && s.users[i].email != r.value.user.email
      && s.users[i].username != r.value.user.username
      && s.users[i].phone != r.value.user.phone
    ensures r.Ok? <==>
      && HasRequired(req) && req.password == req.confirmPassword && !Conflict(req)
      && (forall i :: 0 <= i < |s.users| ==> !Clashes(s.users[i], req))
      && Truthy(req.designation)
    ensures r.Ok? ==>
      && r.value.user.email == req.email.value && r.value.user.username == req.username.value
      && r.value.user.phone == req.phone.value
    ensures r.Ok? ==> r.value.store.users == s.users + [r.value.user]
    ensures r.Ok? ==> r.value.user.id == s.nextId && r.value.tokens.accessToken.userId == s.nextId
  {
    CreateWith(s, req, Conflict(req), h, salt, now)
  }

  // ---------------------------------------------------------------------------
  // login: password step

  /** `Math.floor(100000 + Math.random() * 900000)` for a draw in [0, 1). */
  function OtpFromDraw(draw: real): (code: nat)
    requires 0.0 <= draw < 1.0
    ensures 100000 <= code <= 999999
  {
    (100000.0 + draw * 900000.0).Floor
  }

  /**
   * `login`, given the outcome for a password that is not a string: an unknown
   * email and a wrong password give the same error; otherwise a six-digit
   * passcode valid for ten minutes is stored on the account.
   */
  function LoginWith(s: UserStore, h: Hasher, email: string, password: Option<string>, now: nat, draw: real,
                     missing: UserError)
    : (r: Result<OtpIssued, UserError>)
    requires 0.0 <= draw < 1.0
    ensures FindByEmail(s.users, email).None? ==> r == Err(InvalidCredentials)
    ensures FindByEmail(s.users, email).Some? && password.None? ==> r == Err(missing)
    ensures r.Err? ==> r.error == InvalidCredentials || (r.error == missing && password.None?)
    ensures r.Ok? <==>
      && FindByEmail(s.users, email).Some? && password.Some?
      && ComparePassword(h, password.value, s.users[FindByEmail(s.users, email).value].password)
    ensures r.Ok? ==>
      var i := FindByEmail(s.users, email).value;
      && |r.value.store.users| == |s.users| && r.value.store.nextId == s.nextId
      && r.value.store.users[i] == s.users[i].(otp := Some(r.value.dispatch.code),
                                               otpExpiry := Some(now + OtpLifetime),
                                               updatedAt := now)
      && (forall j :: 0 <= j < |s.users| && j != i ==> r.value.store.users[j] == s.users[j])
      && 100000 <= r.value.dispatch.code <= 999999
      && r.value.dispatch.to == email
  {
    match FindByEmail(s.users, email)
    case None => Err(InvalidCredentials)
    case Some(i) =>
      var u := s.users[i];
      if password.None? then Err(missing)
      else if !ComparePassword(h, password.value, u.password) then Err(InvalidCredentials)
      else
        var code := OtpFromDraw(draw);
        // the password field is left as is, which is what the pre-save hook does with an unmodified password
        var u' := u.(otp := Some(code), otpExpiry := Some(now + OtpLifetime), updatedAt := now);
        Ok(OtpIssued(SaveAt(s, i, u'), Dispatch(email, code)))
  }

  /**
   * `login` as written: a password that is not a string reaches the hash
   * comparison, which rejects it, and the catch answers 500; this happens only
   * once the email has been found.
   */
  function LoginAsWritten(s: UserStore, h: Hasher, email: string, password: Option<string>, now: nat, draw: real)
    : (r: Result<OtpIssued, UserError>)
    requires 0.0 <= draw < 1.0
    ensures FindByEmail(s.users, email).None? ==> r == Err(InvalidCredentials)
    ensures FindByEmail(s.users, email).Some? && password.None? ==> r == Err(ServerError)
    ensures password.Some? ==> r == Login(s, h, email, password, now, draw)
  {
    LoginWith(s, h, email, password, now, draw, ServerError)
  }

  /** `login` with a missing password refused as "invalid email or password", like a wrong one. */
  function Login(s: UserStore, h: Hasher, email: string, password: Option<string>, now: nat, draw: real)
    : (r: Result<OtpIssued, UserError>)
    requires 0.0 <= draw < 1.0
    ensures r.Err? ==> r.error == InvalidCredentials
    ensures r.Ok? <==>
      && FindByEmail(s.users, email).Some? && password.Some?
      && ComparePassword(h, password.value, s.users[FindByEmail(s.users, email).value].password)
    ensures r.Ok? ==>
      var i := FindByEmail(s.users, email).value;
      && |r.value.store.users| == |s.users|
      && r.value.store.users[i].otp == Some(r.value.dispatch.code)
      && r.value.store.users[i].otpExpiry == Some(now + OtpLifetime)
      && r.value.store.users[i].password == s.users[i].password
      && 100000 <= r.value.dispatch.code <= 999999
  {
    LoginWith(s, h, email, password, now, draw, InvalidCredentials)
  }

  // ---------------------------------------------------------------------------
  // verifyLoginOTP: passcode step

  /** `!user.otp || user.otpExpiry < Date.now()`: no passcode (0 is falsy too), or one past its expiry. */
  predicate OtpUnusable(u: User, now: nat) {
    u.otp.None? || u.otp.value == 0 || (u.otpExpiry.Some? && u.otpExpiry.value < now)
  }

  /** The response's account fields as written: `user.role` is no path of the schema, so it is always absent. */
  function SummaryAsWritten(u: User): (r: LoginSummary)
    ensures r.id == u.id && r.email == u.email && r.role.None?
  {
    LoginSummary(u.id, u.firstName, u.lastName, u.email, None)
  }

  /** The response's account fields reporting the stored role reference, as `createUser` does. */
  function Summary(u: User): (r: LoginSummary)
    ensures r.id == u.id && r.email == u.email && r.role == u.userRole
  {
    LoginSummary(u.id, u.firstName, u.lastName, u.email, u.userRole)
  }

  /**
   * The comparison `parseInt(user.otp) === parseInt(otp)`: the stored number
   * is read back from its decimal text, so it matches exactly the input that
   * `parseInt` reads as that number.
   */
  function SameCode(stored: nat, otp: string): (b: bool)
    ensures b <==> ParseInt(otp) == Some(stored as int)
  {
    ParseDecimal(stored);
    ParseInt(ToDecimal(stored)) == ParseInt(otp)
  }

  /**
   * `verifyLoginOTP`: the expiry test comes before the code comparison; the
   * codes are compared after `parseInt` on both sides; success clears the
   * passcode and issues the token pair for the account.
   */
  function VerifyLoginOtp(s: UserStore, email: string, otp: string, now: nat)
    : (r: Result<LoggedIn, UserError>)
    ensures FindByEmail(s.users, email).None? ==> r == Err(InvalidEmail)
    ensures FindByEmail(s.users, email).Some? ==>
      var u := s.users[FindByEmail(s.users, email).value];
      && (OtpUnusable(u, now) ==> r == Err(OtpExpired))
      && (!OtpUnusable(u, now) ==> (r == Err(InvalidOtp) <==> ParseInt(otp) != Some(u.otp.value as int)))
      && (r.Ok? <==> !OtpUnusable(u, now) && ParseInt(otp) == Some(u.otp.value as int))
    ensures r.Ok? ==>
      var i := FindByEmail(s.users, email).value;
      && |r.value.store.users| == |s.users| && r.value.store.nextId == s.nextId
      && r.value.store.users[i] == s.users[i].(otp := None, otpExpiry := None, updatedAt := now)
      && (forall j :: 0 <= j < |s.users| && j != i ==> r.value.store.users[j] == s.users[j])
      && r.value.tokens == GenerateTokens(s.users[i].id, now)
      && r.value.summary == Summary(s.users[i])
  {
    match FindByEmail(s.users, email)
    case None => Err(InvalidEmail)
    case Some(i) =>
      var u := s.users[i];
      if OtpUnusable(u, now) then Err(OtpExpired)
      else
        if !SameCode(u.otp.value, otp) then Err(InvalidOtp)
        else
          // the password field is left as is, which is what the pre-save hook does with an unmodified password
          var u' := u.(otp := None, otpExpiry := None, updatedAt := now);
          Ok(LoggedIn(SaveAt(s, i, u'), Summary(u), GenerateTokens(u.id, now)))
  }

  /** `verifyLoginOTP` as written: the same outcome, but the response never carries the role. */
  function VerifyLoginOtpAsWritten(s: UserStore, email: string, otp: string, now: nat)
    : (r: Result<LoggedIn, UserError>)
    ensures r.Err? <==> VerifyLoginOtp(s, email, otp, now).Err?
    ensures r.Err? ==> r == VerifyLoginOtp(s, email, otp, now)
    ensures r.Ok? ==>
      && r.value.store == VerifyLoginOtp(s, email, otp, now).value.store
      && r.value.tokens == VerifyLoginOtp(s, email, otp, now).value.tokens
      && r.value.summary == SummaryAsWritten(s.users[FindByEmail(s.users, email).value])
      && r.value.summary.role.None?
  {
    match VerifyLoginOtp(s, email, otp, now)
    case Err(e) => Err(e)
    case Ok(l) => Ok(l.(summary := SummaryAsWritten(s.users[FindByEmail(s.users, email).value])))
  }

  /**
   * The conflict test on the raw value rejects the `"null"` sentinel that the
   * same controller reads as "no role" three lines later; on the normalised
   * value the request is accepted and stores no role.
   */
  lemma NullRoleConflict(s: UserStore, req: CreateUserRequest, h: Hasher, salt: nat, now: nat)
    requires HasRequired(req) && req.password == req.confirmPassword
    requires CustomAccess(req) && req.userRole == Some("null")
    requires Truthy(req.designation)
    requires forall i :: 0 <= i < |s.users| ==> !Clashes(s.users[i], req)
    ensures CreateUserAsWritten(s, req, h, salt, now) == Err(RoleConflict)
    ensures CreateUser(s, req, h, salt, now).Ok?
    ensures CreateUser(s, req, h, salt, now).value.user.userRole.None?
    ensures CreateUser(s, req, h, salt, now).value.user.enableCustomAccess
  {
    assert !Conflict(req);
    assert Check(s.users, req, false).None?;
  }

  /** An account with a role is echoed without it by the response as written, and with it once corrected. */
  lemma RoleDroppedFromSummary(u: User)
    requires u.userRole.Some?
    ensures SummaryAsWritten(u).role.None?
    ensures Summary(u).role == u.userRole && Summary(u).role != SummaryAsWritten(u).role
  {
  }

  /** The same for the whole passcode step: a successful login of an account with a role loses it as written. */
  lemma VerifyDropsRole(s: UserStore, email: string, otp: string, now: nat)
    requires VerifyLoginOtp(s, email, otp, now).Ok?
    requires s.users[FindByEmail(s.users, email).value].userRole.Some?
    ensures VerifyLoginOtpAsWritten(s, email, otp, now).Ok?
    ensures VerifyLoginOtpAsWritten(s, email, otp, now).value.summary.role.None?
    ensures VerifyLoginOtp(s, email, otp, now).value.summary.role
      == s.users[FindByEmail(s.users, email).value].userRole
  {
  }

  /**
   * As written, a login without a password tells a registered email (500,
   * from the hash comparison) from an unknown one (400); the corrected login
   * answers both alike.
   */
  lemma MissingPasswordRevealsAccount(s: UserStore, h: Hasher, known: string, unknown: string, now: nat, draw: real)
    requires 0.0 <= draw < 1.0
    requires FindByEmail(s.users, known).Some? && FindByEmail(s.users, unknown).None?
    ensures LoginAsWritten(s, h, known, None, now, draw) == Err(ServerError)
    ensures LoginAsWritten(s, h, unknown, None, now, draw) == Err(InvalidCredentials)
    ensures Login(s, h, known, None, now, draw) == Login(s, h, unknown, None, now, draw)
  {
  }

  // ---------------------------------------------------------------------------
  // Invariant preservation

  lemma CreateUserPreservesValid(s: UserStore, req: CreateUserRequest, h: Hasher, salt: nat, now: nat)
    requires Valid(s)
    requires CreateUser(s, req, h, salt, now).Ok?
    ensures Valid(CreateUser(s, req, h, salt, now).value.store)
  {
    var c := CreateUser(s, req, h, salt, now).value;
    var u := c.user;
    var t := c.store;
    assert u == NewUser(s.nextId, req, h, salt, now);
    assert !Conflict(req);
    forall k | 0 <= k < |u.customPermissions|
      ensures Complete(u.customPermissions[k])
    {
      AccountDefaultsComplete(req.customPermissions.value[k]);
    }
    assert WellFormed(u);
    assert Distinct(t.users) by {
      forall i, j | 0 <= i < j < |t.users|
        ensures t.users[i].id != t.users[j].id && t.users[i].email != t.users[j].email
        ensures t.users[i].username != t.users[j].username && t.users[i].phone != t.users[j].phone
      {
        if j == |s.users| {
          assert t.users[i] == s.users[i] && t.users[j] == u;
          assert !Clashes(s.users[i], req);
        }
      }
    }
  }

  /** Replacing one account by a well-formed one with the same keys keeps the store valid. */
  lemma ReplacePreservesValid(s: UserStore, i: nat, u: User)
    requires Valid(s) && i < |s.users| && WellFormed(u)
    requires u.id == s.users[i].id && u.email == s.users[i].email
    requires u.username == s.users[i].username && u.phone == s.users[i].phone
    ensures Valid(s.(users := s.users[i := u]))
  {
    var t := s.(users := s.users[i := u]);
    assert forall j :: 0 <= j < |s.users| ==>
      t.users[j].id == s.users[j].id && t.users[j].email == s.users[j].email
      && t.users[j].username == s.users[j].username && t.users[j].phone == s.users[j].phone;
  }

  lemma LoginPreservesValid(s: UserStore, h: Hasher, email: string, password: Option<string>, now: nat, draw: real)
    requires Valid(s) && 0.0 <= draw < 1.0
    requires Login(s, h, email, password, now, draw).Ok?
    ensures Valid(Login(s, h, email, password, now, draw).value.store)
  {
    var r := Login(s, h, email, password, now, draw).value;
    var i := FindByEmail(s.users, email).value;
    var u := s.users[i].(otp := Some(r.dispatch.code), otpExpiry := Some(now + OtpLifetime), updatedAt := now);
    assert r.store == s.(users := s.users[i := u]);
    ReplacePreservesValid(s, i, u);
  }

  lemma VerifyPreservesValid(s: UserStore, email: string, otp: string, now: nat)
    requires Valid(s)
    ensures VerifyLoginOtp(s, email, otp, now).Ok? ==> Valid(VerifyLoginOtp(s, email, otp, now).value.store)
  {
    if VerifyLoginOtp(s, email, otp, now).Ok? {
      var r := VerifyLoginOtp(s, email, otp, now).value;
      var i := FindByEmail(s.users, email).value;
      var u := s.users[i].(otp := None, otpExpiry := None, updatedAt := now);
      assert r.store == s.(users := s.users[i := u]);
      ReplacePreservesValid(s, i, u);
    }
  }
}
