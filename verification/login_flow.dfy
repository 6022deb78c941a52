/**
 * The two-phase login as a whole: the password step hands the passcode to
 * the passcode step through the stored account. These lemmas relate
 * successive calls of the account controller.
 */
module LoginFlow {
  import opened Wrappers
  import opened Js
  import opened Credentials
  import opened Tokens
  import opened Users

  /** Lookups by email agree on two stores whose accounts have pairwise the same emails. */
  lemma {:induction false} FindBySameEmails(a: seq<User>, b: seq<User>, email: string)
    requires |a| == |b|
    requires forall j :: 0 <= j < |a| ==> a[j].email == b[j].email
    ensures FindByEmail(a, email) == FindByEmail(b, email)
  {
    if a != [] && a[0].email != email {
      FindBySameEmails(a[1..], b[1..], email);
    }
  }

  /** The account the password step wrote to is the one the passcode step will find. */
  lemma LoginKeepsLookup(s: UserStore, h: Hasher, email: string, password: Option<string>, now: nat, draw: real, other: string)
    requires 0.0 <= draw < 1.0
    requires Login(s, h, email, password, now, draw).Ok?
    ensures FindByEmail(Login(s, h, email, password, now, draw).value.store.users, other) == FindByEmail(s.users, other)
  {
    var t := Login(s, h, email, password, now, draw).value.store;
    FindBySameEmails(s.users, t.users, other);
  }

  /**
   * Login saves the account without modifying its password, so the pre-save
   * hook keeps the hash: after a successful login the same password logs in
   * again, and neither login changes any stored hash.
   */
  lemma RepeatedLoginKeepsHash(s: UserStore, h: Hasher, email: string, password: string,
                               now: nat, draw: real, later: nat, draw2: real)
    requires 0.0 <= draw < 1.0 && 0.0 <= draw2 < 1.0
    requires Login(s, h, email, Some(password), now, draw).Ok?
    ensures var t := Login(s, h, email, Some(password), now, draw).value.store;
      var r := Login(t, h, email, Some(password), later, draw2);
      && r.Ok?
      && |r.value.store.users| == |s.users|
      && (forall j :: 0 <= j < |s.users| ==> r.value.store.users[j].password == s.users[j].password)
  {
    var t := Login(s, h, email, Some(password), now, draw).value.store;
    LoginKeepsLookup(s, h, email, Some(password), now, draw, email);
    var i := FindByEmail(s.users, email).value;
    assert Login(s, h, email, Some(password), now, draw) == LoginWith(s, h, email, Some(password), now, draw, InvalidCredentials);
    assert forall j :: 0 <= j < |s.users| ==> t.users[j].password == s.users[j].password;
    assert Login(t, h, email, Some(password), later, draw2) == LoginWith(t, h, email, Some(password), later, draw2, InvalidCredentials);
  }

  /**
   * Unknown email and wrong or missing password are indistinguishable to the
   * caller (a missing one only after the correction recorded at
   * `LoginAsWritten`).
   */
  lemma NoAccountEnumeration(s: UserStore, h: Hasher, unknown: string, known: string, wrong: Option<string>,
                             now: nat, draw: real)
    requires 0.0 <= draw < 1.0
    requires FindByEmail(s.users, unknown).None?
    requires FindByEmail(s.users, known).Some?
    requires wrong.Some? ==> !ComparePassword(h, wrong.value, s.users[FindByEmail(s.users, known).value].password)
    ensures Login(s, h, unknown, wrong, now, draw) == Login(s, h, known, wrong, now, draw)
  {
  }

  /**
   * Correct password, then the mailed code within ten minutes (the expiry
   * instant included): the login succeeds, issues tokens for that account and
   * clears the passcode.
   */
  lemma LoginThenVerify(s: UserStore, h: Hasher, email: string, password: string, now: nat, draw: real, d: nat)
    requires 0.0 <= draw < 1.0
    requires FindByEmail(s.users, email).Some?
    requires ComparePassword(h, password, s.users[FindByEmail(s.users, email).value].password)
    requires d <= OtpLifetime
    ensures Login(s, h, email, Some(password), now, draw).Ok?
    ensures var issued := Login(s, h, email, Some(password), now, draw).value;
      var r := VerifyLoginOtp(issued.store, email, ToDecimal(issued.dispatch.code), now + d);
      var i := FindByEmail(s.users, email).value;
      && r.Ok?
      && r.value.tokens == GenerateTokens(s.users[i].id, now + d)
      && r.value.store.users[i].otp.None? && r.value.store.users[i].otpExpiry.None?
      && r.value.store.users[i].password == s.users[i].password
  {
    var issued := Login(s, h, email, Some(password), now, draw).value;
    LoginKeepsLookup(s, h, email, Some(password), now, draw, email);
    ParseDecimal(issued.dispatch.code);
  }

  /** A passcode is single-use: once it has been accepted, any second attempt reports expiry. */
  lemma SingleUse(s: UserStore, email: string, code: string, now: nat, code2: string, later: nat)
    ensures VerifyLoginOtp(s, email, code, now).Ok? ==>
      VerifyLoginOtp(VerifyLoginOtp(s, email, code, now).value.store, email, code2, later) == Err(OtpExpired)
  {
    if VerifyLoginOtp(s, email, code, now).Ok? {
      var i := FindByEmail(s.users, email).value;
      var t := VerifyLoginOtp(s, email, code, now).value.store;
      FindBySameEmails(s.users, t.users, email);
      assert t.users[i].otp.None?;
      assert OtpUnusable(t.users[i], later);
    }
  }

  /** Past the ten minutes, even the right code reports expiry. */
  lemma ExpiredRegardlessOfCode(s: UserStore, h: Hasher, email: string, password: string, now: nat, draw: real, d: nat, code: string)
    requires 0.0 <= draw < 1.0
    requires Login(s, h, email, Some(password), now, draw).Ok?
    requires d > OtpLifetime
    ensures VerifyLoginOtp(Login(s, h, email, Some(password), now, draw).value.store, email, code, now + d) == Err(OtpExpired)
  {
    LoginKeepsLookup(s, h, email, Some(password), now, draw, email);
  }

  /**
   * A wrong code is refused without consuming the passcode: the right code
   * still succeeds afterwards, within the window.
   */
  lemma WrongCodeKeepsOtp(s: UserStore, h: Hasher, email: string, password: string, now: nat, draw: real, wrong: string, d: nat)
    requires 0.0 <= draw < 1.0
    requires Login(s, h, email, Some(password), now, draw).Ok?
    requires ParseInt(wrong) != Some(Login(s, h, email, Some(password), now, draw).value.dispatch.code as int)
    requires d <= OtpLifetime
    ensures var issued := Login(s, h, email, Some(password), now, draw).value;
      && VerifyLoginOtp(issued.store, email, wrong, now + d) == Err(InvalidOtp)
      && VerifyLoginOtp(issued.store, email, ToDecimal(issued.dispatch.code), now + d).Ok?
  {
    var issued := Login(s, h, email, Some(password), now, draw).value;
    LoginKeepsLookup(s, h, email, Some(password), now, draw, email);
    ParseDecimal(issued.dispatch.code);
  }
}
