/**
 * Signing in by e-mail and registering: the e-mail is lower-cased and
 * stripped, an unknown address and a wrong password are refused alike,
 * and a new account gets the first free username made from the part of
 * the address before '@'.
 */
module Accounts {
  import opened Wrappers
  import opened Text

  /** A row of the user table; `password` stands for what the password hash checks. */
  datatype User = User(
    id: nat, username: string, email: string, firstName: string, lastName: string,
    isActive: bool, isStaff: bool, isSuperuser: bool, password: string)

  /** The request body: JSON that failed to decode, or its fields (`None` when a key is absent). */
  datatype Body<T> = Malformed | Parsed(fields: T)

  datatype LoginFields = LoginFields(username: Option<string>, password: Option<string>, remember: bool)

  datatype RegisterFields = RegisterFields(
    email: Option<string>, password: Option<string>, password2: Option<string>, firstName: Option<string>)

  /** Who the session belongs to, and its expiry in seconds (`None`: the site default, 0: end with the browser). */
  datatype Session = Session(user: Option<nat>, expiry: Option<nat>)

  datatype LoginResponse =
    | BadJson                   // 400
    | Unauthorized(detail: string)   // 401
    | LookupError               // several accounts share the e-mail: the lookup raises, 500
    | Profile(id: nat, email: string, firstName: string, lastName: string, isStaff: bool, isSuperuser: bool)

  datatype RegisterResponse =
    | RegisterBadJson                      // 400
    | Rejected(errors: map<string, string>)   // 400, one message per field
    | Registered(id: nat, email: string, firstName: string, message: string)   // 201
    | UsernameNotSet                       // 500: `create_user` refuses an empty username

  const BadCredentials := "Неверный email или пароль"
  const EnterEmail := "Введите email"
  const EmailInUse := "Пользователь с таким email уже существует"
  const EnterPassword := "Введите пароль"
  const PasswordTooShort := "Пароль должен быть не менее 8 символов"
  const PasswordsDiffer := "Пароли не совпадают"
  const Welcome := "Регистрация успешна"

  /** Session length with "remember me": two weeks. */
  const TwoWeeks: nat := 1209600

  function LoginStatus(r: LoginResponse): int {
    match r
    case BadJson => 400
    case Unauthorized(_) => 401
    case LookupError => 500
    case Profile(_, _, _, _, _, _) => 200
  }

  function RegisterStatus(r: RegisterResponse): int {
    match r
    case RegisterBadJson => 400
    case Rejected(_) => 400
    case Registered(_, _, _, _) => 201
    case UsernameNotSet => 500
  }

  /** The submitted address as it is looked up and stored: `.lower().strip()`. */
  function NormalizeEmail(s: string): string {
    Strip(Lower(s))
  }

  lemma LowerCharIdempotent(c: char)
    ensures LowerChar(LowerChar(c)) == LowerChar(c)
  {
  }

  /** Normalising twice changes nothing, so a stored address matches itself when typed again. */
  lemma NormalizeEmailIdempotent(s: string)
    ensures NormalizeEmail(NormalizeEmail(s)) == NormalizeEmail(s)
  {
    var y := Lower(s);
    var z := Strip(y);
    var a := LeadingSpaces(y);
    assert z == y[a..a + |z|];
    forall i | 0 <= i < |z|
      ensures Lower(z)[i] == z[i]
    {
      LowerCharIdempotent(s[a + i]);
    }
    assert Lower(z) == z;
    StripIdempotent(y);
  }

  predicate UniqueUsernames(users: seq<User>) {
    forall i, j :: 0 <= i < j < |users| ==> users[i].username != users[j].username
  }

  predicate UniqueIds(users: seq<User>) {
    forall i, j :: 0 <= i < j < |users| ==> users[i].id != users[j].id
  }

  function Usernames(users: seq<User>): set<string> {
    set k | 0 <= k < |users| :: users[k].username
  }

  /** An account with a fresh username and the next id keeps usernames and ids unique. */
  lemma AddUserUnique(users: seq<User>, nextId: nat, user: User)
    requires UniqueUsernames(users) && UniqueIds(users)
    requires forall k :: 0 <= k < |users| ==> users[k].id < nextId
    requires user.username !in Usernames(users) && user.id == nextId
    ensures UniqueUsernames(users + [user]) && UniqueIds(users + [user])
    ensures forall k :: 0 <= k < |users + [user]| ==> (users + [user])[k].id < nextId + 1
  {
    var all := users + [user];
    forall i, j | 0 <= i < j < |all| ensures all[i].username != all[j].username && all[i].id != all[j].id {
      if j == |users| {
        assert all[i] == users[i] && users[i].username in Usernames(users);
      }
    }
  }

  predicate EmailTaken(users: seq<User>, email: string) {
    exists k :: 0 <= k < |users| && users[k].email == email
  }

  /** `User.objects.filter(email=email)`, in table order. */
  function WithEmail(users: seq<User>, email: string): (r: seq<User>)
    ensures |r| <= |users|
    ensures forall u :: u in r <==> u in users && u.email == email
    ensures r == [] <==> !EmailTaken(users, email)
  {
    if users == [] then []
    else
      var rest := WithEmail(users[1..], email);
      assert forall k :: 1 <= k < |users| ==> users[k] == users[1..][k - 1];
      if users[0].email == email then [users[0]] + rest else rest
  }

  lemma WithEmailAppend(users: seq<User>, user: User, email: string)
    ensures WithEmail(users + [user], email)
            == WithEmail(users, email) + (if user.email == email then [user] else [])
  {
    if users != [] {
      assert (users + [user])[1..] == users[1..] + [user];
      WithEmailAppend(users[1..], user, email);
    }
  }

  /** The account with this username (the first one; usernames are unique in the table). */
  function ByUsername(users: seq<User>, username: string): (r: Option<User>)
    ensures r.Some? ==> r.value in users && r.value.username == username
    ensures r.None? ==> username !in Usernames(users)
  {
    if users == [] then None
    else if users[0].username == username then Some(users[0])
    else
      var r := ByUsername(users[1..], username);
      assert forall k :: 1 <= k < |users| ==> users[k] == users[1..][k - 1];
      r
  }

  lemma {:induction false} ByUsernameFinds(users: seq<User>, k: nat)
    requires k < |users| && UniqueUsernames(users)
    ensures ByUsername(users, users[k].username) == Some(users[k])
  {
    if k > 0 {
      assert users[0].username != users[k].username;
      assert users[1..][k - 1] == users[k];
      ByUsernameFinds(users[1..], k - 1);
    }
  }

  /**
   * The authentication backend: the account with the username whose
   * password checks and which is active; nothing otherwise.
   */
  function Authenticate(users: seq<User>, username: string, password: string): (r: Option<User>)
    ensures r.Some? ==> r.value in users && r.value.username == username
                        && r.value.password == password && r.value.isActive
  {
    match ByUsername(users, username)
    case None => None
    case Some(u) => if u.password == password && u.isActive then Some(u) else None
  }

  function ProfileOf(u: User): LoginResponse {
    Profile(u.id, u.email, u.firstName, u.lastName, u.isStaff, u.isSuperuser)
  }

  /**
   * What signing in answers: exactly one account with the normalised
   * address, whose password checks and which is active, is let in; no
   * account and a refused one get the same 401.
   */
  function LoginResult(users: seq<User>, body: Body<LoginFields>): LoginResponse {
    match body
    case Malformed => BadJson
    case Parsed(f) =>
      var matches := WithEmail(users, NormalizeEmail(f.username.GetOr("")));
      if |matches| == 0 then Unauthorized(BadCredentials)
      else if |matches| > 1 then LookupError
      else if matches[0].password == f.password.GetOr("") && matches[0].isActive then ProfileOf(matches[0])
      else Unauthorized(BadCredentials)
  }

  /** `remember` keeps the session for two weeks, otherwise until the browser closes. */
  function ExpiryFor(remember: bool): nat {
    if remember then TwoWeeks else 0
  }

  /**
   * The outcomes of signing in: every refusal carries the same text, so an
   * unknown address cannot be told from a wrong password; whoever is let in
   * is the only account with the address, active, with that password.
   */
  lemma LoginOutcomes(users: seq<User>, f: LoginFields)
    ensures var r := LoginResult(users, Parsed(f));
            var email := NormalizeEmail(f.username.GetOr(""));
            && (r.Unauthorized? ==> r.detail == BadCredentials && LoginStatus(r) == 401)
            && (!EmailTaken(users, email) ==> r == Unauthorized(BadCredentials))
            && (r.Profile? <==>
                  exists u :: u in users && WithEmail(users, email) == [u]
                              && u.password == f.password.GetOr("") && u.isActive && r == ProfileOf(u))
            && (r.LookupError? <==> |WithEmail(users, email)| > 1)
  {
    var r := LoginResult(users, Parsed(f));
    var email := NormalizeEmail(f.username.GetOr(""));
    var matches := WithEmail(users, email);
    if |matches| == 1 {
      assert matches == [matches[0]];
      assert matches[0] in matches;
    }
  }

  /** Signing in depends on the address only through its normalised form. */
  lemma LoginIgnoresCaseAndSpaces(users: seq<User>, f: LoginFields, typed: string)
    requires NormalizeEmail(typed) == NormalizeEmail(f.username.GetOr(""))
    ensures LoginResult(users, Parsed(f.(username := Some(typed)))) == LoginResult(users, Parsed(f))
  {
    var g := f.(username := Some(typed));
    assert g.password == f.password && g.username.GetOr("") == typed;
    assert WithEmail(users, NormalizeEmail(g.username.GetOr(""))) == WithEmail(users, NormalizeEmail(f.username.GetOr("")));
  }

  /**
   * The username registration would create is empty: the address has
   * nothing before its '@' and no account uses the empty name, so the first
   * candidate is free. Django's `create_user` raises `ValueError` on it.
   */
  predicate BlankUsername(users: seq<User>, email: string) {
    FirstField(email, '@') == "" && "" !in Usernames(users)
  }

  /** Whether the registration form passes every check. */
  predicate Acceptable(users: seq<User>, email: string, password: string, password2: string) {
    email != [] && !EmailTaken(users, email) && |password| >= 8 && password == password2
  }

  /** The field errors of registration: which fields are reported, and with which message. */
  predicate Reports(users: seq<User>, email: string, password: string, password2: string,
                    errors: map<string, string>)
  {
    && errors.Keys <= {"email", "password", "password2"}
    && ("email" in errors <==> email == [] || EmailTaken(users, email))
    && (email == [] ==> "email" in errors && errors["email"] == EnterEmail)
    && (email != [] && EmailTaken(users, email) ==> "email" in errors && errors["email"] == EmailInUse)
    && ("password" in errors <==> |password| < 8)
    && (password == [] ==> "password" in errors && errors["password"] == EnterPassword)
    && (0 < |password| < 8 ==> "password" in errors && errors["password"] == PasswordTooShort)
    && ("password2" in errors <==> password != password2)
    && (password != password2 ==> "password2" in errors && errors["password2"] == PasswordsDiffer)
  }

  /** Registration goes ahead exactly when no error is reported. */
  lemma ReportsNothingIffAcceptable(users: seq<User>, email: string, password: string, password2: string,
                                    errors: map<string, string>)
    requires Reports(users, email, password, password2, errors)
    ensures errors == map[] <==> Acceptable(users, email, password, password2)
  {
    if !Acceptable(users, email, password, password2) {
      if email == [] || EmailTaken(users, email) {
        assert "email" in errors;
      } else if |password| < 8 {
        assert "password" in errors;
      } else {
        assert "password2" in errors;
      }
    }
  }

  /** The `k`-th username tried for a base: the base itself, then base1, base2, … */
  function Candidate(base: string, k: nat): string {
    if k == 0 then base else base + NatToString(k)
  }

  lemma CandidateInjective(base: string, a: nat, b: nat)
    requires Candidate(base, a) == Candidate(base, b)
    ensures a == b
  {
    if a != 0 && b != 0 {
      assert NatToString(a) == Candidate(base, a)[|base|..] == Candidate(base, b)[|base|..] == NatToString(b);
      NatToStringInjective(a, b);
    }
  }

  /** The first `n` candidates. */
  function Tried(base: string, n: nat): set<string> {
    set k | 0 <= k < n :: Candidate(base, k)
  }

  /** The first `n` candidates are `n` different names. */
  lemma {:induction false} TriedSize(base: string, n: nat)
    ensures |Tried(base, n)| == n
  {
    if n > 0 {
      TriedSize(base, n - 1);
      assert Tried(base, n) == Tried(base, n - 1) + {Candidate(base, n - 1)};
      if Candidate(base, n - 1) in Tried(base, n - 1) {
        var k :| 0 <= k < n - 1 && Candidate(base, k) == Candidate(base, n - 1);
        CandidateInjective(base, k, n - 1);
      }
    }
  }

  /** No more candidates than names can all be taken. */
  lemma TriedBound(base: string, n: nat, taken: set<string>)
    requires forall j :: 0 <= j < n ==> Candidate(base, j) in taken
    ensures n <= |taken|
  {
    var t := Tried(base, n);
    assert t <= taken;
    assert taken == t + (taken - t);
    TriedSize(base, n);
  }

  /** `u` is the first candidate for `base` not taken. */
  ghost predicate FirstFree(base: string, taken: set<string>, u: string) {
    exists n: nat :: u == Candidate(base, n) && u !in taken
                     && forall j :: 0 <= j < n ==> Candidate(base, j) in taken
  }

  /** There is only one first free candidate. */
  lemma FirstFreeUnique(base: string, taken: set<string>, u: string, v: string)
    requires FirstFree(base, taken, u) && FirstFree(base, taken, v)
    ensures u == v
  {
    var m: nat :| u == Candidate(base, m) && u !in taken && forall j :: 0 <= j < m ==> Candidate(base, j) in taken;
    var n: nat :| v == Candidate(base, n) && v !in taken && forall j :: 0 <= j < n ==> Candidate(base, j) in taken;
    if m < n || n < m {
      assert false;
    }
  }

  /** The user table with the signed-in session of one browser. */
  class Accounts {
    var users: seq<User>
    var nextId: nat
    var session: Session

    /** Usernames and ids are unique, and new ids are above every id in use. */
    ghost predicate Valid()
      reads this
    {
      UniqueUsernames(users) && UniqueIds(users)
      && forall k :: 0 <= k < |users| ==> users[k].id < nextId
    }

    constructor(users: seq<User>, nextId: nat)
      requires UniqueUsernames(users) && UniqueIds(users)
      requires forall k :: 0 <= k < |users| ==> users[k].id < nextId
      ensures Valid()
      ensures this.users == users && this.nextId == nextId && session == Session(None, None)
    {
      this.users := users;
      this.nextId := nextId;
      session := Session(None, None);
    }

    /**
     * `login_view`: looks the address up, authenticates by the account's
     * username, and on success signs the session in with its expiry.
     */
    method Login(body: Body<LoginFields>) returns (r: LoginResponse)
      requires UniqueUsernames(users)
      modifies this`session
      ensures r == LoginResult(users, body)
      ensures r.Profile? ==> session == Session(Some(r.id), Some(ExpiryFor(body.fields.remember)))
      ensures !r.Profile? ==> session == old(session)
    {
      match body {
        case Malformed =>
          r := BadJson;
        case Parsed(f) =>
          var email := NormalizeEmail(f.username.GetOr(""));
          var password := f.password.GetOr("");
          var matches := WithEmail(users, email);
          if |matches| == 0 {
            r := Unauthorized(BadCredentials);
          } else if |matches| > 1 {
            r := LookupError;
          } else {
            var k :| 0 <= k < |users| && users[k] == matches[0];
            ByUsernameFinds(users, k);
            var user := Authenticate(users, matches[0].username, password);
            if user.Some? && user.value.isActive {
              session := Session(Some(user.value.id), Some(ExpiryFor(f.remember)));
              r := ProfileOf(user.value);
            } else {
              r := Unauthorized(BadCredentials);
            }
          }
      }
    }

    /** The field errors of a registration form, filled in field by field. */
    method Validate(email: string, password: string, password2: string) returns (errors: map<string, string>)
      ensures Reports(users, email, password, password2, errors)
    {
      errors := map[];
      if email == [] {
        errors := errors["email" := EnterEmail];
      } else if EmailTaken(users, email) {
        errors := errors["email" := EmailInUse];
      }
      if password == [] {
        errors := errors["password" := EnterPassword];
      } else if |password| < 8 {
        errors := errors["password" := PasswordTooShort];
      }
      if password != password2 {
        errors := errors["password2" := PasswordsDiffer];
      }
    }

    /** The first of base, base1, base2, … that no account uses, and its position. */
    method FreeUsername(base: string) returns (username: string, n: nat)
      ensures username == Candidate(base, n)
      ensures username !in Usernames(users)
      ensures forall j :: 0 <= j < n ==> Candidate(base, j) in Usernames(users)
    {
      var taken := Usernames(users);
      username := base;
      var counter := 1;
      while username in taken
        invariant counter >= 1
        invariant username == Candidate(base, counter - 1)
        invariant forall j :: 0 <= j < counter - 1 ==> Candidate(base, j) in taken
        invariant counter - 1 <= |taken|
        decreases |taken| - (counter - 1)
      {
        TriedBound(base, counter, taken);
        username := base + NatToString(counter);
        counter := counter + 1;
      }
      n := counter - 1;
    }

    /**
     * `register_view`: a form with errors is refused and changes nothing;
     * an empty first free username makes `create_user` fail, which the view
     * does not catch, and changes nothing either; otherwise one active
     * account is added, with the normalised address, the stripped first
     * name and the first free username, and the session is signed in to it.
     */
    method Register(body: Body<RegisterFields>) returns (r: RegisterResponse)
      requires Valid()
      modifies this
      ensures Valid()
      ensures body.Malformed? ==> r == RegisterBadJson
      ensures r.Registered? <==>
        body.Parsed? && Acceptable(old(users), NormalizeEmail(body.fields.email.GetOr("")),
                                   body.fields.password.GetOr(""), body.fields.password2.GetOr(""))
        && !BlankUsername(old(users), NormalizeEmail(body.fields.email.GetOr("")))
      ensures r == UsernameNotSet <==>
        body.Parsed? && Acceptable(old(users), NormalizeEmail(body.fields.email.GetOr("")),
                                   body.fields.password.GetOr(""), body.fields.password2.GetOr(""))
        && BlankUsername(old(users), NormalizeEmail(body.fields.email.GetOr("")))
      ensures body.Parsed? ==>
                Acceptable(old(users), NormalizeEmail(body.fields.email.GetOr("")),
                           body.fields.password.GetOr(""), body.fields.password2.GetOr("")) || r.Rejected?
      ensures r.Rejected? ==>
                body.Parsed?
                && Reports(old(users), NormalizeEmail(body.fields.email.GetOr("")),
                           body.fields.password.GetOr(""), body.fields.password2.GetOr(""), r.errors)
      ensures !r.Registered? ==> users == old(users) && nextId == old(nextId) && session == old(session)
      ensures r.Registered? ==> |users| == |old(users)| + 1
      ensures r.Registered? ==>
        var email := NormalizeEmail(body.fields.email.GetOr(""));
        var user := User(old(nextId), users[|old(users)|].username, email,
                         Strip(body.fields.firstName.GetOr("")), "", true, false, false,
                         body.fields.password.GetOr(""));
        && users == old(users) + [user]
        && FirstFree(FirstField(email, '@'), Usernames(old(users)), user.username)
        && r == Registered(user.id, email, user.firstName, Welcome)
        && session == Session(Some(user.id), old(session).expiry)
    {
      match body {
        case Malformed =>
          r := RegisterBadJson;
        case Parsed(f) =>
          var email := NormalizeEmail(f.email.GetOr(""));
          var password := f.password.GetOr("");
          var password2 := f.password2.GetOr("");
          var firstName := Strip(f.firstName.GetOr(""));
          var errors := Validate(email, password, password2);
          ReportsNothingIffAcceptable(users, email, password, password2, errors);
          if errors != map[] {
            r := Rejected(errors);
            return;
          }
          var base := FirstField(email, '@');
          var username, n := FreeUsername(base);
          if username == "" {
            assert n == 0;
            r := UsernameNotSet;
            return;
          }
          if n > 0 {
            assert Candidate(base, 0) in Usernames(users);
          }
          var user := User(nextId, username, email, firstName, "", true, false, false, password);
          AddUserUnique(users, nextId, user);
          users := users + [user];
          nextId := nextId + 1;
          session := Session(Some(user.id), session.expiry);
          r := Registered(user.id, email, firstName, Welcome);
      }
    }
  }

  /**
   * An account just registered can sign in: its address, typed again in
   * any case and with any surrounding spaces, with its password, lets that
   * account in.
   */
  lemma RegisteredCanLogIn(users: seq<User>, user: User, typed: string, remember: bool)
    requires !EmailTaken(users, user.email)
    requires user.isActive
    requires NormalizeEmail(typed) == user.email
    ensures LoginResult(users + [user], Parsed(LoginFields(Some(typed), Some(user.password), remember)))
            == ProfileOf(user)
  {
    WithEmailAppend(users, user, user.email);
  }

  /** In particular the stored, normalised address itself signs in. */
  lemma StoredAddressLogsIn(users: seq<User>, user: User, submitted: string, remember: bool)
    requires !EmailTaken(users, user.email)
    requires user.isActive
    requires user.email == NormalizeEmail(submitted)
    ensures LoginResult(users + [user], Parsed(LoginFields(Some(submitted), Some(user.password), remember)))
            == ProfileOf(user)
    ensures LoginResult(users + [user], Parsed(LoginFields(Some(user.email), Some(user.password), remember)))
            == ProfileOf(user)
  {
    NormalizeEmailIdempotent(submitted);
    RegisteredCanLogIn(users, user, submitted, remember);
    RegisteredCanLogIn(users, user, user.email, remember);
  }
}
