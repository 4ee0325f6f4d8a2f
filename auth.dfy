/**
 * lib/auth.php: the administrator login against credentials read with
 * `env()`, the session flag it sets, and one-time CSRF tokens kept per form
 * in the session.
 *
 * `password_verify` and `random_bytes` are parameters (`passwordVerify`, and
 * the new token a caller passes in as `newToken`), as is `time()`. `hash_equals` is
 * string equality; its constant running time is not modelled.
 */
module Auth {
  import opened Wrappers
  import opened Strings
  import Url

  const SessionKey: string := "filmoteca_admin"
  const CsrfNamespace: string := "csrf_admin"
  const LoginPage: string := "admin/login.php"

  /** The credentials `auth_login` reads: ADMIN_USERNAME (else ADMIN_USER), ADMIN_HASHED_PASSWORD, ADMIN_PASSWORD. */
  datatype Credentials = Credentials(user: Option<string>, hash: Option<string>, password: Option<string>)

  /** Line 33: `env('ADMIN_USERNAME', env('ADMIN_USER'))`. */
  function CredentialsOf(adminUsername: Option<string>, adminUser: Option<string>,
                         hash: Option<string>, password: Option<string>): (c: Credentials)
    ensures adminUsername.Some? ==> c.user == adminUsername
    ensures adminUsername.None? ==> c.user == adminUser
    ensures c.hash == hash && c.password == password
  {
    Credentials(if adminUsername.Some? then adminUsername else adminUser, hash, password)
  }

  /** Lines 37-54: whether the user name and password log in. */
  predicate Authenticates(c: Credentials, username: string, password: string,
                          passwordVerify: (string, string) -> bool)
  {
    && Truthy(c.user)
    && c.user.value == username
    && if Truthy(c.hash) then passwordVerify(password, c.hash.value)
       else Truthy(c.password) && c.password.value == password
  }

  /** Without a configured user name (unset, "" or "0") nobody logs in. */
  lemma NoUserNoLogin(c: Credentials, username: string, password: string, passwordVerify: (string, string) -> bool)
    requires !Truthy(c.user)
    ensures !Authenticates(c, username, password, passwordVerify)
  {
  }

  /** Only the configured user name logs in. */
  lemma OnlyConfiguredUser(c: Credentials, username: string, password: string, passwordVerify: (string, string) -> bool)
    requires Authenticates(c, username, password, passwordVerify)
    ensures c.user == Some(username) && !Falsy(username)
  {
  }

  /** A configured hash decides alone: the plaintext password is then ignored. */
  lemma HashTakesPrecedence(c: Credentials, plain: Option<string>, username: string, password: string,
                            passwordVerify: (string, string) -> bool)
    requires Truthy(c.hash)
    ensures Authenticates(c, username, password, passwordVerify)
            <==> Authenticates(c.(password := plain), username, password, passwordVerify)
    ensures Authenticates(c, username, password, passwordVerify)
            <==> Truthy(c.user) && c.user.value == username && passwordVerify(password, c.hash.value)
  {
  }

  /** Without a hash, the plaintext password must match exactly; with neither, nobody logs in. */
  lemma PlainPassword(c: Credentials, username: string, password: string, passwordVerify: (string, string) -> bool)
    requires !Truthy(c.hash)
    ensures Authenticates(c, username, password, passwordVerify)
            <==> Truthy(c.user) && c.user.value == username && c.password == Some(password) && !Falsy(password)
  {
  }

  /** `bin2hex(random_bytes(32))`: 64 lower-case hex digits. */
  predicate IsHexToken(t: string) {
    |t| == 64 && forall i :: 0 <= i < |t| ==> t[i] in "0123456789abcdef"
  }

  /** Lines 88-95: the token of a form and the tokens after `csrf_token`; `newToken` is used only when needed. */
  function Issue(tokens: map<string, string>, form: string, newToken: string): (r: (string, map<string, string>))
    requires newToken != ""
    // a form that has a token keeps it
    ensures form in tokens && tokens[form] != "" ==> r == (tokens[form], tokens)
    // otherwise the new token is stored for this form only
    ensures !(form in tokens && tokens[form] != "") ==> r.0 == newToken && r.1.Keys == tokens.Keys + {form}
    // either way the form's stored token is the one returned, and it is not empty
    ensures form in r.1 && r.1[form] == r.0 && r.0 != ""
    ensures forall f :: f in tokens && f != form ==> f in r.1 && r.1[f] == tokens[f]
  {
    if form in tokens && tokens[form] != "" then (tokens[form], tokens)
    else (newToken, tokens[form := newToken])
  }

  /** Lines 101-112: whether the token is accepted, and the tokens afterwards. */
  function Consume(tokens: map<string, string>, form: string, token: Option<string>): (r: (bool, map<string, string>))
    // accepted exactly when a non-empty token equals the one stored for the form
    ensures r.0 <==> Truthy(token) && form in tokens && tokens[form] == token.value
    // an accepted token is spent, and nothing else is
    ensures r.0 ==> r.1 == tokens - {form}
    // a refused one changes nothing
    ensures !r.0 ==> r.1 == tokens
  {
    if !Truthy(token) then (false, tokens)
    else if form !in tokens then (false, tokens)
    else if tokens[form] == token.value then (true, tokens - {form})
    else (false, tokens)
  }

  /** Asking twice gives the same token and stores nothing new, whatever new token is on offer. */
  lemma {:induction false} IssueIdempotent(tokens: map<string, string>, form: string, newToken: string, newToken2: string)
    requires newToken != "" && newToken2 != ""
    ensures var (t, after) := Issue(tokens, form, newToken);
            Issue(after, form, newToken2) == (t, after)
  {
    var (t, after) := Issue(tokens, form, newToken);
    assert form in after && after[form] == t && t != "";
  }

  /** Every stored token is one that `csrf_token` made. */
  predicate ValidTokens(tokens: map<string, string>) {
    forall f :: f in tokens ==> IsHexToken(tokens[f])
  }

  /** Issuing and consuming keep every stored token one that `csrf_token` made. */
  lemma TokensStayValid(tokens: map<string, string>, form: string, newToken: string, token: Option<string>)
    requires ValidTokens(tokens) && IsHexToken(newToken)
    ensures ValidTokens(Issue(tokens, form, newToken).1)
    ensures ValidTokens(Consume(tokens, form, token).1)
  {
  }

  /** A token handed out by `csrf_token` is accepted by `csrf_verify` for its own form, which spends it. */
  lemma IssuedIsAccepted(tokens: map<string, string>, form: string, newToken: string)
    requires ValidTokens(tokens) && IsHexToken(newToken)
    ensures var (t, after) := Issue(tokens, form, newToken);
            Consume(after, form, Some(t)) == (true, after - {form})
  {
    var (t, after) := Issue(tokens, form, newToken);
    assert |t| == 64;
  }

  /** A spent token is refused when it is replayed. */
  lemma ReplayRefused(tokens: map<string, string>, form: string, token: Option<string>)
    requires Consume(tokens, form, token).0
    ensures !Consume(Consume(tokens, form, token).1, form, token).0
  {
  }

  /** The session: `$_SESSION[AUTH_SESSION_KEY]`, `$_SESSION[AUTH_CSRF_NAMESPACE]` and the session id. */
  datatype Admin = Admin(username: string, authenticatedAt: int)

  class Session {
    var admin: Option<Admin>
    var tokens: map<string, string>
    var id: string

    constructor(id: string)
      ensures admin.None? && tokens == map[] && this.id == id
    {
      admin := None;
      tokens := map[];
      this.id := id;
    }

    /** `auth_login`: a successful login records the user name and the time. */
    method Login(c: Credentials, username: string, password: string,
                 passwordVerify: (string, string) -> bool, now: int) returns (ok: bool)
      modifies this
      ensures ok == Authenticates(c, username, password, passwordVerify)
      ensures ok ==> admin == Some(Admin(username, now))
      ensures !ok ==> admin == old(admin)
      ensures tokens == old(tokens) && id == old(id)
    {
      if !Truthy(c.user) {
        return false;
      }
      if c.user.value != username {
        return false;
      }
      var authenticated := false;
      if Truthy(c.hash) {
        authenticated := passwordVerify(password, c.hash.value);
      } else if Truthy(c.password) {
        authenticated := c.password.value == password;
      }
      if !authenticated {
        return false;
      }
      admin := Some(Admin(username, now));
      return true;
    }

    /** `auth_logout`: forgets the user and moves to a new session id. */
    method Logout(newId: string)
      modifies this
      ensures admin.None? && id == newId && tokens == old(tokens)
    {
      admin := None;
      id := newId;
    }

    /** `auth_check`. */
    predicate Check()
      reads this
    {
      admin.Some?
    }

    /** `auth_require`: the login page to go to, or None to carry on. */
    function RequireRedirect(base: string): (r: Option<string>)
      reads this
      ensures r.None? <==> Check()
      ensures r.Some? ==> r.value == Url.AppPath(base, LoginPage)
    {
      if Check() then None else Some(Url.AppPath(base, LoginPage))
    }

    /** `csrf_token`. */
    method Token(form: string, newToken: string) returns (t: string)
      requires IsHexToken(newToken)
      modifies this
      ensures (t, tokens) == Issue(old(tokens), form, newToken)
      ensures admin == old(admin) && id == old(id)
    {
      if form in tokens && tokens[form] != "" {
        return tokens[form];
      }
      t := newToken;
      tokens := tokens[form := t];
    }

    /** `csrf_verify`. */
    method Verify(form: string, token: Option<string>) returns (valid: bool)
      modifies this
      ensures (valid, tokens) == Consume(old(tokens), form, token)
      ensures admin == old(admin) && id == old(id)
    {
      if !Truthy(token) {
        return false;
      }
      if form !in tokens {
        return false;
      }
      valid := tokens[form] == token.value;
      if valid {
        tokens := tokens - {form};
      }
    }
  }

  /** A login followed by a logout leaves no one logged in, and the CSRF tokens as they were. */
  method LoginThenLogout(s: Session, c: Credentials, username: string, password: string,
                         passwordVerify: (string, string) -> bool, now: int, newId: string)
    modifies s
    ensures !s.Check() && s.tokens == old(s.tokens) && s.id == newId
  {
    var _ := s.Login(c, username, password, passwordVerify, now);
    s.Logout(newId);
  }
}
