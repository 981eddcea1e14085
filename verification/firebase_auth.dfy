/**
 * `FirebaseAuthentication`: read a bearer token from the `Authorization` header, have it
 * verified, and find or create the Django user named by the token's uid.
 */
module FirebaseAuth {
  import opened Wrappers
  import opened Strings

  /** The token element of `header.split(' ')`, when there is a non-empty one. */
  function BearerToken(header: string): (r: Option<string>)
    ensures r.Some? ==> r.value != "" && ' ' !in r.value
    ensures r.Some? <==> |SplitOn(header, ' ')| >= 2 && SplitOn(header, ' ')[1] != ""
  {
    var parts := SplitOn(header, ' ');
    if |parts| < 2 || parts[1] == "" then None else Some(parts[1])
  }

  /** Any first word followed by one space and a token yields the token; the scheme is not checked. */
  lemma BearerTokenOf(scheme: string, token: string, rest: string)
    requires ' ' !in scheme && ' ' !in token && token != ""
    requires rest == [] || rest[0] == ' '
    ensures BearerToken(scheme + " " + token + rest) == Some(token)
  {
    SplitAtSeparator(scheme, ' ', token + rest);
    assert scheme + " " + token + rest == scheme + [' '] + (token + rest);
    if rest == [] {
      SplitWithoutSeparator(token, ' ');
      assert token + rest == token;
    } else {
      SplitAtSeparator(token, ' ', rest[1..]);
      assert token + rest == token + [' '] + rest[1..];
    }
  }

  /** A header without a space has no token. */
  lemma NoSpaceNoToken(header: string)
    requires ' ' !in header
    ensures BearerToken(header) == None
  {
    SplitWithoutSeparator(header, ' ');
  }

  /** Two spaces after the scheme leave an empty token, which counts as none. */
  lemma DoubleSpaceNoToken(scheme: string, rest: string)
    requires ' ' !in scheme
    ensures BearerToken(scheme + "  " + rest) == None
  {
    SplitAtSeparator(scheme, ' ', " " + rest);
    SplitAtSeparator("", ' ', rest);
    assert scheme + "  " + rest == scheme + [' '] + (" " + rest);
    assert " " + rest == "" + [' '] + rest;
  }

  /** The exception `name.split()[0]` raises for a name made only of whitespace. */
  const IndexOutOfRange := "list index out of range"

  /**
   * The first and last name for a new user: the first word, and the remaining words joined by
   * single spaces. A non-empty name without any word makes `split()[0]` raise.
   */
  function SplitName(name: string): (r: Result<(string, string), string>)
    ensures name == "" ==> r == Ok(("", ""))
    ensures r.Err? <==> name != "" && Words(name) == []
    ensures r.Ok? && name != "" ==> r.value.0 == Words(name)[0]
    ensures r.Ok? && |Words(name)| < 2 ==> r.value.1 == ""
    ensures r.Ok? && |Words(name)| >= 2 ==> r.value.1 == JoinWith(Words(name)[1..], " ")
  {
    if name == "" then Ok(("", ""))
    else
      var words := Words(name);
      if words == [] then Err(IndexOutOfRange)
      else Ok((words[0], if |words| > 1 then JoinWith(words[1..], " ") else ""))
  }

  /** A name written as words with single spaces splits back into its first word and the rest. */
  lemma SplitNameOfWords(ws: seq<string>)
    requires |ws| >= 1 && forall k :: 0 <= k < |ws| ==> IsWord(ws[k])
    ensures SplitName(JoinWith(ws, " ")) == Ok((ws[0], JoinWith(ws[1..], " ")))
  {
    WordsOfJoin(ws);
    assert JoinWith(ws, " ") != "" by {
      if |ws| > 1 {
        assert |JoinWith(ws, " ")| >= |ws[0]|;
      }
    }
  }

  /** The last name, split again, gives back every word but the first. */
  lemma LastNameWords(name: string)
    requires SplitName(name).Ok? && |Words(name)| >= 2
    ensures Words(SplitName(name).value.1) == Words(name)[1..]
  {
    var ws := Words(name);
    assert forall k :: 0 <= k < |ws[1..]| ==> IsWord(ws[1..][k]);
    WordsOfJoin(ws[1..]);
  }

  /** The claims `verify_id_token` returns; `None` is an absent key or a null value. */
  datatype Claims = Claims(uid: Option<string>, email: Option<string>, name: Option<string>)

  datatype User = User(email: string, firstName: string, lastName: string)

  /** Django users, keyed by username. */
  type UserStore = map<string, User>

  datatype AuthOutcome =
    | Anonymous
    | Authenticated(username: string, user: User, users: UserStore)
    | Failed(message: string)

  const InvalidToken := "Invalid Firebase token"

  /**
   * `authenticate` as intended, with the lookup going through the active user model
   * (`get_user_model()`) and token verification as an oracle. No header, no token or an empty
   * token leave the request anonymous; any failure after that is reported as an invalid token.
   * The name defaults are computed before the lookup, so an unusable name fails even for a known
   * user.
   */
  function AuthenticateIntended(header: Option<string>, verify: string -> Result<Claims, string>, users: UserStore): (r: AuthOutcome)
    ensures header.None? || header == Some("") ==> r == Anonymous
    ensures r == Anonymous <==> header.None? || BearerToken(header.value).None?
    ensures r.Failed? ==> r.message == InvalidToken
    ensures r.Authenticated? ==> r.username in r.users && r.users[r.username] == r.user
    ensures r.Authenticated? ==> users.Keys <= r.users.Keys && forall u :: u in users ==> r.users[u] == users[u]
    ensures r.Authenticated? ==>
      && header.Some? && BearerToken(header.value).Some?
      && var c := verify(BearerToken(header.value).value);
         && c.Ok? && c.value.uid == Some(r.username)
         && SplitName(c.value.name.GetOr("")).Ok?
         && (r.username !in users ==>
               && r.users == users[r.username := r.user]
               && r.user == User(c.value.email.GetOr(""), SplitName(c.value.name.GetOr("")).value.0,
                                 SplitName(c.value.name.GetOr("")).value.1))
    ensures header.Some? && BearerToken(header.value).Some? ==>
      var c := verify(BearerToken(header.value).value);
      (r.Failed? <==> c.Err? || c.value.uid.None? || SplitName(c.value.name.GetOr("")).Err?)
  {
    if header.None? || header.value == "" then Anonymous
    else
      match BearerToken(header.value)
      case None => Anonymous
      case Some(token) =>
        match verify(token)
        case Err(_) => Failed(InvalidToken)
        case Ok(claims) =>
          if claims.uid.None? then Failed(InvalidToken)
          else
            var uid := claims.uid.value;
            match SplitName(claims.name.GetOr(""))
            case Err(_) => Failed(InvalidToken)
            case Ok(names) =>
              if uid in users then Authenticated(uid, users[uid], users)
              else
                var user := User(claims.email.GetOr(""), names.0, names.1);
                Authenticated(uid, user, users[uid := user])
  }

  /** A known uid signs in as the stored user, and nothing is created. */
  lemma KnownUserUnchanged(header: Option<string>, verify: string -> Result<Claims, string>, users: UserStore)
    requires AuthenticateIntended(header, verify, users).Authenticated?
    ensures var r := AuthenticateIntended(header, verify, users);
      r.username in users ==> r.users == users && r.user == users[r.username]
  {
  }

  /**
   * `authenticate` as written. The lookup goes through `django.contrib.auth.models.User`, but the
   * project's user model is `users.CustomUser`, which swaps `auth.User` out: `User.objects` raises
   * AttributeError before any lookup, and the handler reports it as an invalid token. So once a
   * token is present the request fails, whatever verification says and whoever is stored.
   */
  function Authenticate(header: Option<string>, verify: string -> Result<Claims, string>, users: UserStore): (r: AuthOutcome)
    ensures r == Anonymous <==> header.None? || BearerToken(header.value).None?
    ensures r != Anonymous ==> r == Failed(InvalidToken)
  {
    if header.None? || header.value == "" then Anonymous
    else
      match BearerToken(header.value)
      case None => Anonymous
      case Some(_) => Failed(InvalidToken)
  }

  /**
   * The code as written agrees with the intended one except where the intended one signs a user
   * in: there it fails, and no user is ever created.
   */
  lemma SwappedUserModelRejects(header: Option<string>, verify: string -> Result<Claims, string>, users: UserStore)
    ensures var intended := AuthenticateIntended(header, verify, users);
      Authenticate(header, verify, users) == if intended.Authenticated? then Failed(InvalidToken) else intended
  {
  }

  /** A verified token naming a new user: the intended code creates and signs in Ann Lee, the code as written refuses. */
  lemma VerifiedTokenRejected()
    ensures var verify := (t: string) => Ok(Claims(Some("u"), Some("ann@example.com"), Some("Ann Lee")));
      && AuthenticateIntended(Some("Bearer t"), verify, map[])
         == Authenticated("u", User("ann@example.com", "Ann", "Lee"), map["u" := User("ann@example.com", "Ann", "Lee")])
      && Authenticate(Some("Bearer t"), verify, map[]) == Failed(InvalidToken)
  {
    BearerT();
    AnnLeeSplits();
  }

  /** `Bearer t` carries the token `t`. */
  lemma BearerT()
    ensures BearerToken("Bearer t") == Some("t")
  {
    BearerTokenOf("Bearer", "t", "");
    assert "Bearer" + " " + "t" + "" == "Bearer t";
  }

  /** The name `Ann Lee` splits into `Ann` and `Lee`. */
  lemma AnnLeeSplits()
    ensures SplitName("Ann Lee") == Ok(("Ann", "Lee"))
  {
    var ws := ["Ann", "Lee"];
    assert IsWord(ws[0]) && IsWord(ws[1]);
    SplitNameOfWords(ws);
    assert JoinWith(ws, " ") == "Ann Lee";
    assert JoinWith(ws[1..], " ") == "Lee";
  }

  /** `authenticate_header`: the challenge sent with a 401. */
  function AuthenticateHeader(): (r: string)
    ensures r == "Bearer realm=\"api\""
    ensures BearerToken(r) == Some("realm=\"api\"")
  {
    var r := "Bearer realm=\"api\"";
    BearerTokenOf("Bearer", "realm=\"api\"", "");
    assert "Bearer" + " " + "realm=\"api\"" + "" == r;
    r
  }
}
