/**
 Turning a browser session into an `auth.json`: the field lookups with their
 fallbacks, the compatibility id token that is synthesised when the session has
 none, and what a second import of the result does.
 */
module SessionImport {
  import opened Options
  import opened Json
  import opened Base64Url

  /** JSON text; the program relies on parsing being the inverse of printing. */
  datatype JsonText = JsonText(serialize: Json -> seq<u8>, parse: seq<u8> -> Option<Json>)

  /** The two readings of the wall clock. */
  datatype Clock = Clock(seconds: int, rfc3339: string)

  const AUTH := "https://api.openai.com/auth"
  const PROFILE := "https://api.openai.com/profile"

  function Aliases(key: string): seq<string> {
    match key
    case "id_token" => ["id_token", "idToken"]
    case "access_token" => ["access_token", "accessToken"]
    case "refresh_token" => ["refresh_token", "refreshToken"]
    case "account_id" => ["account_id", "accountId", "chatgpt_account_id"]
    case "last_refresh" => ["last_refresh", "lastRefresh"]
    case "expired" => ["expired", "expires"]
    case "plan_type" => ["plan_type", "planType"]
    case "chatgpt_plan_type" => ["chatgpt_plan_type", "chatgptPlanType"]
    case _ => [key]
  }

  /** Where an alias is looked for: at the top, then under `tokens`, then under `user`. */
  function Anywhere(auth: Object, alias: string): Option<Json> {
    OrElse(Field(auth, alias), OrElse(GetOpt(Field(auth, "tokens"), alias), GetOpt(Field(auth, "user"), alias)))
  }

  function FindAlias(auth: Object, aliases: seq<string>): Option<Json>
    decreases aliases
  {
    if aliases == [] then None else OrElse(Anywhere(auth, aliases[0]), FindAlias(auth, aliases[1..]))
  }

  /** The first alias present anywhere decides, even if what it holds is not a usable string. */
  function AuthString(auth: Object, key: string): (r: Option<string>)
    ensures r.Some? ==> r.value != ""
  {
    NonEmpty(AsStr(FindAlias(auth, Aliases(key))))
  }

  lemma {:induction false} AliasDecides(auth: Object, aliases: seq<string>, n: nat)
    requires n <= |aliases| && (forall i :: 0 <= i < n ==> Anywhere(auth, aliases[i]) == None)
    requires n < |aliases| ==> Anywhere(auth, aliases[n]).Some?
    ensures FindAlias(auth, aliases) == if n < |aliases| then Anywhere(auth, aliases[n]) else None
  {
    if n > 0 {
      AliasDecides(auth, aliases[1..], n - 1);
    }
  }

  /**
   The first alias that occurs anywhere decides, and no later one is consulted even if
   what it holds is not a usable string; without any alias there is no value.
   */
  lemma FirstAliasDecides(auth: Object, key: string, n: nat)
    requires n <= |Aliases(key)| && (forall i :: 0 <= i < n ==> Anywhere(auth, Aliases(key)[i]) == None)
    requires n < |Aliases(key)| ==> Anywhere(auth, Aliases(key)[n]).Some?
    ensures AuthString(auth, key)
            == if n < |Aliases(key)| then NonEmpty(AsStr(Anywhere(auth, Aliases(key)[n]))) else None
  {
    hide Aliases;
    AliasDecides(auth, Aliases(key), n);
  }

  // ----- tokens -----

  function Before(s: string, c: char): (r: string) {
    if s == [] || s[0] == c then [] else [s[0]] + Before(s[1..], c)
  }

  function After(s: string, c: char): (r: Option<string>) {
    if s == [] then None else if s[0] == c then Some(s[1..]) else After(s[1..], c)
  }

  /** The payload of a three-part token: the text between the first two dots. */
  function Payload(token: string, text: JsonText): Json {
    match After(token, '.')
    case None => Null
    case Some(rest) =>
      match Decode(Before(rest, '.'))
      case None => Null
      case Some(bytes) =>
        match text.parse(bytes)
        case None => Null
        case Some(v) => v
  }

  function PayloadOpt(token: Option<string>, text: JsonText): Json {
    if token.Some? then Payload(token.value, text) else Null
  }

  function OrEmpty(s: Option<string>): string {
    if s.Some? then s.value else ""
  }

  function Ascii(s: string): seq<u8> {
    seq(|s|, i requires 0 <= i < |s| => if s[i] < '\U{80}' then s[i] as nat else 63)
  }

  function CompatPayload(now: int, account: Option<string>, user: Option<string>, organization: Option<string>,
                         project: Option<string>, email: Option<string>, plan: string): Json
  {
    var accountId := OrEmpty(account);
    var userId := if user.Some? then user.value else accountId;
    Obj(map[
      "aud" := Arr([Str("app_EMoamEEZ73f0CkXaXp7hrann")]),
      "email" := Str(OrEmpty(email)),
      "exp" := Num(now + 3600),
      "iat" := Num(now),
      "iss" := Str("https://auth.openai.com"),
      AUTH := Obj(map[
        "account_id" := Str(accountId),
        "chatgpt_account_id" := Str(accountId),
        "chatgpt_user_id" := Str(userId),
        "user_id" := Str(userId),
        "organization_id" := Str(OrEmpty(organization)),
        "project_id" := Str(OrEmpty(project)),
        "chatgpt_plan_type" := Str(plan)]),
      "sub" := Str(if userId == "" then "local-compat" else userId)])
  }

  function CompatToken(payload: Json, text: JsonText): string {
    Encode(Ascii("{\"alg\":\"RS256\",\"typ\":\"JWT\",\"kid\":\"compat\"}")) + "."
    + Encode(text.serialize(payload)) + "." + Encode(Ascii("local_compat_signature"))
  }

  // ----- the import -----

  /** What is read off a session before the file is written. */
  datatype Profile = Profile(
    access: Option<string>, idToken: Option<string>, refresh: Option<string>, account: Option<string>,
    lastRefresh: string, kind: string, email: Option<string>, expired: Option<string>,
    plan: string, sessionToken: Option<string>)

  function ClaimedAccount(access: Option<string>, idToken: Option<string>, text: JsonText): (r: Option<string>)
    ensures r.Some? ==> r.value != "" && Trim(r.value) == r.value
  {
    OrElse(FirstStringIn(ObjectAt(PayloadOpt(idToken, text), [AUTH]), ["chatgpt_account_id", "account_id"]),
           FirstStringIn(ObjectAt(PayloadOpt(access, text), [AUTH]), ["chatgpt_account_id", "account_id"]))
  }

  function ClaimedEmail(access: Option<string>, idToken: Option<string>, text: JsonText): (r: Option<string>)
    ensures r.Some? ==> r.value != "" && Trim(r.value) == r.value
  {
    OrElse(FirstStringIn(ObjectAt(PayloadOpt(access, text), [PROFILE]), ["email"]),
           StringAt(PayloadOpt(idToken, text), ["email"]))
  }

  function Account(session: Object, text: JsonText): Option<string> {
    OrElse(FirstString(Obj(session), [["account_id"], ["accountId"], ["chatgpt_account_id"], ["account", "id"]]),
           ClaimedAccount(AuthString(session, "access_token"), AuthString(session, "id_token"), text))
  }

  function Email(session: Object, text: JsonText): Option<string> {
    OrElse(FirstString(Obj(session), [["email"], ["account_claims_email"], ["user", "email"]]),
           ClaimedEmail(AuthString(session, "access_token"), AuthString(session, "id_token"), text))
  }

  /** A claim looked up in the session, then in the id token, then in the access token. */
  function Claim(session: Object, text: JsonText, paths: seq<seq<string>>, keys: seq<string>): (r: Option<string>)
    ensures r.Some? ==> r.value != "" && Trim(r.value) == r.value
  {
    OrElse(FirstString(Obj(session), paths),
    OrElse(FirstStringIn(ObjectAt(PayloadOpt(AuthString(session, "id_token"), text), [AUTH]), keys),
           FirstStringIn(ObjectAt(PayloadOpt(AuthString(session, "access_token"), text), [AUTH]), keys)))
  }

  function Plan(session: Object, text: JsonText): (plan: string)
    ensures plan != ""
  {
    var access := PayloadOpt(AuthString(session, "access_token"), text);
    var found :=
      OrElse(AuthString(session, "plan_type"),
      OrElse(AuthString(session, "chatgpt_plan_type"),
      OrElse(FirstString(Obj(session), [["account", "planType"], ["account", "plan_type"]]),
             FirstStringIn(ObjectAt(access, [AUTH]), ["chatgpt_plan_type"]))));
    if found.Some? then found.value else "free"
  }

  function SessionToken(session: Object): Option<string> {
    FirstString(Obj(session), [["session_token"], ["sessionToken"]])
  }

  function IdToken(session: Object, clock: Clock, text: JsonText): Option<string> {
    OrElse(AuthString(session, "id_token"),
      if AuthString(session, "access_token").None? then None
      else
        Some(CompatToken(
          CompatPayload(
            clock.seconds,
            Account(session, text),
            Claim(session, text, [["chatgpt_user_id"], ["chatgptUserId"], ["user", "id"]],
                  ["chatgpt_user_id", "user_id"]),
            Claim(session, text, [["organization_id"], ["organizationId"]], ["organization_id"]),
            Claim(session, text, [["project_id"], ["projectId"], ["workspace_id"], ["workspaceId"]], ["project_id"]),
            Email(session, text),
            Plan(session, text)),
          text)))
  }

  function Read(session: Object, clock: Clock, text: JsonText): Profile {
    var lastRefresh := AuthString(session, "last_refresh");
    var kind := AuthString(session, "type");
    Profile(
      AuthString(session, "access_token"),
      IdToken(session, clock, text),
      OrElse(AuthString(session, "refresh_token"), SessionToken(session)),
      Account(session, text),
      if lastRefresh.Some? then lastRefresh.value else clock.rfc3339,
      if kind.Some? then kind.value else "codex",
      Email(session, text),
      AuthString(session, "expired"),
      Plan(session, text),
      SessionToken(session))
  }

  // ----- where everything is looked for, key by key -----

  /** The usable string in a field. */
  function In(o: Object, key: string): Option<string> {
    Trimmed(Field(o, key))
  }

  /** The usable string in a field of the object in another field. */
  function Under(o: Object, outer: string, key: string): Option<string> {
    Trimmed(GetOpt(Field(o, outer), key))
  }

  /** The usable string in a field of one of the two objects of claims in a token. */
  function Claimed(token: Option<string>, about: string, key: string, text: JsonText): Option<string> {
    Trimmed(GetOpt(Get(PayloadOpt(token, text), "https://api.openai.com/" + about), key))
  }

  lemma {:induction false} StringAtPath(o: Object, outer: string, key: string)
    ensures StringAt(Obj(o), [key]) == In(o, key)
    ensures StringAt(Obj(o), [outer, key]) == Under(o, outer, key)
  {
    assert [key][1..] == [] && [outer, key][1..] == [key];
    var next := Field(o, outer);
    if next.Some? {
      assert At(next.value, [key]) == Get(next.value, key) by {
        var v := Get(next.value, key);
        assert v.Some? ==> At(v.value, []) == v;
      }
    }
    if Field(o, key).Some? {
      assert At(Field(o, key).value, []) == Field(o, key);
    }
  }

  lemma {:induction false} StringOfClaims(v: Json, about: string, key: string, others: seq<string>)
    ensures FirstStringIn(ObjectAt(v, [about]), [key] + others)
            == OrElse(Trimmed(GetOpt(Get(v, about), key)), FirstStringIn(ObjectAt(v, [about]), others))
    ensures FirstStringIn(ObjectAt(v, [about]), []) == None
  {
    assert ([key] + others)[1..] == others && [about][1..] == [];
    var found := Get(v, about);
    assert found.Some? ==> At(found.value, []) == found;
  }

  /**
   Each token and label is looked for under two spellings: first the one and then the
   other, each at the top, then under `tokens`, then under `user`.
   */
  lemma SpellingsInOrder(auth: Object, key: string, other: string)
    requires (key, other)
             in [("id_token", "idToken"), ("access_token", "accessToken"), ("refresh_token", "refreshToken"),
                 ("last_refresh", "lastRefresh"), ("expired", "expires"), ("plan_type", "planType"),
                 ("chatgpt_plan_type", "chatgptPlanType"), ("type", "type")]
    ensures AuthString(auth, key)
            == NonEmpty(AsStr(
                 OrElse(Field(auth, key),
                 OrElse(GetOpt(Field(auth, "tokens"), key),
                 OrElse(GetOpt(Field(auth, "user"), key),
                 OrElse(Field(auth, other),
                 OrElse(GetOpt(Field(auth, "tokens"), other),
                        GetOpt(Field(auth, "user"), other))))))))
  {
    TwoAliases(auth, key, other);
    assert [key][1..] == [] && [other][1..] == [];
  }

  /** Where the account id comes from. */
  lemma AccountInOrder(session: Object, text: JsonText)
    ensures var (id, access) := (AuthString(session, "id_token"), AuthString(session, "access_token"));
      Account(session, text)
      == OrElse(In(session, "account_id"),
         OrElse(In(session, "accountId"),
         OrElse(In(session, "chatgpt_account_id"),
         OrElse(Under(session, "account", "id"),
         OrElse(Claimed(id, "auth", "chatgpt_account_id", text),
         OrElse(Claimed(id, "auth", "account_id", text),
         OrElse(Claimed(access, "auth", "chatgpt_account_id", text),
                Claimed(access, "auth", "account_id", text))))))))
  {
    hide AuthString, Trimmed, StringAt, FirstString, FirstStringIn, ObjectAt, PayloadOpt;
    var v := Obj(session);
    StringAtPath(session, "", "account_id");
    StringAtPath(session, "", "accountId");
    StringAtPath(session, "", "chatgpt_account_id");
    StringAtPath(session, "account", "id");
    FourPaths(v, ["account_id"], ["accountId"], ["chatgpt_account_id"], ["account", "id"]);
    ThreePaths(v, ["accountId"], ["chatgpt_account_id"], ["account", "id"]);
    TwoPaths(v, ["chatgpt_account_id"], ["account", "id"]);
    TwoClaims(AuthString(session, "id_token"), text, "chatgpt_account_id", "account_id");
    TwoClaims(AuthString(session, "access_token"), text, "chatgpt_account_id", "account_id");
  }

  lemma TwoClaims(token: Option<string>, text: JsonText, first: string, second: string)
    ensures FirstStringIn(ObjectAt(PayloadOpt(token, text), [AUTH]), [first, second])
            == OrElse(Claimed(token, "auth", first, text), Claimed(token, "auth", second, text))
    ensures FirstStringIn(ObjectAt(PayloadOpt(token, text), [AUTH]), [first]) == Claimed(token, "auth", first, text)
  {
    hide Trimmed, PayloadOpt, ObjectAt, FirstStringIn;
    var v := PayloadOpt(token, text);
    assert "https://api.openai.com/" + "auth" == AUTH;
    StringOfClaims(v, AUTH, first, [second]);
    StringOfClaims(v, AUTH, first, []);
    StringOfClaims(v, AUTH, second, []);
    assert [first] + [second] == [first, second] && [first] + [] == [first] && [second] + [] == [second];
  }

  /** Where the e-mail address comes from. */
  lemma EmailInOrder(session: Object, text: JsonText)
    ensures var (id, access) := (AuthString(session, "id_token"), AuthString(session, "access_token"));
      Email(session, text)
      == OrElse(In(session, "email"),
         OrElse(In(session, "account_claims_email"),
         OrElse(Under(session, "user", "email"),
         OrElse(Claimed(access, "profile", "email", text),
                Trimmed(Get(PayloadOpt(id, text), "email"))))))
  {
    hide AuthString, Trimmed, StringAt, FirstString, FirstStringIn, ObjectAt, PayloadOpt;
    var v := Obj(session);
    StringAtPath(session, "", "email");
    StringAtPath(session, "", "account_claims_email");
    StringAtPath(session, "user", "email");
    ThreePaths(v, ["email"], ["account_claims_email"], ["user", "email"]);
    TwoPaths(v, ["account_claims_email"], ["user", "email"]);
    var access, id := PayloadOpt(AuthString(session, "access_token"), text),
                      PayloadOpt(AuthString(session, "id_token"), text);
    assert "https://api.openai.com/" + "profile" == PROFILE;
    StringOfClaims(access, PROFILE, "email", []);
    assert ["email"] + [] == ["email"];
    StringAtKey(id, "email");
  }

  lemma StringAtKey(v: Json, key: string)
    ensures StringAt(v, [key]) == Trimmed(Get(v, key))
  {
    assert [key][1..] == [];
    var found := Get(v, key);
    assert found.Some? ==> At(found.value, []) == found;
  }

  /** Where the plan comes from, and what it is if nothing names it. */
  lemma PlanInOrder(session: Object, text: JsonText)
    ensures var access := AuthString(session, "access_token");
      Some(Plan(session, text))
      == OrElse(AuthString(session, "plan_type"),
         OrElse(AuthString(session, "chatgpt_plan_type"),
         OrElse(Under(session, "account", "planType"),
         OrElse(Under(session, "account", "plan_type"),
         OrElse(Claimed(access, "auth", "chatgpt_plan_type", text),
                Some("free"))))))
  {
    hide AuthString, Trimmed, StringAt, FirstString, FirstStringIn, ObjectAt, PayloadOpt;
    StringAtPath(session, "account", "planType");
    StringAtPath(session, "account", "plan_type");
    TwoPaths(Obj(session), ["account", "planType"], ["account", "plan_type"]);
    TwoClaims(AuthString(session, "access_token"), text, "chatgpt_plan_type", "");
  }

  /** What a first import reads off any session. */
  lemma ReadInOrder(session: Object, clock: Clock, text: JsonText)
    ensures var p := Read(session, clock, text);
      && p.access == AuthString(session, "access_token")
      && (AuthString(session, "id_token").Some? ==> p.idToken == AuthString(session, "id_token"))
      && (p.idToken.Some? <==> AuthString(session, "id_token").Some? || AuthString(session, "access_token").Some?)
      && p.refresh == OrElse(AuthString(session, "refresh_token"),
                      OrElse(In(session, "session_token"), In(session, "sessionToken")))
      && p.sessionToken == OrElse(In(session, "session_token"), In(session, "sessionToken"))
      && p.account == Account(session, text) && p.email == Email(session, text) && p.plan == Plan(session, text)
      && p.expired == AuthString(session, "expired")
      && Some(p.lastRefresh) == OrElse(AuthString(session, "last_refresh"), Some(clock.rfc3339))
      && Some(p.kind) == OrElse(AuthString(session, "type"), Some("codex"))
  {
    hide AuthString, Trimmed, StringAt, FirstString, Account, Email, Plan, CompatPayload, CompatToken, Claim;
    StringAtPath(session, "", "session_token");
    StringAtPath(session, "", "sessionToken");
    TwoPaths(Obj(session), ["session_token"], ["sessionToken"]);
  }

  /** The object written for a profile, field by field. */
  lemma WrittenObject(p: Profile)
    ensures var o := Write(p);
      && Field(o, "auth_mode") == Some(Str("chatgpt")) && Field(o, "OPENAI_API_KEY") == Some(Null)
      && Field(o, "websockets") == Some(Bool(true))
      && Field(o, "last_refresh") == Some(Str(p.lastRefresh)) && Field(o, "type") == Some(Str(p.kind))
      && Field(o, "plan_type") == Field(o, "chatgpt_plan_type") == Some(Str(p.plan))
      && Field(o, "tokens").Some? && Field(o, "tokens").value.Obj?
      && var tokens := Field(o, "tokens").value.fields;
      && AsStr(Field(tokens, "access_token")) == p.access && AsStr(Field(tokens, "id_token")) == p.idToken
      && AsStr(Field(tokens, "refresh_token")) == p.refresh && AsStr(Field(tokens, "account_id")) == p.account
      && AsStr(Field(o, "email")) == p.email && AsStr(Field(o, "expired")) == p.expired
      && AsStr(Field(o, "session_token")) == p.sessionToken
  {
    hide Tokens, Write;
    WrittenFields(p);
    WrittenConstants(p);
    TokensField(p, "access_token");
    TokensField(p, "id_token");
    TokensField(p, "refresh_token");
    TokensField(p, "account_id");
  }

  lemma WrittenConstants(p: Profile)
    ensures var o := Write(p);
      && Field(o, "auth_mode") == Some(Str("chatgpt")) && Field(o, "OPENAI_API_KEY") == Some(Null)
      && Field(o, "websockets") == Some(Bool(true)) && Field(o, "chatgpt_plan_type") == Some(Str(p.plan))
  {
    hide Tokens;
  }

  function Put(o: Object, key: string, value: Option<string>): Object {
    if value.Some? then o[key := Str(value.value)] else o
  }

  function Tokens(p: Profile): Object {
    Put(Put(Put(Put(map[], "access_token", p.access), "id_token", p.idToken),
            "refresh_token", p.refresh), "account_id", p.account)
  }

  function Write(p: Profile): Object {
    var base := map[
      "auth_mode" := Str("chatgpt"),
      "OPENAI_API_KEY" := Null,
      "tokens" := Obj(Tokens(p)),
      "last_refresh" := Str(p.lastRefresh),
      "type" := Str(p.kind),
      "websockets" := Bool(true),
      "plan_type" := Str(p.plan),
      "chatgpt_plan_type" := Str(p.plan)];
    Put(Put(Put(base, "email", p.email), "expired", p.expired), "session_token", p.sessionToken)
  }

  datatype ImportError = EmptySession | NoToken

  function Build(session: Object, clock: Clock, text: JsonText): Result<Object, ImportError> {
    if session == map[] then Err(EmptySession)
    else
      var p := Read(session, clock, text);
      if p.access.None? && p.idToken.None? && p.refresh.None? then Err(NoToken)
      else Ok(Write(p))
  }

  // ----- reading the written file back -----

  lemma TokensField(p: Profile, key: string)
    ensures Field(Tokens(p), key)
            == if key == "access_token" && p.access.Some? then Some(Str(p.access.value))
               else if key == "id_token" && p.idToken.Some? then Some(Str(p.idToken.value))
               else if key == "refresh_token" && p.refresh.Some? then Some(Str(p.refresh.value))
               else if key == "account_id" && p.account.Some? then Some(Str(p.account.value))
               else None
  {
  }

  lemma WrittenFields(p: Profile)
    ensures var o := Write(p);
      && Field(o, "tokens") == Some(Obj(Tokens(p)))
      && Field(o, "user") == None && Field(o, "account") == None
      && Field(o, "last_refresh") == Some(Str(p.lastRefresh))
      && Field(o, "type") == Some(Str(p.kind))
      && Field(o, "plan_type") == Some(Str(p.plan))
      && (p.email.Some? ==> Field(o, "email") == Some(Str(p.email.value)))
      && (p.email.None? ==> Field(o, "email") == None)
      && (p.expired.Some? ==> Field(o, "expired") == Some(Str(p.expired.value)))
      && (p.expired.None? ==> Field(o, "expired") == None)
      && (p.sessionToken.Some? ==> Field(o, "session_token") == Some(Str(p.sessionToken.value)))
      && (p.sessionToken.None? ==> Field(o, "session_token") == None)
  {
  }

  lemma AbsentFields(p: Profile, key: string)
    requires key in ["access_token", "accessToken", "id_token", "idToken", "refresh_token", "refreshToken",
                     "account_id", "accountId", "chatgpt_account_id", "expires", "sessionToken",
                     "account_claims_email"]
    ensures Field(Write(p), key) == None
  {
  }

  /** A profile as `Read` produces it. */
  ghost predicate Sound(p: Profile, text: JsonText) {
    && p.access != Some("") && p.idToken != Some("") && p.refresh != Some("") && p.expired != Some("")
    && p.lastRefresh != "" && p.kind != "" && p.plan != ""
    && (p.account.Some? ==> p.account.value != "" && Trim(p.account.value) == p.account.value)
    && (p.email.Some? ==> p.email.value != "" && Trim(p.email.value) == p.email.value)
    && (p.sessionToken.Some? ==> p.sessionToken.value != "" && Trim(p.sessionToken.value) == p.sessionToken.value)
    && (p.access.Some? ==> p.idToken.Some?)
    && (p.sessionToken.Some? ==> p.refresh.Some?)
    && (p.email.None? ==> ClaimedEmail(p.access, p.idToken, text).None?)
  }

  lemma AliasOfWritten(p: Profile, alias: string)
    requires Field(Write(p), alias) == None
    ensures FindAlias(Write(p), [alias]) == Field(Tokens(p), alias)
  {
    WrittenFields(p);
    assert FindAlias(Write(p), []) == None;
  }

  lemma TwoAliases(auth: Object, first: string, second: string)
    ensures FindAlias(auth, [first, second]) == OrElse(FindAlias(auth, [first]), FindAlias(auth, [second]))
  {
    assert [first, second][1..] == [second] && [first][1..] == [];
  }

  lemma TokenString(p: Profile, key: string, camel: string)
    requires (key, camel)
             in [("access_token", "accessToken"), ("id_token", "idToken"), ("refresh_token", "refreshToken")]
    ensures AuthString(Write(p), key) == NonEmpty(AsStr(Field(Tokens(p), key)))
  {
    hide Write, Tokens;
    AbsentFields(p, key);
    AliasOfWritten(p, key);
    AbsentFields(p, camel);
    AliasOfWritten(p, camel);
    TokensField(p, camel);
    TwoAliases(Write(p), key, camel);
  }

  lemma TokenStrings(p: Profile, text: JsonText)
    requires Sound(p, text)
    ensures AuthString(Write(p), "access_token") == p.access
    ensures AuthString(Write(p), "id_token") == p.idToken
    ensures AuthString(Write(p), "refresh_token") == p.refresh
  {
    TokenString(p, "access_token", "accessToken");
    TokenString(p, "id_token", "idToken");
    TokenString(p, "refresh_token", "refreshToken");
    TokensField(p, "access_token");
    TokensField(p, "id_token");
    TokensField(p, "refresh_token");
  }

  lemma OtherString(p: Profile, key: string, camel: string)
    requires (key, camel) in [("last_refresh", "lastRefresh"), ("plan_type", "planType")]
    ensures AuthString(Write(p), key) == NonEmpty(AsStr(Field(Write(p), key)))
  {
    hide Write, Tokens;
    WrittenFields(p);
    TwoAliases(Write(p), key, camel);
    DirectAlias(Write(p), key);
  }

  /** A field at the top level is found at once. */
  lemma DirectAlias(auth: Object, alias: string)
    ensures Field(auth, alias).Some? ==> FindAlias(auth, [alias]) == Field(auth, alias)
  {
  }

  lemma TypeString(p: Profile)
    ensures AuthString(Write(p), "type") == NonEmpty(Some(p.kind))
  {
    hide Write, Tokens;
    WrittenFields(p);
    DirectAlias(Write(p), "type");
  }

  lemma ExpiredString(p: Profile)
    ensures AuthString(Write(p), "expired") == NonEmpty(p.expired)
  {
    hide Write, Tokens, FindAlias;
    var o := Write(p);
    WrittenFields(p);
    TwoAliases(o, "expired", "expires");
    AbsentFields(p, "expires");
    AliasOfWritten(p, "expires");
    TokensField(p, "expires");
    if p.expired.Some? {
      DirectAlias(o, "expired");
    } else {
      AliasOfWritten(p, "expired");
      TokensField(p, "expired");
    }
  }

  lemma OtherStrings(p: Profile, text: JsonText)
    requires Sound(p, text)
    ensures AuthString(Write(p), "last_refresh") == Some(p.lastRefresh)
    ensures AuthString(Write(p), "type") == Some(p.kind)
    ensures AuthString(Write(p), "plan_type") == Some(p.plan)
    ensures AuthString(Write(p), "expired") == p.expired
  {
    hide Write, AuthString;
    WrittenFields(p);
    OtherString(p, "last_refresh", "lastRefresh");
    OtherString(p, "plan_type", "planType");
    TypeString(p);
    ExpiredString(p);
  }

  lemma StringAtField(o: Object, key: string)
    ensures StringAt(Obj(o), [key]) == Trimmed(Field(o, key))
    ensures Field(o, key) == None ==> forall key2 :: StringAt(Obj(o), [key, key2]) == None
  {
    assert [key][1..] == [];
    if Field(o, key).Some? {
      assert At(Field(o, key).value, []) == Field(o, key);
    }
    forall key2 | Field(o, key) == None ensures StringAt(Obj(o), [key, key2]) == None {
      assert [key, key2][1..] == [key2];
    }
  }

  lemma OnePath(v: Json, a: seq<string>)
    ensures FirstString(v, [a]) == StringAt(v, a)
  {
    assert [a][1..] == [] && FirstString(v, []) == None;
  }

  lemma TwoPaths(v: Json, a: seq<string>, b: seq<string>)
    ensures FirstString(v, [a, b]) == OrElse(StringAt(v, a), StringAt(v, b))
  {
    OnePath(v, b);
    assert [a, b][1..] == [b];
  }

  lemma ThreePaths(v: Json, a: seq<string>, b: seq<string>, c: seq<string>)
    ensures FirstString(v, [a, b, c]) == OrElse(StringAt(v, a), FirstString(v, [b, c]))
  {
    assert [a, b, c][1..] == [b, c];
  }

  lemma FourPaths(v: Json, a: seq<string>, b: seq<string>, c: seq<string>, d: seq<string>)
    ensures FirstString(v, [a, b, c, d]) == OrElse(StringAt(v, a), FirstString(v, [b, c, d]))
  {
    assert [a, b, c, d][1..] == [b, c, d];
  }

  lemma NoAccountWritten(p: Profile)
    ensures FirstString(Obj(Write(p)), [["account_id"], ["accountId"], ["chatgpt_account_id"], ["account", "id"]])
            == None
  {
    hide Write, StringAt, FirstString;
    var o := Write(p);
    WrittenFields(p);
    AbsentFields(p, "account_id");
    AbsentFields(p, "accountId");
    AbsentFields(p, "chatgpt_account_id");
    StringAtField(o, "account_id");
    StringAtField(o, "accountId");
    StringAtField(o, "chatgpt_account_id");
    StringAtField(o, "account");
    TwoPaths(Obj(o), ["chatgpt_account_id"], ["account", "id"]);
    ThreePaths(Obj(o), ["accountId"], ["chatgpt_account_id"], ["account", "id"]);
    FourPaths(Obj(o), ["account_id"], ["accountId"], ["chatgpt_account_id"], ["account", "id"]);
  }

  lemma EmailWritten(p: Profile, text: JsonText)
    requires Sound(p, text)
    ensures FirstString(Obj(Write(p)), [["email"], ["account_claims_email"], ["user", "email"]]) == p.email
  {
    hide Write, StringAt, FirstString;
    var o := Write(p);
    WrittenFields(p);
    AbsentFields(p, "account_claims_email");
    StringAtField(o, "email");
    StringAtField(o, "account_claims_email");
    StringAtField(o, "user");
    TwoPaths(Obj(o), ["account_claims_email"], ["user", "email"]);
    ThreePaths(Obj(o), ["email"], ["account_claims_email"], ["user", "email"]);
  }

  lemma SessionTokenWritten(p: Profile, text: JsonText)
    requires Sound(p, text)
    ensures SessionToken(Write(p)) == p.sessionToken
  {
    hide Write, StringAt, FirstString;
    var o := Write(p);
    WrittenFields(p);
    AbsentFields(p, "sessionToken");
    StringAtField(o, "session_token");
    StringAtField(o, "sessionToken");
    TwoPaths(Obj(o), ["session_token"], ["sessionToken"]);
  }

  /** A second import reads everything back except an account id that no token claims. */
  lemma ReadWritten(p: Profile, clock: Clock, text: JsonText)
    requires Sound(p, text)
    requires p.access.Some? || p.idToken.Some? || p.refresh.Some?
    ensures Read(Write(p), clock, text) == p.(account := ClaimedAccount(p.access, p.idToken, text))
  {
    hide Write, FindAlias, FirstString, ClaimedEmail, ClaimedAccount;
    TokenStrings(p, text);
    OtherStrings(p, text);
    NoAccountWritten(p);
    EmailWritten(p, text);
    SessionTokenWritten(p, text);
  }

  // ----- the compatibility token -----

  lemma {:induction false} SplitAtDot(head: string, tail: string)
    requires forall i :: 0 <= i < |head| ==> head[i] != '.'
    ensures Before(head + "." + tail, '.') == head && After(head + "." + tail, '.') == Some(tail)
  {
    if head == [] {
      assert head + "." + tail == "." + tail;
    } else {
      SplitAtDot(head[1..], tail);
      assert (head + "." + tail)[1..] == head[1..] + "." + tail;
    }
  }

  /** The claims of any token: its second part, decoded and parsed. What follows a further dot is ignored. */
  lemma PayloadIsSecondPart(head: string, body: string, rest: string, text: JsonText)
    requires forall i :: 0 <= i < |head| ==> head[i] != '.'
    requires forall i :: 0 <= i < |body| ==> body[i] != '.'
    ensures Payload(head + "." + body + "." + rest, text) == Payload(head + "." + body, text)
    ensures Payload(head + "." + body, text)
            == if Decode(body).Some? && text.parse(Decode(body).value).Some? then text.parse(Decode(body).value).value
               else Null
    ensures Payload(head, text) == Null
  {
    hide Decode, Before, After;
    SplitAtDot(head, body + "." + rest);
    SplitAtDot(head, body);
    SplitAtDot(body, rest);
    NoDotInside(head);
    NoDotInside(body);
    assert head + "." + body + "." + rest == head + "." + (body + "." + rest);
  }

  lemma {:induction false} NoDotInside(s: string)
    requires forall i :: 0 <= i < |s| ==> s[i] != '.'
    ensures Before(s, '.') == s && After(s, '.') == None
  {
    if s != [] {
      NoDotInside(s[1..]);
    }
  }

  /** The synthesised token decodes to exactly the payload it was built from. */
  lemma CompatTokenDecodes(payload: Json, text: JsonText)
    requires text.parse(text.serialize(payload)) == Some(payload)
    ensures Payload(CompatToken(payload, text), text) == payload
    ensures CompatToken(payload, text) != ""
  {
    var head := Encode(Ascii("{\"alg\":\"RS256\",\"typ\":\"JWT\",\"kid\":\"compat\"}"));
    var body, sig := Encode(text.serialize(payload)), Encode(Ascii("local_compat_signature"));
    hide Encode, Decode, Ascii, Before, After;
    NoDot(Ascii("{\"alg\":\"RS256\",\"typ\":\"JWT\",\"kid\":\"compat\"}"));
    NoDot(text.serialize(payload));
    SplitAtDot(head, body + "." + sig);
    SplitAtDot(body, sig);
    assert CompatToken(payload, text) == head + "." + (body + "." + sig);
    assert body + "." + sig == body + ("." + sig);
    RoundTrip(text.serialize(payload));
  }

  lemma NoDot(bytes: seq<u8>)
    ensures forall i :: 0 <= i < |Encode(bytes)| ==> Encode(bytes)[i] != '.'
  {
  }

  // ----- importing twice -----

  ghost predicate Faithful(text: JsonText) {
    forall v :: text.parse(text.serialize(v)) == Some(v)
  }

  /** The id token is synthesised exactly when there is an access token to go with it. */
  predicate Synthesised(session: Object) {
    AuthString(session, "access_token").Some? && AuthString(session, "id_token").None?
  }

  /** A session without any token is refused. */
  predicate HasToken(session: Object) {
    || AuthString(session, "access_token").Some?
    || AuthString(session, "id_token").Some?
    || AuthString(session, "refresh_token").Some?
    || SessionToken(session).Some?
  }

  lemma SynthesisedClaims(session: Object, clock: Clock, text: JsonText)
    requires Faithful(text) && Synthesised(session)
    ensures var p := Read(session, clock, text);
      && p.idToken.Some? && p.idToken.value != ""
      && ClaimedAccount(p.access, p.idToken, text) == p.account
      && (p.email.None? ==> ClaimedEmail(p.access, p.idToken, text) == None)
  {
    hide AuthString, FirstString, Plan, Claim, CompatToken, Payload, SessionToken;
    var user := Claim(session, text, [["chatgpt_user_id"], ["chatgptUserId"], ["user", "id"]],
                      ["chatgpt_user_id", "user_id"]);
    var organization := Claim(session, text, [["organization_id"], ["organizationId"]], ["organization_id"]);
    var project := Claim(session, text, [["project_id"], ["projectId"], ["workspace_id"], ["workspaceId"]],
                         ["project_id"]);
    var account, email := Account(session, text), Email(session, text);
    var payload := CompatPayload(clock.seconds, account, user, organization, project, email, Plan(session, text));
    CompatTokenDecodes(payload, text);
    var p := Read(session, clock, text);
    assert p.idToken == Some(CompatToken(payload, text));
    CompatClaims(clock.seconds, account, user, organization, project, email, Plan(session, text));
    hide CompatPayload;
  }

  ghost predicate IsTrimmed(s: Option<string>) {
    s.Some? ==> s.value != "" && Trim(s.value) == s.value
  }

  lemma TrimmedField(o: Object, key: string, value: Option<string>)
    requires IsTrimmed(value) && Field(o, key) == Some(Str(OrEmpty(value)))
    ensures Trimmed(Field(o, key)) == value
  {
    assert Trim("") == "";
  }

  lemma FirstOfTwo(o: Object, first: string, second: string)
    ensures FirstStringIn(Some(o), [first]) == Trimmed(Field(o, first))
    ensures FirstStringIn(Some(o), [first, second]) == OrElse(Trimmed(Field(o, first)), Trimmed(Field(o, second)))
  {
    assert [first, second][1..] == [second] && [first][1..] == [] && [second][1..] == [];
  }

  lemma PayloadFields(now: int, account: Option<string>, user: Option<string>, organization: Option<string>,
                      project: Option<string>, email: Option<string>, plan: string)
    ensures var payload := CompatPayload(now, account, user, organization, project, email, plan);
      && payload.Obj? && Field(payload.fields, "email") == Some(Str(OrEmpty(email)))
      && AUTH in payload.fields && payload.fields[AUTH].Obj?
      && var auth := payload.fields[AUTH].fields;
      && Field(auth, "chatgpt_account_id") == Field(auth, "account_id") == Some(Str(OrEmpty(account)))
      && Field(auth, "chatgpt_user_id") == Field(auth, "user_id") == Some(Str(OrEmpty(OrElse(user, account))))
      && Field(auth, "organization_id") == Some(Str(OrEmpty(organization)))
      && Field(auth, "project_id") == Some(Str(OrEmpty(project)))
  {
  }

  lemma AuthObject(o: Object)
    requires AUTH in o && o[AUTH].Obj?
    ensures ObjectAt(Obj(o), [AUTH]) == Some(o[AUTH].fields)
  {
    assert [AUTH][1..] == [] && At(o[AUTH], []) == Some(o[AUTH]);
  }

  /** The claims of a synthesised payload are the values it was made from. */
  lemma CompatClaims(now: int, account: Option<string>, user: Option<string>, organization: Option<string>,
                     project: Option<string>, email: Option<string>, plan: string)
    requires IsTrimmed(account) && IsTrimmed(user) && IsTrimmed(organization)
    requires IsTrimmed(project) && IsTrimmed(email)
    ensures var payload := CompatPayload(now, account, user, organization, project, email, plan);
            var auth := ObjectAt(payload, [AUTH]);
      && FirstStringIn(auth, ["chatgpt_account_id", "account_id"]) == account
      && FirstStringIn(auth, ["chatgpt_user_id", "user_id"]) == OrElse(user, account)
      && FirstStringIn(auth, ["organization_id"]) == organization
      && FirstStringIn(auth, ["project_id"]) == project
      && StringAt(payload, ["email"]) == email
  {
    hide CompatPayload, FirstStringIn, ObjectAt, StringAt, Trim, OrEmpty;
    var payload := CompatPayload(now, account, user, organization, project, email, plan);
    PayloadFields(now, account, user, organization, project, email, plan);
    StringAtField(payload.fields, "email");
    TrimmedField(payload.fields, "email", email);
    AuthObject(payload.fields);
    CompatAuth(payload.fields[AUTH].fields, account, user, organization, project);
  }

  lemma CompatAuth(auth: Object, account: Option<string>, user: Option<string>, organization: Option<string>,
                   project: Option<string>)
    requires IsTrimmed(account) && IsTrimmed(user) && IsTrimmed(organization) && IsTrimmed(project)
    requires Field(auth, "chatgpt_account_id") == Field(auth, "account_id") == Some(Str(OrEmpty(account)))
    requires Field(auth, "chatgpt_user_id") == Field(auth, "user_id") == Some(Str(OrEmpty(OrElse(user, account))))
    requires Field(auth, "organization_id") == Some(Str(OrEmpty(organization)))
    requires Field(auth, "project_id") == Some(Str(OrEmpty(project)))
    ensures FirstStringIn(Some(auth), ["chatgpt_account_id", "account_id"]) == account
    ensures FirstStringIn(Some(auth), ["chatgpt_user_id", "user_id"]) == OrElse(user, account)
    ensures FirstStringIn(Some(auth), ["organization_id"]) == organization
    ensures FirstStringIn(Some(auth), ["project_id"]) == project
  {
    hide FirstStringIn, Trimmed;
    FirstOfTwo(auth, "chatgpt_account_id", "account_id");
    FirstOfTwo(auth, "chatgpt_user_id", "user_id");
    FirstOfTwo(auth, "organization_id", "");
    FirstOfTwo(auth, "project_id", "");
    TrimmedField(auth, "chatgpt_account_id", account);
    TrimmedField(auth, "chatgpt_user_id", OrElse(user, account));
    TrimmedField(auth, "organization_id", organization);
    TrimmedField(auth, "project_id", project);
  }

  /** The claims a synthesised id token makes about the user, the organization and the project. */
  lemma SynthesisedInOrder(session: Object, clock: Clock, text: JsonText)
    requires Faithful(text) && Synthesised(session)
    ensures var (p, access) := (Read(session, clock, text), AuthString(session, "access_token"));
            var user := OrElse(In(session, "chatgpt_user_id"),
                        OrElse(In(session, "chatgptUserId"),
                        OrElse(Under(session, "user", "id"),
                        OrElse(Claimed(access, "auth", "chatgpt_user_id", text),
                               Claimed(access, "auth", "user_id", text)))));
            var organization := OrElse(In(session, "organization_id"),
                                OrElse(In(session, "organizationId"),
                                       Claimed(access, "auth", "organization_id", text)));
            var project := OrElse(In(session, "project_id"),
                           OrElse(In(session, "projectId"),
                           OrElse(In(session, "workspace_id"),
                           OrElse(In(session, "workspaceId"),
                                  Claimed(access, "auth", "project_id", text)))));
      && var (userId, claims) := (OrElse(user, Account(session, text)), PayloadOpt(p.idToken, text));
      && Claimed(p.idToken, "auth", "chatgpt_user_id", text) == Claimed(p.idToken, "auth", "user_id", text) == userId
      && Claimed(p.idToken, "auth", "organization_id", text) == organization
      && Claimed(p.idToken, "auth", "project_id", text) == project
      && Claimed(p.idToken, "auth", "chatgpt_account_id", text) == Account(session, text)
      && AsStr(Get(claims, "email")) == OrElse(Email(session, text), Some(""))
      && Get(claims, "iat") == Some(Num(clock.seconds))
      && Get(claims, "exp") == Some(Num(clock.seconds + 3600))
      && Get(claims, "iss") == Some(Str("https://auth.openai.com"))
      && AsStr(Get(claims, "sub")) == OrElse(userId, Some("local-compat"))
  {
    hide AuthString, FirstString, FirstStringIn, ObjectAt, Trimmed, Plan, CompatToken, CompatPayload, Payload, StringAt,
         In, Under, Account, Email, SessionToken, Claim, OrEmpty;
    var user := Claim(session, text, [["chatgpt_user_id"], ["chatgptUserId"], ["user", "id"]],
                      ["chatgpt_user_id", "user_id"]);
    var organization := Claim(session, text, [["organization_id"], ["organizationId"]], ["organization_id"]);
    var project := Claim(session, text, [["project_id"], ["projectId"], ["workspace_id"], ["workspaceId"]],
                         ["project_id"]);
    ClaimsInOrder(session, text);
    var account, email := Account(session, text), Email(session, text);
    var payload := CompatPayload(clock.seconds, account, user, organization, project, email, Plan(session, text));
    CompatTokenDecodes(payload, text);
    var p := Read(session, clock, text);
    assert p.idToken == Some(CompatToken(payload, text));
    IdentityIsTrimmed(session, text);
    PayloadFields(clock.seconds, account, user, organization, project, email, Plan(session, text));
    PayloadConstants(clock.seconds, account, user, organization, project, email, Plan(session, text));
    var auth := payload.fields[AUTH].fields;
    assert "https://api.openai.com/" + "auth" == AUTH && Get(payload, AUTH) == Some(Obj(auth));
    TrimmedField(auth, "chatgpt_user_id", OrElse(user, account));
    TrimmedField(auth, "user_id", OrElse(user, account));
    TrimmedField(auth, "organization_id", organization);
    TrimmedField(auth, "project_id", project);
    TrimmedField(auth, "chatgpt_account_id", account);
  }

  lemma IdentityIsTrimmed(session: Object, text: JsonText)
    ensures IsTrimmed(Account(session, text))
    ensures Some(OrEmpty(Email(session, text))) == OrElse(Email(session, text), Some(""))
  {
  }

  lemma PayloadConstants(now: int, account: Option<string>, user: Option<string>, organization: Option<string>,
                         project: Option<string>, email: Option<string>, plan: string)
    requires account != Some("") && user != Some("")
    ensures var payload := CompatPayload(now, account, user, organization, project, email, plan);
      && Get(payload, "iat") == Some(Num(now)) && Get(payload, "exp") == Some(Num(now + 3600))
      && Get(payload, "iss") == Some(Str("https://auth.openai.com"))
      && AsStr(Get(payload, "sub")) == OrElse(OrElse(user, account), Some("local-compat"))
  {
  }

  /** Where the claims about the user, the organization and the project come from. */
  lemma ClaimsInOrder(session: Object, text: JsonText)
    requires AuthString(session, "id_token") == None
    ensures var access := AuthString(session, "access_token");
      && Claim(session, text, [["chatgpt_user_id"], ["chatgptUserId"], ["user", "id"]], ["chatgpt_user_id", "user_id"])
         == OrElse(In(session, "chatgpt_user_id"),
            OrElse(In(session, "chatgptUserId"),
            OrElse(Under(session, "user", "id"),
            OrElse(Claimed(access, "auth", "chatgpt_user_id", text),
                   Claimed(access, "auth", "user_id", text)))))
      && Claim(session, text, [["organization_id"], ["organizationId"]], ["organization_id"])
         == OrElse(In(session, "organization_id"),
            OrElse(In(session, "organizationId"),
                   Claimed(access, "auth", "organization_id", text)))
      && Claim(session, text, [["project_id"], ["projectId"], ["workspace_id"], ["workspaceId"]], ["project_id"])
         == OrElse(In(session, "project_id"),
            OrElse(In(session, "projectId"),
            OrElse(In(session, "workspace_id"),
            OrElse(In(session, "workspaceId"),
                   Claimed(access, "auth", "project_id", text)))))
  {
    hide AuthString, Trimmed, StringAt, FirstString, FirstStringIn, ObjectAt, PayloadOpt, Claimed, In, Under;
    var v, access := Obj(session), AuthString(session, "access_token");
    StringAtPath(session, "", "chatgpt_user_id");
    StringAtPath(session, "", "chatgptUserId");
    StringAtPath(session, "user", "id");
    ThreePaths(v, ["chatgpt_user_id"], ["chatgptUserId"], ["user", "id"]);
    TwoPaths(v, ["chatgptUserId"], ["user", "id"]);
    StringAtPath(session, "", "organization_id");
    StringAtPath(session, "", "organizationId");
    TwoPaths(v, ["organization_id"], ["organizationId"]);
    StringAtPath(session, "", "project_id");
    StringAtPath(session, "", "projectId");
    StringAtPath(session, "", "workspace_id");
    StringAtPath(session, "", "workspaceId");
    FourPaths(v, ["project_id"], ["projectId"], ["workspace_id"], ["workspaceId"]);
    ThreePaths(v, ["projectId"], ["workspace_id"], ["workspaceId"]);
    TwoPaths(v, ["workspace_id"], ["workspaceId"]);
    TwoClaims(access, text, "chatgpt_user_id", "user_id");
    TwoClaims(access, text, "organization_id", "");
    TwoClaims(access, text, "project_id", "");
    NoClaims(text, ["chatgpt_user_id", "user_id"]);
    NoClaims(text, ["organization_id"]);
    NoClaims(text, ["project_id"]);
  }

  lemma NoClaims(text: JsonText, keys: seq<string>)
    ensures FirstStringIn(ObjectAt(PayloadOpt(None, text), [AUTH]), keys) == None
  {
    assert At(Null, [AUTH]) == None;
  }

  lemma ReadIsSound(session: Object, clock: Clock, text: JsonText)
    requires Faithful(text) && clock.rfc3339 != ""
    ensures Sound(Read(session, clock, text), text)
  {
    hide AuthString, FirstString, ClaimedEmail, ClaimedAccount, CompatPayload, CompatToken, Claim;
    if Synthesised(session) {
      SynthesisedClaims(session, clock, text);
    }
  }

  lemma WriteIsInjectiveInAccount(p: Profile, account: Option<string>)
    ensures Write(p.(account := account)) == Write(p) <==> account == p.account
  {
    hide Write, Tokens;
    var q := p.(account := account);
    if Write(q) == Write(p) {
      WrittenFields(p);
      WrittenFields(q);
      TokensField(p, "account_id");
      TokensField(q, "account_id");
    }
  }

  lemma BuildWritten(p: Profile, clock: Clock, text: JsonText)
    requires Sound(p, text) && (p.access.Some? || p.idToken.Some? || p.refresh.Some?)
    ensures Build(Write(p), clock, text) == Ok(Write(p.(account := ClaimedAccount(p.access, p.idToken, text))))
  {
    hide Read, ClaimedAccount, Sound, Tokens;
    ReadWritten(p, clock, text);
    assert "auth_mode" in Write(p);
    hide Write;
  }

  /** An import succeeds exactly when the session holds a token. */
  lemma TokensAreRead(session: Object, clock: Clock, text: JsonText)
    ensures Build(session, clock, text).Ok? <==> HasToken(session)
  {
    if session == map[] {
      TwoAliases(session, "access_token", "accessToken");
      TwoAliases(session, "id_token", "idToken");
      TwoAliases(session, "refresh_token", "refreshToken");
    }
  }

  /**
   Importing the result of an import changes nothing if and only if the id token was
   synthesised or the account id is the one the session's own tokens claim. In
   particular every session with an access token and no id token is stable.
   */
  lemma ImportTwice(session: Object, first: Clock, second: Clock, text: JsonText)
    requires Faithful(text) && first.rfc3339 != ""
    requires HasToken(session)
    ensures var built := Build(session, first, text);
      built.Ok?
      && (Build(built.value, second, text) == built
      <==> Synthesised(session)
           || Account(session, text)
              == ClaimedAccount(AuthString(session, "access_token"), AuthString(session, "id_token"), text))
  {
    hide Write, ClaimedAccount, Account, AuthString, HasToken, SessionToken, CompatToken, CompatPayload, Plan, Email;
    TokensAreRead(session, first, text);
    var p := Read(session, first, text);
    ReadIsSound(session, first, text);
    BuildWritten(p, second, text);
    WriteIsInjectiveInAccount(p, ClaimedAccount(p.access, p.idToken, text));
    if Synthesised(session) {
      SynthesisedClaims(session, first, text);
    }
  }

  /** Whatever was lost is lost at once: the second import is always a fixed point. */
  lemma ImportThrice(session: Object, first: Clock, second: Clock, third: Clock, text: JsonText)
    requires Faithful(text) && first.rfc3339 != "" && second.rfc3339 != ""
    requires HasToken(session)
    ensures var built := Build(session, first, text);
      && built.Ok? && Build(built.value, second, text).Ok?
      && Build(Build(built.value, second, text).value, third, text) == Build(built.value, second, text)
  {
    TokensAreRead(session, first, text);
    var p := Read(session, first, text);
    ReadIsSound(session, first, text);
    BuildWritten(p, second, text);
    BuildWritten(p.(account := ClaimedAccount(p.access, p.idToken, text)), third, text);
    hide Write, Read;
  }

  lemma LossySession(session: Object, text: JsonText)
    requires session == map["account_id" := Str("a"), "refresh_token" := Str("r")]
    ensures AuthString(session, "access_token") == None && AuthString(session, "id_token") == None
    ensures AuthString(session, "refresh_token") == Some("r")
    ensures Account(session, text) == Some("a")
  {
    hide Account;
    TwoAliases(session, "access_token", "accessToken");
    TwoAliases(session, "id_token", "idToken");
    TwoAliases(session, "refresh_token", "refreshToken");
    assert Account(session, text) == Some("a") by {
      LossyAccount(session, text);
    }
  }

  lemma LossyAccount(session: Object, text: JsonText)
    requires Field(session, "account_id") == Some(Str("a"))
    ensures Account(session, text) == Some("a")
  {
    hide AuthString, ClaimedAccount, StringAt;
    StringAtField(session, "account_id");
    assert Trim("a") == "a";
  }

  /** A session holding only an account id and a refresh token loses the account id on re-import. */
  lemma AccountCanBeLost(clock: Clock, text: JsonText)
    requires clock.rfc3339 != "" && Faithful(text)
    ensures var session: Object := map["account_id" := Str("a"), "refresh_token" := Str("r")];
      && Build(session, clock, text).Ok?
      && Build(Build(session, clock, text).value, clock, text) != Build(session, clock, text)
  {
    hide AuthString, Account, Write;
    var session: Object := map["account_id" := Str("a"), "refresh_token" := Str("r")];
    LossySession(session, text);
    assert "account_id" in session;
    ImportTwice(session, clock, clock, text);
    assert PayloadOpt(None, text) == Null && At(Null, [AUTH]) == None;
  }
}
