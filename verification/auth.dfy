/**
 * The Discord side of the gateway (src/middleware/auth.ts): the allow-list
 * configuration read from the environment, the accept/deny decision taken on
 * the profile Discord returns, the session codec, and the `requireAuth` and
 * `optionalAuth` guards. The request shape shared with the API-key guards
 * lives here too, as `AuthenticatedRequest` does in the source.
 */
module Auth {
  import opened Text

  // ---------------------------------------------------------------------------
  // users and requests

  /** A guild membership; Discord may leave out the roles. */
  datatype Guild = Guild(id: string, roles: Option<seq<string>>)

  /** The fields of the Discord profile that the verify callback reads. */
  datatype Profile = Profile(
    id: string,
    username: string,
    discriminator: string,
    avatar: Option<string>,
    email: Option<string>,
    guilds: Option<seq<Guild>>)

  /** The user record the verify callback builds and the session keeps. */
  datatype User = User(
    id: string,
    username: string,
    discriminator: string,
    avatar: Option<string>,
    email: Option<string>,
    guilds: seq<Guild>)

  /**
   * What `req.isAuthenticated` is on a request: absent when passport did not
   * install it, otherwise the function's answer.
   */
  datatype AuthCheck = Missing | Installed(authenticated: bool)

  /**
   * The parts of an Express request that the guards and handlers read.
   * `isAuthenticated` and `user` are kept independent on purpose: passport
   * answers `isAuthenticated()` from the presence of `req.user`, so an active
   * session without a user never arises, and allowing it only widens the set
   * of requests every contract here covers.
   */
  datatype Request = Request(
    path: string,
    isAuthenticated: AuthCheck,
    user: Option<User>,
    authorization: Option<string>)

  /**
   * The guarded session test `req.isAuthenticated && typeof req.isAuthenticated
   * === "function" && req.isAuthenticated()`.
   */
  predicate SessionActive(req: Request)
  {
    req.isAuthenticated.Installed? && req.isAuthenticated.authenticated
  }

  /** Why a guard answered 401. */
  datatype Rejection = AuthenticationRequired | ApiKeyRequired | InvalidApiKey | AuthOrApiKeyRequired

  /**
   * What a guard does with a request: call `next`, answer 401, or throw
   * (calling `req.isAuthenticated()` when it is not there).
   */
  datatype Outcome = Next | Reject(reason: Rejection) | Fault

  // ---------------------------------------------------------------------------
  // configuration

  const ClientIdVariable: string := "DISCORD_CLIENT_ID"
  const ClientSecretVariable: string := "DISCORD_CLIENT_SECRET"
  const AllowedUserIdsVariable: string := "ALLOWED_DISCORD_USER_IDS"
  const AllowedGuildRolesVariable: string := "ALLOWED_DISCORD_GUILD_ROLES"
  const DefaultCallbackUrl: string := "https://ai.fame.support/auth/discord/callback"

  /**
   * `value?.split(",").map((x) => x.trim()) || []`: an unset variable gives no
   * entries; a set one gives one trimmed entry per comma-separated piece, so a
   * set but empty variable gives `[""]`.
   */
  function ParseAllowList(value: Option<string>): (list: seq<string>)
    ensures value.None? ==> list == []
    ensures value.Some? ==> |list| == Count(value.value, ',') + 1
    ensures value.Some? ==> forall i :: 0 <= i < |list| ==> list[i] == Trim(Split(value.value, ',')[i])
    ensures forall i :: 0 <= i < |list| ==> ',' !in list[i] && Trimmed(list[i])
  {
    match value
    case None => []
    case Some(s) =>
      var pieces := Split(s, ',');
      var list := seq(|pieces|, i requires 0 <= i < |pieces| => Trim(pieces[i]));
      assert forall i :: 0 <= i < |list| ==> ',' !in list[i] by {
        forall i | 0 <= i < |list| ensures ',' !in list[i] {
          var k: nat :| TrimmedAt(pieces[i], list[i], k);
          assert list[i] == pieces[i][k..k + |list[i]|];
        }
      }
      list
  }

  /** A comma-joined list of trimmed, comma-free entries reads back as that list. */
  lemma ParseJoined(entries: seq<string>)
    requires |entries| >= 1
    requires forall i :: 0 <= i < |entries| ==> ',' !in entries[i] && Trimmed(entries[i])
    ensures ParseAllowList(Some(Join(entries, ','))) == entries
  {
    SplitJoin(entries, ',');
    forall i | 0 <= i < |entries| ensures Trim(entries[i]) == entries[i] {
      TrimTrimmed(entries[i]);
    }
  }

  /** The Discord settings read once, when the module loads. */
  datatype DiscordConfig = DiscordConfig(
    clientId: string,
    clientSecret: string,
    callbackUrl: string,
    allowedUserIds: seq<string>,
    allowedGuildRoles: seq<string>)

  function LoadDiscordConfig(env: Environment): (cfg: DiscordConfig)
    ensures cfg.clientId == EnvOr(env, ClientIdVariable, "")
    ensures cfg.clientSecret == EnvOr(env, ClientSecretVariable, "")
    ensures cfg.callbackUrl == EnvOr(env, "DISCORD_CALLBACK_URL", DefaultCallbackUrl)
    ensures cfg.allowedUserIds == ParseAllowList(Env(env, AllowedUserIdsVariable))
    ensures cfg.allowedGuildRoles == ParseAllowList(Env(env, AllowedGuildRolesVariable))
    ensures cfg.allowedUserIds == [] <==> AllowedUserIdsVariable !in env
    ensures cfg.allowedGuildRoles == [] <==> AllowedGuildRolesVariable !in env
    ensures cfg.callbackUrl != ""
  {
    DiscordConfig(
      EnvOr(env, ClientIdVariable, ""),
      EnvOr(env, ClientSecretVariable, ""),
      EnvOr(env, "DISCORD_CALLBACK_URL", DefaultCallbackUrl),
      ParseAllowList(Env(env, AllowedUserIdsVariable)),
      ParseAllowList(Env(env, AllowedGuildRolesVariable)))
  }

  /** The Discord strategy and the session hooks are registered only with both credentials set. */
  predicate StrategyEnabled(cfg: DiscordConfig)
  {
    cfg.clientId != "" && cfg.clientSecret != ""
  }

  /** Discord login is available exactly when both credential variables are set and non-empty. */
  lemma StrategyNeedsBothCredentials(env: Environment)
    ensures StrategyEnabled(LoadDiscordConfig(env)) <==>
              && ClientIdVariable in env && env[ClientIdVariable] != ""
              && ClientSecretVariable in env && env[ClientSecretVariable] != ""
  {
  }

  // ---------------------------------------------------------------------------
  // the verify callback

  /** The policy: each allow-list restricts only when it is non-empty. */
  predicate IdAllowed(allowedIds: seq<string>, id: string)
  {
    allowedIds == [] || id in allowedIds
  }

  /** A guild lists `role` among its roles; a guild without a roles array lists none. */
  predicate HasRole(g: Guild, role: string)
  {
    g.roles.Some? && role in g.roles.value
  }

  predicate RoleAllowed(allowedRoles: seq<string>, guilds: seq<Guild>)
  {
    allowedRoles == [] || exists g, r :: g in guilds && r in allowedRoles && HasRole(g, r)
  }

  /** `list.includes(x)` */
  function Includes(list: seq<string>, x: string): (b: bool)
    ensures b <==> x in list
  {
    if list == [] then false else list[0] == x || Includes(list[1..], x)
  }

  /** `allowedRoles.some((role) => guild.roles?.includes(role))` */
  function GuildHasAllowedRole(g: Guild, allowedRoles: seq<string>): (b: bool)
    ensures b <==> exists r :: r in allowedRoles && HasRole(g, r)
  {
    if allowedRoles == [] then false
    else
      var first := g.roles.Some? && Includes(g.roles.value, allowedRoles[0]);
      assert first <==> HasRole(g, allowedRoles[0]);
      assert forall r :: r in allowedRoles <==> r == allowedRoles[0] || r in allowedRoles[1..];
      first || GuildHasAllowedRole(g, allowedRoles[1..])
  }

  /** `guilds.some((guild) => allowedRoles.some(...))` */
  function SomeGuildHasAllowedRole(guilds: seq<Guild>, allowedRoles: seq<string>): (b: bool)
    ensures b <==> exists g, r :: g in guilds && r in allowedRoles && HasRole(g, r)
  {
    if guilds == [] then false
    else GuildHasAllowedRole(guilds[0], allowedRoles) || SomeGuildHasAllowedRole(guilds[1..], allowedRoles)
  }

  /** Why the verify callback refused a profile. */
  datatype Denial = UserNotAuthorized | MissingRequiredRole

  /** What the verify callback passes to `done`. */
  datatype Verdict = Accepted(user: User) | Denied(reason: Denial)

  /** The user record built from the profile; missing guilds become `[]`. */
  function ToUser(p: Profile): User
  {
    User(p.id, p.username, p.discriminator, p.avatar, p.email,
         if p.guilds.Some? then p.guilds.value else [])
  }

  /**
   * The verify callback: the id allow-list is checked first, then the role
   * allow-list; a profile passing both is accepted as the user built from it.
   */
  function Verify(p: Profile, allowedIds: seq<string>, allowedRoles: seq<string>): (v: Verdict)
    ensures v.Accepted? <==> IdAllowed(allowedIds, p.id) && RoleAllowed(allowedRoles, ToUser(p).guilds)
    ensures !IdAllowed(allowedIds, p.id) ==> v == Denied(UserNotAuthorized)
    ensures IdAllowed(allowedIds, p.id) && !RoleAllowed(allowedRoles, ToUser(p).guilds) ==>
              v == Denied(MissingRequiredRole)
    ensures v.Accepted? ==>
              && v.user.id == p.id && v.user.username == p.username
              && v.user.discriminator == p.discriminator && v.user.avatar == p.avatar
              && v.user.email == p.email
              && v.user.guilds == (if p.guilds.Some? then p.guilds.value else [])
  {
    var user := ToUser(p);
    if |allowedIds| > 0 && !Includes(allowedIds, user.id) then
      Denied(UserNotAuthorized)
    else if |allowedRoles| > 0 && !SomeGuildHasAllowedRole(user.guilds, allowedRoles) then
      Denied(MissingRequiredRole)
    else
      Accepted(user)
  }

  /** With both allow-lists empty every profile is accepted. */
  lemma OpenPolicyAcceptsAll(p: Profile)
    ensures Verify(p, [], []) == Accepted(ToUser(p))
  {
  }

  /** A profile without guilds, or whose guilds carry no roles, fails any non-empty role list. */
  lemma {:induction false} NoRolesFailsRoleList(p: Profile, allowedIds: seq<string>, allowedRoles: seq<string>)
    requires allowedRoles != []
    requires forall g :: g in ToUser(p).guilds ==> g.roles.None?
    ensures Verify(p, allowedIds, allowedRoles).Denied?
  {
    assert !RoleAllowed(allowedRoles, ToUser(p).guilds);
  }

  /** The empty-but-set id variable admits only a profile whose id is empty. */
  lemma EmptyIdVariableRestricts(p: Profile, allowedRoles: seq<string>)
    requires p.id != ""
    ensures Verify(p, ParseAllowList(Some("")), allowedRoles) == Denied(UserNotAuthorized)
  {
    assert Split("", ',') == [""];
    assert ParseAllowList(Some("")) == [""];
  }

  // ---------------------------------------------------------------------------
  // session codec and guards

  /** `passport.serializeUser`: the whole user record is what the session keeps. */
  function SerializeUser(u: User): User
  {
    u
  }

  /** `passport.deserializeUser`: the kept record is the request's user. */
  function DeserializeUser(stored: User): User
  {
    stored
  }

  lemma SessionRoundTrip(u: User)
    ensures DeserializeUser(SerializeUser(u)) == u
    ensures SerializeUser(DeserializeUser(u)) == u
  {
  }

  /** `requireAuth` calls `req.isAuthenticated()` without first checking that it exists. */
  function RequireAuth(req: Request): (o: Outcome)
    ensures o == Next <==> SessionActive(req)
    ensures o == Fault <==> req.isAuthenticated.Missing?
    ensures o != Next && o != Fault ==> o == Reject(AuthenticationRequired)
  {
    match req.isAuthenticated
    case Missing => Fault
    case Installed(authenticated) => if authenticated then Next else Reject(AuthenticationRequired)
  }

  /** `optionalAuth` lets every request through. */
  function OptionalAuth(req: Request): (o: Outcome)
    ensures o == Next
  {
    Next
  }
}
