/** `OmniauthCallbacksController`: one request's decision between linking an
    identity, signing in, redirecting with an error and redirecting with a
    notice, and the LDAP action beside it. Devise, Warden, ActiveRecord and
    the OAuth/LDAP user builders are collaborators: what they report is an
    input, what they are asked to do is recorded in the controller's state. */
module Callbacks {
  import opened RubyValues
  import opened Messages
  import opened Identities

  /** `request.env['omniauth.auth']`, as far as the controller reads it. */
  datatype AuthHash = AuthHash(uid: string, provider: string)

  /** What `Gitlab::OAuth::User.new(oauth)` followed by `save` reports:
      either it raised `SignupDisabledError`, or it produced `gl_user`
      with its `persisted?`, `valid?` and `errors`. */
  datatype OAuthResolution =
    | SignupDisabled
    | Resolved(user: UserId, persisted: bool, valid: bool, errors: seq<FieldError>)

  /** What `Gitlab::LDAP::User.new(oauth)` reports: its `gl_user`,
      `changed?` (before saving), `persisted?` (after) and `allowed?`. */
  datatype LdapResolution = LdapResolution(user: UserId, changed: bool, persisted: bool, allowed: bool)

  /** `params[:remember_me]`, which may be missing. */
  datatype Param = Missing | Given(value: string)

  datatype FlashKey = Notice | Alert

  datatype Path =
    | ProfileAccount                                 // profile_account_path
    | NewUserSession                                 // new_user_session_path
    | OmniauthErrorPage(provider: string, error: string)  // omniauth_error_path(provider, error: ...)

  /** The response of the action: none yet, `sign_in_and_redirect(user)`, or
      `redirect_to path`. */
  datatype Response = Pending | SignInAndRedirect(user: UserId) | RedirectTo(path: Path)

  /** Every field of the controller, as one value. */
  datatype Snapshot = Snapshot(
    requestAuth: AuthHash,
    oauthMemo: Option<AuthHash>,
    currentUser: Option<UserId>,
    identities: seq<Identity>,
    saved: seq<UserId>,
    rememberMe: map<UserId, Param>,
    flash: map<FlashKey, string>,
    response: Response)

  /** `@oauth ||= request.env['omniauth.auth']`: the memo once it is set. */
  function OAuthOf(s: Snapshot): (auth: AuthHash)
    ensures s.oauthMemo == Some(auth) || (s.oauthMemo.None? && auth == s.requestAuth)
  {
    if s.oauthMemo.Some? then s.oauthMemo.value else s.requestAuth
  }

  /** What `handle_omniauth` does to the controller. Whatever the branch, the
      action ends with a response, the `oauth` memo holds what was read, and
      the controller's own identity writes only ever add rows. */
  function AfterHandleOmniauth(s: Snapshot, resolution: OAuthResolution, signupEnabled: bool): (t: Snapshot)
    ensures t.response != Pending
    ensures t.requestAuth == s.requestAuth && t.oauthMemo == Some(OAuthOf(s))
    ensures s.identities <= t.identities
    ensures t.rememberMe == s.rememberMe
  {
    var auth := OAuthOf(s);
    var s := s.(oauthMemo := Some(auth));
    match s.currentUser
    case Some(user) =>
      s.(identities := FindOrCreate(s.identities, Identity(user, auth.uid, auth.provider)),
         flash := s.flash[Notice := IdentityUpdatedNotice],
         response := RedirectTo(ProfileAccount))
    case None =>
      match resolution
      case SignupDisabled =>
        s.(flash := s.flash[Notice := SignupDisabledNotice(auth.provider, signupEnabled)],
           response := RedirectTo(NewUserSession))
      case Resolved(user, persisted, valid, errors) =>
        var s := s.(saved := s.saved + [user]);
        if persisted && valid then
          s.(currentUser := Some(user), response := SignInAndRedirect(user))
        else
          s.(response := RedirectTo(OmniauthErrorPage(auth.provider, ErrorMessage(errors))))
  }

  /** What `ldap` does to the controller. It always ends with a response,
      makes no identity write of its own and leaves the `oauth` memo holding what
      was read. */
  function AfterLdap(s: Snapshot, ldapUser: LdapResolution, rememberMeParam: Param): (t: Snapshot)
    ensures t.response != Pending
    ensures t.requestAuth == s.requestAuth && t.oauthMemo == Some(OAuthOf(s))
    ensures t.identities == s.identities
  {
    var s := s.(oauthMemo := Some(OAuthOf(s)));
    var s := if ldapUser.changed then s.(saved := s.saved + [ldapUser.user]) else s;
    var s := if ldapUser.persisted then s.(rememberMe := s.rememberMe[ldapUser.user := rememberMeParam]) else s;
    if ldapUser.allowed then
      s.(currentUser := Some(ldapUser.user), response := SignInAndRedirect(ldapUser.user))
    else
      s.(flash := s.flash[Alert := LdapAccessDenied], response := RedirectTo(NewUserSession))
  }

  datatype ActionBody = RunsHandleOmniauth | OwnDefinition(name: string)

  /** One method definition made while the class body runs. */
  datatype Definition = Definition(name: string, body: ActionBody)

  /** The names the class body defines with `def` after the provider loop,
      in order: `failure_message`, `ldap`, `omniauth_error`, and the private
      `handle_omniauth` and `oauth`. */
  const LaterNames: seq<string> :=
    ["failure_message", "ldap", "omniauth_error", "handle_omniauth", "oauth"]

  /** The definitions the class body makes, in order: one `define_method`
      per configured provider name, each running `handle_omniauth`, then the
      class's own `def`s. */
  function ClassBody(providerNames: seq<string>): (defs: seq<Definition>)
    ensures |defs| == |providerNames| + |LaterNames|
  {
    seq(|providerNames|, i requires 0 <= i < |providerNames| => Definition(providerNames[i], RunsHandleOmniauth))
      + seq(|LaterNames|, i requires 0 <= i < |LaterNames| => Definition(LaterNames[i], OwnDefinition(LaterNames[i])))
  }

  /** The body a name ends up with: a later definition of a name replaces an
      earlier one, so the last definition under the name wins. */
  function Lookup(defs: seq<Definition>, name: string): (r: Option<ActionBody>)
    ensures r.None? <==> forall i :: 0 <= i < |defs| ==> defs[i].name != name
    ensures r.Some? ==> exists i :: 0 <= i < |defs| && defs[i] == Definition(name, r.value)
                                    && forall j :: i < j < |defs| ==> defs[j].name != name
  {
    if |defs| == 0 then None
    else if defs[|defs| - 1].name == name then Some(defs[|defs| - 1].body)
    else Lookup(defs[..|defs| - 1], name)
  }

  /** The body the class has under `name`, given the names of the configured
      providers (`Gitlab.config.omniauth.providers`); `None` when this class
      defines nothing under that name. */
  function ActionFor(providerNames: seq<string>, name: string): (r: Option<ActionBody>)
    ensures r.Some? <==> name in providerNames || name in LaterNames
  {
    ClassBodyDefines(providerNames, name);
    Lookup(ClassBody(providerNames), name)
  }

  /** The class body defines a name exactly when it is a provider name or
      one of the later `def`s. */
  lemma ClassBodyDefines(providerNames: seq<string>, name: string)
    ensures (exists i :: 0 <= i < |ClassBody(providerNames)| && ClassBody(providerNames)[i].name == name)
        <==> name in providerNames || name in LaterNames
  {
    var defs := ClassBody(providerNames);
    var n := |providerNames|;
    if name in providerNames {
      var i :| 0 <= i < n && providerNames[i] == name;
      assert defs[i].name == name;
    } else if name in LaterNames {
      var i :| 0 <= i < |LaterNames| && LaterNames[i] == name;
      assert defs[n + i].name == name;
    }
    forall i | 0 <= i < |defs| && defs[i].name == name
      ensures name in providerNames || name in LaterNames
    {
      if i < n {
        assert defs[i].name == providerNames[i];
      } else {
        assert defs[i].name == LaterNames[i - n];
      }
    }
  }

  class OmniauthCallbacksController {
    const requestAuth: AuthHash         // request.env['omniauth.auth']
    var oauthMemo: Option<AuthHash>     // @oauth
    var currentUser: Option<UserId>     // the Devise session
    var identities: seq<Identity>       // identity rows the controller itself finds or creates
    var saved: seq<UserId>              // users `save` was called on, in order
    var rememberMe: map<UserId, Param>  // `remember_me` assigned to a user object
    var flash: map<FlashKey, string>
    var response: Response

    function State(): Snapshot
      reads this
    {
      Snapshot(requestAuth, oauthMemo, currentUser, identities, saved, rememberMe, flash, response)
    }

    /** A fresh controller for one request. */
    constructor(auth: AuthHash, user: Option<UserId>, rows: seq<Identity>)
      ensures State() == Snapshot(auth, None, user, rows, [], map[], map[], Pending)
    {
      requestAuth := auth;
      oauthMemo := None;
      currentUser := user;
      identities := rows;
      saved := [];
      rememberMe := map[];
      flash := map[];
      response := Pending;
    }

    /** `oauth`: read the request's auth hash once, then answer from the memo. */
    method OAuth() returns (auth: AuthHash)
      modifies this`oauthMemo
      ensures auth == OAuthOf(old(State()))
      ensures oauthMemo == Some(auth)
    {
      if oauthMemo.None? {
        oauthMemo := Some(requestAuth);
      }
      auth := oauthMemo.value;
    }

    /** `sign_in_and_redirect(user)`. */
    method SignInAndRedirectTo(user: UserId)
      modifies this`currentUser, this`response
      ensures currentUser == Some(user) && response == SignInAndRedirect(user)
    {
      currentUser := Some(user);
      response := SignInAndRedirect(user);
    }

    /** `handle_omniauth`, run by every provider action that no later `def`
        replaces, with its
        `SignupDisabledError` rescue. */
    method HandleOmniauth(resolution: OAuthResolution, signupEnabled: bool)
      modifies this
      ensures State() == AfterHandleOmniauth(old(State()), resolution, signupEnabled)
      ensures NoDuplicates(old(identities)) ==> NoDuplicates(identities)
    {
      if currentUser.Some? {
        var auth := OAuth();
        var key := Identity(currentUser.value, auth.uid, auth.provider);
        identities := FindOrCreate(identities, key);
        flash := flash[Notice := IdentityUpdatedNotice];
        response := RedirectTo(ProfileAccount);
      } else {
        var auth := OAuth();
        match resolution
        case SignupDisabled =>
          var provider := auth.provider;
          var message := SignupDisabledSentence(provider);
          if signupEnabled {
            message := message + CreateAccountSentence(provider);
          }
          flash := flash[Notice := message];
          response := RedirectTo(NewUserSession);
        case Resolved(user, persisted, valid, errors) =>
          saved := saved + [user];
          if persisted && valid {
            SignInAndRedirectTo(user);
          } else {
            var errorMessage := if |errors| > 0 then Join(Descriptions(errors), ErrorSeparator) else "";
            auth := OAuth();
            response := RedirectTo(OmniauthErrorPage(auth.provider, errorMessage));
          }
      }
    }

    /** `ldap`: reached only after LDAP authentication succeeded. */
    method Ldap(ldapUser: LdapResolution, rememberMeParam: Param)
      modifies this
      ensures State() == AfterLdap(old(State()), ldapUser, rememberMeParam)
    {
      var _ := OAuth();
      if ldapUser.changed {
        saved := saved + [ldapUser.user];
      }
      if ldapUser.persisted {
        rememberMe := rememberMe[ldapUser.user := rememberMeParam];
      }
      if ldapUser.allowed {
        SignInAndRedirectTo(ldapUser.user);
      } else {
        flash := flash[Alert := LdapAccessDenied];
        response := RedirectTo(NewUserSession);
      }
    }
  }
}
