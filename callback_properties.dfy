/** What one run of `handle_omniauth` or `ldap` promises, stated about the
    functions that the controller's methods are proved to implement. */
module CallbackProperties {
  import opened RubyValues
  import opened Messages
  import opened Identities
  import opened Callbacks

  /** Looking a name up in two lists of definitions made one after the
      other: the later list wins whenever it defines the name. */
  lemma {:induction false} LookupAppend(first: seq<Definition>, second: seq<Definition>, name: string)
    ensures Lookup(first + second, name)
         == if Lookup(second, name).Some? then Lookup(second, name) else Lookup(first, name)
    decreases |second|
  {
    if |second| > 0 {
      var all := first + second;
      assert all[|all| - 1] == second[|second| - 1];
      assert all[..|all| - 1] == first + second[..|second| - 1];
      LookupAppend(first, second[..|second| - 1], name);
    } else {
      assert first + second == first;
    }
  }

  /** Every configured provider gets an action running `handle_omniauth`,
      unless one of the class's later `def`s has the same name; and only
      configured providers do. `ldap` always keeps its own body. */
  lemma ProviderActionsRunHandleOmniauth(providerNames: seq<string>, name: string)
    ensures ActionFor(providerNames, name) == Some(RunsHandleOmniauth)
        <==> name in providerNames && name !in LaterNames
    ensures name in LaterNames ==> ActionFor(providerNames, name) == Some(OwnDefinition(name))
    ensures ActionFor(providerNames, "ldap") == Some(OwnDefinition("ldap"))
  {
    var defs := ClassBody(providerNames);
    var early := seq(|providerNames|, i requires 0 <= i < |providerNames| => Definition(providerNames[i], RunsHandleOmniauth));
    var late := seq(|LaterNames|, i requires 0 <= i < |LaterNames| => Definition(LaterNames[i], OwnDefinition(LaterNames[i])));
    assert defs == early + late;
    LookupAppend(early, late, name);
    LookupAppend(early, late, "ldap");
    assert late[1].name == "ldap";
    if name in providerNames {
      var i :| 0 <= i < |providerNames| && providerNames[i] == name;
      assert early[i].name == name;
    }
    if name in LaterNames {
      var i :| 0 <= i < |LaterNames| && LaterNames[i] == name;
      assert late[i].name == name;
    }
  }

  /** `oauth` reads the request once: afterwards the memo answers, whatever
      the request holds, and every action leaves the memo set to what it read. */
  lemma OAuthIsMemoised(s: Snapshot, other: AuthHash, resolution: OAuthResolution, signupEnabled: bool,
                        ldapUser: LdapResolution, rememberMeParam: Param)
    ensures s.oauthMemo.None? ==> OAuthOf(s) == s.requestAuth
    ensures s.oauthMemo.Some? ==> OAuthOf(s.(requestAuth := other)) == OAuthOf(s)
    ensures AfterHandleOmniauth(s, resolution, signupEnabled).oauthMemo == Some(OAuthOf(s))
    ensures AfterLdap(s, ldapUser, rememberMeParam).oauthMemo == Some(OAuthOf(s))
  {
  }

  /** With a signed-in user the only lasting change is the find-or-create of
      the `(uid, provider)` identity on that user: nothing is saved, nobody
      is signed in, the OAuth user builder is not consulted, and the response
      is the profile account page with the "updated" notice. */
  lemma LinkingOnlyAddsIdentity(s: Snapshot, resolution: OAuthResolution, signupEnabled: bool,
                                otherResolution: OAuthResolution, otherSignupEnabled: bool)
    requires s.currentUser.Some?
    ensures var t := AfterHandleOmniauth(s, resolution, signupEnabled);
            var key := Identity(s.currentUser.value, OAuthOf(s).uid, OAuthOf(s).provider);
            && key in t.identities
            && s.identities <= t.identities
            && (key in s.identities ==> t.identities == s.identities)
            && (key !in s.identities ==> t.identities == s.identities + [key])
            && t.currentUser == s.currentUser
            && t.saved == s.saved
            && t.rememberMe == s.rememberMe
            && t.response == RedirectTo(ProfileAccount)
            && Notice in t.flash && t.flash[Notice] == IdentityUpdatedNotice
            && (Alert in t.flash <==> Alert in s.flash)
            && (Alert in s.flash ==> t.flash[Alert] == s.flash[Alert])
    ensures AfterHandleOmniauth(s, resolution, signupEnabled)
         == AfterHandleOmniauth(s, otherResolution, otherSignupEnabled)
  {
  }

  /** Linking twice adds no second row: the identities after two runs are
      those after one, and on a duplicate-free table the link is there once. */
  lemma RepeatedLinkAddsNoDuplicate(s: Snapshot, r1: OAuthResolution, e1: bool, r2: OAuthResolution, e2: bool)
    requires s.currentUser.Some?
    ensures var once := AfterHandleOmniauth(s, r1, e1);
            var twice := AfterHandleOmniauth(once, r2, e2);
            var key := Identity(s.currentUser.value, OAuthOf(s).uid, OAuthOf(s).provider);
            && twice.identities == once.identities
            && (NoDuplicates(s.identities) ==> Count(twice.identities, key) == 1)
  {
    var key := Identity(s.currentUser.value, OAuthOf(s).uid, OAuthOf(s).provider);
    FindOrCreateIdempotent(s.identities, key);
  }

  /** `handle_omniauth` never creates a duplicate identity row. */
  lemma HandleOmniauthKeepsNoDuplicates(s: Snapshot, resolution: OAuthResolution, signupEnabled: bool)
    requires NoDuplicates(s.identities)
    ensures NoDuplicates(AfterHandleOmniauth(s, resolution, signupEnabled).identities)
  {
  }

  /** With nobody signed in, the saved user is signed in if and only if it is
      both persisted and valid; the controller itself writes no identity row
      either way. */
  lemma SignInIffPersistedAndValid(s: Snapshot, resolution: OAuthResolution, signupEnabled: bool)
    requires s.currentUser.None?
    ensures var t := AfterHandleOmniauth(s, resolution, signupEnabled);
            var ok := resolution.Resolved? && resolution.persisted && resolution.valid;
            && (t.response.SignInAndRedirect? <==> ok)
            && (t.currentUser.Some? <==> ok)
            && (ok ==> t.currentUser == Some(resolution.user) && t.response == SignInAndRedirect(resolution.user))
            && t.identities == s.identities
            && t.response != Pending
  {
  }

  /** A saved user that is not both persisted and valid sends the browser to
      the OmniAuth error page with the provider and the joined field errors,
      and signs nobody in. */
  lemma FailedSaveRedirectsToErrorPage(s: Snapshot, resolution: OAuthResolution, signupEnabled: bool)
    requires s.currentUser.None?
    requires resolution.Resolved? && !(resolution.persisted && resolution.valid)
    ensures var t := AfterHandleOmniauth(s, resolution, signupEnabled);
            && t.response == RedirectTo(OmniauthErrorPage(OAuthOf(s).provider, ErrorMessage(resolution.errors)))
            && t.currentUser.None?
            && t.flash == s.flash
            && t.saved == s.saved + [resolution.user]
    ensures var t := AfterHandleOmniauth(s, resolution, signupEnabled);
            resolution.errors == [] <==> t.response.path.error == ""
  {
  }

  /** `SignupDisabledError` ends in a notice, not an error: the notice names
      the provider, carries the "create an account first" sentence exactly
      when signup is enabled, and the browser goes to the sign-in page;
      nobody is signed in and nothing is saved or linked. */
  lemma SignupDisabledGivesNotice(s: Snapshot, signupEnabled: bool)
    requires s.currentUser.None?
    ensures var t := AfterHandleOmniauth(s, SignupDisabled, signupEnabled);
            var provider := OAuthOf(s).provider;
            var h := |SignupDisabledHead|;
            && t.response == RedirectTo(NewUserSession)
            && Notice in t.flash
            && t.flash[Notice] == SignupDisabledNotice(provider, signupEnabled)
            && h + |provider| <= |t.flash[Notice]| && t.flash[Notice][h..h + |provider|] == provider
            && (signupEnabled <==> t.flash[Notice] != SignupDisabledSentence(provider))
            && (Alert in t.flash <==> Alert in s.flash)
            && (Alert in s.flash ==> t.flash[Alert] == s.flash[Alert])
            && t.currentUser.None?
            && t.saved == s.saved
            && t.identities == s.identities
  {
  }

  /** `ldap` saves the user only when it changed. */
  lemma LdapSavesOnlyWhenChanged(s: Snapshot, ldapUser: LdapResolution, rememberMeParam: Param)
    ensures var t := AfterLdap(s, ldapUser, rememberMeParam);
            && (ldapUser.changed ==> t.saved == s.saved + [ldapUser.user])
            && (!ldapUser.changed ==> t.saved == s.saved)
            && t.identities == s.identities
  {
  }

  /** `ldap` copies `params[:remember_me]` onto the user only when the user
      is persisted, and onto no other user. */
  lemma LdapRememberMeOnlyWhenPersisted(s: Snapshot, ldapUser: LdapResolution, rememberMeParam: Param)
    ensures var t := AfterLdap(s, ldapUser, rememberMeParam);
            && (ldapUser.persisted ==> ldapUser.user in t.rememberMe && t.rememberMe[ldapUser.user] == rememberMeParam)
            && (!ldapUser.persisted ==> t.rememberMe == s.rememberMe)
            && (forall u :: u != ldapUser.user ==>
                  (u in t.rememberMe <==> u in s.rememberMe) &&
                  (u in s.rememberMe ==> t.rememberMe[u] == s.rememberMe[u]))
  {
  }

  /** `ldap` signs the user in if and only if it is allowed; otherwise the
      alert is exactly the access-denied sentence and the browser goes to the
      sign-in page. */
  lemma LdapSignInIffAllowed(s: Snapshot, ldapUser: LdapResolution, rememberMeParam: Param)
    ensures var t := AfterLdap(s, ldapUser, rememberMeParam);
            && (t.response == SignInAndRedirect(ldapUser.user) <==> ldapUser.allowed)
            && (ldapUser.allowed ==> t.currentUser == Some(ldapUser.user) && t.flash == s.flash)
            && (!ldapUser.allowed ==>
                  && t.currentUser == s.currentUser
                  && t.response == RedirectTo(NewUserSession)
                  && Alert in t.flash && t.flash[Alert] == LdapAccessDenied
                  && (Notice in t.flash <==> Notice in s.flash)
                  && (Notice in s.flash ==> t.flash[Notice] == s.flash[Notice]))
  {
  }
}
