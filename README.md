# OmniAuth callbacks controller, modelled in Dafny

This project models GitLab's `OmniauthCallbacksController`, the controller that
receives the callback of an external identity provider (OmniAuth) or of LDAP.
For each request it picks exactly one outcome:

- it links the external identity to the signed-in user and redirects with a notice;
- it signs in the user that the OAuth user builder saved;
- it redirects to the OmniAuth error page with the joined validation errors;
- it redirects to the sign-in page with a notice when signup is disabled.

Beside that state machine sit the failure-message fallback chain
(`failure_message`) and the `ldap` action.

Files and modules:

- `ruby_values.dfy` (`RubyValues`): `nil`, `false`, truthiness, `to_s`, `x ||= y`, and the
  reference "first truthy value" of a list.
- `messages.dfy` (`Messages`): `failure_message`, `Array#join`, the validation-error
  string, and the notice and alert texts.
- `identities.dfy` (`Identities`): the identity rows and `find_or_create_by`.
- `callbacks.dfy` (`Callbacks`): the controller as a class whose fields are the session
  user, the identity table, the saved users, the `remember_me` assignments, the flash,
  the response and the `@oauth` memo. Its methods `HandleOmniauth`, `Ldap` and `OAuth`
  change those fields step by step as the Ruby code does. Each method's contract ties
  the new state to the function `AfterHandleOmniauth` or `AfterLdap`. The function
  `ActionFor` gives the body the class defines under an action name.
- `callback_properties.dfy` (`CallbackProperties`): what those functions promise.

The collaborators are inputs:

- `Gitlab::OAuth::User` is the value `OAuthResolution`: either `SignupDisabled`, or the
  user with its `persisted?`, `valid?` and `errors`.
- `Gitlab::LDAP::User` is the value `LdapResolution`: the user with `changed?`,
  `persisted?` and `allowed?`.
- `current_application_settings.signup_enabled?` is the boolean `signupEnabled`.
- `params[:remember_me]` is the value `Param`.
- The Rails inflector `humanize` is a function parameter.

Three behaviours of the code worth knowing:

- `failure_message` skips only `nil` and `false`, so an empty `error_reason` still
  wins over later candidates (`Messages.EmptyReasonStillWins`). Line 18 always yields
  a String, so the `if error` guard on line 19 never fails and the result is never `nil`.
- Only `ldap` assigns `remember_me`, and only when the user is persisted. The linking
  branch of `handle_omniauth` never touches it.
- In Ruby a later `def` of a name replaces the method `define_method` made under it.
  So a provider named `ldap`, `failure_message`, `omniauth_error`, `handle_omniauth` or
  `oauth` gets the class's own later method (`Callbacks.ActionFor`, derived from the
  ordered list of definitions the class body makes).

## Model

| member | source | states |
|---|---|---|
| `Messages.FailureMessage` | app/controllers/omniauth_callbacks_controller.rb:13-20 | `failure_message` never returns `nil`: the result is always a (humanized) string |
| `Messages.FailureMessageIsFirstTruthy` | app/controllers/omniauth_callbacks_controller.rb:14-19 | the or-assignment chain equals humanizing the first truthy value among `error_reason`, `error`, `message` (each only if the exception responds to it) and `env["omniauth.error.type"].to_s` |
| `Messages.EmptyReasonStillWins` | app/controllers/omniauth_callbacks_controller.rb:15-17 | an `error_reason` of `""` is not skipped by the or-assignment: the message is `humanize("")` whatever the later candidates are |
| `Messages.FailureMessageFallsBackToType` | app/controllers/omniauth_callbacks_controller.rb:18-19 | when no responding method gives a truthy value, the message is the humanized `to_s` of the error type, `humanize("")` when the type is `nil` |
| `RubyValues.FirstTruthy` | app/controllers/omniauth_callbacks_controller.rb:14-18 | the first truthy value of the list: truthy and equal to some element `k` such that every element before `k` is falsy; `nil` only when no element is truthy |
| `RubyValues.OrAssignIf` | app/controllers/omniauth_callbacks_controller.rb:16-17 | the guarded or-assignment keeps a truthy `x`, keeps `x` when the receiver does not respond, and otherwise takes the value the receiver returned |
| `RubyValues.ToS` | app/controllers/omniauth_callbacks_controller.rb:18-19 | `to_s` gives an object's own text, and `""` for `nil` |
| `Messages.Join` | app/controllers/omniauth_callbacks_controller.rb:64 | `join(sep)` is as long as its parts plus one separator between each pair of neighbours |
| `Messages.JoinPlacesPart` | app/controllers/omniauth_callbacks_controller.rb:64 | part `i` sits at offset `Start(i)` of the joined string, in order |
| `Messages.JoinPlacesSeparator` | app/controllers/omniauth_callbacks_controller.rb:64 | every part but the last is followed by the separator, and the next part starts right after it |
| `Messages.LastPartEndsJoin` | app/controllers/omniauth_callbacks_controller.rb:64 | the last part ends the joined string, so nothing follows it |
| `Messages.Describe` | app/controllers/omniauth_callbacks_controller.rb:63 | `"#{attribute} #{message}"` is the attribute, one blank, then the message, and nothing else |
| `Messages.Descriptions` | app/controllers/omniauth_callbacks_controller.rb:62-64 | the `map` gives one description per error, in error order |
| `Messages.ErrorMessage` | app/controllers/omniauth_callbacks_controller.rb:60-67 | the guarded error string equals the unguarded join of the descriptions with `", "` (the `errors.any?` guard changes nothing), and it is `''` if and only if there are no errors; placement of each error in `ErrorMessageListsErrors` |
| `Messages.ErrorMessageListsErrors` | app/controllers/omniauth_callbacks_controller.rb:61-64 | error `i` appears as `"<attribute> <message>"` at its place in error order, followed by `", "` unless it is the last |
| `Messages.SignupDisabledNotice` | app/controllers/omniauth_callbacks_controller.rb:73-77 | the signup-disabled notice always begins with the base sentence |
| `Messages.CreateAccountHintIffSignupEnabled` | app/controllers/omniauth_callbacks_controller.rb:75-77 | the second sentence is appended if and only if signup is enabled |
| `Messages.SignupDisabledNoticeNamesProvider` | app/controllers/omniauth_callbacks_controller.rb:73-76 | the provider appears in the base sentence and, when present, in the second sentence |
| `Identities.FindOrCreate` | app/controllers/omniauth_callbacks_controller.rb:50 | after find-or-create the key is present, the earlier rows are a prefix, at most one row is added, and no row but the key is new; counts in `FindOrCreateCounts` |
| `Identities.FindOrCreateCounts` | app/controllers/omniauth_callbacks_controller.rb:50 | find-or-create leaves the key present (once more if it was missing, as often as before otherwise), keeps every other key's count and the earlier rows |
| `Identities.FindOrCreateKeepsNoDuplicates` | app/controllers/omniauth_callbacks_controller.rb:50 | find-or-create never introduces a duplicate identity row |
| `Identities.FindOrCreateIdempotent` | app/controllers/omniauth_callbacks_controller.rb:50 | a second find-or-create with the same key changes nothing; on a duplicate-free table the key is then present exactly once |
| `Callbacks.OmniauthCallbacksController.OAuth` | app/controllers/omniauth_callbacks_controller.rb:84-86 | returns the memo when set, otherwise the request's auth hash, and leaves the memo set to the value returned |
| `Callbacks.OmniauthCallbacksController.SignInAndRedirectTo` | app/controllers/omniauth_callbacks_controller.rb:58 | signing in makes the user the session user and the response a sign-in redirect |
| `Callbacks.OmniauthCallbacksController.HandleOmniauth` | app/controllers/omniauth_callbacks_controller.rb:47-82 | the whole new controller state is `AfterHandleOmniauth` of the old one, and the controller's own identity writes keep a duplicate-free table duplicate-free |
| `Callbacks.OmniauthCallbacksController.Ldap` | app/controllers/omniauth_callbacks_controller.rb:24-37 | the whole new controller state is `AfterLdap` of the old one |
| `Callbacks.OAuthOf` | app/controllers/omniauth_callbacks_controller.rb:84-86 | the hash `oauth` answers with is the memo when it is set, and the request's hash only while it is empty |
| `Callbacks.AfterHandleOmniauth` | app/controllers/omniauth_callbacks_controller.rb:47-82 | every branch of `handle_omniauth` ends with a response, leaves the memo holding what was read, only adds identity rows and leaves `remember_me` alone; the branch-by-branch outcomes are the `CallbackProperties` lemmas |
| `Callbacks.AfterLdap` | app/controllers/omniauth_callbacks_controller.rb:24-37 | `ldap` always ends with a response, makes no identity write of its own, and leaves the memo holding what was read; its outcomes are the `Ldap*` lemmas |
| `Callbacks.ClassBody` | app/controllers/omniauth_callbacks_controller.rb:6-10 | the class body has one definition per configured provider plus its five own `def`s (its contract states the length; which names it defines is stated by `ClassBodyDefines`, which body wins by `ProviderActionsRunHandleOmniauth`) |
| `Callbacks.Lookup` | app/controllers/omniauth_callbacks_controller.rb:6-10 | a name has no body exactly when nothing defines it; otherwise its body is that of a definition under the name that no later definition overrides |
| `Callbacks.ClassBodyDefines` | app/controllers/omniauth_callbacks_controller.rb:6-10 | the class body defines exactly the provider names and its own five method names |
| `Callbacks.ActionFor` | app/controllers/omniauth_callbacks_controller.rb:6-10 | the class has a body under a name if and only if the name is a configured provider or one of its own methods; which body is in `ProviderActionsRunHandleOmniauth` |
| `CallbackProperties.LookupAppend` | app/controllers/omniauth_callbacks_controller.rb:6-10 | looking a name up in definitions made one list after another: the later list wins whenever it defines the name |
| `CallbackProperties.ProviderActionsRunHandleOmniauth` | app/controllers/omniauth_callbacks_controller.rb:6-10 | derived from the last-wins lookup over the class body: a name runs `handle_omniauth` if and only if it is a configured provider and none of the later `def`s has that name; those names, `ldap` among them, keep their own body |
| `CallbackProperties.OAuthIsMemoised` | app/controllers/omniauth_callbacks_controller.rb:84-86 | the request is read only while the memo is empty; once it is set, the request no longer matters, and both actions leave it set to what was read |
| `CallbackProperties.LinkingOnlyAddsIdentity` | app/controllers/omniauth_callbacks_controller.rb:48-51 | with a signed-in user only the `(uid, provider)` identity of that user is found or created; no save, no sign-in, the OAuth outcome is ignored; redirect to the profile account page with the "updated" notice |
| `CallbackProperties.RepeatedLinkAddsNoDuplicate` | app/controllers/omniauth_callbacks_controller.rb:48-51 | running the linking branch twice leaves the identities of one run; on a duplicate-free table the link is present exactly once |
| `CallbackProperties.HandleOmniauthKeepsNoDuplicates` | app/controllers/omniauth_callbacks_controller.rb:47-82 | the controller's own identity write in `handle_omniauth` (the find-or-create of line 50) keeps the table free of duplicates |
| `CallbackProperties.SignInIffPersistedAndValid` | app/controllers/omniauth_callbacks_controller.rb:53-58 | with nobody signed in, sign-in happens if and only if the saved user is persisted and valid, and then for that user; the controller itself writes no identity row; there is always a response |
| `CallbackProperties.FailedSaveRedirectsToErrorPage` | app/controllers/omniauth_callbacks_controller.rb:59-69 | otherwise the response redirects to the error page with the provider and the joined errors (empty exactly when there are none); nobody signed in; flash untouched; the user was saved once |
| `CallbackProperties.SignupDisabledGivesNotice` | app/controllers/omniauth_callbacks_controller.rb:72-81 | `SignupDisabledError` gives a notice (alert untouched) naming the provider, with the second sentence exactly when signup is enabled, and a redirect to the sign-in page; no sign-in, save or link |
| `CallbackProperties.LdapSavesOnlyWhenChanged` | app/controllers/omniauth_callbacks_controller.rb:26 | the LDAP user is saved if and only if it changed |
| `CallbackProperties.LdapRememberMeOnlyWhenPersisted` | app/controllers/omniauth_callbacks_controller.rb:27-28 | `remember_me` gets `params[:remember_me]` only when the user is persisted, and no other user's is touched |
| `CallbackProperties.LdapSignInIffAllowed` | app/controllers/omniauth_callbacks_controller.rb:31-36 | sign-in happens if and only if the LDAP user is allowed; otherwise the alert is exactly "Access denied for your LDAP account.", the notice is untouched and the redirect goes to the sign-in page |

## Left out

- `omniauth_error` (lines 39-43) renders a template with status 422. `protect_from_forgery` (line 4) is request forgery protection. Both are framework plumbing.
- Devise's `sign_in_and_redirect` is modelled as "this user becomes the session user, and the response is a sign-in redirect". The after-sign-in path it chooses and the Warden session are not modelled.
- `redirect_to path, notice: m` is modelled as writing `flash[:notice]` and recording the redirect. Route helpers are constructors of `Path`.
- The internals of `Gitlab::OAuth::User`, `Gitlab::LDAP::User`, `gl_user` and `allowed?` are not part of this model. Their answers are inputs.
- `Gitlab::OAuth::User#save` (line 54) and `Gitlab::LDAP::User#save` (line 26) also write the saved user's identity row. `identities` holds only the rows the controller itself finds or creates (line 50), so "no identity row is written" in the provisioning and LDAP paths means the controller writes none; the collaborators' own writes are not modelled.
- `SignupDisabledError` is modelled as raised by the OAuth user's `save`, before anything is persisted. Where the library raises it is not part of this model. A raise at a later point (for example while reading `gl_user.errors`) is not captured.
- `humanize` (the Rails inflector) is not part of this model. It is a function parameter, so no property of the humanized text itself (such as `invalid_credentials` becoming `Invalid credentials`) is stated.
- `find_or_create_by` is modelled on a single-threaded table in which creation always succeeds. Atomicity under concurrent requests is not modelled. Neither are the `Identity` model's own validations, whose source is not part of this model.
- `request.env['omniauth.auth']` is taken to be present, as Devise routes here only after a completed handshake. With a `nil` hash the Ruby code would raise on `oauth['uid']`; that path is not modelled.
- The notice and alert texts are kept verbatim as constants. Localisation is not modelled.
- The other controllers of the repository (todos, admin labels) and the `Group` model tests are outside this model.
