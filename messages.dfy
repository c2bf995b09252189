/** The string logic of the OmniAuth callbacks controller: the failure
    message fallback chain, the validation-error string and the notices. */
module Messages {
  import opened RubyValues

  // ---------------------------------------------------------------------
  // failure_message
  // ---------------------------------------------------------------------

  /** What the controller can learn from `env["omniauth.error"]`: for each of
      `error_reason`, `error` and `message`, whether the object responds to
      it and, if so, what it returns. A `nil` exception responds to none. */
  datatype AuthFailure = AuthFailure(errorReason: Probe, error: Probe, message: Probe)

  /** `failure_message`: `error_reason`, then `error`, then `message`, then
      `env["omniauth.error.type"].to_s`, each taken only while `error` is still
      falsy; the winner is `to_s`-ed and humanized. `humanize` is the Rails
      inflector, which is not part of this model. `None` stands for `nil`. */
  function FailureMessage(exception: AuthFailure, errorType: RubyValue, humanize: string -> string): (r: Option<string>)
    ensures r.Some?
  {
    var error := OrAssignIf(Nil, exception.errorReason);
    var error := OrAssignIf(error, exception.error);
    var error := OrAssignIf(error, exception.message);
    var error := if Truthy(error) then error else Obj(ToS(errorType));
    if Truthy(error) then Some(humanize(ToS(error))) else None
  }

  /** The candidate list the chain walks, in order: one entry per method the
      exception responds to, then the stringified error type. */
  function Candidates(exception: AuthFailure, errorType: RubyValue): seq<RubyValue> {
    Offered(exception.errorReason) + Offered(exception.error) + Offered(exception.message)
      + [Obj(ToS(errorType))]
  }

  function Offered(p: Probe): seq<RubyValue> {
    if p.Responds? then [p.value] else []
  }

  lemma FirstTruthyAfterOffered(p: Probe, rest: seq<RubyValue>)
    ensures FirstTruthy(Offered(p) + rest)
         == if p.Responds? && Truthy(p.value) then p.value else FirstTruthy(rest)
  {
    if p.Responds? {
      assert (Offered(p) + rest)[1..] == rest;
    } else {
      assert Offered(p) + rest == rest;
    }
  }

  /** The chain of `||=` is exactly "the first truthy candidate wins". */
  lemma FailureMessageIsFirstTruthy(exception: AuthFailure, errorType: RubyValue, humanize: string -> string)
    ensures FailureMessage(exception, errorType, humanize)
         == Some(humanize(ToS(FirstTruthy(Candidates(exception, errorType)))))
  {
    var last := [Obj(ToS(errorType))];
    var m := Offered(exception.message) + last;
    var e := Offered(exception.error) + m;
    assert Candidates(exception, errorType) == Offered(exception.errorReason) + e;
    FirstTruthyAfterOffered(exception.errorReason, e);
    FirstTruthyAfterOffered(exception.error, m);
    FirstTruthyAfterOffered(exception.message, last);
  }

  /** Only `nil` and `false` are skipped: an empty string from
      `error_reason` wins over a non-empty `error`. */
  lemma EmptyReasonStillWins(exception: AuthFailure, errorType: RubyValue, humanize: string -> string)
    requires exception.errorReason == Responds(Obj(""))
    ensures FailureMessage(exception, errorType, humanize) == Some(humanize(""))
  {
  }

  /** When no method gives a truthy value, the error type is used, and a
      missing error type gives the humanized empty string. */
  lemma FailureMessageFallsBackToType(exception: AuthFailure, errorType: RubyValue, humanize: string -> string)
    requires forall v :: v in Offered(exception.errorReason) + Offered(exception.error) + Offered(exception.message)
                         ==> !Truthy(v)
    ensures FailureMessage(exception, errorType, humanize) == Some(humanize(ToS(errorType)))
    ensures errorType.Nil? ==> FailureMessage(exception, errorType, humanize) == Some(humanize(""))
  {
  }

  // ---------------------------------------------------------------------
  // Array#join
  // ---------------------------------------------------------------------

  function SumLengths(parts: seq<string>): nat {
    if |parts| == 0 then 0 else |parts[0]| + SumLengths(parts[1..])
  }

  /** `parts.join(sep)`. */
  function Join(parts: seq<string>, sep: string): (r: string)
    ensures |r| == SumLengths(parts) + (if |parts| == 0 then 0 else (|parts| - 1) * |sep|)
  {
    if |parts| == 0 then ""
    else if |parts| == 1 then parts[0]
    else parts[0] + sep + Join(parts[1..], sep)
  }

  /** Where part `i` begins in `Join(parts, sep)`: after each earlier part
      and the separator that follows it. */
  function Start(parts: seq<string>, sep: string, i: nat): nat
    requires i <= |parts|
  {
    if i == 0 then 0 else |parts[0]| + |sep| + Start(parts[1..], sep, i - 1)
  }

  lemma {:induction false} StartNext(parts: seq<string>, sep: string, i: nat)
    requires i < |parts|
    ensures Start(parts, sep, i + 1) == Start(parts, sep, i) + |parts[i]| + |sep|
  {
    if i > 0 {
      StartNext(parts[1..], sep, i - 1);
    }
  }

  /** Part `i` sits at `Start(parts, sep, i)` in the joined string. */
  lemma {:induction false} JoinPlacesPart(parts: seq<string>, sep: string, i: nat)
    requires i < |parts|
    ensures Start(parts, sep, i) + |parts[i]| <= |Join(parts, sep)|
    ensures Join(parts, sep)[Start(parts, sep, i)..Start(parts, sep, i) + |parts[i]|] == parts[i]
  {
    var r := Join(parts, sep);
    if i == 0 {
      if |parts| > 1 {
        assert r == parts[0] + (sep + Join(parts[1..], sep));
      }
    } else {
      var tail := Join(parts[1..], sep);
      var off := |parts[0]| + |sep|;
      assert r == (parts[0] + sep) + tail;
      JoinPlacesPart(parts[1..], sep, i - 1);
      var k := Start(parts[1..], sep, i - 1);
      assert r[off + k..off + k + |parts[i]|] == tail[k..k + |parts[i]|];
    }
  }

  /** Each part but the last is followed by the separator. With
      `JoinPlacesPart`, `LastPartEndsJoin` and the length in `Join`'s
      contract: the joined string is the parts, in order, with `sep` between
      neighbours and nothing else. */
  lemma {:induction false} JoinPlacesSeparator(parts: seq<string>, sep: string, i: nat)
    requires i + 1 < |parts|
    ensures Start(parts, sep, i + 1) == Start(parts, sep, i) + |parts[i]| + |sep| <= |Join(parts, sep)|
    ensures Join(parts, sep)[Start(parts, sep, i) + |parts[i]|..Start(parts, sep, i + 1)] == sep
  {
    StartNext(parts, sep, i);
    var r := Join(parts, sep);
    var tail := Join(parts[1..], sep);
    assert r == parts[0] + sep + tail;
    if i > 0 {
      var off := |parts[0]| + |sep|;
      assert r == (parts[0] + sep) + tail;
      JoinPlacesSeparator(parts[1..], sep, i - 1);
      var k := Start(parts[1..], sep, i - 1) + |parts[i]|;
      assert r[off + k..off + k + |sep|] == tail[k..k + |sep|];
    }
  }

  /** The last part ends the joined string. */
  lemma {:induction false} LastPartEndsJoin(parts: seq<string>, sep: string)
    requires |parts| > 0
    ensures Start(parts, sep, |parts| - 1) + |parts[|parts| - 1]| == |Join(parts, sep)|
  {
    if |parts| > 1 {
      assert parts[1..][|parts| - 2] == parts[|parts| - 1];
      LastPartEndsJoin(parts[1..], sep);
    }
  }

  // ---------------------------------------------------------------------
  // The validation-error string of handle_omniauth
  // ---------------------------------------------------------------------

  /** One `(attribute, message)` pair of `gl_user.errors`, in the order the
      errors object yields them. */
  datatype FieldError = FieldError(attribute: string, message: string)

  const ErrorSeparator: string := ", "

  /** `"#{attribute} #{message}"`: the attribute, one blank, the message. */
  function Describe(e: FieldError): (r: string)
    ensures |r| == |e.attribute| + 1 + |e.message|
    ensures r[..|e.attribute|] == e.attribute && r[|e.attribute|] == ' ' && r[|e.attribute| + 1..] == e.message
  {
    e.attribute + " " + e.message
  }

  /** `errors.map { |attribute, message| ... }`: one description per error,
      in error order. */
  function Descriptions(errors: seq<FieldError>): (r: seq<string>)
    ensures |r| == |errors|
    ensures forall i :: 0 <= i < |errors| ==> r[i] == Describe(errors[i])
  {
    seq(|errors|, i requires 0 <= i < |errors| => Describe(errors[i]))
  }

  /** `errors.any? ? errors.map { |a, m| "#{a} #{m}" }.join(", ") : ''`.
      The `errors.any?` guard changes nothing, since joining no pairs is `''`
      too; and the string is empty exactly when there are no errors, since
      every description holds at least the blank between attribute and
      message. */
  function ErrorMessage(errors: seq<FieldError>): (r: string)
    ensures r == Join(Descriptions(errors), ErrorSeparator)
    ensures r == "" <==> errors == []
  {
    if |errors| > 0 then Join(Descriptions(errors), ErrorSeparator) else ""
  }

  /** Error `i` appears as `"<attribute> <message>"` at its place in error
      order, followed by `", "` unless it is the last. */
  lemma ErrorMessageListsErrors(errors: seq<FieldError>, i: nat)
    requires i < |errors|
    ensures var d := Descriptions(errors);
            var k := Start(d, ErrorSeparator, i);
            k + |Describe(errors[i])| <= |ErrorMessage(errors)| &&
            ErrorMessage(errors)[k..k + |Describe(errors[i])|] == errors[i].attribute + " " + errors[i].message &&
            (i + 1 < |errors| ==>
               Start(d, ErrorSeparator, i + 1) == k + |Describe(errors[i])| + 2 <= |ErrorMessage(errors)| &&
               ErrorMessage(errors)[k + |Describe(errors[i])|..Start(d, ErrorSeparator, i + 1)] == ", ")
  {
    JoinPlacesPart(Descriptions(errors), ErrorSeparator, i);
    if i + 1 < |errors| {
      JoinPlacesSeparator(Descriptions(errors), ErrorSeparator, i);
    }
  }

  // ---------------------------------------------------------------------
  // Notices and alerts
  // ---------------------------------------------------------------------

  /** The notice after an identity has been linked to the signed-in user. */
  const IdentityUpdatedNotice: string := "认证方法已更新"

  /** The alert when the LDAP user is not allowed to sign in. */
  const LdapAccessDenied: string := "Access denied for your LDAP account."

  const SignupDisabledHead: string := "没有已存在的 GitLab 账号是不能使用 "
  const SignupDisabledTail: string := " 账号登陆系统。"
  const CreateAccountHead: string := "请先创建一个 GitLab 账号，然后再绑定 "
  const CreateAccountTail: string := " 账号。"

  /** The base sentence: no existing account may sign in via `provider`. */
  function SignupDisabledSentence(provider: string): string {
    SignupDisabledHead + provider + SignupDisabledTail
  }

  /** The second sentence: create an account first, then link `provider`. */
  function CreateAccountSentence(provider: string): string {
    CreateAccountHead + provider + CreateAccountTail
  }

  /** The `flash[:notice]` of the SignupDisabledError rescue. */
  function SignupDisabledNotice(provider: string, signupEnabled: bool): (r: string)
    ensures |r| >= |SignupDisabledSentence(provider)|
    ensures r[..|SignupDisabledSentence(provider)|] == SignupDisabledSentence(provider)
  {
    var message := SignupDisabledSentence(provider);
    if signupEnabled then message + CreateAccountSentence(provider) else message
  }

  /** The second sentence is appended if and only if signup is enabled. */
  lemma CreateAccountHintIffSignupEnabled(provider: string, signupEnabled: bool)
    ensures signupEnabled ==>
              SignupDisabledNotice(provider, signupEnabled)
              == SignupDisabledSentence(provider) + CreateAccountSentence(provider)
    ensures !signupEnabled <==> SignupDisabledNotice(provider, signupEnabled) == SignupDisabledSentence(provider)
  {
  }

  /** The notice names the provider in its base sentence and, when the second
      sentence is there, again in that one. */
  lemma SignupDisabledNoticeNamesProvider(provider: string, signupEnabled: bool)
    ensures var r := SignupDisabledNotice(provider, signupEnabled);
            var h := |SignupDisabledHead|;
            h + |provider| <= |r| && r[h..h + |provider|] == provider
    ensures var r := SignupDisabledNotice(provider, signupEnabled);
            var h := |SignupDisabledSentence(provider)| + |CreateAccountHead|;
            signupEnabled ==> h + |provider| <= |r| && r[h..h + |provider|] == provider
  {
  }
}
