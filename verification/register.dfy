/** The registration page: the password-length check done before any
    request, the messages it sets, and how a failed request is classified. */
module Register {
  import opened Wrappers
  import opened Utf16

  const MinPasswordLength: nat := 4

  /** The error messages the page can show. */
  datatype RegisterError = ShortPassword | UsernameTaken | Forbidden | Unexpected | Unreachable

  function ErrorText(e: RegisterError): (m: string)
    ensures m != ""
  {
    match e
    case ShortPassword => "A senha deve ter pelo menos 4 caracteres."
    case UsernameTaken => "Nome de usuário já existe. Tente outro."
    case Forbidden => "Erro de permissão no servidor. A rota de registro pode estar protegida."
    case Unexpected => "Ocorreu um erro inesperado. Tente novamente."
    case Unreachable => "Não foi possível conectar ao servidor."
  }

  const SuccessText: string := "Conta criada com sucesso! Redirecionando para o login..."

  /** Each error has its own text, and none is the success text. */
  lemma TextsDistinct(a: RegisterError, b: RegisterError)
    ensures ErrorText(a) == ErrorText(b) <==> a == b
    ensures ErrorText(a) != SuccessText
  {
  }

  /** Delay before the redirect after a successful registration, in ms. */
  const RedirectDelay: nat := 2000
  const LoginPath: string := "/login"

  /** The two messages the page shows: an error (`None` for `''`) and
      whether the success message is set. */
  datatype RegisterState = RegisterState(error: Option<RegisterError>, success: bool)

  /** Outgoing effects: the register request, and a navigation scheduled
      with `setTimeout`. */
  datatype Effect =
    | CallRegister(username: string, password: string)
    | NavigateLater(delayMs: nat, path: string)

  /** How the register request ended: success, or a failure carrying the
      response status, `None` when no response came back. */
  datatype Reply = Registered | Refused(status: Option<int>)

  datatype RegisterStep = RegisterStep(next: RegisterState, effects: seq<Effect>)

  /** The messages the page renders, error first (`{error && ...}`,
      `{success && ...}`). */
  function Rendered(s: RegisterState): (msgs: seq<string>)
    ensures |msgs| == (if s.error.Some? then 1 else 0) + (if s.success then 1 else 0)
    ensures s.error.Some? ==> msgs[0] == ErrorText(s.error.value)
    ensures s.success ==> msgs[|msgs| - 1] == SuccessText
    ensures forall i :: 0 <= i < |msgs| ==> msgs[i] != ""
  {
    (if s.error.Some? then [ErrorText(s.error.value)] else []) + (if s.success then [SuccessText] else [])
  }

  /** Two characters outside the Basic Multilingual Plane already pass the
      length check, since each counts as two UTF-16 units. */
  lemma TwoAstralCharactersPass()
    ensures Utf16Length("\U{1F600}\U{1F600}") >= MinPasswordLength
  {
    var s := "\U{1F600}\U{1F600}";
    assert s[1..][1..] == [];
  }

  /** A BMP character and an astral one make three UTF-16 units, so the
      password is refused although the astral character counts twice. */
  lemma MixedPairIsShort()
    ensures Utf16Length("a\U{1F600}") == 3 < MinPasswordLength
  {
    assert "a\U{1F600}" == "a" + ['\U{1F600}'];
    Utf16Snoc("a", '\U{1F600}');
  }

  /** `handleRegister` up to the request: both messages are cleared, then a
      short password sets the length error and stops; otherwise the request
      is sent. */
  function Submit(s: RegisterState, username: string, password: string): (r: RegisterStep)
    ensures !r.next.success
    ensures Utf16Length(password) < MinPasswordLength ==> r.next.error == Some(ShortPassword) && r.effects == []
    ensures Utf16Length(password) >= MinPasswordLength ==>
      r.next.error == None && r.effects == [CallRegister(username, password)]
  {
    var cleared := RegisterState(None, false);
    if Utf16Length(password) < MinPasswordLength then
      RegisterStep(cleared.(error := Some(ShortPassword)), [])
    else
      RegisterStep(cleared, [CallRegister(username, password)])
  }

  /** The error for a failed request, by response status. */
  function Classify(status: Option<int>): (e: RegisterError)
    ensures e != ShortPassword
    ensures e == UsernameTaken <==> status == Some(400)
    ensures e == Forbidden <==> status == Some(403)
    ensures e == Unexpected <==> status.Some? && status.value != 400 && status.value != 403
    ensures e == Unreachable <==> status.None?
  {
    match status
    case None => Unreachable
    case Some(code) =>
      if code == 400 then UsernameTaken
      else if code == 403 then Forbidden
      else Unexpected
  }

  /** The reply to the register request. */
  function OnReply(s: RegisterState, reply: Reply): (r: RegisterStep)
    ensures reply.Registered? ==>
      r.next == s.(success := true) && r.effects == [NavigateLater(RedirectDelay, LoginPath)]
    ensures reply.Refused? ==>
      r.next == s.(error := Some(Classify(reply.status))) && r.effects == []
  {
    match reply
    case Registered => RegisterStep(s.(success := true), [NavigateLater(RedirectDelay, LoginPath)])
    case Refused(status) => RegisterStep(s.(error := Some(Classify(status))), [])
  }

  /** One submit followed by the reply to its own request (if it sent one). */
  function SubmitAndReply(s: RegisterState, username: string, password: string, reply: Reply): RegisterStep {
    var sent := Submit(s, username, password);
    if sent.effects == [] then sent
    else
      var answered := OnReply(sent.next, reply);
      RegisterStep(answered.next, sent.effects + answered.effects)
  }

  /** After a submit and its reply exactly one message is shown, whatever
      was shown before; navigation is scheduled only on success, and no
      request goes out for a short password. */
  lemma ExactlyOneMessage(s: RegisterState, username: string, password: string, reply: Reply)
    ensures var r := SubmitAndReply(s, username, password, reply);
      && (r.next.error.Some? <==> !r.next.success)
      && |Rendered(r.next)| == 1
      && (NavigateLater(RedirectDelay, LoginPath) in r.effects <==>
            Utf16Length(password) >= MinPasswordLength && reply.Registered?)
      && (Utf16Length(password) < MinPasswordLength <==> r.effects == [])
  {
  }

  /** Two submits whose replies arrive after both were sent can leave both
      messages set: the exclusivity above holds per submit and reply. */
  lemma OverlappingSubmitsShowBoth(s: RegisterState, password: string)
    requires Utf16Length(password) >= MinPasswordLength
    ensures var afterSends := Submit(Submit(s, "a", password).next, "a", password).next;
      var done := OnReply(OnReply(afterSends, Registered).next, Refused(Some(400))).next;
      done.error == Some(UsernameTaken) && done.success
  {
  }
}
