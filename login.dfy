/** The sign-in page: a username and password form whose submit asks the
    server for a matching user. The server's answer is an input. */
module Login {
  import opened Wrappers
  import opened Entities
  import opened Api

  const InvalidMessage: string := "Invalid username or password"

  /** Where a submit ends, as a function of the lookup's result. */
  function LoginEffect(call: Attempt<seq<User>>): SignIn {
    match call
    case Answered(data) =>
      (match LoginResult(data)
       case Some(u) => SignedIn(u)
       case None => StayOnForm)
    case Threw(_) => StayOnForm
  }

  /** The error the form shows after a submit. */
  function LoginError(call: Attempt<seq<User>>): string {
    match call
    case Answered(data) => if LoginResult(data).Some? then "" else InvalidMessage
    case Threw(e) => HandleApiError(e)
  }

  /** The user signed in is the first one the lookup returned; the lookup
      answering with no user, or not answering, keeps the visitor on the
      form. */
  lemma LoginSignsInFirstMatch(call: Attempt<seq<User>>)
    ensures LoginEffect(call).SignedIn? <==> call.Answered? && |call.data| > 0
    ensures LoginEffect(call).SignedIn? ==> LoginEffect(call).user == call.data[0]
    ensures call.Answered? && |call.data| == 0 ==> LoginError(call) == InvalidMessage
    ensures call.Threw? ==> LoginError(call) == HandleApiError(call.error)
  {
  }

  /** The form shows an error exactly when the submit did not sign anyone in. */
  lemma LoginErrorIffStay(call: Attempt<seq<User>>)
    ensures LoginError(call) == "" <==> LoginEffect(call).SignedIn?
  {
    if call.Threw? {
      ErrorMessageNonEmpty(call.error);
    }
  }

  class LoginForm {
    var username: string
    var password: string
    var error: string
    var loading: bool

    constructor ()
      ensures username == "" && password == "" && error == "" && !loading
    {
      username := "";
      password := "";
      error := "";
      loading := false;
    }

    method SetUsername(value: string)
      modifies this`username
      ensures username == value
    {
      username := value;
    }

    method SetPassword(value: string)
      modifies this`password
      ensures password == value
    {
      password := value;
    }

    /** The start of `handleSubmit`: the error is cleared and the form shows
        the loading state while the lookup is out. */
    method Begin()
      modifies this`error, this`loading
      ensures error == "" && loading
    {
      error := "";
      loading := true;
    }

    /** The rest of `handleSubmit` once the lookup has settled as `call`:
        the outcome is applied and, in every case, the form stops loading. */
    method Settle(call: Attempt<seq<User>>) returns (effect: SignIn)
      requires error == ""
      modifies this`error, this`loading
      ensures effect == LoginEffect(call)
      ensures error == LoginError(call)
      ensures !loading
    {
      effect := StayOnForm;
      match call {
        case Answered(data) =>
          var user := LoginResult(data);
          if user.Some? {
            effect := SignedIn(user.value);
          } else {
            error := InvalidMessage;
          }
        case Threw(e) =>
          error := HandleApiError(e);
      }
      loading := false;
    }

    /** `handleSubmit`, with the awaited lookup's outcome as `call`: it sends
        the typed credentials, then settles. */
    method HandleSubmit(call: Attempt<seq<User>>) returns (request: Request, effect: SignIn)
      modifies this`error, this`loading
      ensures request == FindUser(username, password)
      ensures effect == LoginEffect(call)
      ensures error == LoginError(call)
      ensures !loading
    {
      Begin();
      request := FindUser(username, password);
      effect := Settle(call);
    }
  }
}
