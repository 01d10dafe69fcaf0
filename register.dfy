/** The registration page: the form checks the two passwords and the
    password's length, asks the server whether the username is free, and
    then creates the account. The server's answers are inputs. */
module Register {
  import opened Wrappers
  import opened Entities
  import opened Text
  import opened Api

  const MismatchMessage: string := "Passwords do not match"
  const ShortMessage: string := "Password must be at least 6 characters long"
  const TakenMessage: string := "Username already exists"
  /** The shortest password accepted, in UTF-16 code units as JavaScript's
      `length` counts them. */
  const MinPasswordLength: nat := 6

  /** Everything a submit does: the requests it sends, in order, where it
      ends, and the error it leaves on the form. */
  datatype Registration = Registration(requests: seq<Request>, effect: SignIn, error: string)

  /** A submit with the given form values, where `check` is the outcome of
      the username lookup, `create` that of the account creation, and `newId`
      the id generated for the account. Each check that fails ends the
      submit with its message and sends nothing further. */
  function Registered(username: string, password: string, confirmPassword: string,
                      check: Attempt<seq<User>>, create: Attempt<User>, newId: string): Registration
  {
    if password != confirmPassword then Registration([], StayOnForm, MismatchMessage)
    else if Utf16Length(password) < MinPasswordLength then Registration([], StayOnForm, ShortMessage)
    else
      var lookup := [FindUsername(username)];
      match check
      case Threw(e) => Registration(lookup, StayOnForm, HandleApiError(e))
      case Answered(found) =>
        if UsernameTaken(found) then Registration(lookup, StayOnForm, TakenMessage)
        else
          var requests := lookup + [CreateUserRequest(username, password, newId)];
          match create
          case Threw(e) => Registration(requests, StayOnForm, HandleApiError(e))
          case Answered(u) => Registration(requests, SignedIn(u), "")
  }

  /** The checks run in order: a mismatch is reported even for a short
      password, and neither check contacts the server. */
  lemma LocalChecksFirst(username: string, password: string, confirmPassword: string,
                         check: Attempt<seq<User>>, create: Attempt<User>, newId: string)
    ensures password != confirmPassword ==>
      Registered(username, password, confirmPassword, check, create, newId) == Registration([], StayOnForm, MismatchMessage)
    ensures password == confirmPassword && Utf16Length(password) < MinPasswordLength ==>
      Registered(username, password, confirmPassword, check, create, newId) == Registration([], StayOnForm, ShortMessage)
  {
  }

  /** A request that throws ends the submit with `handleAPIError`'s message
      for it: a failed lookup after sending only the lookup, a failed account
      request after sending both requests. */
  lemma ThrownCallsShowTheirError(username: string, password: string, check: Attempt<seq<User>>,
                                  create: Attempt<User>, newId: string)
    requires Utf16Length(password) >= MinPasswordLength
    ensures check.Threw? ==>
      Registered(username, password, password, check, create, newId)
        == Registration([FindUsername(username)], StayOnForm, HandleApiError(check.error))
    ensures check.Answered? && |check.data| == 0 && create.Threw? ==>
      Registered(username, password, password, check, create, newId)
        == Registration([FindUsername(username), CreateUserRequest(username, password, newId)],
                        StayOnForm, HandleApiError(create.error))
  {
  }

  /** A taken username stops the submit after the lookup: no account is
      created. */
  lemma TakenNameCreatesNothing(username: string, password: string, check: Attempt<seq<User>>,
                                create: Attempt<User>, newId: string)
    requires Utf16Length(password) >= MinPasswordLength
    requires check.Answered? && |check.data| > 0
    ensures Registered(username, password, password, check, create, newId)
         == Registration([FindUsername(username)], StayOnForm, TakenMessage)
  {
  }

  /** Registration signs in exactly the user the server created, and only
      when both passwords agree, the password is long enough, the name is
      free and both requests answered. The account request carries exactly
      the typed username and password. */
  lemma SignedInIff(username: string, password: string, confirmPassword: string,
                    check: Attempt<seq<User>>, create: Attempt<User>, newId: string)
    ensures var r := Registered(username, password, confirmPassword, check, create, newId);
      r.effect.SignedIn? <==>
        && password == confirmPassword && Utf16Length(password) >= MinPasswordLength
        && check.Answered? && |check.data| == 0 && create.Answered?
    ensures var r := Registered(username, password, confirmPassword, check, create, newId);
      r.effect.SignedIn? ==>
        && r.effect.user == create.data
        && r.requests == [FindUsername(username), CreateUserRequest(username, password, newId)]
  {
    if check.Answered? && |check.data| > 0 {
      assert check.data[0] in check.data;
    }
  }

  /** The form shows an error exactly when the submit did not sign anyone in,
      and it sends at most the lookup and then the account request. */
  lemma ErrorIffStay(username: string, password: string, confirmPassword: string,
                     check: Attempt<seq<User>>, create: Attempt<User>, newId: string)
    ensures var r := Registered(username, password, confirmPassword, check, create, newId);
      r.error == "" <==> r.effect.SignedIn?
    ensures var r := Registered(username, password, confirmPassword, check, create, newId);
      r.requests <= [FindUsername(username), CreateUserRequest(username, password, newId)]
  {
    if check.Threw? {
      ErrorMessageNonEmpty(check.error);
    }
    if create.Threw? {
      ErrorMessageNonEmpty(create.error);
    }
  }

  class RegisterForm {
    var username: string
    var password: string
    var confirmPassword: string
    var error: string
    var loading: bool

    constructor ()
      ensures username == "" && password == "" && confirmPassword == ""
      ensures error == "" && !loading
    {
      username := "";
      password := "";
      confirmPassword := "";
      error := "";
      loading := false;
    }

    method SetUsername(value: string)
      modifies this`username
      ensures username == value
    {
      username := value;
    }

    method SetPassword(value: string)
      modifies this`password
      ensures password == value
    {
      password := value;
    }

    method SetConfirmPassword(value: string)
      modifies this`confirmPassword
      ensures confirmPassword == value
    {
      confirmPassword := value;
    }

    /** The body of the `try` block, returning early where the page does. */
    method RunChecks(check: Attempt<seq<User>>, create: Attempt<User>, newId: string)
      returns (requests: seq<Request>, effect: SignIn)
      requires error == ""
      modifies this`error
      ensures Registration(requests, effect, error)
           == Registered(username, password, confirmPassword, check, create, newId)
    {
      requests := [];
      effect := StayOnForm;
      if password != confirmPassword {
        error := MismatchMessage;
        return;
      }
      if Utf16Length(password) < MinPasswordLength {
        error := ShortMessage;
        return;
      }
      requests := requests + [FindUsername(username)];
      if check.Threw? {
        error := HandleApiError(check.error);
        return;
      }
      if UsernameTaken(check.data) {
        error := TakenMessage;
        return;
      }
      requests := requests + [CreateUserRequest(username, password, newId)];
      if create.Threw? {
        error := HandleApiError(create.error);
        return;
      }
      effect := SignedIn(create.data);
    }

    /** The start of `handleSubmit`: the error is cleared and the form shows
        the loading state while the checks and requests run. */
    method Begin()
      modifies this`error, this`loading
      ensures error == "" && loading
    {
      error := "";
      loading := true;
    }

    /** `handleSubmit`: begins, runs the checks and requests, and in every
        case ends not loading. */
    method HandleSubmit(check: Attempt<seq<User>>, create: Attempt<User>, newId: string)
      returns (requests: seq<Request>, effect: SignIn)
      modifies this`error, this`loading
      ensures Registration(requests, effect, error)
           == Registered(username, password, confirmPassword, check, create, newId)
      ensures !loading
    {
      Begin();
      requests, effect := RunChecks(check, create, newId);
      loading := false;
    }
  }
}
