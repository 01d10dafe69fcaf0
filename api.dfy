/** The REST client: what the application does with a response once the
    transport has produced one, and how it turns a failed request into a
    message for the user. The HTTP exchange itself is an input: a call either
    answers with the response body or throws an error. */
module Api {
  import opened Wrappers
  import opened Text
  import opened Entities

  /** An HTTP response carried by an error: its status code and reason. */
  datatype HttpResponse = HttpResponse(status: nat, statusText: string)

  /** A rejected request as the HTTP library reports it: the response if the
      server answered, whether a request went out, and the error message. */
  datatype HttpError = HttpError(response: Option<HttpResponse>, request: bool, message: string)

  /** The result of awaiting one request. */
  datatype Attempt<T> = Answered(data: T) | Threw(error: HttpError)

  /** The requests the pages issue, in the order they issue them. */
  datatype Request =
    | FindUser(username: string, password: string)
    | FindUsername(username: string)
    | PostUser(body: map<string, string>)
    | PostJob(body: map<string, string>)

  const NetworkMessage: string := "Network error: " + "Unable to connect to server. Make sure JSON Server is running."

  /** `handleAPIError`. */
  function HandleApiError(error: HttpError): (message: string)
    ensures error.response.Some? ==>
      message == "Server error: " + NatToDecimal(error.response.value.status) + " " + error.response.value.statusText
    ensures error.response.None? && error.request ==> message == NetworkMessage
    ensures error.response.None? && !error.request ==> message == "Error: " + error.message
  {
    if error.response.Some? then
      "Server error: " + NatToDecimal(error.response.value.status) + " " + error.response.value.statusText
    else if error.request then
      NetworkMessage
    else
      "Error: " + error.message
  }

  /** The three kinds of failure the message distinguishes. */
  datatype ErrorKind = ServerError | NetworkError | RequestError

  function KindOf(error: HttpError): ErrorKind {
    if error.response.Some? then ServerError
    else if error.request then NetworkError
    else RequestError
  }

  /** Reads the kind of failure back from a message. */
  function KindOfMessage(message: string): ErrorKind {
    if StartsWith(message, "Server error: ") then ServerError
    else if message == NetworkMessage then NetworkError
    else RequestError
  }

  /** The classification is total and its three messages never collide: the
      message alone tells which kind of failure happened. */
  lemma ErrorMessageClassifies(error: HttpError)
    ensures KindOfMessage(HandleApiError(error)) == KindOf(error)
  {
    var m := HandleApiError(error);
    if error.response.None? {
      if error.request {
        assert m[0] == 'N';
      } else {
        assert m[0] == 'E' && m[0] != NetworkMessage[0];
      }
      StartsWithHead(m, "Server error: ");
    }
  }

  /** Every failure produces a message to show. */
  lemma ErrorMessageNonEmpty(error: HttpError)
    ensures HandleApiError(error) != ""
  {
    var m := HandleApiError(error);
    if error.response.None? && error.request {
      assert m[0] == 'N';
    }
  }

  /** The status code can be read back from a server-error message: its
      digits follow the prefix and end at the space before the reason. */
  lemma ServerErrorCarriesStatus(error: HttpError)
    requires error.response.Some?
    ensures
      var m, digits := HandleApiError(error), NatToDecimal(error.response.value.status);
      && |m| > 14 + |digits| && m[14..14 + |digits|] == digits && m[14 + |digits|] == ' '
      && DecimalValue(digits) == error.response.value.status
  {
    var digits := NatToDecimal(error.response.value.status);
    var m := HandleApiError(error);
    assert m == "Server error: " + digits + " " + error.response.value.statusText;
    assert m[14..14 + |digits|] == digits;
    DecimalRoundTrip(error.response.value.status);
  }

  /** Two server errors with the same message had the same status code and
      the same reason: the message determines them. */
  lemma ServerErrorStatusDetermined(e1: HttpError, e2: HttpError)
    requires e1.response.Some? && e2.response.Some?
    requires HandleApiError(e1) == HandleApiError(e2)
    ensures e1.response.value == e2.response.value
  {
    var r1, r2 := e1.response.value, e2.response.value;
    var d1, d2 := NatToDecimal(r1.status), NatToDecimal(r2.status);
    var m := HandleApiError(e1);
    assert m == "Server error: " + (d1 + (" " + r1.statusText));
    assert m == "Server error: " + (d2 + (" " + r2.statusText));
    var rest := m[14..];
    assert rest == d1 + (" " + r1.statusText) && rest == d2 + (" " + r2.statusText);
    LeadingDigitsOf(d1, " " + r1.statusText);
    LeadingDigitsOf(d2, " " + r2.statusText);
    assert d1 == rest[..|d1|] == d2;
    assert r1.statusText == rest[|d1| + 1..] == r2.statusText;
    DecimalRoundTrip(r1.status);
    DecimalRoundTrip(r2.status);
  }

  /** `userAPI.login`: the first user the lookup returns, or null. */
  function LoginResult(data: seq<User>): (user: Option<User>)
    ensures user.Some? <==> |data| > 0
    ensures user.Some? ==> user.value == data[0] && user.value in data
  {
    if |data| > 0 then Some(data[0]) else None
  }

  /** `userAPI.checkUsername`: whether the lookup returned anything. */
  function UsernameTaken(data: seq<User>): (taken: bool)
    ensures taken <==> exists u :: u in data
  {
    assert |data| > 0 ==> data[0] in data;
    |data| > 0
  }

  /** `{ ...fields, id: Date.now().toString() }`: the body of a create
      request. `id` is written last, so it wins over any `id` in `fields`;
      every other field is sent as given. */
  function WithGeneratedId(fields: map<string, string>, id: string): (body: map<string, string>)
    ensures body.Keys == fields.Keys + {"id"}
    ensures body["id"] == id
    ensures forall k :: k in fields && k != "id" ==> body[k] == fields[k]
  {
    fields["id" := id]
  }

  /** The fields of a new user, as the registration page passes them. */
  function UserFields(username: string, password: string): map<string, string> {
    map["username" := username, "password" := password]
  }

  /** `userAPI.createUser`: the request it sends. */
  function CreateUserRequest(username: string, password: string, id: string): (r: Request)
    ensures r.PostUser? && r.body.Keys == {"username", "password", "id"}
    ensures r.body["username"] == username && r.body["password"] == password && r.body["id"] == id
  {
    PostUser(WithGeneratedId(UserFields(username, password), id))
  }

  /** `jobAPI.createJob`: the request it sends for the job fields `fields`
      (which include the owner's `userId`). */
  function CreateJobRequest(fields: map<string, string>, id: string): (r: Request)
    ensures r.PostJob? && r.body == WithGeneratedId(fields, id)
  {
    PostJob(WithGeneratedId(fields, id))
  }

  /** `jobAPI.getJob`: the job the server answered with, or null whenever
      the request threw (a 404 included). */
  function GetJobResult(call: Attempt<Job>): (job: Option<Job>)
    ensures job.None? <==> call.Threw?
    ensures job.Some? ==> job.value == call.data
  {
    match call
    case Answered(data) => Some(data)
    case Threw(_) => None
  }
}
