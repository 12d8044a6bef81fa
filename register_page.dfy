/** The registration page's submit handler (src/app/register/page.tsx): the password
    confirmation, the request it sends, the error it shows and the `loggedIn` cookie. */
module RegisterPage {
  import opened Wrappers
  import opened Http

  /** The submitted form. */
  datatype Inputs = Inputs(userId: string, password: string, confirmPassword: string, keepLoggedIn: bool)

  /** The JSON body of the request to POST /api/register. */
  datatype RequestBody = RequestBody(userId: string, password: string)

  /** How the request ended: it threw (network or JSON decoding), or it answered with an
      `ok` flag and the `error` field of its JSON body. */
  datatype FetchOutcome = Threw | Answered(ok: bool, error: Option<string>)

  /** A browser cookie set by script: `expiresDays` None makes it a session cookie. */
  datatype ClientCookie = ClientCookie(name: string, value: string, expiresDays: Option<int>)

  const MismatchMessage: string := "Your passwords do not match."
  const FallbackMessage: string := "Registration failed. Please try again."

  /** The `loggedIn` cookie: kept for 365 days with "keep me logged in", else for the session. */
  function LoggedInCookie(keepLoggedIn: bool): ClientCookie {
    ClientCookie("loggedIn", "true", if keepLoggedIn then Some(365) else None)
  }

  /** What the page holds and has done: the shown error, the requests sent, the `loggedIn`
      cookie, and where the router was sent. */
  class Page {
    var formError: string
    var sent: seq<RequestBody>
    var cookie: Option<ClientCookie>
    var location: Option<string>

    constructor ()
      ensures formError == "" && sent == [] && cookie.None? && location.None?
    {
      formError := "";
      sent := [];
      cookie := None;
      location := None;
    }

    /** `onSubmit`, with the request's outcome as a parameter. */
    method OnSubmit(data: Inputs, outcome: FetchOutcome)
      modifies this
      ensures data.password != data.confirmPassword ==>
        && formError == MismatchMessage
        && sent == old(sent) && cookie == old(cookie) && location == old(location)
      ensures data.password == data.confirmPassword ==>
        && sent == old(sent) + [RequestBody(data.userId, data.password)]
        && cookie == Some(LoggedInCookie(data.keepLoggedIn))
        && formError == (match outcome
                         case Threw => FallbackMessage
                         case Answered(ok, error) =>
                           if ok then old(formError) else if Truthy(error) then error.value else FallbackMessage)
        && location == (if outcome.Answered? && outcome.ok then Some("/login") else old(location))
    {
      if data.password != data.confirmPassword {
        formError := MismatchMessage;
        return;
      }

      sent := sent + [RequestBody(data.userId, data.password)];
      match outcome {
        case Threw =>
          formError := FallbackMessage;
        case Answered(ok, error) =>
          if !ok {
            formError := if Truthy(error) then error.value else FallbackMessage;
          } else {
            location := Some("/login");
          }
      }

      if data.keepLoggedIn {
        cookie := Some(ClientCookie("loggedIn", "true", Some(365)));
      } else {
        cookie := Some(ClientCookie("loggedIn", "true", None));
      }
    }
  }
}
