/** The two places the user interface keeps who is logged in: the
    `loggedInUserId` of services/auth-service.ts with its login, register and
    delete calls, and the page-level `loggedInUserId` of main.ts with its
    login, register, logout and delete handlers. An id is whatever the server
    sent as `id`, so it is kept as a JavaScript value; null means nobody. */
module Sessions {
  import opened Wrappers
  import opened JsValues
  import opened Api

  /** services/auth-service.ts. */
  class AuthService {
    var loggedInUserId: Js

    constructor ()
      ensures loggedInUserId == Null
    {
      loggedInUserId := Null;
    }

    /** `getLoggedInUserId` (lines 6-8). */
    method GetLoggedInUserId() returns (id: Js)
      ensures id == loggedInUserId
    {
      id := loggedInUserId;
    }

    /** `setLoggedInUserId` (lines 10-12). */
    method SetLoggedInUserId(id: Js)
      modifies this
      ensures loggedInUserId == id
    {
      loggedInUserId := id;
    }

    /** `login` (lines 14-50). `postApi` has already thrown for a response
        that is not ok, so the method's own status check never runs and any
        failure ends in the catch. A truthy body with a truthy `id` stores
        that id and returns it; every other outcome returns null and leaves
        the stored id as it was. */
    method Login(reply: Fetched) returns (userId: Js)
      modifies this
      ensures var user := FetchJson(reply);
              user.Success? && Truthy(user.value) && Truthy(Get(user.value, "id")) ==>
                userId == Get(user.value, "id") && loggedInUserId == userId
      ensures var user := FetchJson(reply);
              !(user.Success? && Truthy(user.value) && Truthy(Get(user.value, "id"))) ==>
                userId == Null && loggedInUserId == old(loggedInUserId)
    {
      var user := FetchJson(reply);
      if user.Failure? {
        return Null;
      }
      if Truthy(user.value) && Truthy(Get(user.value, "id")) {
        userId := Get(user.value, "id");
        SetLoggedInUserId(userId);
        return;
      }
      userId := Null;
    }

    /** `register` (lines 52-67): true once the request went through, false
        when it threw; the session is untouched. */
    method Register(reply: Fetched) returns (ok: bool)
      ensures ok <==> reply.Responded? && IsOk(reply.response)
    {
      var resp := FetchApi(reply);
      ok := resp.Success?;
    }

    /** `deleteAccount` (lines 69-78): on success the stored id is cleared
        and the answer is true; on failure the answer is false and the id is
        kept. The id deleted need not be the one logged in. */
    method DeleteAccount(userId: string, reply: Fetched) returns (ok: bool)
      modifies this
      ensures ok <==> reply.Responded? && IsOk(reply.response)
      ensures ok ==> loggedInUserId == Null
      ensures !ok ==> loggedInUserId == old(loggedInUserId)
    {
      var resp := FetchApi(reply);
      if resp.Failure? {
        return false;
      }
      SetLoggedInUserId(Null);
      ok := true;
    }
  }

  /** What a handler of main.ts tells the user with `alert`. */
  const LoginFailedMessage: string := "Login failed. Please check your credentials."
  const LoginErrorMessage: string := "An error occurred during login."
  const LoggedOutMessage: string := "Logged out successfully."
  const NoUserMessage: string := "No user logged in."
  const DeletedMessage: string := "Account deleted successfully."
  const DeleteFailedMessage: string := "Failed to delete account."

  /** The page of main.ts: its own `loggedInUserId`, and whether the
      dashboard or the login section is shown. */
  class DashboardPage {
    var loggedInUserId: Js
    var dashboardShown: bool

    constructor ()
      ensures loggedInUserId == Null && !dashboardShown
    {
      loggedInUserId := Null;
      dashboardShown := false;
    }

    /** The login handler (lines 133-156): the id that the `login` of
        users.ts answers replaces the session, and a truthy one opens the
        dashboard; when that call throws, nothing changes. */
    method SubmitLogin(answer: Result<Js, Thrown>) returns (message: Option<string>)
      modifies this
      ensures answer.Failure? ==> message == Some(LoginErrorMessage) &&
                                  loggedInUserId == old(loggedInUserId) && dashboardShown == old(dashboardShown)
      ensures answer.Success? ==> loggedInUserId == answer.value
      ensures answer.Success? && Truthy(answer.value) ==> message == None && dashboardShown
      ensures answer.Success? && !Truthy(answer.value) ==>
                message == Some(LoginFailedMessage) && dashboardShown == old(dashboardShown)
    {
      if answer.Failure? {
        return Some(LoginErrorMessage);
      }
      loggedInUserId := answer.value;
      if Truthy(loggedInUserId) {
        dashboardShown := true;
        message := None;
      } else {
        message := Some(LoginFailedMessage);
      }
    }

    /** The register handler (lines 160-177) opens the dashboard whatever
        the registration did, without logging anybody in. */
    method SubmitRegister()
      modifies this
      ensures dashboardShown && loggedInUserId == old(loggedInUserId)
    {
      dashboardShown := true;
    }

    /** The logout handler (lines 181-187): nobody is logged in and the
        login section is back. */
    method Logout() returns (message: string)
      modifies this
      ensures loggedInUserId == Null && !dashboardShown && message == LoggedOutMessage
    {
      loggedInUserId := Null;
      dashboardShown := false;
      message := LoggedOutMessage;
    }

    /** The delete-account handler (lines 191-218). Without a logged-in user
        it is refused; when the user does not confirm nothing happens; the
        session ends only when the server answers ok, and any other outcome
        (a failed status or no answer) keeps it. */
    method DeleteAccount(confirmed: bool, reply: Fetched) returns (message: Option<string>)
      modifies this
      ensures !Truthy(old(loggedInUserId)) ==>
                message == Some(NoUserMessage) && loggedInUserId == old(loggedInUserId) &&
                dashboardShown == old(dashboardShown)
      ensures Truthy(old(loggedInUserId)) && !confirmed ==>
                message == None && loggedInUserId == old(loggedInUserId) && dashboardShown == old(dashboardShown)
      ensures Truthy(old(loggedInUserId)) && confirmed && reply.Responded? && IsOk(reply.response) ==>
                message == Some(DeletedMessage) && loggedInUserId == Null && !dashboardShown
      ensures Truthy(old(loggedInUserId)) && confirmed && !(reply.Responded? && IsOk(reply.response)) ==>
                message == Some(DeleteFailedMessage) && loggedInUserId == old(loggedInUserId) &&
                dashboardShown == old(dashboardShown)
      ensures loggedInUserId != old(loggedInUserId) ==> loggedInUserId == Null
    {
      if !Truthy(loggedInUserId) {
        return Some(NoUserMessage);
      }
      if !confirmed {
        return None;
      }
      if reply.Unreachable? || !IsOk(reply.response) {
        return Some(DeleteFailedMessage);
      }
      loggedInUserId := Null;
      dashboardShown := false;
      message := Some(DeletedMessage);
    }
  }
}
