/**
 * The sign-up page: six text fields, a busy flag, one error line, and the
 * submit handler that checks the password pair before sending the
 * registration. The server's answer is a parameter of the handler.
 */
module RegisterPage {
  import opened Wrappers
  import opened AuthClientStore

  const RegisterFields: set<string> := {"email", "username", "password", "confirmPassword", "firstName", "lastName"}

  /** The body of the registration request. */
  datatype RegisterRequest = RegisterRequest(
    email: string,
    username: string,
    password: string,
    firstName: Option<string>,
    lastName: Option<string>)

  /** How the request ended: an answer, whose data may carry the new user,
      or an exception, whose response body may carry an `error` text. */
  datatype ApiOutcome = Answered(user: Option<ClientUser>) | Threw(error: Option<string>)

  const FallbackError := "Registration failed. Please try again."

  /** An optional name: an empty field is left out of the request. */
  function Optional(s: string): (r: Option<string>)
    ensures r.None? <==> s == ""
    ensures r.Some? ==> r.value == s
  {
    if s == "" then None else Some(s)
  }

  function RequestOf(form: map<string, string>): RegisterRequest
    requires form.Keys == RegisterFields
  {
    RegisterRequest(form["email"], form["username"], form["password"],
                    Optional(form["firstName"]), Optional(form["lastName"]))
  }

  /** The message of a refused submission, if the form is refused: a
      mismatch is reported before a short password. */
  function Refusal(form: map<string, string>): (r: Option<string>)
    requires form.Keys == RegisterFields
    ensures form["password"] != form["confirmPassword"] ==> r == Some("Passwords do not match")
    ensures form["password"] == form["confirmPassword"] && |form["password"]| < 6 ==>
              r == Some("Password must be at least 6 characters")
    ensures r.None? <==> form["password"] == form["confirmPassword"] && |form["password"]| >= 6
  {
    if form["password"] != form["confirmPassword"] then Some("Passwords do not match")
    else if |form["password"]| < 6 then Some("Password must be at least 6 characters")
    else None
  }

  /** The error line after a failed request: the server's text when it is
      non-empty, otherwise the fallback. */
  function ErrorText(serverError: Option<string>): (r: string)
    ensures r != ""
    ensures serverError.Some? && serverError.value != "" ==> r == serverError.value
  {
    if serverError.Some? && serverError.value != "" then serverError.value else FallbackError
  }

  class Page {
    var formData: map<string, string>
    var isLoading: bool
    var error: string
    /** The registration requests sent so far. */
    var sent: seq<RegisterRequest>
    /** Where the page has navigated, if anywhere. */
    var location: Option<string>
    const store: AuthStore

    ghost predicate Valid()
      reads this
    {
      formData.Keys == RegisterFields
    }

    constructor (store: AuthStore)
      ensures Valid() && this.store == store
      ensures forall k :: k in formData ==> formData[k] == ""
      ensures !isLoading && error == "" && sent == [] && location == None
    {
      formData := map k | k in RegisterFields :: "";
      isLoading := false;
      error := "";
      sent := [];
      location := None;
      this.store := store;
    }

    /** `handleChange`, as the inputs call it: one field changes and the
        error line is cleared. */
    method HandleChange(field: string, value: string)
      requires Valid() && field in RegisterFields
      modifies this`formData, this`error
      ensures Valid()
      ensures formData == old(formData)[field := value] && error == ""
    {
      formData := formData[field := value];
      error := "";
    }

    /** `handleRegister`. A refused form sends nothing and shows the
        refusal. Otherwise one request is sent; an answer stores the
        returned user, if any, and goes to the dashboard; an exception shows
        its text. The page is never left busy. */
    method HandleRegister(outcome: ApiOutcome)
      requires Valid()
      modifies this`isLoading, this`error, this`sent, this`location, store
      ensures Valid() && formData == old(formData)
      ensures !isLoading
      ensures Refusal(formData).Some? ==>
                && error == Refusal(formData).value
                && sent == old(sent) && location == old(location) && store.user == old(store.user)
      ensures Refusal(formData).None? ==>
                && sent == old(sent) + [RequestOf(formData)]
                && match outcome
                   case Answered(u) =>
                     && error == "" && location == Some("/dashboard")
                     && store.user == (if u.Some? then u else old(store.user))
                   case Threw(e) =>
                     error == ErrorText(e) && location == old(location) && store.user == old(store.user)
    {
      isLoading := true;
      error := "";
      if formData["password"] != formData["confirmPassword"] {
        error := "Passwords do not match";
        isLoading := false;
        return;
      }
      if |formData["password"]| < 6 {
        error := "Password must be at least 6 characters";
        isLoading := false;
        return;
      }
      var request := RegisterRequest(formData["email"], formData["username"], formData["password"],
                                     if formData["firstName"] == "" then None else Some(formData["firstName"]),
                                     if formData["lastName"] == "" then None else Some(formData["lastName"]));
      sent := sent + [request];
      match outcome {
        case Answered(u) =>
          if u.Some? {
            store.SetUser(u);
          }
          location := Some("/dashboard");
        case Threw(e) =>
          error := if e.Some? && e.value != "" then e.value else FallbackError;
      }
      isLoading := false;
    }
  }
}
