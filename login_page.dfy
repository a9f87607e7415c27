/** The login form: editing, field validation, the login call and the
    dashboard each role is sent to. */
module LoginPage {
  import opened Common

  datatype Field = Email | Password

  datatype ErrorKey = On(field: Field) | FormKey

  type Form = map<Field, string>

  predicate Complete(form: Form) {
    forall f: Field :: f in form
  }

  const InvalidCredentials := "Invalid email or password"

  /** The roles with a dashboard of their own. */
  const DashboardRoles: set<string> := {"exporter", "qa_agency", "importer", "admin"}

  function Message(f: Field): string {
    match f
    case Email => "Email is required"
    case Password => "Password is required"
  }

  /** The route the switch on the signed-in user's role navigates to; an
      absent role takes the default branch. */
  function RouteForRole(role: Option<string>): (path: string)
    ensures path != "/" <==> role.Some? && role.value in DashboardRoles
  {
    match role
    case Some(r) =>
      if r == "exporter" then "/exporter/dashboard"
      else if r == "qa_agency" then "/qa-agency/dashboard"
      else if r == "importer" then "/importer/dashboard"
      else if r == "admin" then "/admin/dashboard"
      else "/"
    case None => "/"
  }

  /** Each dashboard belongs to one role. */
  lemma RoutesDistinct(a: string, b: string)
    requires a in DashboardRoles && b in DashboardRoles && a != b
    ensures RouteForRole(Some(a)) != RouteForRole(Some(b))
  {
  }

  /** The login body: the two inputs as typed. */
  datatype Request = Request(email: string, password: string)

  /** The login call returns the user's role, or throws. */
  datatype LoginOutcome = LoggedIn(role: Option<string>) | Threw

  class LoginForm {
    var formData: Form
    var validationErrors: map<ErrorKey, string>
    var calls: seq<Request>
    var navigated: Option<string>

    ghost predicate Valid()
      reads this
    {
      Complete(formData)
    }

    constructor ()
      ensures Valid() && formData[Email] == "" && formData[Password] == ""
      ensures validationErrors == map[] && calls == [] && navigated.None?
    {
      formData := map[Email := "", Password := ""];
      validationErrors, calls, navigated := map[], [], None;
      new;
      forall f: Field ensures f in formData {
        match f
        case Email =>
        case Password =>
      }
    }

    method HandleChange(name: Field, value: string)
      requires Valid()
      modifies this
      ensures Valid()
      ensures formData == old(formData)[name := value]
      ensures validationErrors == old(validationErrors)[On(name) := ""]
      ensures calls == old(calls) && navigated == old(navigated)
    {
      formData := formData[name := value];
      validationErrors := validationErrors[On(name) := ""];
    }

    /** A missing email or password each get their own error and stop the
        call; otherwise the user is sent to their role's dashboard, or the
        form reports invalid credentials. */
    method HandleSubmit(outcome: LoginOutcome)
      requires Valid()
      modifies this
      ensures Valid() && formData == old(formData)
      ensures formData[Email] == "" || formData[Password] == "" ==>
        && (forall k :: k in validationErrors <==> k.On? && formData[k.field] == "")
        && (forall k :: k in validationErrors ==> validationErrors[k] == Message(k.field))
        && calls == old(calls) && navigated == old(navigated)
      ensures formData[Email] != "" && formData[Password] != "" ==>
        calls == old(calls) + [Request(formData[Email], formData[Password])]
      ensures formData[Email] != "" && formData[Password] != "" && outcome.LoggedIn? ==>
        navigated == Some(RouteForRole(outcome.role)) && validationErrors == old(validationErrors)
      ensures formData[Email] != "" && formData[Password] != "" && outcome.Threw? ==>
        validationErrors == map[FormKey := InvalidCredentials] && navigated == old(navigated)
    {
      var errors: map<ErrorKey, string> := map[];
      if formData[Email] == "" { errors := errors[On(Email) := Message(Email)]; }
      if formData[Password] == "" { errors := errors[On(Password) := Message(Password)]; }
      assert On(Email) in errors <==> formData[Email] == "";
      assert On(Password) in errors <==> formData[Password] == "";
      forall k ensures k in errors <==> k.On? && formData[k.field] == "" {
        if k.On? {
          match k.field
          case Email =>
          case Password =>
        }
      }
      if |errors| > 0 {
        validationErrors := errors;
        return;
      }
      assert errors == map[];
      calls := calls + [Request(formData[Email], formData[Password])];
      match outcome {
        case LoggedIn(role) =>
          navigated := Some(RouteForRole(role));
        case Threw =>
          validationErrors := map[FormKey := InvalidCredentials];
      }
    }
  }
}
