/** The registration form: editing, field validation, and the register call. */
module RegisterPage {
  import opened Common

  datatype Field = Name | Email | Password | ConfirmPassword | Role | Organization | Phone

  /** A validation error belongs to one input or to the form as a whole. */
  datatype ErrorKey = On(field: Field) | FormKey

  type Form = map<Field, string>

  predicate Complete(form: Form) {
    forall f: Field :: f in form
  }

  const RegisterFallback := "Registration failed"
  const LoginPath := "/login"

  /** Whether an input fails its check. Role and phone have none; the
      confirmation fails when it differs from the password. */
  predicate Fails(form: Form, f: Field)
    requires Complete(form)
  {
    match f
    case Name => form[Name] == ""
    case Email => form[Email] == ""
    case Password => form[Password] == ""
    case ConfirmPassword => form[Password] != form[ConfirmPassword]
    case Organization => form[Organization] == ""
    case Role => false
    case Phone => false
  }

  function Message(f: Field): string {
    match f
    case Name => "Name is required"
    case Email => "Email is required"
    case Password => "Password is required"
    case ConfirmPassword => "Passwords do not match"
    case Organization => "Organization is required"
    case Role => ""
    case Phone => ""
  }

  /** What a registrable form is, stated directly. */
  predicate Acceptable(form: Form)
    requires Complete(form)
  {
    form[Name] != "" && form[Email] != "" && form[Password] != "" &&
    form[Password] == form[ConfirmPassword] && form[Organization] != ""
  }

  /** The per-input checks together accept exactly the registrable forms. */
  lemma ChecksMeanAcceptable(form: Form)
    requires Complete(form)
    ensures Acceptable(form) <==> forall f :: !Fails(form, f)
  {
    if !Acceptable(form) {
      if form[Name] == "" { assert Fails(form, Name); }
      else if form[Email] == "" { assert Fails(form, Email); }
      else if form[Password] == "" { assert Fails(form, Password); }
      else if form[Password] != form[ConfirmPassword] { assert Fails(form, ConfirmPassword); }
      else { assert Fails(form, Organization); }
    }
  }

  /** The phone number and the role never decide whether a form passes. */
  lemma PhoneAndRoleUnchecked(form: Form, phone: string, role: string)
    requires Complete(form)
    ensures Complete(form[Phone := phone][Role := role])
    ensures Acceptable(form[Phone := phone][Role := role]) == Acceptable(form)
  {
    var g := form[Phone := phone][Role := role];
    assert forall f :: f != Phone && f != Role ==> g[f] == form[f];
  }

  /** The body of the register call: every input but the confirmation. */
  datatype Request = Request(name: string, email: string, password: string, role: string,
                             organization: string, phone: string)

  function RequestOf(form: Form): Request
    requires Complete(form)
  {
    Request(form[Name], form[Email], form[Password], form[Role], form[Organization], form[Phone])
  }

  /** The submit handler's error object, filled input by input. */
  method CollectErrors(form: Form) returns (errors: map<ErrorKey, string>)
    requires Complete(form)
    ensures forall k :: k in errors <==> k.On? && Fails(form, k.field)
    ensures forall k :: k in errors ==> errors[k] == Message(k.field)
  {
    errors := map[];
    if form[Name] == "" { errors := errors[On(Name) := Message(Name)]; }
    if form[Email] == "" { errors := errors[On(Email) := Message(Email)]; }
    if form[Password] == "" { errors := errors[On(Password) := Message(Password)]; }
    if form[Password] != form[ConfirmPassword] {
      errors := errors[On(ConfirmPassword) := Message(ConfirmPassword)];
    }
    if form[Organization] == "" { errors := errors[On(Organization) := Message(Organization)]; }
  }

  /** An error object without keys is what a registrable form produces. */
  lemma EmptyErrorsAcceptable(form: Form, errors: map<ErrorKey, string>)
    requires Complete(form)
    requires forall k :: k in errors <==> k.On? && Fails(form, k.field)
    ensures |errors| == 0 <==> Acceptable(form)
  {
    ChecksMeanAcceptable(form);
    if |errors| != 0 {
      var k :| k in errors;
      assert Fails(form, k.field);
    } else {
      assert errors == map[];
      forall f ensures !Fails(form, f) {
        assert On(f) !in errors;
      }
    }
  }

  datatype RegisterOutcome = Registered | Threw(message: Option<string>)

  class RegisterForm {
    var formData: Form
    var validationErrors: map<ErrorKey, string>
    var calls: seq<Request>
    var navigated: Option<string>

    ghost predicate Valid()
      reads this
    {
      Complete(formData)
    }

    constructor ()
      ensures Valid() && validationErrors == map[] && calls == [] && navigated.None?
      ensures formData[Role] == "exporter"
      ensures forall f :: f != Role ==> formData[f] == ""
    {
      formData := map[Name := "", Email := "", Password := "", ConfirmPassword := "",
                      Role := "exporter", Organization := "", Phone := ""];
      validationErrors, calls, navigated := map[], [], None;
      new;
      forall f: Field ensures f in formData {
        match f
        case Name =>
        case Email =>
        case Password =>
        case ConfirmPassword =>
        case Role =>
        case Organization =>
        case Phone =>
      }
    }

    /** An edit sets the input and blanks that input's error, and nothing
        else. */
    method HandleChange(name: Field, value: string)
      requires Valid()
      modifies this
      ensures Valid()
      ensures formData == old(formData)[name := value]
      ensures validationErrors == old(validationErrors)[On(name) := ""]
      ensures calls == old(calls) && navigated == old(navigated)
    {
      formData := formData[name := value];
      validationErrors := validationErrors[On(name) := ""];
    }

    /** The errors are collected input by input; any error cancels the call,
        and only a form with none is sent. */
    method HandleSubmit(outcome: RegisterOutcome)
      requires Valid()
      modifies this
      ensures Valid() && formData == old(formData)
      ensures !Acceptable(formData) ==>
        && (forall k :: k in validationErrors <==> k.On? && Fails(formData, k.field))
        && (forall k :: k in validationErrors ==> validationErrors[k] == Message(k.field))
        && calls == old(calls) && navigated == old(navigated)
      ensures Acceptable(formData) ==> calls == old(calls) + [RequestOf(formData)]
      ensures Acceptable(formData) && outcome.Registered? ==>
        navigated == Some(LoginPath) && validationErrors == old(validationErrors)
      ensures Acceptable(formData) && outcome.Threw? ==>
        validationErrors == map[FormKey := FirstText([outcome.message], RegisterFallback)] &&
        navigated == old(navigated)
    {
      var errors := CollectErrors(formData);
      EmptyErrorsAcceptable(formData, errors);
      if |errors| > 0 {
        validationErrors := errors;
        return;
      }
      calls := calls + [RequestOf(formData)];
      match outcome {
        case Registered =>
          navigated := Some(LoginPath);
        case Threw(message) =>
          validationErrors := map[FormKey := FirstText([message], RegisterFallback)];
      }
    }
  }
}
