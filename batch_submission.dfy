/** The exporter's batch submission form: editing the fields, toggling
    certifications, and submitting the batch. */
module BatchSubmission {
  import opened Common
  import opened Listing
  import BatchController

  /** The text inputs of the form; each edit names one of them. */
  datatype Field = ProductType | Quantity | Unit | Location | Destination | Notes

  type Form = map<Field, string>

  /** Every input has a value. */
  predicate Complete(form: Form) {
    forall f: Field :: f in form
  }

  const RequiredMessage := "Please fill all required fields"
  const SubmitFallback := "Failed to submit batch"

  // ---------------------------------------------------------------------------
  // Certifications

  /** `list.filter(c => c !== cert)`. */
  function Without(list: seq<string>, cert: string): (r: seq<string>)
    ensures forall x :: x in r <==> x in list && x != cert
    ensures |r| <= |list|
  {
    if list == [] then []
    else if list[0] == cert then Without(list[1..], cert)
    else [list[0]] + Without(list[1..], cert)
  }

  /** A ticked certification is removed wherever it stands; an unticked one is
      appended at the end. */
  function Toggle(list: seq<string>, cert: string): (r: seq<string>)
    ensures cert !in list ==> r == list + [cert]
    ensures cert in list ==> forall x :: x in r <==> x in list && x != cert
  {
    if cert in list then Without(list, cert) else list + [cert]
  }

  /** Toggling flips the membership of the toggled certification and of
      nothing else. */
  lemma ToggleFlips(list: seq<string>, cert: string)
    ensures cert in Toggle(list, cert) <==> cert !in list
    ensures forall x :: x != cert ==> (x in Toggle(list, cert) <==> x in list)
  {
  }

  lemma {:induction false} WithoutDistinct(list: seq<string>, cert: string)
    requires NoDuplicates(list)
    ensures NoDuplicates(Without(list, cert))
  {
    if list != [] {
      assert NoDuplicates(list[1..]) by {
        forall i, j | 0 <= i < j < |list[1..]| ensures list[1..][i] != list[1..][j] {
          assert list[1..][i] == list[i + 1] && list[1..][j] == list[j + 1];
        }
      }
      WithoutDistinct(list[1..], cert);
      var rest := Without(list[1..], cert);
      if list[0] != cert {
        assert list[0] !in list[1..] by {
          forall m | 0 <= m < |list[1..]| ensures list[1..][m] != list[0] {
            assert list[1..][m] == list[m + 1];
          }
        }
        var r := [list[0]] + rest;
        forall i, j | 0 <= i < j < |r| ensures r[i] != r[j] {
          assert r[j] == rest[j - 1];
          if i > 0 { assert r[i] == rest[i - 1]; }
        }
      }
    }
  }

  /** A list without repeats stays without repeats. */
  lemma ToggleDistinct(list: seq<string>, cert: string)
    requires NoDuplicates(list)
    ensures NoDuplicates(Toggle(list, cert))
  {
    if cert in list {
      WithoutDistinct(list, cert);
    } else {
      var r := list + [cert];
      forall i, j | 0 <= i < j < |r| ensures r[i] != r[j] {
        if j == |list| { assert r[i] == list[i]; }
      }
    }
  }

  lemma {:induction false} WithoutAbsent(list: seq<string>, cert: string)
    requires cert !in list
    ensures Without(list, cert) == list
  {
    if list != [] {
      WithoutAbsent(list[1..], cert);
      assert list == [list[0]] + list[1..];
    }
  }

  lemma {:induction false} WithoutAppend(a: seq<string>, b: seq<string>, cert: string)
    ensures Without(a + b, cert) == Without(a, cert) + Without(b, cert)
  {
    if a == [] {
      assert a + b == b;
    } else {
      assert (a + b)[1..] == a[1..] + b;
      WithoutAppend(a[1..], b, cert);
    }
  }

  /** Toggling twice restores which certifications are ticked, and restores
      the list itself when the certification was not ticked. */
  lemma ToggleTwice(list: seq<string>, cert: string)
    ensures forall x :: x in Toggle(Toggle(list, cert), cert) <==> x in list
    ensures cert !in list ==> Toggle(Toggle(list, cert), cert) == list
  {
    ToggleFlips(list, cert);
    ToggleFlips(Toggle(list, cert), cert);
    if cert !in list {
      WithoutAppend(list, [cert], cert);
      WithoutAbsent(list, cert);
      assert Without([cert], cert) == [];
    }
  }

  // ---------------------------------------------------------------------------
  // The payload

  /** The request body. The quantity is the input's text; its conversion to a
      number is a parameter of the link to the server below. */
  datatype Payload = Payload(
    productType: string,
    quantity: string,
    unit: string,
    location: string,
    destination: string,
    notes: Option<string>)

  predicate RequiredFilled(form: Form)
    requires Complete(form)
  {
    form[ProductType] != "" && form[Quantity] != "" && form[Location] != "" && form[Destination] != ""
  }

  /** Each column comes from its input under the server's name, and empty
      notes are sent as null. */
  function PayloadOf(form: Form): (p: Payload)
    requires Complete(form)
    ensures p.productType == form[ProductType] && p.quantity == form[Quantity] && p.unit == form[Unit]
    ensures p.location == form[Location] && p.destination == form[Destination]
    ensures p.notes.None? <==> form[Notes] == ""
    ensures p.notes.Some? ==> p.notes.value == form[Notes]
  {
    Payload(form[ProductType], form[Quantity], form[Unit], form[Location], form[Destination],
            if form[Notes] != "" then Some(form[Notes]) else None)
  }

  /** The body the server receives, given the number the quantity text
      converts to (None when it is not a number). */
  function BodyOf(p: Payload, quantity: Option<int>): BatchController.BatchBody {
    BatchController.BatchBody(Some(p.productType), quantity, Some(p.unit), Some(p.location),
                              Some(p.destination), p.notes)
  }

  /** The form's `|| null` on notes is the server's, so notes are stored as
      the form sent them. */
  lemma NotesAgreeWithServer(form: Form, quantity: Option<int>)
    requires Complete(form)
    ensures BatchController.NotesOrNull(BodyOf(PayloadOf(form), quantity).notes) == PayloadOf(form).notes
  {
  }

  /** The server accepts exactly the bodies of filled-in forms whose quantity
      converts to a non-zero number, so a filled form with quantity "0" still
      comes back with 400. */
  lemma RequiredAgreesWithServer(form: Form, quantity: Option<int>)
    requires Complete(form)
    ensures BatchController.HasRequiredFields(BodyOf(PayloadOf(form), quantity)) <==>
      form[ProductType] != "" && form[Location] != "" && form[Destination] != "" && TruthyNumber(quantity)
    ensures RequiredFilled(form) && TruthyNumber(quantity) ==>
      BatchController.HasRequiredFields(BodyOf(PayloadOf(form), quantity))
  {
  }

  // ---------------------------------------------------------------------------
  // The page

  /** How the create call ended: created, or thrown with the reply's
      `error` and `message` and the error's own message. */
  datatype SubmitOutcome =
    | Created
    | Threw(dataError: Option<string>, dataMessage: Option<string>, errMessage: Option<string>)

  class SubmissionPage {
    var formData: Form
    var certifications: seq<string>
    var error: Option<string>
    var success: bool
    /** The payloads sent to the server, oldest first. */
    var sent: seq<Payload>

    ghost predicate Valid()
      reads this
    {
      Complete(formData)
    }

    constructor ()
      ensures Valid() && certifications == [] && error.None? && !success && sent == []
      ensures formData[Unit] == "kg"
      ensures forall f :: f != Unit ==> formData[f] == ""
    {
      formData := map[ProductType := "", Quantity := "", Unit := "kg", Location := "",
                      Destination := "", Notes := ""];
      certifications, error, success, sent := [], None, false, [];
      new;
      forall f: Field ensures f in formData {
        match f
        case ProductType =>
        case Quantity =>
        case Unit =>
        case Location =>
        case Destination =>
        case Notes =>
      }
    }

    /** An edit changes the named input and nothing else. */
    method HandleChange(name: Field, value: string)
      requires Valid()
      modifies this
      ensures Valid()
      ensures formData[name] == value
      ensures forall f :: f != name ==> formData[f] == old(formData[f])
      ensures certifications == old(certifications) && error == old(error)
      ensures success == old(success) && sent == old(sent)
    {
      formData := formData[name := value];
    }

    method HandleCertification(cert: string)
      requires Valid()
      modifies this
      ensures Valid()
      ensures certifications == Toggle(old(certifications), cert)
      ensures formData == old(formData) && error == old(error) && success == old(success) && sent == old(sent)
    {
      certifications := Toggle(certifications, cert);
    }

    /** An incomplete form is refused without a request; otherwise the payload
        is sent, and the page shows success or the first message of the
        failure. */
    method HandleSubmit(outcome: SubmitOutcome)
      requires Valid()
      modifies this
      ensures Valid() && formData == old(formData) && certifications == old(certifications)
      ensures !RequiredFilled(formData) ==>
        error == Some(RequiredMessage) && !success && sent == old(sent)
      ensures RequiredFilled(formData) ==> sent == old(sent) + [PayloadOf(formData)]
      ensures RequiredFilled(formData) && outcome.Created? ==> success && error.None?
      ensures RequiredFilled(formData) && outcome.Threw? ==>
        !success &&
        error == Some(FirstText([outcome.dataError, outcome.dataMessage, outcome.errMessage], SubmitFallback))
    {
      error := None;
      success := false;
      if !RequiredFilled(formData) {
        error := Some(RequiredMessage);
        return;
      }
      sent := sent + [PayloadOf(formData)];
      match outcome {
        case Created =>
          success := true;
        case Threw(dataError, dataMessage, errMessage) =>
          error := Some(FirstText([dataError, dataMessage, errMessage], SubmitFallback));
      }
    }
  }
}
