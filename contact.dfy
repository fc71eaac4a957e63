/** The contact form: five text fields, a loading flag while a message is
    being sent and a submitted flag once it has been. Sending is simulated by
    a timer; its completion is the event `TimerFires`. */
module Contact {

  /** The form's fields, by their `name` attribute. */
  datatype Field = Name | Email | Subject | Department | Message

  datatype FormData = FormData(name: string, email: string, subject: string, department: string, message: string)

  /** The form as it starts and as "Send Another Message" leaves it. */
  const EmptyForm := FormData("", "", "", "", "")

  /** The value of one field. */
  function Get(f: FormData, k: Field): string
  {
    match k
    case Name => f.name
    case Email => f.email
    case Subject => f.subject
    case Department => f.department
    case Message => f.message
  }

  /** `{ ...prev, [k]: v }`: field `k` takes the value `v`, the other four
      keep theirs. */
  function Set(f: FormData, k: Field, v: string): (r: FormData)
    ensures Get(r, k) == v
    ensures forall j :: j != k ==> Get(r, j) == Get(f, j)
  {
    match k
    case Name => f.(name := v)
    case Email => f.(email := v)
    case Subject => f.(subject := v)
    case Department => f.(department := v)
    case Message => f.(message := v)
  }

  /** Two forms that agree on every field are the same form. */
  lemma FieldsDetermineForm(f: FormData, g: FormData)
    requires forall k :: Get(f, k) == Get(g, k)
    ensures f == g
  {
    assert Get(f, Name) == Get(g, Name) && Get(f, Email) == Get(g, Email);
    assert Get(f, Subject) == Get(g, Subject) && Get(f, Department) == Get(g, Department);
    assert Get(f, Message) == Get(g, Message);
  }

  /** Writing a field's own value back changes nothing, and a second write to
      the same field replaces the first. */
  lemma SetLaws(f: FormData, k: Field, a: string, b: string)
    ensures Set(f, k, Get(f, k)) == f
    ensures Set(Set(f, k, a), k, b) == Set(f, k, b)
  {
    FieldsDetermineForm(Set(f, k, Get(f, k)), f);
    FieldsDetermineForm(Set(Set(f, k, a), k, b), Set(f, k, b));
  }

  /** Every field of the empty form is "". */
  lemma EmptyFormFields(k: Field)
    ensures Get(EmptyForm, k) == ""
  {
  }

  /** The contact form's state. */
  class ContactForm {
    var form: FormData
    var loading: bool
    var submitted: bool

    /** A message is never both being sent and already sent. */
    ghost predicate Valid()
      reads this
    {
      !(loading && submitted)
    }

    constructor ()
      ensures Valid()
      ensures form == EmptyForm && !loading && !submitted
    {
      form := EmptyForm;
      loading := false;
      submitted := false;
    }

    /** The form is on screen until a message has been sent; after that the
        "Message Sent!" panel replaces it. */
    function FormShown(): bool
      reads this
    {
      !submitted
    }

    /** The submit button is disabled while sending. */
    function SubmitEnabled(): bool
      reads this
    {
      !loading
    }

    /** While a message is being sent, the form stays on screen with its
        button disabled: the "Message Sent!" panel never shows during a
        send. */
    lemma SendingShowsForm()
      requires Valid()
      ensures loading ==> FormShown() && !SubmitEnabled()
    {
    }

    /** An edit in the field named `k`. */
    method HandleChange(k: Field, value: string)
      requires Valid()
      modifies this
      ensures Valid()
      ensures form == Set(old(form), k, value)
      ensures loading == old(loading) && submitted == old(submitted)
    {
      form := Set(form, k, value);
    }

    /** A submit of the shown form through its enabled button: sending
        starts, and the form keeps its contents. */
    method HandleSubmit()
      requires Valid() && FormShown() && SubmitEnabled()
      modifies this
      ensures Valid()
      ensures loading && !submitted && form == old(form)
      ensures !SubmitEnabled()
    {
      loading := true;
    }

    /** The send timer completes. It is pending exactly while `loading`, and
        it always succeeds: sending stops and the message counts as sent. */
    method TimerFires()
      requires Valid() && loading
      modifies this
      ensures Valid()
      ensures !loading && submitted && form == old(form)
      ensures !FormShown()
    {
      loading := false;
      submitted := true;
    }

    /** "Send Another Message": the form comes back empty; `loading` is
        not touched. */
    method HandleReset()
      requires Valid()
      modifies this
      ensures Valid()
      ensures !submitted && form == EmptyForm && loading == old(loading)
      ensures FormShown()
    {
      submitted := false;
      form := EmptyForm;
    }
  }
}
