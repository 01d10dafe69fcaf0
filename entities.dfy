/** The records the application stores: users, job applications, the add-job
    form, and the application status with its click-to-advance cycle. */
module Entities {
  import opened Text

  /** A status name other than the three the dashboard knows about; any other
      string can reach the status field, through the form's select element or
      through stored data. */
  type OtherLabel = s: string | s != "Applied" && s != "Pending" && s != "Rejected" witness ""

  datatype Status = Applied | Pending | Rejected | Other(name: OtherLabel)

  /** The string the application keeps in the `status` field. */
  function StatusName(s: Status): string {
    match s
    case Applied => "Applied"
    case Pending => "Pending"
    case Rejected => "Rejected"
    case Other(other) => other
  }

  /** The status a field value names. */
  function ParseStatus(name: string): (s: Status)
    ensures StatusName(s) == name
  {
    if name == "Applied" then Applied
    else if name == "Pending" then Pending
    else if name == "Rejected" then Rejected
    else Other(name)
  }

  /** Names and statuses are in one-to-one correspondence, so comparing names
      (as the status filter does) is comparing statuses. */
  lemma StatusNameInjective(s: Status, t: Status)
    ensures StatusName(s) == StatusName(t) <==> s == t
    ensures ParseStatus(StatusName(s)) == s
  {
  }

  predicate InCycle(s: Status) {
    !s.Other?
  }

  /** Where a click on the status badge takes a job. */
  function NextStatus(s: Status): (n: Status)
    ensures InCycle(n)
    ensures InCycle(s) ==> n != s
  {
    match s
    case Applied => Pending
    case Pending => Rejected
    case Rejected => Applied
    case Other(_) => Applied
  }

  /** The cycle Applied, Pending, Rejected has length three; a status off the
      cycle joins it at Applied. */
  lemma NextStatusCycle(s: Status)
    ensures NextStatus(Applied) == Pending && NextStatus(Pending) == Rejected && NextStatus(Rejected) == Applied
    ensures s.Other? ==> NextStatus(s) == Applied
    ensures InCycle(s) ==> NextStatus(NextStatus(NextStatus(s))) == s
    ensures InCycle(s) ==> NextStatus(s) != s && NextStatus(NextStatus(s)) != s
  {
  }

  datatype User = User(id: string, username: string, password: string)

  /** What a sign-in or registration form hands to the application when it
      finishes: nothing (it stays on the form), or a user passed to the
      `onLogin`/`onRegister` callback followed by navigation to `/home`. */
  datatype SignIn = StayOnForm | SignedIn(user: User)

  datatype Job = Job(
    id: string,
    companyName: string,
    role: string,
    status: Status,
    dateApplied: string,
    description: string,
    requirements: string,
    duties: string,
    contactDetails: string,
    address: string,
    notes: string)

  /** The add-job form: every field of a job except its id. */
  datatype FormData = FormData(
    companyName: string,
    role: string,
    status: Status,
    dateApplied: string,
    description: string,
    requirements: string,
    duties: string,
    contactDetails: string,
    address: string,
    notes: string)

  /** The `name` attributes of the form's inputs. */
  datatype FieldName =
    | CompanyName | Role | StatusField | DateApplied | Description
    | Requirements | Duties | ContactDetails | Address | Notes

  /** The string a form field holds. */
  function FieldValue(form: FormData, field: FieldName): string {
    match field
    case CompanyName => form.companyName
    case Role => form.role
    case StatusField => StatusName(form.status)
    case DateApplied => form.dateApplied
    case Description => form.description
    case Requirements => form.requirements
    case Duties => form.duties
    case ContactDetails => form.contactDetails
    case Address => form.address
    case Notes => form.notes
  }

  /** `{ ...prev, [name]: value }`: the named field reads back the new value and
      every other field reads as before. */
  function WithField(form: FormData, field: FieldName, value: string): (r: FormData)
    ensures FieldValue(r, field) == value
    ensures forall f :: f != field ==> FieldValue(r, f) == FieldValue(form, f)
  {
    match field
    case CompanyName => form.(companyName := value)
    case Role => form.(role := value)
    case StatusField => form.(status := ParseStatus(value))
    case DateApplied => form.(dateApplied := value)
    case Description => form.(description := value)
    case Requirements => form.(requirements := value)
    case Duties => form.(duties := value)
    case ContactDetails => form.(contactDetails := value)
    case Address => form.(address := value)
    case Notes => form.(notes := value)
  }

  /** The form as it is after `resetForm`: every text field empty, the status
      Applied and the date today's. */
  function EmptyForm(today: string): FormData {
    FormData("", "", Applied, today, "", "", "", "", "", "")
  }

  /** The submit guard: company name and role must both be non-blank. */
  predicate CanSubmit(form: FormData) {
    Trim(form.companyName) != "" && Trim(form.role) != ""
  }

  /** A form passes the guard exactly when company name and role each hold a
      character that is not white space; a freshly reset form never does. */
  lemma CanSubmitIff(form: FormData, today: string)
    ensures CanSubmit(form) <==> !AllSpace(form.companyName) && !AllSpace(form.role)
    ensures !CanSubmit(EmptyForm(today))
  {
    TrimEmptyIff(form.companyName);
    TrimEmptyIff(form.role);
  }

  /** The job a form describes, leaving out its id. */
  function FormOf(job: Job): FormData {
    FormData(job.companyName, job.role, job.status, job.dateApplied, job.description,
             job.requirements, job.duties, job.contactDetails, job.address, job.notes)
  }

  /** `{ id, ...formData }`: the new job carries the given id and exactly the
      form's values, untrimmed. */
  function NewJob(id: string, form: FormData): (job: Job)
    ensures job.id == id && FormOf(job) == form
  {
    Job(id, form.companyName, form.role, form.status, form.dateApplied, form.description,
        form.requirements, form.duties, form.contactDetails, form.address, form.notes)
  }
}
