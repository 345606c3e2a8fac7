/**
  The two form validators. Each builds an error object field by field and
  passes when no field was set (`Object.keys(e).length === 0`).
 */
module Forms {
  import opened Wrappers
  import opened Text

  /** The error object of the login form. */
  datatype LoginErrors = LoginErrors(email: Option<string>, password: Option<string>)

  function LoginErrorCount(e: LoginErrors): nat {
    (if e.email.Some? then 1 else 0) + (if e.password.Some? then 1 else 0)
  }

  const InvalidEmail := "Enter a valid email."
  const ShortPassword := "Password must be at least 6 characters."

  /** `Login.validate`: an email with an "@" and at least five characters,
      and a password of at least six characters. */
  method ValidateLogin(email: string, password: string) returns (ok: bool, e: LoginErrors)
    ensures e.email == (if '@' in email && |email| >= 5 then None else Some(InvalidEmail))
    ensures e.password == (if |password| >= 6 then None else Some(ShortPassword))
    ensures ok <==> '@' in email && |email| >= 5 && |password| >= 6
  {
    e := LoginErrors(None, None);
    IncludesChar(email, '@');
    if !Includes(email, "@") || |email| < 5 {
      e := e.(email := Some(InvalidEmail));
    }
    if |password| < 6 {
      e := e.(password := Some(ShortPassword));
    }
    ok := LoginErrorCount(e) == 0;
  }

  /** The add-application form as typed: every field is text. */
  datatype AddForm = AddForm(
    company: string,
    title: string,
    jobType: string,
    status: string,
    location: string,
    appliedDate: string,
    notes: string)

  /** The error object of the add-application form. */
  datatype AddErrors = AddErrors(
    company: Option<string>,
    title: Option<string>,
    jobType: Option<string>,
    status: Option<string>,
    location: Option<string>)

  function AddErrorCount(e: AddErrors): nat {
    (if e.company.Some? then 1 else 0) + (if e.title.Some? then 1 else 0)
    + (if e.jobType.Some? then 1 else 0) + (if e.status.Some? then 1 else 0)
    + (if e.location.Some? then 1 else 0)
  }

  const CompanyRequired := "Company Name is required."
  const TitleRequired := "Job Title is required."
  const JobTypeRequired := "Job Type is required."
  const StatusRequired := "Status is required."
  const LocationRequired := "Location is required."

  /** `AddApplication.validate`: company, title and location must hold more
      than whitespace; job type and status must not be empty. */
  method ValidateAddForm(f: AddForm) returns (ok: bool, e: AddErrors)
    ensures e.company == (if AllWhitespace(f.company) then Some(CompanyRequired) else None)
    ensures e.title == (if AllWhitespace(f.title) then Some(TitleRequired) else None)
    ensures e.jobType == (if f.jobType == "" then Some(JobTypeRequired) else None)
    ensures e.status == (if f.status == "" then Some(StatusRequired) else None)
    ensures e.location == (if AllWhitespace(f.location) then Some(LocationRequired) else None)
    ensures ok <==> !AllWhitespace(f.company) && !AllWhitespace(f.title) && f.jobType != ""
                    && f.status != "" && !AllWhitespace(f.location)
  {
    TrimEmptyIffBlank(f.company);
    TrimEmptyIffBlank(f.title);
    TrimEmptyIffBlank(f.location);
    e := AddErrors(None, None, None, None, None);
    if Trim(f.company) == [] { e := e.(company := Some(CompanyRequired)); }
    if Trim(f.title) == [] { e := e.(title := Some(TitleRequired)); }
    if f.jobType == "" { e := e.(jobType := Some(JobTypeRequired)); }
    if f.status == "" { e := e.(status := Some(StatusRequired)); }
    if Trim(f.location) == [] { e := e.(location := Some(LocationRequired)); }
    ok := AddErrorCount(e) == 0;
  }
}
