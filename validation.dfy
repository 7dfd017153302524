/** The request-body validator chains and the middleware that turns their
    failures into a 400 response. Every failing rule contributes one
    `{field, message}` entry, in the order the chains are declared. */
module Validation {
  import opened Text
  import opened Common
  import opened Schema

  datatype RegisterBody = RegisterBody(username: Field, email: Field, password: Field)
  datatype LoginBody = LoginBody(username: Field, password: Field)
  datatype TaskBody = TaskBody(title: Field, description: Field, status: Field, priority: Field, dueDate: Field)

  /** validator.js's `isEmail` and `normalizeEmail`, taken as given. */
  datatype EmailRules = EmailRules(isEmail: string -> bool, normalize: string -> string)

  /** validator.js's `isISO8601`, and the document store's cast of a string to a
      date: the instant `new Date(s)` denotes, or `None` when that is an Invalid Date.
      The two disagree: `isISO8601` accepts week dates such as `2009-W01-1`, which
      `Date` does not parse. */
  datatype DateRules = DateRules(isISO8601: string -> bool, toTime: string -> Option<int>)

  /** One validator of a chain: no entry when it passes, one entry when it fails. */
  function Rule(ok: bool, field: string, message: string): seq<FieldError> {
    if ok then [] else [FieldError(field, message)]
  }

  // ----- registerValidation -----

  const UsernameLengthMessage := "Username must be between 3 and 30 characters"
  const UsernamePatternMessage := "Username can only contain letters, numbers, and underscores"
  const EmailMessage := "Please provide a valid email address"
  const PasswordLengthMessage := "Password must be at least 6 characters long"
  const PasswordPatternMessage := "Password must contain at least one uppercase letter, one lowercase letter, and one number"

  /** username: trim, then `isLength` 3..30, then `^[a-zA-Z0-9_]+$`; both checks
      report. A username passes exactly when userSchema would accept it. */
  function UsernameErrors(f: Field): (r: seq<FieldError>)
    ensures r == [] <==> UsernameValid(Trim(AsString(f)))
    ensures (FieldError("username", UsernameLengthMessage) in r) <==> !(3 <= ValidatorLength(Trim(AsString(f))) <= 30)
    ensures (FieldError("username", UsernamePatternMessage) in r) <==> !MatchesUsernamePattern(Trim(AsString(f)))
  {
    var u := Trim(AsString(f));
    assert MatchesUsernamePattern(u) ==> ValidatorLength(u) == Utf16Length(u) by {
      if MatchesUsernamePattern(u) { WordLengths(u); }
    }
    Rule(3 <= ValidatorLength(u) <= 30, "username", UsernameLengthMessage)
      + Rule(MatchesUsernamePattern(u), "username", UsernamePatternMessage)
  }

  /** email: trim, then isEmail. */
  function EmailErrors(f: Field, rules: EmailRules): (r: seq<FieldError>)
    ensures r == [] <==> rules.isEmail(Trim(AsString(f)))
  {
    Rule(rules.isEmail(Trim(AsString(f))), "email", EmailMessage)
  }

  predicate IsLineTerminator(c: char) {
    c == '\n' || c == '\r' || c == '\U{2028}' || c == '\U{2029}'
  }

  /** The text before the first line terminator: how far `.*` in a lookahead can reach. */
  function FirstLine(s: string): (r: string)
    ensures IsPrefix(r, s)
    ensures forall i :: 0 <= i < |r| ==> !IsLineTerminator(r[i])
    ensures |r| < |s| ==> IsLineTerminator(s[|r|])
  {
    if s == [] || IsLineTerminator(s[0]) then [] else [s[0]] + FirstLine(s[1..])
  }

  predicate HasLowercase(s: string) { exists i :: 0 <= i < |s| && 'a' <= s[i] <= 'z' }
  predicate HasUppercase(s: string) { exists i :: 0 <= i < |s| && 'A' <= s[i] <= 'Z' }
  predicate HasDigit(s: string) { exists i :: 0 <= i < |s| && '0' <= s[i] <= '9' }

  /** `^(?=.*[a-z])(?=.*[A-Z])(?=.*\d)`: a lowercase letter, an uppercase letter and a
      digit, all on the first line. */
  predicate PasswordComposed(p: string) {
    var l := FirstLine(p);
    HasLowercase(l) && HasUppercase(l) && HasDigit(l)
  }

  /** password: at least 6 characters, then the composition pattern; no trimming. */
  function PasswordErrors(f: Field): (r: seq<FieldError>)
    ensures r == [] <==> ValidatorLength(AsString(f)) >= 6 && PasswordComposed(AsString(f))
    ensures |r| <= 2
  {
    var p := AsString(f);
    Rule(ValidatorLength(p) >= 6, "password", PasswordLengthMessage)
      + Rule(PasswordComposed(p), "password", PasswordPatternMessage)
  }

  /** A password is strong enough for registration. */
  predicate StrongPassword(p: string) {
    ValidatorLength(p) >= 6 && PasswordComposed(p)
  }

  function RegisterErrors(b: RegisterBody, rules: EmailRules): (r: seq<FieldError>)
    ensures r == [] <==>
      && UsernameValid(Trim(AsString(b.username)))
      && rules.isEmail(Trim(AsString(b.email)))
      && StrongPassword(AsString(b.password))
  {
    UsernameErrors(b.username) + EmailErrors(b.email, rules) + PasswordErrors(b.password)
  }

  /** The sanitised values the register route reads from the body. */
  function RegisterUsername(b: RegisterBody): string {
    Trim(AsString(b.username))
  }

  function RegisterEmail(b: RegisterBody, rules: EmailRules): string {
    rules.normalize(Trim(AsString(b.email)))
  }

  // ----- loginValidation -----

  function LoginErrors(b: LoginBody): (r: seq<FieldError>)
    ensures r == [] <==> Trim(AsString(b.username)) != "" && AsString(b.password) != ""
  {
    Rule(Trim(AsString(b.username)) != "", "username", "Username is required")
      + Rule(AsString(b.password) != "", "password", "Password is required")
  }

  // ----- taskValidation -----

  const TitleRequiredMessage := "Task title is required"
  const TitleLengthMessage := "Title must not exceed 100 characters"
  const DescriptionLengthMessage := "Description must not exceed 500 characters"
  const StatusMessage := "Status must be pending, in-progress, or completed"
  const PriorityMessage := "Priority must be low, medium, or high"
  const DueDateMessage := "Due date must be a valid date"

  /** The task rules as one statement: the title is required; the other fields are
      checked only when the body carries them (`null` counts as carried). */
  predicate TaskBodyAccepted(b: TaskBody, dates: DateRules) {
    && Trim(AsString(b.title)) != ""
    && ValidatorLength(Trim(AsString(b.title))) <= 100
    && (!b.description.Absent? ==> ValidatorLength(Trim(AsString(b.description))) <= 500)
    && (!b.status.Absent? ==> AsString(b.status) in StatusNames)
    && (!b.priority.Absent? ==> AsString(b.priority) in PriorityNames)
    && (!b.dueDate.Absent? ==> dates.isISO8601(AsString(b.dueDate)))
  }

  /** An `optional()` chain: skipped entirely when the field is missing. */
  function Optional(f: Field, errors: seq<FieldError>): seq<FieldError> {
    if f.Absent? then [] else errors
  }

  /** title: trim, notEmpty, at most 100 characters; not optional. */
  function TitleErrors(f: Field): (r: seq<FieldError>)
    ensures r == [] <==> Trim(AsString(f)) != "" && ValidatorLength(Trim(AsString(f))) <= 100
    ensures Trim(AsString(f)) == "" ==> r == [FieldError("title", TitleRequiredMessage)]
    ensures ValidatorLength(Trim(AsString(f))) > 100 ==> r == [FieldError("title", TitleLengthMessage)]
  {
    var title := Trim(AsString(f));
    Rule(title != "", "title", TitleRequiredMessage) + Rule(ValidatorLength(title) <= 100, "title", TitleLengthMessage)
  }

  function DescriptionErrors(f: Field): (r: seq<FieldError>)
    ensures r == [] <==> f.Absent? || ValidatorLength(Trim(AsString(f))) <= 500
    ensures r != [] ==> r == [FieldError("description", DescriptionLengthMessage)]
  {
    Optional(f, Rule(ValidatorLength(Trim(AsString(f))) <= 500, "description", DescriptionLengthMessage))
  }

  function StatusErrors(f: Field): (r: seq<FieldError>)
    ensures r == [] <==> f.Absent? || AsString(f) in StatusNames
    ensures r != [] ==> r == [FieldError("status", StatusMessage)]
  {
    Optional(f, Rule(AsString(f) in StatusNames, "status", StatusMessage))
  }

  function PriorityErrors(f: Field): (r: seq<FieldError>)
    ensures r == [] <==> f.Absent? || AsString(f) in PriorityNames
    ensures r != [] ==> r == [FieldError("priority", PriorityMessage)]
  {
    Optional(f, Rule(AsString(f) in PriorityNames, "priority", PriorityMessage))
  }

  function DueDateErrors(f: Field, dates: DateRules): (r: seq<FieldError>)
    ensures r == [] <==> f.Absent? || dates.isISO8601(AsString(f))
    ensures r != [] ==> r == [FieldError("due_date", DueDateMessage)]
  {
    Optional(f, Rule(dates.isISO8601(AsString(f)), "due_date", DueDateMessage))
  }

  function TaskErrors(b: TaskBody, dates: DateRules): (r: seq<FieldError>)
    ensures r == [] <==> TaskBodyAccepted(b, dates)
  {
    TitleErrors(b.title) + DescriptionErrors(b.description) + StatusErrors(b.status)
      + PriorityErrors(b.priority) + DueDateErrors(b.dueDate, dates)
  }

  /** The body the task routes see after the chains ran: `trim` rewrote the title and,
      when carried, the description (a `null` becomes ''). */
  function SanitizeTask(b: TaskBody): (r: TaskBody)
    ensures r.title == Text(Trim(AsString(b.title)))
    ensures r.description.Absent? <==> b.description.Absent?
    ensures !r.description.Absent? ==> r.description == Text(Trim(AsString(b.description)))
    ensures r.status == b.status && r.priority == b.priority && r.dueDate == b.dueDate
  {
    b.(title := Text(Trim(AsString(b.title))),
       description := if b.description.Absent? then Absent else Text(Trim(AsString(b.description))))
  }

  /** A body that passed the rules still passes them once sanitised: trimming is idempotent. */
  lemma SanitizeKeepsAccepted(b: TaskBody, dates: DateRules)
    requires TaskBodyAccepted(b, dates)
    ensures TaskBodyAccepted(SanitizeTask(b), dates)
  {
    var s := SanitizeTask(b);
    TrimIdempotent(AsString(b.title));
    assert AsString(s.title) == Trim(AsString(b.title));
    if !b.description.Absent? {
      TrimIdempotent(AsString(b.description));
      assert AsString(s.description) == Trim(AsString(b.description));
    }
  }

  // ----- handleValidationErrors -----

  /** None passes the request on; otherwise the 400 response listing every failure. */
  function HandleValidationErrors<T>(errors: seq<FieldError>): (r: Option<Outcome<T>>)
    ensures r.None? <==> errors == []
    ensures r.Some? ==> r.value.Failure? && r.value.code == 400 && r.value.errors == errors
    ensures r.Some? ==> r.value.message == "Validation failed"
  {
    if errors == [] then None else Some(Failure(400, "Validation failed", errors))
  }
}
