/** The two document schemas of the database layer: users and tasks, their
    enumerations, defaults and the constraints the document store enforces on save. */
module Schema {
  import opened Text
  import opened Common

  type UserId = nat
  type TaskId = nat

  datatype Status = Pending | InProgress | Completed
  datatype Priority = Low | Medium | High
  datatype AuthProvider = Local | Google

  const StatusNames: seq<string> := ["pending", "in-progress", "completed"]
  const PriorityNames: seq<string> := ["low", "medium", "high"]

  /** The stored string of a status. */
  function StatusName(s: Status): (r: string)
    ensures r in StatusNames && r != ""
  {
    match s
    case Pending => "pending"
    case InProgress => "in-progress"
    case Completed => "completed"
  }

  /** Reads a status string; only the three enumerated strings are accepted. */
  function ParseStatus(name: string): (r: Option<Status>)
    ensures r.Some? <==> name in StatusNames
    ensures r.Some? ==> StatusName(r.value) == name
  {
    if name == "pending" then Some(Pending)
    else if name == "in-progress" then Some(InProgress)
    else if name == "completed" then Some(Completed)
    else None
  }

  function PriorityName(p: Priority): (r: string)
    ensures r in PriorityNames && r != ""
  {
    match p
    case Low => "low"
    case Medium => "medium"
    case High => "high"
  }

  function ParsePriority(name: string): (r: Option<Priority>)
    ensures r.Some? <==> name in PriorityNames
    ensures r.Some? ==> PriorityName(r.value) == name
  {
    if name == "low" then Some(Low)
    else if name == "medium" then Some(Medium)
    else if name == "high" then Some(High)
    else None
  }

  /** Every status and every priority survives a trip through its stored string. */
  lemma EnumRoundTrip(s: Status, p: Priority)
    ensures ParseStatus(StatusName(s)) == Some(s)
    ensures ParsePriority(PriorityName(p)) == Some(p)
  {
  }

  const DefaultStatus: Status := Pending
  const DefaultPriority: Priority := Medium

  // ----- userSchema -----

  datatype User = User(
    id: UserId,
    username: string,
    email: string,
    password: Option<string>,          // a bcrypt hash; null for accounts created through Google
    googleId: Option<string>,
    authProvider: AuthProvider,
    resetPasswordToken: Option<string>, // SHA-256 of the raw reset token
    resetPasswordExpires: Option<int>,  // milliseconds since the epoch
    isVerified: bool,
    createdAt: int,
    updatedAt: int)

  /** The character class `[a-zA-Z0-9_]`. */
  predicate IsWordChar(c: char) {
    ('a' <= c <= 'z') || ('A' <= c <= 'Z') || ('0' <= c <= '9') || c == '_'
  }

  /** The pattern `^[a-zA-Z0-9_]+$`. */
  predicate MatchesUsernamePattern(s: string) {
    |s| >= 1 && forall i :: 0 <= i < |s| ==> IsWordChar(s[i])
  }

  /** Username as userSchema checks it: `minlength` 3 and `maxlength` 30 in UTF-16
      units, and the word-character pattern. */
  predicate UsernameValid(s: string) {
    3 <= Utf16Length(s) <= 30 && MatchesUsernamePattern(s)
  }

  /** Word characters are ASCII, so every way of measuring a username agrees. */
  lemma WordLengths(s: string)
    requires MatchesUsernamePattern(s)
    ensures Utf16Length(s) == |s| && ValidatorLength(s) == |s|
  {
    Utf16LengthOfBmp(s);
    ValidatorLengthPlain(s);
  }

  /** Email as stored: required (non-empty), trimmed and lower-cased. */
  predicate EmailStored(e: string) {
    e != "" && Trimmed(e) && Lower(e) == e
  }

  /** The constraints userSchema checks when a user document is saved. */
  predicate UserValid(u: User) {
    && UsernameValid(u.username) && Trimmed(u.username)
    && EmailStored(u.email)
    && (u.password.Some? ==> Utf16Length(u.password.value) >= 6)
  }

  /** The unique indexes: username, email, and googleId among the users that have one (sparse). */
  predicate UniqueKeys(users: seq<User>) {
    forall i, j :: 0 <= i < j < |users| ==>
      && users[i].id != users[j].id
      && users[i].username != users[j].username
      && users[i].email != users[j].email
      && (users[i].googleId.Some? ==> users[i].googleId != users[j].googleId)
  }

  /** A new user document with the schema defaults: no Google id, provider `local`,
      no reset pair, not verified, both timestamps at `now`. */
  function NewUser(id: UserId, username: string, email: string, password: Option<string>, now: int): User {
    User(id, username, email, password, None, Local, None, None, false, now, now)
  }

  /** The string setters of userSchema: `trim` on username, `trim` and `lowercase` on email. */
  function UserSetters(u: User): (r: User)
    ensures Trimmed(r.username) && Trimmed(r.email) && Lower(r.email) == r.email
    ensures r.(username := u.username, email := u.email) == u
    ensures Trimmed(u.username) ==> r.username == u.username
  {
    LowerTrimmed(Trim(u.email));
    LowerIdempotent(Trim(u.email));
    u.(username := Trim(u.username), email := Lower(Trim(u.email)))
  }

  /** The email a query filter `{email}` looks for once the same setters have run on it. */
  function EmailKey(e: string): (r: string)
    ensures Trimmed(r) && Lower(r) == r
    ensures EmailStored(e) ==> r == e
  {
    LowerTrimmed(Trim(e));
    LowerIdempotent(Trim(e));
    Lower(Trim(e))
  }

  // ----- taskSchema -----

  datatype Task = Task(
    id: TaskId,
    userId: UserId,
    title: string,
    description: string,
    status: Status,
    priority: Priority,
    dueDate: Option<int>,   // milliseconds since the epoch
    createdAt: int,
    updatedAt: int)

  /** The constraints taskSchema checks: a required trimmed title of at most 100
      UTF-16 units and a trimmed description of at most 500. The enumerations are
      enforced by the types of `status` and `priority`. */
  predicate TaskValid(t: Task) {
    && t.title != "" && Trimmed(t.title) && Utf16Length(t.title) <= 100
    && Trimmed(t.description) && Utf16Length(t.description) <= 500
  }
}
