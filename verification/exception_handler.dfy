/** The backend's global exception handler: which HTTP status and which
    message each exception class produces, the classification of database
    integrity-violation messages, and the not-found message table. */
module ExceptionHandler {
  import opened Wrappers
  import opened Text

  const USER_NOT_FOUND := "User not found"
  const POST_NOT_FOUND := "Post not found"
  const COMMENT_NOT_FOUND := "Comment not found"
  const TAG_NOT_FOUND := "Tag not found"
  const CATEGORY_NOT_FOUND := "Category not found"
  const ASSET_NOT_FOUND := "Asset not found"
  const INVALID_STATUS_PREFIX := "Invalid status: "
  const RUNTIME_ERROR := "An error occurred"
  const UNEXPECTED_ERROR := "An unexpected error occurred"
  const DATABASE_ACCESS_ERROR := "An error occurred while accessing the database"
  const DATA_INTEGRITY_VIOLATION := "Data integrity violation"
  const DUPLICATE_SLUG := "Slug already exists"
  const USER_ALREADY_EXISTS := "User already exists"
  const NO_USERS_FOUND := "No users available in the system"
  const DUPLICATE_RECORD := "A record with this value already exists"
  const REFERENCED_RECORD_NOT_FOUND := "Referenced record does not exist"
  const REQUIRED_FIELD_NULL := "Required field cannot be null"
  const VALIDATION_FAILED := "Data does not meet validation requirements"
  const VALUE_TOO_LONG := "Value exceeds maximum length"
  const DATA_INTEGRITY_DEFAULT := "Data integrity violation occurred"

  /** The exceptions the services raise, each by its most specific handled
      class. `Runtime`, `IllegalArgument`, the data-access ones and
      `Unexpected` carry their `getMessage()`; the messages of the three
      exception classes defined by the application are computed by
      `ExceptionMessage`. */
  datatype Failure =
    | ResourceNotFound(resourceName: string, fieldName: string)
    | SlugAlreadyExists(slug: string)
    | UserAlreadyExists(field: string, value: string)
    | NoUsersFound
    | Runtime(message: Option<string>)
    | IllegalArgument(message: Option<string>)
    | DataIntegrityViolation(message: Option<string>)
    | DataAccess(message: Option<string>)
    | Unexpected(message: Option<string>)

  /** The body of every error response (the timestamp is left out). */
  datatype ErrorBody = ErrorBody(isSuccess: bool, error: Option<string>, message: string, status: int)

  datatype Response = Response(status: int, body: ErrorBody)

  /** `getMessage()` of an exception, where the source defines it; the
      message of a not-found exception is not part of this model. */
  function ExceptionMessage(e: Failure): Option<string>
  {
    match e
    case ResourceNotFound(_, _) => None
    case SlugAlreadyExists(slug) => Some("Slug already exists: '" + slug + "'")
    case UserAlreadyExists(field, value) => Some("User already exists with " + field + ": '" + value + "'")
    case NoUsersFound => Some("No users found in the system. Please create a user first.")
    case Runtime(m) => m
    case IllegalArgument(m) => m
    case DataIntegrityViolation(m) => m
    case DataAccess(m) => m
    case Unexpected(m) => m
  }

  /** `String.format("%s", m)`: a null argument prints as "null". */
  function FormatArg(m: Option<string>): string
  {
    if m.Some? then m.value else "null"
  }

  predicate IsDuplicate(m: string)
  {
    Contains(m, "unique constraint") || Contains(m, "duplicate key")
  }

  predicate IsForeignKey(m: string)
  {
    Contains(m, "foreign key constraint") || Contains(m, "violates foreign key constraint")
  }

  predicate IsNotNull(m: string)
  {
    Contains(m, "not null constraint") || Contains(m, "violates not-null constraint")
  }

  predicate IsCheck(m: string)
  {
    Contains(m, "check constraint") || Contains(m, "violates check constraint")
  }

  predicate IsTooLong(m: string)
  {
    Contains(m, "value too long") || Contains(m, "character varying")
  }

  /** The error text of an integrity violation: the first keyword group
      that occurs in the database message decides, in the order duplicate,
      foreign key, not-null, check, too long; a message with no keyword is
      kept verbatim; a null message gets the default text. */
  function ClassifyIntegrityMessage(m: Option<string>): (r: string)
    ensures m.None? ==> r == DATA_INTEGRITY_DEFAULT
    ensures m.Some? && IsDuplicate(m.value) ==> r == DUPLICATE_RECORD
    ensures m.Some? && !IsDuplicate(m.value) && IsForeignKey(m.value) ==> r == REFERENCED_RECORD_NOT_FOUND
    ensures m.Some? && !IsDuplicate(m.value) && !IsForeignKey(m.value) && IsNotNull(m.value) ==>
              r == REQUIRED_FIELD_NULL
    ensures (m.Some? && !IsDuplicate(m.value) && !IsForeignKey(m.value) && !IsNotNull(m.value) &&
             IsCheck(m.value)) ==> r == VALIDATION_FAILED
    ensures (m.Some? && !IsDuplicate(m.value) && !IsForeignKey(m.value) && !IsNotNull(m.value) &&
             !IsCheck(m.value) && IsTooLong(m.value)) ==> r == VALUE_TOO_LONG
    ensures (m.Some? && !IsDuplicate(m.value) && !IsForeignKey(m.value) && !IsNotNull(m.value) &&
             !IsCheck(m.value) && !IsTooLong(m.value)) ==> r == m.value
  {
    match m
    case None => DATA_INTEGRITY_DEFAULT
    case Some(text) =>
      if IsDuplicate(text) then DUPLICATE_RECORD
      else if IsForeignKey(text) then REFERENCED_RECORD_NOT_FOUND
      else if IsNotNull(text) then REQUIRED_FIELD_NULL
      else if IsCheck(text) then VALIDATION_FAILED
      else if IsTooLong(text) then VALUE_TOO_LONG
      else text
  }

  /** The classification result is always either one of the fixed texts or
      the database message itself. */
  lemma ClassifyIsFixedOrVerbatim(m: Option<string>)
    ensures var r := ClassifyIntegrityMessage(m);
            r in {DATA_INTEGRITY_DEFAULT, DUPLICATE_RECORD, REFERENCED_RECORD_NOT_FOUND,
                  REQUIRED_FIELD_NULL, VALIDATION_FAILED, VALUE_TOO_LONG}
            || (m.Some? && r == m.value)
  {
  }

  /** `getNotFoundMessage`: six resource names, compared after
      lower-casing, have fixed texts; any other name gets " not found"
      appended. */
  function NotFoundMessage(resourceName: string): (r: string)
    ensures Lower(resourceName) == "user" ==> r == USER_NOT_FOUND
    ensures Lower(resourceName) == "post" ==> r == POST_NOT_FOUND
    ensures Lower(resourceName) == "comment" ==> r == COMMENT_NOT_FOUND
    ensures Lower(resourceName) == "tag" ==> r == TAG_NOT_FOUND
    ensures Lower(resourceName) == "category" ==> r == CATEGORY_NOT_FOUND
    ensures Lower(resourceName) == "asset" ==> r == ASSET_NOT_FOUND
    ensures Lower(resourceName) !in {"user", "post", "comment", "tag", "category", "asset"} ==>
              r == resourceName + " not found"
  {
    var key := Lower(resourceName);
    if key == "user" then USER_NOT_FOUND
    else if key == "post" then POST_NOT_FOUND
    else if key == "comment" then COMMENT_NOT_FOUND
    else if key == "tag" then TAG_NOT_FOUND
    else if key == "category" then CATEGORY_NOT_FOUND
    else if key == "asset" then ASSET_NOT_FOUND
    else resourceName + " not found"
  }

  /** The six known names are matched without regard to letter case: two
      spellings that lower-case alike get the same message. */
  lemma NotFoundMessageCaseInsensitive(a: string, b: string)
    requires Lower(a) == Lower(b)
    requires Lower(a) in {"user", "post", "comment", "tag", "category", "asset"}
    ensures NotFoundMessage(a) == NotFoundMessage(b)
  {
  }

  /** The HTTP status chosen for each exception class. */
  function StatusOf(e: Failure): int
  {
    match e
    case ResourceNotFound(_, _) => 404
    case SlugAlreadyExists(_) => 409
    case UserAlreadyExists(_, _) => 409
    case NoUsersFound => 500
    case Runtime(_) => 500
    case IllegalArgument(_) => 400
    case DataIntegrityViolation(_) => 400
    case DataAccess(_) => 500
    case Unexpected(_) => 500
  }

  /** The handler of each exception class: a failure envelope whose body
      status equals the response status. */
  function Handle(e: Failure): (r: Response)
    ensures !r.body.isSuccess && r.body.status == r.status
    ensures r.status == 404 <==> e.ResourceNotFound?
    ensures r.status == 409 <==> (e.SlugAlreadyExists? || e.UserAlreadyExists?)
    ensures r.status == 400 <==> (e.IllegalArgument? || e.DataIntegrityViolation?)
    ensures r.status == 500 <==> (e.NoUsersFound? || e.Runtime? || e.DataAccess? || e.Unexpected?)
    ensures e.ResourceNotFound? ==> r.body.message == NotFoundMessage(e.resourceName)
    ensures e.IllegalArgument? ==> r.body.message == INVALID_STATUS_PREFIX + FormatArg(e.message)
    ensures e.DataIntegrityViolation? ==>
              r.body.message == DATA_INTEGRITY_VIOLATION &&
              r.body.error == Some(ClassifyIntegrityMessage(e.message))
    ensures !e.DataIntegrityViolation? ==> r.body.error == ExceptionMessage(e)
  {
    var status := StatusOf(e);
    var message :=
      match e
      case ResourceNotFound(name, _) => NotFoundMessage(name)
      case SlugAlreadyExists(_) => DUPLICATE_SLUG
      case UserAlreadyExists(_, _) => USER_ALREADY_EXISTS
      case NoUsersFound => NO_USERS_FOUND
      case Runtime(_) => RUNTIME_ERROR
      case IllegalArgument(m) => INVALID_STATUS_PREFIX + FormatArg(m)
      case DataIntegrityViolation(_) => DATA_INTEGRITY_VIOLATION
      case DataAccess(_) => DATABASE_ACCESS_ERROR
      case Unexpected(_) => UNEXPECTED_ERROR;
    var error :=
      if e.DataIntegrityViolation? then Some(ClassifyIntegrityMessage(e.message))
      else ExceptionMessage(e);
    Response(status, ErrorBody(false, error, message, status))
  }

  /** Client errors (4xx) are exactly the not-found, conflict, illegal
      argument and integrity cases; everything else is a server error. */
  lemma ClientErrorIff(e: Failure)
    ensures Handle(e).status < 500 <==>
            (e.ResourceNotFound? || e.SlugAlreadyExists? || e.UserAlreadyExists? ||
             e.IllegalArgument? || e.DataIntegrityViolation?)
  {
  }

  /** The conflict responses carry the fixed texts of their class, and the
      offending value appears in the error text. */
  lemma ConflictMessages(e: Failure)
    requires e.SlugAlreadyExists? || e.UserAlreadyExists?
    ensures e.SlugAlreadyExists? ==>
              (Handle(e).body.message == DUPLICATE_SLUG && Contains(Handle(e).body.error.value, e.slug))
    ensures e.UserAlreadyExists? ==>
              (Handle(e).body.message == USER_ALREADY_EXISTS && Contains(Handle(e).body.error.value, e.value))
  {
    if e.SlugAlreadyExists? {
      var p := "Slug already exists: '";
      var t := p + e.slug + "'";
      assert t[|p|..|p| + |e.slug|] == e.slug;
      assert OccursAt(t, e.slug, |p|);
    } else {
      var p := "User already exists with " + e.field + ": '";
      var t := p + e.value + "'";
      assert t[|p|..|p| + |e.value|] == e.value;
      assert OccursAt(t, e.value, |p|);
    }
  }
}
