# Blog site core, modelled in Dafny

This project models the core of a personal blog site, which has two halves.

- **Back end (Spring Boot, Java).**
  - The services that create, thread, soft-delete and truncate comments.
  - Notifications and their unread counters.
  - Posts, with their slugs, tags, categories and status.
  - Users, with their uniqueness checks.
  - The "about me" page.
  - The global exception handler, which maps exceptions to HTTP responses.
  - The entities `User`, `PostEntity` and `VerificationToken`.
- **Front end (React, TypeScript).**
  - Pages: About, Create/Edit post, Register, Home, Post detail and Social media admin.
  - Components: the navigation bar, the Markdown toolbar, the notification bell, the category dropdown, the comment section and form, the table of contents, pagination, the typewriter banner and the toast context.

Each source file is one Dafny module, in the file of the same name (for example `CommentService.java` is `comment_service.dfy`). Two modules are shared:
- `Wrappers` holds `Option` and `Result`.
- `Text` holds the string primitives of Java and JavaScript: `trim`, `toLowerCase`, `indexOf`, `split`, `substring` and `includes`.

Further modules hold concepts that several source files share:
- `CommentThreads`: the comment tree and mention extraction of both comment services.
- `PostEditor` and `EditorText`: the form logic common to CreatePost and EditPost.
- `FrontendTypes`: the front end's shared types.

The form of the model follows the form of the source.
- Repositories and React state, which the source updates step by step, become `class`es.
  - Their fields are sequences or maps.
  - Their methods carry `modifies` clauses.
  - Each method states its whole new state in terms of a specification function.
- Pure helpers such as `buildCommentTree`, `truncate`, `slugify`, `getFullName` and `highlightText` become functions with lemmas.
- Loops in the source, such as the mention loop and the per-user notification loop, become `while` loops with invariants.

Inputs the source does not control are parameters of the model:
- the clock;
- generated identifiers, which are a counter for UUIDs and a parameter for toast ids;
- the answers of HTTP calls, which are `Option`/`Result` values;
- the browser's storage;
- timers, which are event methods.

## Model

| member | source | states |
|---|---|---|
| UserEntity.NewUser | blog-site-backend/src/main/java/com/fsk/blogsitebackend/entities/User.java:33-40 | a new user has role USER, e-mail notifications on, no unread notifications and no names, so its full name is its username |
| UserEntity.FullName | blog-site-backend/src/main/java/com/fsk/blogsitebackend/entities/User.java:47-52 | first and last name joined by a space when both are set, else whichever one is set, else the username |
| UserEntity.FullNameDependsOnNamesOnly | blog-site-backend/src/main/java/com/fsk/blogsitebackend/entities/User.java:47-52 | users with the same names and username have the same full name, whatever else differs |
| UserEntity.FullNameKeepsNames | blog-site-backend/src/main/java/com/fsk/blogsitebackend/entities/User.java:48-51 | a set first name starts the full name, and a set last name ends it |
| UserEntity.AvatarUrl | blog-site-backend/src/main/java/com/fsk/blogsitebackend/entities/User.java:55-57 | the compatibility getter never yields an avatar URL |
| UserEntity.IndexOfUser | blog-site-backend/src/main/java/com/fsk/blogsitebackend/repository/UserRepository.java:10 | the position of the row with the id, or -1 exactly when no row has it |
| UserEntity.FindUser | blog-site-backend/src/main/java/com/fsk/blogsitebackend/service/CommentService.java:48 | `findById` finds a row exactly when one has the id, and the row it finds has that id |
| UserEntity.FindByUsername | blog-site-backend/src/main/java/com/fsk/blogsitebackend/repository/UserRepository.java:12 | a found user is a row with that username; nothing is found only when no row has it |
| UserEntity.FirstUser | blog-site-backend/src/main/java/com/fsk/blogsitebackend/service/CommentService.java:52 | `findAll().stream().findFirst()` finds nothing exactly on an empty table, else a row of the table |
| UserEntity.SetRow | blog-site-backend/src/main/java/com/fsk/blogsitebackend/service/UserService.java:84-97 | saving an existing row replaces that row only and keeps every id in place |
| PostEntity.NewPost | blog-site-backend/src/main/java/com/fsk/blogsitebackend/entities/PostEntity.java:45-67 | a new post is a DRAFT with no publication date, no views, an empty tag set and no categories |
| PostEntity.GetStatus | blog-site-backend/src/main/java/com/fsk/blogsitebackend/entities/PostEntity.java:83-85 | a missing status reads as DRAFT and a present one is kept |
| PostEntity.GetStatusIdempotent | blog-site-backend/src/main/java/com/fsk/blogsitebackend/entities/PostEntity.java:83-85 | applying the default twice is applying it once |
| PostEntity.TagNames | blog-site-backend/src/main/java/com/fsk/blogsitebackend/entities/PostEntity.java:87-92 | no tag set gives no list; otherwise the list has one name per tag, in order |
| PostEntity.Names | blog-site-backend/src/main/java/com/fsk/blogsitebackend/entities/PostEntity.java:91 | the tag names, one per tag and in the same order |
| VerificationToken.NewToken | blog-site-backend/src/main/java/com/fsk/blogsitebackend/entities/VerificationToken.java:18-42 | a new token keeps its value and user, and expires 24 hours (1440 minutes) after its creation |
| VerificationToken.ValidForADay | blog-site-backend/src/main/java/com/fsk/blogsitebackend/entities/VerificationToken.java:44-46 | a new token is unexpired up to and including 24 hours after creation, and expired at every later instant |
| VerificationToken.ExpiredStaysExpired | blog-site-backend/src/main/java/com/fsk/blogsitebackend/entities/VerificationToken.java:44-46 | once a token is expired it stays expired at every later instant |
| VerificationToken.IsExpired | blog-site-backend/src/main/java/com/fsk/blogsitebackend/entities/VerificationToken.java:44-46 | a token is expired strictly after its expiry instant |
| ExceptionHandler.ClassifyIntegrityMessage | blog-site-backend/src/main/java/com/fsk/blogsitebackend/common/exception/GlobalExceptionHandler.java:100-119 | the integrity-violation message is chosen by the first rule in source order that matches (duplicate, foreign key, not null, check, too long); with no match the raw message is kept, and with no message the default is used |
| ExceptionHandler.ClassifyIsFixedOrVerbatim | blog-site-backend/src/main/java/com/fsk/blogsitebackend/common/exception/GlobalExceptionHandler.java:102-119 | the message is one of the six fixed texts or the exception's own message, never anything else |
| ExceptionHandler.NotFoundMessage | blog-site-backend/src/main/java/com/fsk/blogsitebackend/common/exception/GlobalExceptionHandler.java:158-168 | the six known resource names, compared case-insensitively, get their fixed not-found text; any other name gets the generic text |
| ExceptionHandler.NotFoundMessageCaseInsensitive | blog-site-backend/src/main/java/com/fsk/blogsitebackend/common/exception/GlobalExceptionHandler.java:159 | two spellings of a known resource name that differ only in case get the same message |
| ExceptionHandler.Handle | blog-site-backend/src/main/java/com/fsk/blogsitebackend/common/exception/GlobalExceptionHandler.java:18-156 | every handled exception gives a failed body whose status equals the response status: 404 exactly for not-found, 409 exactly for duplicate slug or user, 400 exactly for illegal argument or integrity violation, 500 for the rest; the invalid-status text carries the argument's message |
| ExceptionHandler.ClientErrorIff | blog-site-backend/src/main/java/com/fsk/blogsitebackend/common/exception/GlobalExceptionHandler.java:18-156 | a response is a client error (status below 500) exactly for the five client-caused exception kinds |
| ExceptionHandler.ConflictMessages | blog-site-backend/src/main/java/com/fsk/blogsitebackend/common/exception/GlobalExceptionHandler.java:32-55 | a conflict response carries the fixed conflict message, and its error text names the duplicate slug or value |
| ExceptionHandler.ExceptionMessage | blog-site-backend/src/main/java/com/fsk/blogsitebackend/common/exception/SlugAlreadyExistsException.java:11 | the message each exception class builds, where it defines one |
| ExceptionHandler.StatusOf | blog-site-backend/src/main/java/com/fsk/blogsitebackend/common/exception/GlobalExceptionHandler.java:18-156 | the HTTP status each handler answers with |
| UserService.RoleName | blog-site-backend/src/main/java/com/fsk/blogsitebackend/service/UserService.java:121 | the role's name is "ADMIN" exactly for ADMIN and "USER" exactly for USER |
| UserService.MapToResponse | blog-site-backend/src/main/java/com/fsk/blogsitebackend/service/UserService.java:113-125 | the response copies id, username, e-mail, names, notification flag and unread count, and its full name is the user's full name |
| UserService.ResponseHidesOnlyPassword | blog-site-backend/src/main/java/com/fsk/blogsitebackend/service/UserService.java:113-125 | the response does not depend on the password, and the user is recovered exactly from the response plus the password |
| UserService.RegisteredUser | blog-site-backend/src/main/java/com/fsk/blogsitebackend/service/UserService.java:38-47 | the stored user takes username, e-mail, password, names and notification flag from the request, with role USER and no unread notifications |
| UserService.RegisterOutcomes | blog-site-backend/src/main/java/com/fsk/blogsitebackend/service/UserService.java:27-50 | a taken username is refused first and a taken e-mail second, each leaving the table unchanged; registration succeeds exactly when neither is taken, and then adds the new user |
| UserService.RegisterConflictResponse | blog-site-backend/src/main/java/com/fsk/blogsitebackend/service/UserService.java:29-36 | a refused registration answers 409 with a message that names the clashing username or e-mail |
| UserService.RegisterKeepsUnique | blog-site-backend/src/main/java/com/fsk/blogsitebackend/service/UserService.java:27-50 | registration keeps ids, usernames and e-mails unique across the table |
| UserService.GetUserById | blog-site-backend/src/main/java/com/fsk/blogsitebackend/service/UserService.java:54-58 | an unknown id is a not-found error for "User"; a known one gives the response of the row with that id |
| UserService.UpdateUserOutcomes | blog-site-backend/src/main/java/com/fsk/blogsitebackend/service/UserService.java:84-97 | an unknown id is a not-found error and changes nothing; a known id replaces only that row, taking the new fields and keeping its id and unread count, and keeps ids unique |
| UserService.AfterRegister | blog-site-backend/src/main/java/com/fsk/blogsitebackend/service/UserService.java:27-50 | the username is checked before the e-mail address; a request passing both is saved; its properties are the register lemmas of this module |
| UserService.AfterUpdateUser | blog-site-backend/src/main/java/com/fsk/blogsitebackend/service/UserService.java:84-97 | an unknown id is not-found; otherwise the row keeps its id and counter and takes every other column |
| UserService.UserService.constructor | blog-site-backend/src/main/java/com/fsk/blogsitebackend/service/UserService.java:25 | the table starts empty and valid |
| UserService.UserService.Register | blog-site-backend/src/main/java/com/fsk/blogsitebackend/service/UserService.java:27-50 | the answer and the new table are those of the registration outcome, and uniqueness is kept |
| UserService.UserService.GetUser | blog-site-backend/src/main/java/com/fsk/blogsitebackend/service/UserService.java:54-58 | the answer is the lookup by id of the current table |
| UserService.UserService.Update | blog-site-backend/src/main/java/com/fsk/blogsitebackend/service/UserService.java:84-97 | the answer and the new table are those of the update outcome; the id counter does not change |
| AboutService.JavaDiv | blog-site-backend/src/main/java/com/fsk/blogsitebackend/service/AboutService.java:95 | Java integer division, truncating toward zero for negative numerators |
| AboutService.YearsAreWholeYears | blog-site-backend/src/main/java/com/fsk/blogsitebackend/service/AboutService.java:94-95 | from the career start (1 November 2019) to a later date, the count is the number of whole years: the anniversary that many years on has passed, and the next one has not |
| AboutService.YearsBeforeStart | blog-site-backend/src/main/java/com/fsk/blogsitebackend/service/AboutService.java:94-95 | before the career start the count of years is never positive |
| AboutService.AllTechnologies | blog-site-backend/src/main/java/com/fsk/blogsitebackend/service/AboutService.java:97-98 | an entry is listed exactly when it is a technology of some experience |
| AboutService.TechKeys | blog-site-backend/src/main/java/com/fsk/blogsitebackend/service/AboutService.java:99-100 | each entry maps to its trimmed, lower-cased key, in order |
| AboutService.NonEmptySetBound | blog-site-backend/src/main/java/com/fsk/blogsitebackend/service/AboutService.java:101-102 | the set of non-empty keys is no larger than the list of keys |
| AboutService.TechSetMembers | blog-site-backend/src/main/java/com/fsk/blogsitebackend/service/AboutService.java:97-102 | a string is a counted technology exactly when it is non-empty and the key of some entry |
| AboutService.TechSetBound | blog-site-backend/src/main/java/com/fsk/blogsitebackend/service/AboutService.java:97-108 | there are never more distinct technologies than technology entries |
| AboutService.TechSetIgnoresVariants | blog-site-backend/src/main/java/com/fsk/blogsitebackend/service/AboutService.java:99-102 | adding an entry that differs from an existing one only by case or surrounding spaces does not change the count |
| AboutService.StatsCounts | blog-site-backend/src/main/java/com/fsk/blogsitebackend/service/AboutService.java:93-111 | the company count is the number of experiences, the reference count the number of references, the technology count is bounded by the entries, and the years text is the whole-year count followed by "+" |
| AboutService.IndexOfExperience | blog-site-backend/src/main/java/com/fsk/blogsitebackend/service/AboutService.java:68 | the position of the experience with the id, or -1 when no row has it |
| AboutService.IndexOfReference | blog-site-backend/src/main/java/com/fsk/blogsitebackend/service/AboutService.java:84 | the position of the reference with the id, or -1 when no row has it |
| AboutService.UpdateExperienceOutcomes | blog-site-backend/src/main/java/com/fsk/blogsitebackend/service/AboutService.java:67-71 | an unknown id is a not-found error for "Experience" and changes nothing; a known id answers that id and changes only that row, keeping ids unique |
| AboutService.UpdateReferenceOutcomes | blog-site-backend/src/main/java/com/fsk/blogsitebackend/service/AboutService.java:83-87 | an unknown id is a not-found error for "Reference" and changes nothing; a known id answers that id and changes only that row, keeping ids unique |
| AboutService.UpdatesKeepCounts | blog-site-backend/src/main/java/com/fsk/blogsitebackend/service/AboutService.java:67-109 | an update never changes the company or reference counts |
| AboutService.YearsBetween | blog-site-backend/src/main/java/com/fsk/blogsitebackend/service/AboutService.java:94-95 | `Period.between(...).getYears()`: whole years between the two dates, a year counting only once its month and day are reached |
| AboutService.TechSet | blog-site-backend/src/main/java/com/fsk/blogsitebackend/service/AboutService.java:97-102 | the distinct trimmed, lower-cased, non-empty technology names |
| AboutService.CalculateStats | blog-site-backend/src/main/java/com/fsk/blogsitebackend/service/AboutService.java:93-111 | the years since November 2019 followed by "+", the number of experiences, of distinct technologies and of references |
| AboutService.IndexOfRow | blog-site-backend/src/main/java/com/fsk/blogsitebackend/service/AboutService.java:67-71 | the row whose key is the id, or -1 exactly when no row has it |
| AboutService.AfterUpdateExperience | blog-site-backend/src/main/java/com/fsk/blogsitebackend/service/AboutService.java:67-71 | an unknown id is not-found; otherwise only that row takes the request's fields |
| AboutService.AfterUpdateReference | blog-site-backend/src/main/java/com/fsk/blogsitebackend/service/AboutService.java:83-87 | an unknown id is not-found; otherwise only that row takes the request's fields |
| AboutService.AboutService.constructor | blog-site-backend/src/main/java/com/fsk/blogsitebackend/service/AboutService.java:40-42 | the service starts from tables with unique ids |
| AboutService.AboutService.UpdateExperience | blog-site-backend/src/main/java/com/fsk/blogsitebackend/service/AboutService.java:67-71 | the answer and the new experiences are the update outcome; references are untouched |
| AboutService.AboutService.UpdateReference | blog-site-backend/src/main/java/com/fsk/blogsitebackend/service/AboutService.java:83-87 | the answer and the new references are the update outcome; experiences are untouched |
| CommentThreads.AppendFreshComment | blog-site-backend/src/main/java/com/fsk/blogsitebackend/service/CommentService.java:71 | saving a comment numbered past every stored one keeps comment ids distinct |
| CommentThreads.InsertNewest | blog-site-backend/src/main/java/com/fsk/blogsitebackend/service/CommentService.java:139 | inserting a comment adds exactly that comment to the list |
| CommentThreads.InsertNewestSorted | blog-site-backend/src/main/java/com/fsk/blogsitebackend/service/CommentService.java:139 | inserting into a newest-first list keeps it newest first |
| CommentThreads.SortNewestFirst | blog-site-backend/src/main/java/com/fsk/blogsitebackend/service/CommentService.java:139 | the roots are sorted newest first (by creation time, descending) and are a permutation of the input |
| CommentThreads.BuildCommentTree | blog-site-backend/src/main/java/com/fsk/blogsitebackend/service/CommentService.java:118-142 | the reply lists are keyed by exactly the ids of the input; each lists the comments whose parent is that id, and the roots are the parentless comments sorted newest first |
| CommentThreads.RootsUpToCount | blog-site-backend/src/main/java/com/fsk/blogsitebackend/service/CommentService.java:127-131 | after the first n comments, the roots hold every parentless comment among them as often as it occurs, and nothing else |
| CommentThreads.ChildrenUpToCount | blog-site-backend/src/main/java/com/fsk/blogsitebackend/service/CommentService.java:127-135 | after the first n comments, the replies of p hold every comment among them whose parent is p, and nothing else |
| CommentThreads.RootsAreParentless | blog-site-backend/src/main/java/com/fsk/blogsitebackend/service/CommentService.java:129-139 | a comment is a root exactly when it is an input comment without a parent; the roots are newest first and keep each root's multiplicity |
| CommentThreads.OnceInDistinct | blog-site-backend/src/main/java/com/fsk/blogsitebackend/service/CommentService.java:124 | with distinct ids, a comment occurs once in the list |
| CommentThreads.ReplyPlacement | blog-site-backend/src/main/java/com/fsk/blogsitebackend/service/CommentService.java:132-135 | a reply is never a root; it is listed exactly once under its own parent and under no other id |
| CommentThreads.IndexOfDistinct | blog-site-backend/src/main/java/com/fsk/blogsitebackend/service/CommentService.java:124 | with distinct ids, looking up the id of the m-th comment finds position m |
| CommentThreads.ChildrenUpToOrder | blog-site-backend/src/main/java/com/fsk/blogsitebackend/service/CommentService.java:127-135 | the replies collected so far come from the first n comments, in input order |
| CommentThreads.RepliesKeepInputOrder | blog-site-backend/src/main/java/com/fsk/blogsitebackend/service/CommentService.java:134 | the replies of every parent are in the order of the input list |
| CommentThreads.TruncateMessage | blog-site-backend/src/main/java/com/fsk/blogsitebackend/service/CommentService.java:175-180 | a message of at most the limit is kept; a longer one is cut to the limit and "..." appended, so the result is at most the limit plus three |
| CommentThreads.TruncateKeepsPrefix | blog-site-backend/src/main/java/com/fsk/blogsitebackend/service/CommentService.java:175-180 | the result starts with the message, or with its first maxLength characters when it was cut |
| CommentThreads.WordRunLength | blog-site-backend/src/main/java/com/fsk/blogsitebackend/service/CommentService.java:165 | the run of `\w` characters starting at i is maximal: every character in it is a word character and the one after it is not |
| CommentThreads.MentionGroup | blog-site-backend/src/main/java/com/fsk/blogsitebackend/service/CommentService.java:165-169 | the group of a match of `@(\w+)` is never empty |
| CommentThreads.MentionsFromExactly | blog-site-backend/src/main/java/com/fsk/blogsitebackend/service/CommentService.java:168-171 | scanning from i yields exactly the groups of the matches at or after i |
| CommentThreads.MentionTokensExactly | blog-site-backend/src/main/java/com/fsk/blogsitebackend/service/CommentService.java:163-173 | a token is extracted exactly when it is the group of some `@` match in the content |
| CommentThreads.Resolve | blog-site-backend/src/main/java/com/fsk/blogsitebackend/service/CommentService.java:170 | every resolved id belongs to a user of the table |
| CommentThreads.ResolveExactly | blog-site-backend/src/main/java/com/fsk/blogsitebackend/service/CommentService.java:170 | an id is resolved exactly when its user's username is one of the tokens |
| CommentThreads.MentionedIdsExactly | blog-site-backend/src/main/java/com/fsk/blogsitebackend/service/CommentService.java:163-173 | the mentioned users are exactly those whose username appears as an `@` mention in the content; unknown names are skipped |
| CommentThreads.ExtractMentions | blog-site-backend/src/main/java/com/fsk/blogsitebackend/service/CommentService.java:163-173 | the loop over the matches collects exactly the mentioned users |
| CommentThreads.MentionMessage | blog-site-backend/src/main/java/com/fsk/blogsitebackend/service/CommentService.java:76-78 | the notification text starts with the author's full name and the fixed Turkish phrase, and ends with a closing quote |
| CommentThreads.SelfMentionIgnored | blog-site-backend/src/main/java/com/fsk/blogsitebackend/service/CommentService.java:74-75 | the author gets no notification and keeps their counter, while every other mentioned user gets one |
| CommentThreads.NoTargetsNoChange | blog-site-backend/src/main/java/com/fsk/blogsitebackend/service/CommentService.java:74-86 | with nobody to notify, the notification store is unchanged |
| CommentThreads.DeliverAll | blog-site-backend/src/main/java/com/fsk/blogsitebackend/service/CommentService.java:74-86 | delivering notifications keeps the user rows and their ids in place |
| CommentThreads.SnocFacts | blog-site-backend/src/main/java/com/fsk/blogsitebackend/service/CommentService.java:74 | the last recipient of a list without repeats is not among the earlier ones |
| CommentThreads.CountersStep | blog-site-backend/src/main/java/com/fsk/blogsitebackend/service/CommentService.java:79-84 | notifying one more new recipient raises that recipient's counter by one and no other |
| CommentThreads.DeliverAllCounters | blog-site-backend/src/main/java/com/fsk/blogsitebackend/service/CommentService.java:74-86 | after the loop, exactly the recipients' counters are raised, each by one |
| CommentThreads.DeliverAllLast | blog-site-backend/src/main/java/com/fsk/blogsitebackend/service/CommentService.java:79-84 | the last delivery adds one notification with the next id, for the last recipient |
| CommentThreads.DeliverAllKeys | blog-site-backend/src/main/java/com/fsk/blogsitebackend/service/CommentService.java:74-86 | the loop uses one new id per recipient; old notifications are kept unchanged |
| CommentThreads.DeliverAllNotifications | blog-site-backend/src/main/java/com/fsk/blogsitebackend/service/CommentService.java:79-84 | the m-th new notification is the MENTION notification, with the post slug and comment id, for the m-th recipient |
| CommentThreads.DeliverAllDelivers | blog-site-backend/src/main/java/com/fsk/blogsitebackend/service/CommentService.java:74-86 | delivering to a list without repeats notifies each listed user exactly once and no one else |
| CommentThreads.DeliveredInOrder | blog-site-backend/src/main/java/com/fsk/blogsitebackend/service/CommentService.java:74-86 | state built one notification per recipient, in order, delivers to exactly those recipients |
| CommentThreads.DistinctCard | blog-site-backend/src/main/java/com/fsk/blogsitebackend/service/CommentService.java:74 | a list without repeats has as many elements as its set |
| CommentThreads.DeliverAllHasUser | blog-site-backend/src/main/java/com/fsk/blogsitebackend/service/NotificationService.java:42 | delivering never removes a user row |
| CommentThreads.DeliverAllAppend | blog-site-backend/src/main/java/com/fsk/blogsitebackend/service/CommentService.java:74-86 | delivering to one more recipient is one more `createNotification` |
| CommentThreads.DistinctAppend | blog-site-backend/src/main/java/com/fsk/blogsitebackend/service/CommentService.java:74 | adding a new recipient keeps the list without repeats |
| CommentThreads.NotifyMentioned | blog-site-backend/src/main/java/com/fsk/blogsitebackend/service/CommentService.java:74-86 | the loop over the mentioned users gives each mentioned user other than the author exactly one MENTION notification and one more unread count, and changes nothing else |
| CommentThreads.DeliveredToTargets | blog-site-backend/src/main/java/com/fsk/blogsitebackend/service/CommentService.java:74-86 | delivering to a list without repeats that holds exactly the targets notifies exactly the targets |
| CommentThreads.IndexOfComment | blog-site-backend/src/main/java/com/fsk/blogsitebackend/service/CommentService.java:62 | the position of the comment with the id, or -1 exactly when no comment has it |
| CommentThreads.CheckCreateOutcomes | blog-site-backend/src/main/java/com/fsk/blogsitebackend/service/CommentService.java:43-65 | an unknown slug, an unknown author id, no users at all when no author is given, and an unknown parent id each fail with their own error, checked in that order; otherwise the lookups succeed with the post, the author (the first user when none is given) and the parent |
| CommentThreads.ActiveMembership | blog-site-backend/src/main/java/com/fsk/blogsitebackend/service/CommentService.java:113 | the query returns exactly the active comments of the post |
| CommentThreads.ChildIsInput | blog-site-backend/src/main/java/com/fsk/blogsitebackend/service/CommentService.java:132-135 | a reply listed under any parent is a comment of the input |
| CommentThreads.TreeOfActiveComments | blog-site-backend/src/main/java/com/fsk/blogsitebackend/service/CommentService.java:107-116 | every comment shown in the tree, root or reply, is an active comment of that post |
| CommentThreads.SoftDeleteOutcomes | blog-site-backend/src/main/java/com/fsk/blogsitebackend/service/CommentService.java:91-105 | an unknown user is not-found and a non-admin gets "Only admins can delete comments" (even for a missing comment); an admin on an unknown comment gets not-found; otherwise only that comment changes, becoming inactive with its deletion time set, and it leaves every post's active comments |
| CommentThreads.RootsOf | blog-site-backend/src/main/java/com/fsk/blogsitebackend/service/CommentService.java:127-137 | the comments with no parent, in list order |
| CommentThreads.ChildrenOf | blog-site-backend/src/main/java/com/fsk/blogsitebackend/service/CommentService.java:127-137 | the comments whose parent is the given id, in list order |
| CommentThreads.NewestFirst | blog-site-backend/src/main/java/com/fsk/blogsitebackend/service/CommentService.java:139 | creation times never increase along the list |
| CommentThreads.CreatedAt | blog-site-backend/src/main/java/com/fsk/blogsitebackend/service/CommentService.java:139 | the comments created at one time, in list order; the measure of stability |
| CommentThreads.InsertNewestTies | blog-site-backend/src/main/java/com/fsk/blogsitebackend/service/CommentService.java:139 | inserting a comment puts it in front of the equally old comments and keeps the order of every group of equally old comments |
| CommentThreads.SortNewestFirstStable | blog-site-backend/src/main/java/com/fsk/blogsitebackend/service/CommentService.java:139 | the sort is stable: for every creation time, the comments created then keep their input order |
| CommentThreads.MentionsFrom | blog-site-backend/src/main/java/com/fsk/blogsitebackend/service/CommentService.java:166-171 | the names of the successive matches of `@(\w+)`, each search resuming after the previous match |
| CommentThreads.MentionedIds | blog-site-backend/src/main/java/com/fsk/blogsitebackend/service/CommentService.java:163-173 | the ids of the users whose usernames are mentioned |
| CommentThreads.CheckCreate | blog-site-backend/src/main/java/com/fsk/blogsitebackend/service/CommentService.java:42-65 | the lookups of create in order: post by slug, author by id or the first user, then the parent |
| CommentThreads.AfterSoftDelete | blog-site-backend/src/main/java/com/fsk/blogsitebackend/service/CommentService.java:92-104 | a missing acting user or a non-admin fails before the comment is looked up; a found comment is kept, marked inactive and stamped |
| CommentService.CommentService.constructor | blog-site-backend/src/main/java/com/fsk/blogsitebackend/service/CommentService.java:37-40 | the service starts with no comments over the given posts and a valid notifier |
| CommentService.CommentService.CreateComment | blog-site-backend/src/main/java/com/fsk/blogsitebackend/service/CommentService.java:42-89 | failed lookups return their error and change nothing; otherwise the new comment is stored last with the users its content mentions, and each mentioned user except the author is notified exactly once |
| CommentService.CommentService.SoftDeleteComment | blog-site-backend/src/main/java/com/fsk/blogsitebackend/service/CommentService.java:91-105 | the error and the new comments are the soft-delete outcome; posts and the id counter are untouched |
| CommentService.CommentService.GetCommentsForPost | blog-site-backend/src/main/java/com/fsk/blogsitebackend/service/CommentService.java:107-116 | an unknown slug is a not-found error; otherwise the answer is the comment tree of the post's active comments |
| PostCommentService.CommentNotFoundMessage | blog-site-backend/src/main/java/com/fsk/blogsitebackend/service/PostCommentService.java:80 | the message starts with "Comment not found with id: " followed by the id |
| PostCommentService.UpdateOutcomes | blog-site-backend/src/main/java/com/fsk/blogsitebackend/service/PostCommentService.java:78-87 | an unknown id is a runtime error with that message and changes nothing; a known id replaces content, mentions and parent of that comment only, keeping the other columns and distinct ids |
| PostCommentService.AfterUpdate | blog-site-backend/src/main/java/com/fsk/blogsitebackend/service/PostCommentService.java:78-87 | an unknown id is a runtime error; otherwise the comment takes the new content, mentions and parent |
| PostCommentService.PostCommentService.constructor | blog-site-backend/src/main/java/com/fsk/blogsitebackend/service/PostCommentService.java:38-41 | the service starts with no comments over the given posts and a valid notifier |
| PostCommentService.PostCommentService.CreateComment | blog-site-backend/src/main/java/com/fsk/blogsitebackend/service/PostCommentService.java:93-137 | the same outcome as the comment service: failed lookups change nothing, otherwise the comment is stored and each mentioned user except the author is notified exactly once |
| PostCommentService.PostCommentService.SoftDeleteComment | blog-site-backend/src/main/java/com/fsk/blogsitebackend/service/PostCommentService.java:139-151 | the error and the new comments are the soft-delete outcome (admin check first, then deactivate and stamp) |
| PostCommentService.PostCommentService.Update | blog-site-backend/src/main/java/com/fsk/blogsitebackend/service/PostCommentService.java:78-87 | the answer and the new comments are the update outcome |
| PostCommentService.PostCommentService.GetCommentsForPost | blog-site-backend/src/main/java/com/fsk/blogsitebackend/service/PostCommentService.java:153-187 | an unknown slug is a not-found error; otherwise the answer is the comment tree of the post's active comments |
| NotificationService.ReadAllOf | blog-site-backend/src/main/java/com/fsk/blogsitebackend/service/NotificationService.java:83 | the bulk update keeps every notification id |
| NotificationService.CreateKeepsCounters | blog-site-backend/src/main/java/com/fsk/blogsitebackend/service/NotificationService.java:28-43 | create stores one unread notification for the recipient under a fresh id, raises only the recipient's counter by one, and keeps counters in step with unread notifications |
| NotificationService.CreateRaisesRecipient | blog-site-backend/src/main/java/com/fsk/blogsitebackend/service/NotificationService.java:41-42 | only the recipient's counter changes, by exactly one |
| NotificationService.CreateWellformed | blog-site-backend/src/main/java/com/fsk/blogsitebackend/service/NotificationService.java:28-43 | create keeps every notification owned by an existing user under an id below the counter |
| NotificationService.CreateCountersMatch | blog-site-backend/src/main/java/com/fsk/blogsitebackend/service/NotificationService.java:28-43 | when each user's counter equals their number of unread notifications, it still does after create |
| NotificationService.MarkAsReadKeepsCounters | blog-site-backend/src/main/java/com/fsk/blogsitebackend/service/NotificationService.java:58-77 | an unknown id is not-found and another user's notification a runtime error, both changing nothing; for the owner, a read notification changes nothing; otherwise only that notification becomes read, the id counter and the number of user rows are kept, the owner's counter drops by one when positive and every other row is unchanged, and counters stay in step and non-negative |
| NotificationService.MarkAsReadWellformed | blog-site-backend/src/main/java/com/fsk/blogsitebackend/service/NotificationService.java:58-77 | mark-as-read keeps the store well formed |
| NotificationService.MarkAsReadCountersMatch | blog-site-backend/src/main/java/com/fsk/blogsitebackend/service/NotificationService.java:66-75 | reading an unread notification of the owner lowers the owner's unread count by exactly one and keeps every counter equal to its user's unread notifications |
| NotificationService.MarkAsReadIdempotent | blog-site-backend/src/main/java/com/fsk/blogsitebackend/service/NotificationService.java:66 | a second identical call gives the same outcome and changes nothing more |
| NotificationService.MarkAllAsReadKeepsCounters | blog-site-backend/src/main/java/com/fsk/blogsitebackend/service/NotificationService.java:79-86 | an unknown user is not-found and changes nothing; otherwise all the user's notifications are read, others untouched, the user's counter is 0 and counters stay in step |
| NotificationService.MarkAllAsReadRows | blog-site-backend/src/main/java/com/fsk/blogsitebackend/service/NotificationService.java:84-85 | only the user's row changes, its counter set to 0 |
| NotificationService.MarkAllAsReadCounters | blog-site-backend/src/main/java/com/fsk/blogsitebackend/service/NotificationService.java:79-86 | mark-all keeps every counter equal to its user's unread notifications |
| NotificationService.MarkAllAsReadWellformed | blog-site-backend/src/main/java/com/fsk/blogsitebackend/service/NotificationService.java:79-86 | mark-all keeps the store well formed |
| NotificationService.MarkAsReadRows | blog-site-backend/src/main/java/com/fsk/blogsitebackend/service/NotificationService.java:66-75 | reading the owner's notification keeps the number of user rows; the owner's counter drops by one when the notification was unread and the counter positive, and every other row is unchanged |
| NotificationService.UnreadCount | blog-site-backend/src/main/java/com/fsk/blogsitebackend/service/NotificationService.java:54-56 | the user's count of unread notifications; `MarkAsReadCountersMatch` and `CreateCountersMatch` show how each operation moves it |
| NotificationService.AfterCreate | blog-site-backend/src/main/java/com/fsk/blogsitebackend/service/NotificationService.java:28-43 | the store after create; its properties are `CreateKeepsCounters`, `CreateRaisesRecipient`, `CreateWellformed` and `CreateCountersMatch` |
| NotificationService.AfterMarkAsRead | blog-site-backend/src/main/java/com/fsk/blogsitebackend/service/NotificationService.java:58-77 | the outcome and store of mark-as-read; its properties are `MarkAsReadKeepsCounters`, `MarkAsReadWellformed`, `MarkAsReadCountersMatch` and `MarkAsReadIdempotent` |
| NotificationService.AfterMarkAllAsRead | blog-site-backend/src/main/java/com/fsk/blogsitebackend/service/NotificationService.java:79-86 | the outcome and store of mark-all; its properties are `MarkAllAsReadKeepsCounters`, `MarkAllAsReadRows`, `MarkAllAsReadCounters` and `MarkAllAsReadWellformed` |
| NotificationService.NotificationService.constructor | blog-site-backend/src/main/java/com/fsk/blogsitebackend/service/NotificationService.java:25-26 | the service starts with the given users and no notifications |
| NotificationService.NotificationService.CreateNotification | blog-site-backend/src/main/java/com/fsk/blogsitebackend/service/NotificationService.java:28-43 | the new state is the create outcome |
| NotificationService.NotificationService.GetUnreadCount | blog-site-backend/src/main/java/com/fsk/blogsitebackend/service/NotificationService.java:53-56 | the count is the number of the user's unread notifications |
| NotificationService.NotificationService.MarkAsRead | blog-site-backend/src/main/java/com/fsk/blogsitebackend/service/NotificationService.java:58-77 | the outcome and the new state are those of mark-as-read |
| NotificationService.NotificationService.MarkAllAsRead | blog-site-backend/src/main/java/com/fsk/blogsitebackend/service/NotificationService.java:79-86 | the outcome and the new state are those of mark-all |
| PostService.MapToResponse | blog-site-backend/src/main/java/com/fsk/blogsitebackend/service/PostService.java:208-234 | the response copies the post's columns; it has an author exactly when the post has one, with the author's id, username and full name and no avatar; it has tag names exactly when the post has a tag set |
| PostService.ReplaceChar | blog-site-backend/src/main/java/com/fsk/blogsitebackend/service/PostService.java:102 | `replace` of one character changes every occurrence of it and nothing else |
| PostService.TagSlug | blog-site-backend/src/main/java/com/fsk/blogsitebackend/service/PostService.java:102 | the tag slug has the name's length; each space becomes a dash and each letter is lower-cased, so the slug has no spaces and no upper-case letters |
| PostService.TagSlugIdempotent | blog-site-backend/src/main/java/com/fsk/blogsitebackend/service/PostService.java:102 | a slug is its own slug |
| PostService.IndexOfSlug | blog-site-backend/src/main/java/com/fsk/blogsitebackend/repository/TagRepository.java:14 | the position of the tag with the slug, or -1 exactly when no tag has it |
| PostService.StepOk | blog-site-backend/src/main/java/com/fsk/blogsitebackend/service/PostService.java:101-111 | one more iteration of the tag loop keeps the table and the collected tags consistent |
| PostService.ResolveTagsTable | blog-site-backend/src/main/java/com/fsk/blogsitebackend/service/PostService.java:100-113 | after the loop, tag slugs are still unique, the old tags are all kept, and new tags get fresh ids |
| PostService.StepPicks | blog-site-backend/src/main/java/com/fsk/blogsitebackend/service/PostService.java:103-110 | each iteration adds exactly one tag whose slug is that of the name: an existing one or a new one |
| PostService.StepNamesCovered | blog-site-backend/src/main/java/com/fsk/blogsitebackend/service/PostService.java:101-111 | every name handled so far has a collected tag with its slug |
| PostService.StepTagsNamed | blog-site-backend/src/main/java/com/fsk/blogsitebackend/service/PostService.java:101-111 | every collected tag has the slug of some name handled so far |
| PostService.ResolveTagsCoversNames | blog-site-backend/src/main/java/com/fsk/blogsitebackend/service/PostService.java:99-113 | every requested name's slug is the slug of a tag of the post |
| PostService.ResolveTagsOnlyNamed | blog-site-backend/src/main/java/com/fsk/blogsitebackend/service/PostService.java:99-113 | every tag of the post has the slug of a requested name |
| PostService.ResolveTagsReuses | blog-site-backend/src/main/java/com/fsk/blogsitebackend/service/PostService.java:103-109 | an existing tag with a requested slug is reused, and a new tag is created only for a slug no existing tag has |
| PostService.ResolvedOnePerSlug | blog-site-backend/src/main/java/com/fsk/blogsitebackend/service/PostService.java:100-110 | the post's tag set holds one tag per distinct slug, even when names repeat or differ only in case |
| PostService.CreatePostFailures | blog-site-backend/src/main/java/com/fsk/blogsitebackend/service/PostService.java:71-83 | a taken slug fails first with the slug conflict, then an unknown author id with not-found, then no users at all with NoUsersFound, each changing nothing; otherwise creation succeeds |
| PostService.CreatePostStores | blog-site-backend/src/main/java/com/fsk/blogsitebackend/service/PostService.java:85-116 | a created post is appended with the next id and the request's fields; its status defaults to DRAFT; it is stamped with the time exactly when PUBLISHED; its tags are resolved from the names when a non-empty list is given |
| PostService.CreatePostKeepsSlugsUnique | blog-site-backend/src/main/java/com/fsk/blogsitebackend/service/PostService.java:71-74 | creating a post never makes two posts share a slug |
| PostService.IndexOfPost | blog-site-backend/src/main/java/com/fsk/blogsitebackend/service/PostService.java:176-177 | the position of the post with the id, or -1 exactly when no post has it |
| PostService.UpdatePostOutcomes | blog-site-backend/src/main/java/com/fsk/blogsitebackend/service/PostService.java:175-206 | an unknown id is not-found and changes nothing; otherwise only that post changes: title, slug, content, excerpt and image are replaced, the status only when given, the tags only when a list is given; publication date, views, categories and author are kept |
| PostService.FilterPosts | blog-site-backend/src/main/java/com/fsk/blogsitebackend/repository/PostRepository.java:26-33 | the query returns exactly the posts that match it |
| PostService.PageOf | blog-site-backend/src/main/java/com/fsk/blogsitebackend/service/PostService.java:154 | a page holds the elements from page times size on, at most size of them, and is empty past the end |
| PostService.ToResponses | blog-site-backend/src/main/java/com/fsk/blogsitebackend/service/PostService.java:167 | each post of the page is mapped to its response, in order |
| PostService.FilterPrecedence | blog-site-backend/src/main/java/com/fsk/blogsitebackend/service/PostService.java:157-165 | exactly one filter applies, category before tag before search; a filter that is null behaves as an empty one, and with none every post is listed |
| PostService.PageWithin | blog-site-backend/src/main/java/com/fsk/blogsitebackend/service/PostService.java:154 | a page holds only elements of the list paged |
| PostService.FilteredPostsMatch | blog-site-backend/src/main/java/com/fsk/blogsitebackend/service/PostService.java:153-168 | the call succeeds exactly for a non-negative page and a size of at least one; then it answers at most size responses, each of a post matching the selected filter |
| PostService.FirstPageComplete | blog-site-backend/src/main/java/com/fsk/blogsitebackend/service/PostService.java:153-168 | when the first page is at least as large as the table, it holds every matching post |
| PostService.ResolveTags | blog-site-backend/src/main/java/com/fsk/blogsitebackend/service/PostService.java:99-113 | the tag loop over the names in order, each name reusing the tag of its slug or creating one; its properties are `ResolveTagsTable` and the lemmas after it |
| PostService.AfterCreatePost | blog-site-backend/src/main/java/com/fsk/blogsitebackend/service/PostService.java:71-117 | a taken slug fails first, then a missing author; otherwise the post is stored; its properties are the create lemmas of this module |
| PostService.AfterUpdatePost | blog-site-backend/src/main/java/com/fsk/blogsitebackend/service/PostService.java:175-206 | an unknown id is not-found; otherwise the fields are overwritten, the status and tags only when given; its properties are the update lemmas of this module |
| PostService.SelectQuery | blog-site-backend/src/main/java/com/fsk/blogsitebackend/service/PostService.java:157-165 | the first non-empty filter among category, tag and search picks the query; none picks all posts |
| PostService.Matches | blog-site-backend/src/main/java/com/fsk/blogsitebackend/repository/PostRepository.java:26-33 | what each repository query matches: a category slug, a tag slug, or a case-insensitive substring of the title |
| PostService.GetFilteredPosts | blog-site-backend/src/main/java/com/fsk/blogsitebackend/service/PostService.java:153-169 | a negative page or a size below one is an illegal argument; otherwise the page of the selected query's matches |
| PostService.PostService.constructor | blog-site-backend/src/main/java/com/fsk/blogsitebackend/service/PostService.java:38-40 | the service starts with no posts and no tags over the given users |
| PostService.PostService.ResolveTagNames | blog-site-backend/src/main/java/com/fsk/blogsitebackend/service/PostService.java:100-111 | the tag loop over the names, with its find-or-create, has the outcome of the tag resolution; posts and users are untouched |
| PostService.PostService.CreatePost | blog-site-backend/src/main/java/com/fsk/blogsitebackend/service/PostService.java:71-117 | the answer and the new state are those of createPost |
| PostService.PostService.UpdatePost | blog-site-backend/src/main/java/com/fsk/blogsitebackend/service/PostService.java:175-206 | the answer and the new state are those of updatePost |
| SocialMediaAdmin.Insert | blog-site-frontend/src/pages/SocialMediaAdmin.tsx:99 | inserting one link into the list lengthens it by one |
| SocialMediaAdmin.InsertPermutes | blog-site-frontend/src/pages/SocialMediaAdmin.tsx:99 | inserting adds the link and loses nothing |
| SocialMediaAdmin.InsertLowerBound | blog-site-frontend/src/pages/SocialMediaAdmin.tsx:99 | inserting a link whose order is at least a bound keeps every order at least that bound |
| SocialMediaAdmin.InsertSorted | blog-site-frontend/src/pages/SocialMediaAdmin.tsx:99 | inserting into a list sorted by display order keeps it sorted |
| SocialMediaAdmin.InsertPoint | blog-site-frontend/src/pages/SocialMediaAdmin.tsx:99 | the insertion point lies within the list |
| SocialMediaAdmin.InsertAt | blog-site-frontend/src/pages/SocialMediaAdmin.tsx:99 | the link goes in at the insertion point; the links before and after keep their places |
| SocialMediaAdmin.InsertPointSplits | blog-site-frontend/src/pages/SocialMediaAdmin.tsx:99 | before the insertion point every link has an order at most the new one's, and after it every link has a larger order, so equal orders keep their arrival order (a stable sort) |
| SocialMediaAdmin.SortByOrder | blog-site-frontend/src/pages/SocialMediaAdmin.tsx:233 | sorting keeps the number of links |
| SocialMediaAdmin.SortPermutes | blog-site-frontend/src/pages/SocialMediaAdmin.tsx:233 | the sort by display order (a missing order counts as 0) is a permutation of the links |
| SocialMediaAdmin.SortIsSorted | blog-site-frontend/src/pages/SocialMediaAdmin.tsx:233 | the sorted list is ordered by display order |
| SocialMediaAdmin.InsertLast | blog-site-frontend/src/pages/SocialMediaAdmin.tsx:99 | a link whose order is at least every other one goes last |
| SocialMediaAdmin.SortOfSorted | blog-site-frontend/src/pages/SocialMediaAdmin.tsx:233 | an already sorted list is its own sort |
| SocialMediaAdmin.CreateInsertsInPlace | blog-site-frontend/src/pages/SocialMediaAdmin.tsx:99 | appending the created link to a sorted list and sorting inserts it in order and moves nothing else |
| SocialMediaAdmin.ToggleById | blog-site-frontend/src/pages/SocialMediaAdmin.tsx:54-56 | the links with the id have their active flag flipped; all the others are unchanged, in place |
| SocialMediaAdmin.ToggleTwice | blog-site-frontend/src/pages/SocialMediaAdmin.tsx:54-56 | toggling twice restores the list |
| SocialMediaAdmin.DeleteById | blog-site-frontend/src/pages/SocialMediaAdmin.tsx:67 | deleting never lengthens the list |
| SocialMediaAdmin.DeleteByIdMembers | blog-site-frontend/src/pages/SocialMediaAdmin.tsx:67 | exactly the links with another id stay |
| SocialMediaAdmin.DeleteKeepsOrder | blog-site-frontend/src/pages/SocialMediaAdmin.tsx:67 | deleting distributes over concatenation, so the remaining links keep their order |
| SocialMediaAdmin.ReplaceById | blog-site-frontend/src/pages/SocialMediaAdmin.tsx:95 | the links with the edited id become the updated link; the others stay in place |
| SocialMediaAdmin.ReplaceUnchanged | blog-site-frontend/src/pages/SocialMediaAdmin.tsx:95 | replacing a link by itself changes nothing |
| SocialMediaAdmin.ReplaceIdempotent | blog-site-frontend/src/pages/SocialMediaAdmin.tsx:95 | replacing twice is replacing once |
| SocialMediaAdmin.IconFor | blog-site-frontend/src/pages/SocialMediaAdmin.tsx:234 | the intended lookup: a known icon name shows its own icon and any other name shows Twitter, including the names inherited from `Object.prototype` (see Findings) |
| SocialMediaAdmin.PreviewIcon | blog-site-frontend/src/pages/SocialMediaAdmin.tsx:108 | the intended preview: an icon exactly for a known, non-empty icon name, and none for an inherited name (see Findings) |
| SocialMediaAdmin.IconMapLookup | blog-site-frontend/src/pages/SocialMediaAdmin.tsx:12-20 | `IconMap[name]` as a property access: an own key exactly for the seven icon names, an inherited member exactly for the names of `Object.prototype`, and `undefined` otherwise |
| SocialMediaAdmin.IconForAsWritten | blog-site-frontend/src/pages/SocialMediaAdmin.tsx:234 | the list's lookup as written: every value found is truthy, so only `undefined` falls back to Twitter |
| SocialMediaAdmin.PreviewIconAsWritten | blog-site-frontend/src/pages/SocialMediaAdmin.tsx:108 | the preview's lookup as written: none for an empty name or `undefined`, otherwise whatever the map access finds |
| SocialMediaAdmin.InheritedNameDiscrepancy | blog-site-frontend/src/pages/SocialMediaAdmin.tsx:108-234 | for an inherited name such as "constructor", as written the list draws the inherited member instead of Twitter and the preview shows it, while the intended lookups give Twitter and no preview |
| SocialMediaAdmin.IconLookupsAgree | blog-site-frontend/src/pages/SocialMediaAdmin.tsx:108-234 | for every other name, the lookups as written and the intended ones give the same icon and preview |
| SocialMediaAdmin.Key | blog-site-frontend/src/pages/SocialMediaAdmin.tsx:233 | a link's display order, or 0 when it has none |
| SocialMediaAdmin.AdminPage.constructor | blog-site-frontend/src/pages/SocialMediaAdmin.tsx:24-33 | the page starts loading, with no links, no edit and the empty form (order 0, active) |
| SocialMediaAdmin.AdminPage.LinksAnswered | blog-site-frontend/src/pages/SocialMediaAdmin.tsx:39-49 | a loaded list replaces the links; a failure keeps them and shows the error toast; loading ends either way |
| SocialMediaAdmin.AdminPage.SortForDisplay | blog-site-frontend/src/pages/SocialMediaAdmin.tsx:233 | drawing the list sorts the links in place by display order |
| SocialMediaAdmin.AdminPage.ToggleActive | blog-site-frontend/src/pages/SocialMediaAdmin.tsx:51-61 | on success the link's active flag is flipped and the success toast shown; on failure the links are kept and the error toast shown |
| SocialMediaAdmin.AdminPage.Delete | blog-site-frontend/src/pages/SocialMediaAdmin.tsx:63-72 | an unconfirmed delete does nothing; a confirmed one removes the link on success, or keeps the list and shows the error toast on failure |
| SocialMediaAdmin.AdminPage.Edit | blog-site-frontend/src/pages/SocialMediaAdmin.tsx:74-77 | editing a link fills the form with it and remembers its id |
| SocialMediaAdmin.AdminPage.CancelEdit | blog-site-frontend/src/pages/SocialMediaAdmin.tsx:79-88 | cancelling forgets the id and resets the form |
| SocialMediaAdmin.AdminPage.SetName | blog-site-frontend/src/pages/SocialMediaAdmin.tsx:143 | typing a name changes only the form's name |
| SocialMediaAdmin.AdminPage.SetIconName | blog-site-frontend/src/pages/SocialMediaAdmin.tsx:160 | typing an icon name changes only the form's icon name |
| SocialMediaAdmin.AdminPage.SetUrl | blog-site-frontend/src/pages/SocialMediaAdmin.tsx:178 | typing a URL changes only the form's URL |
| SocialMediaAdmin.AdminPage.SetDisplayOrder | blog-site-frontend/src/pages/SocialMediaAdmin.tsx:192 | the parsed order changes only the form's display order |
| SocialMediaAdmin.AdminPage.SubmitCall | blog-site-frontend/src/pages/SocialMediaAdmin.tsx:93-98 | a non-empty edited id sends an update of that id; otherwise a create is sent |
| SocialMediaAdmin.AdminPage.SubmitAnswered | blog-site-frontend/src/pages/SocialMediaAdmin.tsx:90-106 | an update's answer replaces the edited link, a create's answer joins the list in display order, and either resets the form; a failure keeps everything and shows "Transaction failed" |
| Navbar.IsActive | blog-site-frontend/src/components/layout/Navbar.tsx:82-84 | the home link is active exactly on "/"; any other link is active exactly on the paths that start with its own |
| Navbar.AtMostOneActive | blog-site-frontend/src/components/layout/Navbar.tsx:55-59 | on any path at most one of the three page links is marked active |
| Navbar.ActiveExamples | blog-site-frontend/src/components/layout/Navbar.tsx:82-84 | the articles link is marked on "/" only; the about link is marked on "/about" and on paths below it, and not on "/" |
| Navbar.VisibleLinks | blog-site-frontend/src/components/layout/Navbar.tsx:81-145 | login and register appear exactly without a user; the announcement link appears exactly for an ADMIN; the page links and the new-post link always appear |
| Navbar.SocialIcons | blog-site-frontend/src/components/layout/Navbar.tsx:163 | one icon per social link, in order: the link's own icon when its name is known, Twitter otherwise, as intended (the lookup as written is `SocialMediaAdmin.IconForAsWritten`) |
| Navbar.NavbarState.constructor | blog-site-frontend/src/components/layout/Navbar.tsx:23-28 | the bar starts from the stored user, with the menu closed, the social panel hidden and no links |
| Navbar.NavbarState.SocialsAnswered | blog-site-frontend/src/components/layout/Navbar.tsx:30-39 | the active links replace the list; a failure keeps it; nothing else changes |
| Navbar.NavbarState.StorageChanged | blog-site-frontend/src/components/layout/Navbar.tsx:41-45 | a storage event shows the stored user again and changes nothing else |
| Navbar.NavbarState.Logout | blog-site-frontend/src/components/layout/Navbar.tsx:48-53 | logout forgets the user in storage and on the bar and goes home, where login and register show again |
| Navbar.NavbarState.MobileLogout | blog-site-frontend/src/components/layout/Navbar.tsx:250 | the mobile logout also closes the menu |
| Navbar.NavbarState.ToggleMobileMenu | blog-site-frontend/src/components/layout/Navbar.tsx:70 | the menu button flips the menu and changes nothing else |
| Navbar.NavbarState.MobileLinkClicked | blog-site-frontend/src/components/layout/Navbar.tsx:219 | a mobile link navigates and closes the menu |
| Navbar.NavbarState.HoverSocials | blog-site-frontend/src/components/layout/Navbar.tsx:150-158 | entering the button shows the social panel and leaving it hides the panel |
| Navbar.NavbarState.ManageSocials | blog-site-frontend/src/components/layout/Navbar.tsx:180-186 | the manage link under the social panel opens the social media admin page and hides the panel |
| Typewriter.TickKeepsPhase | blog-site-frontend/src/components/ui/Typewriter.tsx:25-39 | a tick keeps the display a prefix of the current text and the index in range; the index moves on by one, round the list, exactly when deleting has emptied the display; the pause starts exactly on a full display while typing |
| Typewriter.TypingStep | blog-site-frontend/src/components/ui/Typewriter.tsx:31 | while typing, a tick shows one more character of the current text |
| Typewriter.DeletingStep | blog-site-frontend/src/components/ui/Typewriter.tsx:29 | while deleting, a tick drops the last character shown |
| Typewriter.Ticks | blog-site-frontend/src/components/ui/Typewriter.tsx:42-45 | any number of ticks keeps the display a prefix of the current text |
| Typewriter.TypingReachesText | blog-site-frontend/src/components/ui/Typewriter.tsx:28-35 | from any prefix, typing shows the whole text after as many ticks as characters are missing |
| Typewriter.DeletingReachesNext | blog-site-frontend/src/components/ui/Typewriter.tsx:28-38 | deleting empties the display after as many ticks as it shows characters, and the next tick moves on to the next text with typing resumed |
| Typewriter.TickOf | blog-site-frontend/src/components/ui/Typewriter.tsx:25-40 | one timer tick: a character typed or deleted, the pause at a full text, and the next text after an empty one |
| Typewriter.Typewriter.constructor | blog-site-frontend/src/components/ui/Typewriter.tsx:12-22 | the banner starts empty, typing, on the first text, with the default speeds unless given |
| Typewriter.Typewriter.Tick | blog-site-frontend/src/components/ui/Typewriter.tsx:24-47 | the new state is the tick's outcome; a pause of the configured length starts exactly on a full display while typing, and then the display stays as it was |
| Typewriter.Typewriter.PauseElapsed | blog-site-frontend/src/components/ui/Typewriter.tsx:35 | after the pause, deleting starts and nothing else changes |
| ToastContext.Without | blog-site-frontend/src/context/ToastContext.tsx:27 | removing a toast never lengthens the list |
| ToastContext.WithoutMembers | blog-site-frontend/src/context/ToastContext.tsx:32 | exactly the toasts with another id stay |
| ToastContext.WithoutAppend | blog-site-frontend/src/context/ToastContext.tsx:32 | removing distributes over concatenation, so the toasts that stay keep their order |
| ToastContext.WithoutAbsent | blog-site-frontend/src/context/ToastContext.tsx:32 | removing an id no toast has changes nothing |
| ToastContext.WithoutIdempotent | blog-site-frontend/src/context/ToastContext.tsx:27-32 | removing twice is removing once, so a timer firing after the close button changes nothing |
| ToastContext.UseToast | blog-site-frontend/src/context/ToastContext.tsx:70-76 | outside a provider the hook throws its fixed message; inside it returns the context |
| ToastContext.ToastProvider.constructor | blog-site-frontend/src/context/ToastContext.tsx:19 | the provider starts with no toasts and no timers |
| ToastContext.ToastProvider.Show | blog-site-frontend/src/context/ToastContext.tsx:21-29 | a shown toast goes last and its five-second timer starts |
| ToastContext.ToastProvider.Remove | blog-site-frontend/src/context/ToastContext.tsx:31-33 | the close button removes the toasts with that id, keeping the others in order |
| ToastContext.ToastProvider.Expire | blog-site-frontend/src/context/ToastContext.tsx:26-28 | a timer firing removes the toasts with its id and ends that timer |
| ToastContext.ExpireKeepsLater | blog-site-frontend/src/context/ToastContext.tsx:23-28 | expiry of one toast keeps every other toast in order, with a later one still last |
| MarkdownToolbar.ToolWrap | blog-site-frontend/src/components/ui/MarkdownToolbar.tsx:55-67 | the inline tools (bold, italic, underline, highlight, link, image) close what they open; the block tools leave the suffix empty; bold and italic use the same marker on both sides; no prefix is empty |
| MarkdownToolbar.Hashes | blog-site-frontend/src/components/ui/MarkdownToolbar.tsx:34-38 | the marker of a heading is n '#' characters |
| MarkdownToolbar.HeadingValues | blog-site-frontend/src/components/ui/MarkdownToolbar.tsx:34-38 | the heading of level 1 to 3 inserts that many '#' followed by a space |
| MarkdownToolbar.HeadingInsertIsHeading | blog-site-frontend/src/components/ui/MarkdownToolbar.tsx:50-53 | a heading from the menu, put at the start of the text before a one-line title, is read by the table of contents as a heading of that level whose text is the title |
| MarkdownToolbar.Toolbar.constructor | blog-site-frontend/src/components/ui/MarkdownToolbar.tsx:10-12 | every menu starts closed |
| MarkdownToolbar.Toolbar.ToggleMenu | blog-site-frontend/src/components/ui/MarkdownToolbar.tsx:69-85 | a menu button flips its own menu and closes the other two, so at most one menu is open |
| MarkdownToolbar.Toolbar.CloseMenu | blog-site-frontend/src/components/ui/MarkdownToolbar.tsx:105-108 | a click on the backdrop closes that menu only |
| MarkdownToolbar.Toolbar.SelectLanguage | blog-site-frontend/src/components/ui/MarkdownToolbar.tsx:40-43 | a language wraps the selection in a fenced code block of that language and closes the language menu; inside a form the item also submits it (`CommentForm.CommentFormState.MenuPick`) |
| MarkdownToolbar.Toolbar.SelectColor | blog-site-frontend/src/components/ui/MarkdownToolbar.tsx:45-48 | a color wraps the selection in a span of that color and closes the color menu; inside a form the item also submits it |
| MarkdownToolbar.Toolbar.SelectHeading | blog-site-frontend/src/components/ui/MarkdownToolbar.tsx:50-53 | a heading inserts its '#' prefix with nothing after and closes the heading menu; inside a form the item also submits it |
| TableOfContents.HashRun | blog-site-frontend/src/components/ui/TableOfContents.tsx:16 | the run of '#' from a position is maximal |
| TableOfContents.SpaceRun | blog-site-frontend/src/components/ui/TableOfContents.tsx:16 | the run of white space (`\s`) from a position is maximal |
| TableOfContents.LineEnd | blog-site-frontend/src/components/ui/TableOfContents.tsx:16 | the end of the line is the next line terminator, or the end of the text |
| TableOfContents.TextOffset | blog-site-frontend/src/components/ui/TableOfContents.tsx:16 | `\s+` gives back white space only until `.+` can match: the text starts at the last position in the run where `.` matches |
| TableOfContents.MatchAt | blog-site-frontend/src/components/ui/TableOfContents.tsx:16 | a match at p starts at p, and its text is non-empty and inside the content |
| TableOfContents.MatchAtShape | blog-site-frontend/src/components/ui/TableOfContents.tsx:16 | every match is at a line start, with one to three '#' and no more, white space, and a text running to the end of its line |
| TableOfContents.FourHashesNeverMatch | blog-site-frontend/src/components/ui/TableOfContents.tsx:16 | four or more '#' never make a heading |
| TableOfContents.NextMatch | blog-site-frontend/src/components/ui/TableOfContents.tsx:20 | one `exec` of the global pattern finds a match at or after the last index |
| TableOfContents.NextMatchIsFirst | blog-site-frontend/src/components/ui/TableOfContents.tsx:20 | `exec` skips no match: there is none between the last index and the one it finds |
| TableOfContents.Matches | blog-site-frontend/src/components/ui/TableOfContents.tsx:20-25 | every match of the loop lies inside the content |
| TableOfContents.MatchesAreMatches | blog-site-frontend/src/components/ui/TableOfContents.tsx:20 | each match of the loop is the pattern's match at its start |
| TableOfContents.MatchesStep | blog-site-frontend/src/components/ui/TableOfContents.tsx:20 | the loop ends when `exec` finds nothing, and otherwise goes on from the end of the match |
| TableOfContents.MatchesInOrder | blog-site-frontend/src/components/ui/TableOfContents.tsx:20 | the matches come in document order and never overlap |
| TableOfContents.KeepIdChars | blog-site-frontend/src/components/ui/TableOfContents.tsx:23 | `replace(/[^\w\s-]/g, '')` keeps only word characters, white space and dashes |
| TableOfContents.SpacesToDash | blog-site-frontend/src/components/ui/TableOfContents.tsx:23 | `replace(/\s+/g, '-')` leaves no white space, so after the first replace only word characters and dashes remain |
| TableOfContents.HeadingId | blog-site-frontend/src/components/ui/TableOfContents.tsx:23 | an anchor id holds only word characters and dashes, and no white space |
| TableOfContents.HeadingsStep | blog-site-frontend/src/components/ui/TableOfContents.tsx:20-25 | the headings list gains one entry per step of the loop |
| TableOfContents.HeadingsCount | blog-site-frontend/src/components/ui/TableOfContents.tsx:20-25 | there is one entry per match |
| TableOfContents.HeadingOfMatch | blog-site-frontend/src/components/ui/TableOfContents.tsx:21-24 | the i-th entry is the i-th match's level, text and id |
| TableOfContents.ExtractHeadings | blog-site-frontend/src/components/ui/TableOfContents.tsx:14-27 | the `exec` loop collects exactly the headings of the content, in order |
| TableOfContents.ExtractStep | blog-site-frontend/src/components/ui/TableOfContents.tsx:20-24 | one iteration of the loop keeps the collected entries plus those still to come unchanged |
| TableOfContents.HeadingsShape | blog-site-frontend/src/components/ui/TableOfContents.tsx:14-27 | every entry has level 1 to 3, a non-empty one-line text and an id without white space |
| TableOfContents.NoHashNoHeadings | blog-site-frontend/src/components/ui/TableOfContents.tsx:54 | content without '#' has no headings, so nothing is drawn |
| TableOfContents.SingleHeading | blog-site-frontend/src/components/ui/TableOfContents.tsx:16-25 | "# Intro" has exactly one match: level 1, with the text starting after the space |
| TableOfContents.IntroMatch | blog-site-frontend/src/components/ui/TableOfContents.tsx:16 | the match at the start of "# Intro" is that level-1 match |
| TableOfContents.KeepAllIdChars | blog-site-frontend/src/components/ui/TableOfContents.tsx:23 | a text made only of id characters is kept by the first replace |
| TableOfContents.SpacesToDashWithoutSpace | blog-site-frontend/src/components/ui/TableOfContents.tsx:23 | a text without white space is kept by the second replace |
| TableOfContents.HeadingIdOfId | blog-site-frontend/src/components/ui/TableOfContents.tsx:23 | a text whose lower case is already an id of word characters and dashes has that id |
| TableOfContents.SingleHeadingItem | blog-site-frontend/src/components/ui/TableOfContents.tsx:21-24 | the entry of "# Intro" is id "intro", text "Intro", level 1 |
| TableOfContents.Headings | blog-site-frontend/src/components/ui/TableOfContents.tsx:14-27 | the entries the heading search finds from a position on |
| Pagination.PageButtons | blog-site-frontend/src/components/ui/Pagination.tsx:27-40 | one button per page, numbered from 1, and a button is highlighted exactly when it is the current page |
| Pagination.Render | blog-site-frontend/src/components/ui/Pagination.tsx:13 | the bar is hidden exactly when there is at most one page |
| Pagination.RenderButtons | blog-site-frontend/src/components/ui/Pagination.tsx:15-51 | "previous" is disabled exactly on the first page and "next" exactly from the last page on; there is one numbered button per page |
| Pagination.AtMostOneActive | blog-site-frontend/src/components/ui/Pagination.tsx:33 | at most one page button is highlighted, and only the current page's |
| Pagination.NavigationStaysInRange | blog-site-frontend/src/components/ui/Pagination.tsx:18-44 | from a page in range, an enabled "previous" or "next" asks for a page that is also in range |
| CommentForm.BlankIff | blog-site-frontend/src/components/comments/CommentForm.tsx:16 | a comment is blank exactly when it is all white space |
| CommentForm.DisabledRule | blog-site-frontend/src/components/comments/CommentForm.tsx:58 | the send button is disabled while loading, and otherwise exactly when the text is all white space |
| CommentForm.Blank | blog-site-frontend/src/components/comments/CommentForm.tsx:16 | the text is nothing but white space |
| CommentForm.SubmitDisabled | blog-site-frontend/src/components/comments/CommentForm.tsx:58 | the send button is disabled while loading or while the text is blank |
| CommentForm.AfterSettled | blog-site-frontend/src/components/comments/CommentForm.tsx:18-19 | the text is cleared when the handler resolved and kept when it threw |
| CommentForm.InsertKeepsNonBlank | blog-site-frontend/src/components/comments/CommentForm.tsx:16 | wrapping a selection never turns a text that is not blank, or a non-blank prefix or suffix, into a blank one |
| CommentForm.CommentFormState.constructor | blog-site-frontend/src/components/comments/CommentForm.tsx:12 | the form starts empty |
| CommentForm.CommentFormState.Type | blog-site-frontend/src/components/comments/CommentForm.tsx:50 | typing sets the text |
| CommentForm.CommentFormState.HandleInsert | blog-site-frontend/src/components/comments/CommentForm.tsx:22-39 | without a text area nothing changes; otherwise the prefix and suffix wrap the selection and the cursor goes after the suffix |
| CommentForm.CommentFormState.Submit | blog-site-frontend/src/components/comments/CommentForm.tsx:14-18 | a blank text is not sent; any other text is sent as it is |
| CommentForm.CommentFormState.Settled | blog-site-frontend/src/components/comments/CommentForm.tsx:18-19 | the text is cleared exactly when the submit promise resolves |
| CommentForm.CommentFormState.MenuPick | blog-site-frontend/src/components/comments/CommentForm.tsx:42-45 | a menu item of the toolbar inside the comment form: the insertion happens, and the form is also submitted, sending the text it sees (before or after the insertion) unless that text is blank |
| CommentSection.CountAppend | blog-site-frontend/src/components/comments/CommentSection.tsx:63 | the shown count of a list is the sum of the counts of its parts |
| CommentSection.CountBounds | blog-site-frontend/src/components/comments/CommentSection.tsx:63 | the shown count is at least the number of top-level comments, and equals it exactly when none has a direct reply |
| CommentSection.CountIgnoresDeeperReplies | blog-site-frontend/src/components/comments/CommentSection.tsx:63 | the count depends only on the number of direct replies of each top-level comment, not on deeper ones |
| CommentSection.FormAfterRequest | blog-site-frontend/src/components/comments/CommentSection.tsx:34-54 | any success clears the form; a failed top-level comment still clears it, because the failure is swallowed; a failed reply keeps its text, because the failure is rethrown |
| CommentSection.CommentCount | blog-site-frontend/src/components/comments/CommentSection.tsx:63 | each top-level comment counts one plus its direct replies |
| CommentSection.Section.constructor | blog-site-frontend/src/components/comments/CommentSection.tsx:12-15 | the section starts loading, with no comments and no submit in flight |
| CommentSection.Section.CommentsAnswered | blog-site-frontend/src/components/comments/CommentSection.tsx:17-26 | a fetched list replaces the comments and a failure keeps them; loading ends either way |
| CommentSection.Section.SubmitComment | blog-site-frontend/src/components/comments/CommentSection.tsx:34-37 | a top-level comment sends the content without a parent and marks the submit in flight |
| CommentSection.Section.SubmitSettled | blog-site-frontend/src/components/comments/CommentSection.tsx:37-43 | the list is fetched again exactly on success; the form's promise always resolves and the submit ends |
| CommentSection.Section.Reply | blog-site-frontend/src/components/comments/CommentSection.tsx:46-48 | a reply sends the content with its parent id |
| CommentSection.Section.ReplySettled | blog-site-frontend/src/components/comments/CommentSection.tsx:48-53 | the list is fetched again exactly on success, and the form's promise resolves exactly on success |
| NotificationBell.MarkRead | blog-site-frontend/src/components/ui/NotificationBell.tsx:53-55 | the notifications with the id become read; the others are unchanged, in place |
| NotificationBell.MarkAllRead | blog-site-frontend/src/components/ui/NotificationBell.tsx:66 | every notification becomes read, in place |
| NotificationBell.MarkAllLeavesNoneUnread | blog-site-frontend/src/components/ui/NotificationBell.tsx:96 | after "mark all" nothing is unread, so the "Hepsi Okundu" button disappears |
| NotificationBell.MarkReadUnread | blog-site-frontend/src/components/ui/NotificationBell.tsx:53-55 | after marking one read, something is unread exactly when a notification with another id was unread |
| NotificationBell.MarkReadIdempotent | blog-site-frontend/src/components/ui/NotificationBell.tsx:53-66 | marking read twice is marking once, and "mark all" after one mark is "mark all" alone |
| NotificationBell.Badge | blog-site-frontend/src/components/ui/NotificationBell.tsx:85-88 | no badge for a count of zero or less, "9+" above nine, else the single digit |
| NotificationBell.Decrement | blog-site-frontend/src/components/ui/NotificationBell.tsx:56 | the count drops by one but never below zero |
| NotificationBell.AnyUnread | blog-site-frontend/src/components/ui/NotificationBell.tsx:96 | some notification is unread |
| NotificationBell.Bell.constructor | blog-site-frontend/src/components/ui/NotificationBell.tsx:10-13 | the bell starts closed, without a user, notifications or count |
| NotificationBell.Bell.Mounted | blog-site-frontend/src/components/ui/NotificationBell.tsx:16-23 | mounting reads the stored user and fetches its notifications exactly when there is one |
| NotificationBell.Bell.NotificationsAnswered | blog-site-frontend/src/components/ui/NotificationBell.tsx:36-47 | the list and the count are replaced together; a failure keeps both |
| NotificationBell.Bell.MarkAsRead | blog-site-frontend/src/components/ui/NotificationBell.tsx:49-60 | the request is sent exactly with a user; on success the notification is read and the count drops by one, never below zero; otherwise nothing changes |
| NotificationBell.Bell.MarkAllAsRead | blog-site-frontend/src/components/ui/NotificationBell.tsx:62-71 | the request is sent exactly with a user; on success every notification is read and the count is 0; otherwise nothing changes |
| NotificationBell.Bell.OpenLink | blog-site-frontend/src/components/ui/NotificationBell.tsx:124-132 | opening a notification's post marks it read only when it was unread (and a user is signed in), and always closes the dropdown |
| NotificationBell.Bell.Toggle | blog-site-frontend/src/components/ui/NotificationBell.tsx:80 | the bell button flips the dropdown |
| NotificationBell.Bell.ClickOutside | blog-site-frontend/src/components/ui/NotificationBell.tsx:25-34 | a press outside the dropdown closes it |
| CategoryDropdown.FilterByName | blog-site-frontend/src/components/ui/CategoryDropdown.tsx:33-35 | exactly the categories whose lower-cased name contains the lower-cased query remain |
| CategoryDropdown.FilterKeepsOrder | blog-site-frontend/src/components/ui/CategoryDropdown.tsx:33-35 | filtering distributes over concatenation, so the remaining categories keep their order |
| CategoryDropdown.EmptyQueryKeepsAll | blog-site-frontend/src/components/ui/CategoryDropdown.tsx:33-35 | an empty query keeps every category |
| CategoryDropdown.FindById | blog-site-frontend/src/components/ui/CategoryDropdown.tsx:37 | a found category has the id; nothing is found only when no category has it |
| CategoryDropdown.Label | blog-site-frontend/src/components/ui/CategoryDropdown.tsx:71 | the button shows the selected category's name, or the placeholder when no category has the selected id |
| CategoryDropdown.FirstMatch | blog-site-frontend/src/components/ui/CategoryDropdown.tsx:41-42 | the first case-insensitive occurrence of the search text, or -1 exactly when there is none |
| CategoryDropdown.SplitIgnoringCase | blog-site-frontend/src/components/ui/CategoryDropdown.tsx:42 | splitting on a capturing pattern gives an odd number of pieces |
| CategoryDropdown.ConcatAppend | blog-site-frontend/src/components/ui/CategoryDropdown.tsx:42 | joining distributes over concatenation |
| CategoryDropdown.SplitConcat | blog-site-frontend/src/components/ui/CategoryDropdown.tsx:42 | the pieces join back to the text |
| CategoryDropdown.ConcatAroundMatch | blog-site-frontend/src/components/ui/CategoryDropdown.tsx:42 | the text before a match, the match and the rest join back to the text |
| CategoryDropdown.SplitAlternates | blog-site-frontend/src/components/ui/CategoryDropdown.tsx:42 | the even pieces hold no match and the odd pieces are matches |
| CategoryDropdown.HeadPiecesFit | blog-site-frontend/src/components/ui/CategoryDropdown.tsx:42 | the text before the first match holds none, and the first match is one |
| CategoryDropdown.FitsShift | blog-site-frontend/src/components/ui/CategoryDropdown.tsx:42 | a piece without a match followed by a match, put in front of an alternating split, keeps it alternating |
| CategoryDropdown.NoOccurrence | blog-site-frontend/src/components/ui/CategoryDropdown.tsx:41-42 | with no case-insensitive occurrence before position n, the text up to n holds none |
| CategoryDropdown.PartTexts | blog-site-frontend/src/components/ui/CategoryDropdown.tsx:45 | one text per rendered part, in order |
| CategoryDropdown.HighlightProperties | blog-site-frontend/src/components/ui/CategoryDropdown.tsx:39-56 | the highlighted parts join back to the name; every marked part equals the search text up to case; for a non-blank search the marked parts are exactly the odd ones |
| CategoryDropdown.HighlightKeepsText | blog-site-frontend/src/components/ui/CategoryDropdown.tsx:39-56 | highlighting never changes the text shown |
| CategoryDropdown.HighlightMarksMatches | blog-site-frontend/src/components/ui/CategoryDropdown.tsx:40-53 | for a non-blank search, exactly the odd parts are marked, and they are the matches |
| CategoryDropdown.Highlight | blog-site-frontend/src/components/ui/CategoryDropdown.tsx:39-56 | a blank highlight leaves the text whole; otherwise the pieces of the split, marked where they contain the highlight |
| CategoryDropdown.Dropdown.constructor | blog-site-frontend/src/components/ui/CategoryDropdown.tsx:18-19 | the dropdown starts closed with an empty search |
| CategoryDropdown.Dropdown.Toggle | blog-site-frontend/src/components/ui/CategoryDropdown.tsx:62-65 | the button flips the dropdown and clears the search when it closes |
| CategoryDropdown.Dropdown.ClickOutside | blog-site-frontend/src/components/ui/CategoryDropdown.tsx:22-31 | a press outside closes the dropdown and clears the search |
| CategoryDropdown.Dropdown.Search | blog-site-frontend/src/components/ui/CategoryDropdown.tsx:87 | typing sets the search and keeps the dropdown as it is |
| CategoryDropdown.Dropdown.Select | blog-site-frontend/src/components/ui/CategoryDropdown.tsx:97-101 | choosing a category reports its id, closes the dropdown and clears the search |
| Home.QueryParamsRules | blog-site-frontend/src/pages/Home.tsx:50-63 | a query starting with '#' asks for the tag after it, any other non-empty query for a text search, an empty one for neither; the category is sent only when one is chosen; the page is the current one and the size 10 |
| Home.TagAndSearchExclusive | blog-site-frontend/src/pages/Home.tsx:52-56 | tag and text search are never sent together |
| Home.FindBySlug | blog-site-frontend/src/pages/Home.tsx:160 | a found category is in the list and has the slug; nothing is found only when no category has it |
| Home.CategoryButtonLabel | blog-site-frontend/src/pages/Home.tsx:160 | without a chosen category the button says "Kategori"; otherwise it shows a category's name with that slug, or "Kategori" |
| Home.FilterChipLabel | blog-site-frontend/src/pages/Home.tsx:214 | the chip shows the chosen category's name, or the slug itself when no category has it |
| Home.AtMostOneFeatured | blog-site-frontend/src/pages/Home.tsx:235 | at most one card is featured, and none beyond the first page |
| Home.HomePage.constructor | blog-site-frontend/src/pages/Home.tsx:11-20 | the page starts loading on page 0 with no posts, categories, query or category, and the menu closed |
| Home.HomePage.FetchPosts | blog-site-frontend/src/pages/Home.tsx:46-65 | the request carries the parameters of the current query, category and page, and the page shows it is loading |
| Home.HomePage.PostsAnswered | blog-site-frontend/src/pages/Home.tsx:65-72 | on success the posts and the page count are replaced together; a failure keeps both; loading ends either way |
| Home.HomePage.CategoriesAnswered | blog-site-frontend/src/pages/Home.tsx:34-44 | the categories are replaced on success and kept on failure |
| Home.HomePage.HandleSearchChange | blog-site-frontend/src/pages/Home.tsx:78-81 | typing sets the query and goes back to page 0 |
| Home.HomePage.HandleCategorySelect | blog-site-frontend/src/pages/Home.tsx:83-88 | choosing a category sets it, closes the menu, clears its search and goes back to page 0 |
| Home.HomePage.ClearCategory | blog-site-frontend/src/pages/Home.tsx:216 | "Temizle" clears the category and keeps the page |
| Home.HomePage.PageChange | blog-site-frontend/src/pages/Home.tsx:242-246 | the pagination bar sets the page and nothing else |
| Home.HomePage.ToggleCategoryMenu | blog-site-frontend/src/pages/Home.tsx:151-154 | the button flips the menu and clears its search when it closes |
| Home.HomePage.ClickOutside | blog-site-frontend/src/pages/Home.tsx:22-32 | a press outside the menu closes it and clears its search |
| Home.HomePage.SetCategorySearch | blog-site-frontend/src/pages/Home.tsx:176 | typing in the menu sets its search and keeps it open or closed as it was |
| Home.FilteredCategoriesRule | blog-site-frontend/src/pages/Home.tsx:109-111 | exactly the categories whose lower-cased name contains the lower-cased menu search are listed; an empty search lists all |
| Home.PostQueryParams | blog-site-frontend/src/pages/Home.tsx:50-62 | a search starting with '#' asks for that tag, any other non-empty search is a text search, plus the category and the page of ten |
| Home.Featured | blog-site-frontend/src/pages/Home.tsx:235 | only the first card of the first page is featured |
| PostDetail.SplitSpaceRuns | blog-site-frontend/src/pages/PostDetail.tsx:25 | splitting on white-space runs gives at least one piece, and the first is empty exactly when the text starts with white space or is empty |
| PostDetail.PiecesWithoutSpace | blog-site-frontend/src/pages/PostDetail.tsx:25 | no piece holds white space |
| PostDetail.SplitWord | blog-site-frontend/src/pages/PostDetail.tsx:25 | a word without white space is its own single piece |
| PostDetail.TrimStartKeepsLast | blog-site-frontend/src/pages/PostDetail.tsx:25 | trimming the start keeps a last character that is not white space |
| PostDetail.InnerPiecesNonEmpty | blog-site-frontend/src/pages/PostDetail.tsx:25 | for a text that does not end in white space, only the first piece can be empty |
| PostDetail.TrimmedPiecesAreWords | blog-site-frontend/src/pages/PostDetail.tsx:25 | a trimmed non-empty text splits into non-empty words |
| PostDetail.RunsOfLeadingSpace | blog-site-frontend/src/pages/PostDetail.tsx:25 | leading white space is one run |
| PostDetail.SplitLength | blog-site-frontend/src/pages/PostDetail.tsx:25 | there is one piece more than there are white-space runs |
| PostDetail.NoSpaceNoRuns | blog-site-frontend/src/pages/PostDetail.tsx:25 | a word has no white-space run |
| PostDetail.RunsAppendWord | blog-site-frontend/src/pages/PostDetail.tsx:25 | appending a space and a word to a text ending in a word adds one run |
| PostDetail.Words | blog-site-frontend/src/pages/PostDetail.tsx:25 | the count of words is at least one |
| PostDetail.ReadingTime | blog-site-frontend/src/pages/PostDetail.tsx:23-27 | the reading time is the least number of minutes in which the words can be read at 200 a minute, and at least one |
| PostDetail.BlankReadsInAMinute | blog-site-frontend/src/pages/PostDetail.tsx:25-26 | blank content counts as one word and reads in one minute |
| PostDetail.OneMoreWord | blog-site-frontend/src/pages/PostDetail.tsx:23-27 | one more word adds exactly one to the count and at most one minute |
| PostDetail.Others | blog-site-frontend/src/pages/PostDetail.tsx:40 | exactly the posts with another id remain |
| PostDetail.OthersWithoutSelf | blog-site-frontend/src/pages/PostDetail.tsx:40 | a list without the post itself is left as it is |
| PostDetail.Related | blog-site-frontend/src/pages/PostDetail.tsx:40 | at most three related posts, never the post itself, taken in order from the start of the others; fewer than three only when there are no more |
| PostDetail.PostDetailPage.constructor | blog-site-frontend/src/pages/PostDetail.tsx:18-21 | the page starts loading with no post and no related posts |
| PostDetail.PostDetailPage.PostAnswered | blog-site-frontend/src/pages/PostDetail.tsx:29-47 | a found post is shown; the posts of its first category are asked for exactly when it has one; loading ends unless that request is pending; a failure leaves the page as it was and ends loading |
| PostDetail.PostDetailPage.RelatedAnswered | blog-site-frontend/src/pages/PostDetail.tsx:39-45 | the related list becomes the first three other posts of the category on success and stays otherwise; loading ends either way |
| Register.SetText | blog-site-frontend/src/pages/Register.tsx:83-88 | a text input sets its own field and leaves every other field and the checkbox as they were |
| Register.PlainSlice | blog-site-frontend/src/pages/Register.tsx:41 | a stretch of the address matched by one character class holds only characters that are neither white space nor '@' |
| Register.EmailPatternShape | blog-site-frontend/src/pages/Register.tsx:41 | an address the pattern accepts has no white space, exactly one '@' with text on both sides, and a '.' after it with text on both sides |
| Register.EmailExamples | blog-site-frontend/src/pages/Register.tsx:41 | "a@b.co" is accepted; "a@b" and "@b.co" are refused |
| Register.NoDotNoEmail | blog-site-frontend/src/pages/Register.tsx:41 | an address without a '.' is always refused |
| Register.Validate | blog-site-frontend/src/pages/Register.tsx:32-62 | each field has an error exactly when its rule fails (user name under 3 characters, address not matching the pattern, password under 6, passwords differ, first or last name empty), each with its own non-empty message |
| Register.ValidIff | blog-site-frontend/src/pages/Register.tsx:32-62 | the form passes exactly when every rule holds |
| Register.EmptyFormErrors | blog-site-frontend/src/pages/Register.tsx:19-27 | the empty form fails every rule except matching passwords |
| Register.ClearError | blog-site-frontend/src/pages/Register.tsx:90-92 | typing into a field removes its error when it had a non-empty one; every other error stays |
| Register.ClearValidationMessage | blog-site-frontend/src/pages/Register.tsx:90-92 | after validation, typing into a field removes exactly that field's error |
| Register.Message | blog-site-frontend/src/pages/Register.tsx:38-58 | the error message shown for each field |
| Register.EmailPattern | blog-site-frontend/src/pages/Register.tsx:41 | the whole text is a plain part, '@', a plain part, '.', and a plain part |
| Register.RegisterPage.constructor | blog-site-frontend/src/pages/Register.tsx:19-30 | the page starts with the empty form, no errors, not loading and not done |
| Register.RegisterPage.HandleChange | blog-site-frontend/src/pages/Register.tsx:83-93 | a text input updates its field and clears its error |
| Register.RegisterPage.ToggleNotifications | blog-site-frontend/src/pages/Register.tsx:83-88 | the checkbox sets the notification preference and nothing else |
| Register.RegisterPage.Submit | blog-site-frontend/src/pages/Register.tsx:65-74 | a request is sent exactly when the form is valid, and then with the form itself, no errors and loading; otherwise the errors are the validation result |
| Register.RegisterPage.RegisterAnswered | blog-site-frontend/src/pages/Register.tsx:74-80 | success marks the page done; a failure replaces the errors by the general message; loading ends either way |
| AboutPage.ColorTag | blog-site-frontend/src/pages/About.tsx:98-101 | a colour button wraps the selection in a span with that class |
| AboutPage.InsertTagRules | blog-site-frontend/src/pages/About.tsx:84-112 | the selection is replaced by its tagged form, the text before and after is kept, and the cursor lands right after the inserted tag |
| AboutPage.TagReplacementRules | blog-site-frontend/src/pages/About.tsx:94-101 | the bold, underline and mark buttons wrap the selection in their tag; an unknown tag inserts nothing |
| AboutPage.ToggleExpandRules | blog-site-frontend/src/pages/About.tsx:115-117 | clicking the open experience closes it, any other click opens that one, and two clicks on one item restore the state |
| AboutPage.NewDraft | blog-site-frontend/src/pages/About.tsx:123-127 | a new item has no id, period or current flag, and an experience starts with no technologies |
| AboutPage.SubmitRules | blog-site-frontend/src/pages/About.tsx:177-258 | an experience or reference with an id is updated and one without is added; an education is always added; an experience's period is "start - Günümüz" for a current position, without its leaving reason, and "start - end" otherwise |
| AboutPage.EditStillWorking | blog-site-frontend/src/pages/About.tsx:129-155 | a period ending in "Günümüz" or "Devam Ediyor" gives an empty end date, marks the item current when it had no flag, and parses the start |
| AboutPage.WordsAreOnePiece | blog-site-frontend/src/pages/About.tsx:134 | neither "still working" word holds the separator |
| AboutPage.NoDashOneSplit | blog-site-frontend/src/pages/About.tsx:134 | a text without '-' is not split |
| AboutPage.NoSeparatorAt | blog-site-frontend/src/pages/About.tsx:134 | no separator starts inside a text without '-' |
| AboutPage.SplitOnPeriod | blog-site-frontend/src/pages/About.tsx:134 | a period "a - b" with no '-' in a splits right after a |
| AboutPage.EditAfterSubmit | blog-site-frontend/src/pages/About.tsx:129-192 | editing an experience that was saved gives back the dates that were entered, when the month format round-trips |
| AboutPage.Initials | blog-site-frontend/src/pages/About.tsx:588 | a reference's badge has at most two letters |
| AboutPage.FirstPiece | blog-site-frontend/src/pages/About.tsx:588 | splitting at spaces gives the first word first |
| AboutPage.InitialsOfTwoWords | blog-site-frontend/src/pages/About.tsx:588 | two words give their first letters |
| AboutPage.InitialsOfOneWord | blog-site-frontend/src/pages/About.tsx:588 | one word gives its first letter |
| AboutPage.TagReplacement | blog-site-frontend/src/pages/About.tsx:94-101 | the markup for each toolbar tag around the selection |
| AboutPage.InsertTag | blog-site-frontend/src/pages/About.tsx:84-112 | the description with the selection replaced by its markup, and the cursor after it |
| AboutPage.ToggleExpand | blog-site-frontend/src/pages/About.tsx:115-117 | the clicked card collapses when it was open and otherwise opens alone |
| AboutPage.DisplayFormat | blog-site-frontend/src/pages/About.tsx:56-63 | an empty month stays empty; any other is formatted |
| AboutPage.ParseToIso | blog-site-frontend/src/pages/About.tsx:136-145 | no text and the two "still working" words give ''; any other text is parsed |
| AboutPage.EditDraft | blog-site-frontend/src/pages/About.tsx:129-155 | the period of an experience is split into its two month fields; a "still working" end leaves the end empty |
| AboutPage.WithPeriod | blog-site-frontend/src/pages/About.tsx:184-192 | the period built on submit: "start - Günümüz" for a current position, "start - end" otherwise |
| AboutPage.SubmitCall | blog-site-frontend/src/pages/About.tsx:177-256 | the call the save button makes for the tab and the item |
| AboutPage.AboutPageState.constructor | blog-site-frontend/src/pages/About.tsx:33-40 | the page starts loading with nothing expanded and the modal closed and empty |
| AboutPage.AboutPageState.DataAnswered | blog-site-frontend/src/pages/About.tsx:66-82 | the first experience is expanded when there is one; loading ends |
| AboutPage.AboutPageState.Toggle | blog-site-frontend/src/pages/About.tsx:115-117 | clicking an experience toggles it |
| AboutPage.AboutPageState.Add | blog-site-frontend/src/pages/About.tsx:123-127 | the modal opens on the tab with a new item |
| AboutPage.AboutPageState.Edit | blog-site-frontend/src/pages/About.tsx:129-159 | the modal opens on the tab with the item, its period split into the two month fields |
| AboutPage.AboutPageState.InsertTagButton | blog-site-frontend/src/pages/About.tsx:84-112 | without the editor nothing changes; otherwise the description gets the tag and the cursor moves after it |
| AboutPage.AboutPageState.Submit | blog-site-frontend/src/pages/About.tsx:177-256 | the save button makes the call of the tab and item |
| AboutPage.AboutPageState.SubmitAnswered | blog-site-frontend/src/pages/About.tsx:258-263 | the modal closes on success and stays open on failure |
| EditPost.FormOf | blog-site-frontend/src/pages/EditPost.tsx:53-61 | the form holds the post's title, slug and content, a missing excerpt or image as '', the tags joined by ", ", and no category exactly when the post has none |
| EditPost.IntToStringNonEmpty | blog-site-frontend/src/pages/EditPost.tsx:59 | a category id written out is never empty |
| EditPost.SaveUnedited | blog-site-frontend/src/pages/EditPost.tsx:141-158 | saving a post without edits is refused exactly when it has no category; otherwise it sends back its own title, slug, content and tags, its first category, as published and without an image |
| EditPost.MarkerAtStart | blog-site-frontend/src/pages/EditPost.tsx:410 | an alert kind is recognised only when its marker starts the text, and one is recognised whenever a marker does |
| EditPost.MarkersDistinct | blog-site-frontend/src/pages/EditPost.tsx:410 | a text opens at most one kind of alert |
| EditPost.TrimStartSpacePrefix | blog-site-frontend/src/pages/EditPost.tsx:410 | leading white space before a non-space character is all that trimming removes |
| EditPost.MarkerRecognised | blog-site-frontend/src/pages/EditPost.tsx:410-428 | a marker after white space is recognised, and stripping it leaves the rest without its leading white space |
| EditPost.RecognisedHasMarker | blog-site-frontend/src/pages/EditPost.tsx:410 | a recognised text is white space, the marker and the rest |
| EditPost.MarkedFromParts | blog-site-frontend/src/pages/EditPost.tsx:410 | a marker at the start of the trimmed text splits the text that way |
| EditPost.TrimStartSplit | blog-site-frontend/src/pages/EditPost.tsx:410 | a text is its leading white space followed by its trimmed start |
| EditPost.WithoutLineBreaks | blog-site-frontend/src/pages/EditPost.tsx:402 | the evidently intended filter of the quote's children (see Findings): dropping the "\n" text nodes never lengthens the list |
| EditPost.WithoutLineBreaksMembers | blog-site-frontend/src/pages/EditPost.tsx:402 | the intended filter drops exactly the line-break children |
| EditPost.FirstMarked | blog-site-frontend/src/pages/EditPost.tsx:417 | the first text child that opens an alert, or -1 exactly when none does |
| EditPost.AlertBlockquote | blog-site-frontend/src/pages/EditPost.tsx:401-463 | with the intended filter, a quote whose first paragraph opens with a marker becomes that kind of alert box, without the marker and without line breaks |
| EditPost.RenderOpeningParagraph | blog-site-frontend/src/pages/EditPost.tsx:401-465 | with the intended filter, a quote opening with a text paragraph becomes an alert box exactly when the text opens an alert, and stays a plain quote otherwise |
| EditPost.PlainBlockquote | blog-site-frontend/src/pages/EditPost.tsx:405-465 | with the intended filter, a quote with no paragraph opening an alert is rendered as a plain quote with its children unchanged |
| EditPost.StripTouchesOneChild | blog-site-frontend/src/pages/EditPost.tsx:415-425 | stripping the marker changes at most the first child that opens an alert |
| EditPost.AlertOf | blog-site-frontend/src/pages/EditPost.tsx:410 | the alert kind whose marker follows the leading white space, if any |
| EditPost.StripMarker | blog-site-frontend/src/pages/EditPost.tsx:420-428 | the leading white space, the marker and the white space after it removed |
| EditPost.StripContent | blog-site-frontend/src/pages/EditPost.tsx:412-428 | the first paragraph with its marker stripped; in an array, only the first text child that opens an alert |
| EditPost.TypeFilter | blog-site-frontend/src/pages/EditPost.tsx:402 | the filter as written, comparing each child's `type` with "\n"; it never lengthens the list |
| EditPost.TypeFilterKeepsAll | blog-site-frontend/src/pages/EditPost.tsx:402 | a "\n" text node has no `type` and no element is named "\n", so the filter as written keeps every child |
| EditPost.RenderBlockquoteAsWritten | blog-site-frontend/src/pages/EditPost.tsx:401-465 | the renderer as written, inspecting the children the filter keeps |
| EditPost.AsWrittenLeadingBreakIsQuote | blog-site-frontend/src/pages/EditPost.tsx:401-405 | as written, a quote whose first child is a line break is a plain quote, whatever its paragraph says |
| EditPost.LeadingBreakDiscrepancy | blog-site-frontend/src/pages/EditPost.tsx:401-465 | for `> [!KIND] rest` as the markdown renderer delivers it (a line break, then the paragraph), the renderer as written gives a plain quote and the intended one the alert box |
| EditPost.RenderBlockquote | blog-site-frontend/src/pages/EditPost.tsx:401-465 | the intended renderer, with the line breaks dropped, which the preview uses; its properties are `AlertBlockquote`, `RenderOpeningParagraph` and `PlainBlockquote` |
| EditPost.WithoutLineBreaksAbsent | blog-site-frontend/src/pages/EditPost.tsx:402 | the intended filter keeps a list without line breaks whole |
| EditPost.RenderersAgreeWithoutBreaks | blog-site-frontend/src/pages/EditPost.tsx:401-465 | on a quote without line breaks the renderer as written and the intended one agree |
| EditPost.EditPostPage.constructor | blog-site-frontend/src/pages/EditPost.tsx:20-37 | the page starts fetching with the empty form, no post id and not saving |
| EditPost.EditPostPage.InitialDataAnswered | blog-site-frontend/src/pages/EditPost.tsx:43-67 | a found post fills the form and the post id; a missing one leaves the page for the home page; fetching ends |
| EditPost.EditPostPage.HandleChange | blog-site-frontend/src/pages/EditPost.tsx:79-85 | an input sets its own field |
| EditPost.EditPostPage.SelectCategory | blog-site-frontend/src/pages/EditPost.tsx:255-256 | the dropdown's choice becomes the category |
| EditPost.EditPostPage.HandleInsert | blog-site-frontend/src/pages/EditPost.tsx:121-139 | without the editor nothing changes; otherwise the toolbar's text goes around the selection and the cursor moves after it |
| EditPost.EditPostPage.Submit | blog-site-frontend/src/pages/EditPost.tsx:141-151 | without a category nothing is sent; otherwise the update for the post id carries the form's payload and saving starts |
| EditPost.EditPostPage.SubmitSettled | blog-site-frontend/src/pages/EditPost.tsx:164-166 | saving ends, success or failure |
| EditPost.EditPostPage.CategoryDeleted | blog-site-frontend/src/pages/EditPost.tsx:105-113 | deleting the chosen category clears the choice; any other delete keeps it |
| CreatePost.ChangeRules | blog-site-frontend/src/pages/CreatePost.tsx:47-55 | an input sets its field; a title typed while the slug is empty also sets the slug from the title, and a slug once set stays |
| CreatePost.GeneratedSlugIsClean | blog-site-frontend/src/pages/CreatePost.tsx:53 | a generated slug holds only lower-case letters, digits and single dashes, none at either end |
| CreatePost.TitleEditsKeepSlug | blog-site-frontend/src/pages/CreatePost.tsx:47-55 | once the slug is non-empty, typing titles never changes it and the last title stays |
| CreatePost.SlugOfFirstKeystroke | blog-site-frontend/src/pages/CreatePost.tsx:53 | typing "a" then "ab" leaves the slug at "a": only the first keystroke sets it |
| CreatePost.AfterChange | blog-site-frontend/src/pages/CreatePost.tsx:47-55 | the field takes the value; the slug follows a new title only while the slug is empty |
| CreatePost.CreatePostPage.constructor | blog-site-frontend/src/pages/CreatePost.tsx:18-32 | the page starts with the empty form, not saving |
| CreatePost.CreatePostPage.HandleChange | blog-site-frontend/src/pages/CreatePost.tsx:47-55 | an input changes the form by the change rule |
| CreatePost.CreatePostPage.SelectCategory | blog-site-frontend/src/pages/CreatePost.tsx:210-211 | the dropdown's choice becomes the category |
| CreatePost.CreatePostPage.HandleInsert | blog-site-frontend/src/pages/CreatePost.tsx:91-112 | without the editor nothing changes; otherwise the toolbar's text goes around the selection and the cursor moves after it |
| CreatePost.CreatePostPage.Submit | blog-site-frontend/src/pages/CreatePost.tsx:114-129 | the request is the form's payload, none without a category, and saving starts when one is sent |
| CreatePost.CreatePostPage.SubmitSettled | blog-site-frontend/src/pages/CreatePost.tsx:138-140 | saving ends, success or failure |
| CreatePost.CreatePostPage.CategoryDeleted | blog-site-frontend/src/pages/CreatePost.tsx:75-83 | deleting the chosen category clears the choice; any other delete keeps it |
| PostEditor.Set | blog-site-frontend/src/pages/CreatePost.tsx:47-51 | setting a field changes that field and no other |
| PostEditor.PayloadRules | blog-site-frontend/src/pages/CreatePost.tsx:114-130 | there is no payload exactly when no category is chosen; otherwise it carries the form's fields, the tags parsed into clean tags, as published and without an image |
| PostEditor.PayloadTagsRoundTrip | blog-site-frontend/src/pages/EditPost.tsx:58 | tags shown as a list joined by ", " reach the request unchanged |
| PostEditor.AfterCategoryDeleted | blog-site-frontend/src/pages/CreatePost.tsx:80-82 | only the category field changes, and only when it held the deleted id |
| PostEditor.DeletedCategoryNotSelected | blog-site-frontend/src/pages/CreatePost.tsx:80-82 | after a delete the form never points at the deleted category |
| PostEditor.CategoryNameTyped | blog-site-frontend/src/pages/CreatePost.tsx:223 | typing a category name sets the name and a slug of letters, digits and single dashes |
| PostEditor.CategoryFormOf | blog-site-frontend/src/pages/CreatePost.tsx:244-245 | editing a category fills the form with it, a missing description as '' |
| PostEditor.Get | blog-site-frontend/src/pages/CreatePost.tsx:51 | the value of the named form field |
| PostEditor.Payload | blog-site-frontend/src/pages/CreatePost.tsx:116-130 | no request without a category; otherwise the form with its tags parsed, status PUBLISHED and no featured image |
| PostEditor.CategoryManager.constructor | blog-site-frontend/src/pages/CreatePost.tsx:20-22 | the manager starts hidden with an empty form and nothing being edited |
| PostEditor.CategoryManager.Toggle | blog-site-frontend/src/pages/CreatePost.tsx:201 | the button shows or hides the manager |
| PostEditor.CategoryManager.TypeName | blog-site-frontend/src/pages/CreatePost.tsx:223 | the name input changes the form by the name rule |
| PostEditor.CategoryManager.TypeDescription | blog-site-frontend/src/pages/EditPost.tsx:275 | the description input sets the description |
| PostEditor.CategoryManager.StartEdit | blog-site-frontend/src/pages/CreatePost.tsx:243-245 | editing selects the category and fills the form from it |
| PostEditor.CategoryManager.Save | blog-site-frontend/src/pages/CreatePost.tsx:57-64 | an edited category is updated by its id, a new one is created; the body is the form |
| PostEditor.CategoryManager.SaveAnswered | blog-site-frontend/src/pages/CreatePost.tsx:65-72 | success empties the form and ends editing; a failure keeps both |
| EditorText.InsertAroundSelection | blog-site-frontend/src/pages/CreatePost.tsx:91-112 | the prefix and suffix go around the selection, the rest is kept, and the cursor lands after the suffix, inside the text |
| EditorText.InsertAroundUndo | blog-site-frontend/src/pages/CreatePost.tsx:100 | cutting the inserted prefix and suffix out again gives back the original text |
| EditorText.InsertAroundPieces | blog-site-frontend/src/pages/CreatePost.tsx:98-100 | inside the text, the three cuts are plain slices |
| EditorText.SkipRun | blog-site-frontend/src/pages/CreatePost.tsx:53 | what is left after a run of other characters starts with a letter or digit |
| EditorText.DashRuns | blog-site-frontend/src/pages/CreatePost.tsx:53 | replacing the runs gives a dash-separated text, empty exactly when the input is, starting with a dash exactly when the input starts with another character |
| EditorText.AlnumsAppend | blog-site-frontend/src/pages/CreatePost.tsx:53 | the letters and digits of a concatenation are those of the parts |
| EditorText.SkipRunAlnums | blog-site-frontend/src/pages/CreatePost.tsx:53 | skipping a run loses no letter or digit |
| EditorText.DashRunsKeepsAlnums | blog-site-frontend/src/pages/CreatePost.tsx:53 | replacing the runs keeps every letter and digit, in order |
| EditorText.SliceDashSeparated | blog-site-frontend/src/pages/CreatePost.tsx:53 | a piece of a dash-separated text is dash-separated |
| EditorText.StripEdgeDashes | blog-site-frontend/src/pages/CreatePost.tsx:53 | stripping the edge dashes never lengthens the text |
| EditorText.StripEdgeDashesClean | blog-site-frontend/src/pages/CreatePost.tsx:53 | on a dash-separated text, stripping leaves no dash at either end |
| EditorText.Slugify | blog-site-frontend/src/pages/CreatePost.tsx:53 | a slug is dash-separated with no dash at either end |
| EditorText.SlugifyKeepsAlnums | blog-site-frontend/src/pages/CreatePost.tsx:53 | a slug keeps every letter and digit of the lower-cased title, in order |
| EditorText.StripEdgeDashesAlnums | blog-site-frontend/src/pages/CreatePost.tsx:53 | stripping edge dashes loses no letter or digit |
| EditorText.SlugifyIdempotent | blog-site-frontend/src/pages/CreatePost.tsx:53 | a slug is its own slug |
| EditorText.LowerOfSlug | blog-site-frontend/src/pages/CreatePost.tsx:53 | a slug has nothing to lower-case |
| EditorText.DashRunsOfSlug | blog-site-frontend/src/pages/CreatePost.tsx:53 | a slug has no run to replace |
| EditorText.CategorySlug | blog-site-frontend/src/pages/CreatePost.tsx:223 | the category slug is dash-separated, empty exactly when the name is, and starts with a dash exactly when the name starts with another character |
| EditorText.TrimKeepsOut | blog-site-frontend/src/pages/CreatePost.tsx:124 | trimming never brings in a character |
| EditorText.TrimAll | blog-site-frontend/src/pages/CreatePost.tsx:124 | each piece is trimmed, in order |
| EditorText.NonEmpty | blog-site-frontend/src/pages/CreatePost.tsx:124 | dropping empty pieces never lengthens the list |
| EditorText.NonEmptyAppend | blog-site-frontend/src/pages/CreatePost.tsx:124 | dropping empty pieces distributes over concatenation |
| EditorText.NonEmptyMembers | blog-site-frontend/src/pages/CreatePost.tsx:124 | exactly the non-empty pieces stay |
| EditorText.ParseTagsClean | blog-site-frontend/src/pages/CreatePost.tsx:124 | every parsed tag is non-empty, trimmed and free of commas |
| EditorText.ParseTagsAppend | blog-site-frontend/src/pages/CreatePost.tsx:124 | parsing splits at a comma |
| EditorText.JoinParseRoundTrip | blog-site-frontend/src/pages/EditPost.tsx:58 | clean tags joined by ", " parse back to the same list |
| EditorText.ParseCommaFree | blog-site-frontend/src/pages/CreatePost.tsx:124 | a text without commas is one tag, or none when blank |
| EditorText.ParseOneTag | blog-site-frontend/src/pages/CreatePost.tsx:124 | white space before a single tag is dropped |
| EditorText.ParseSpacedJoin | blog-site-frontend/src/pages/CreatePost.tsx:124 | clean tags joined by ", " after leading white space parse back to the list |
| EditorText.ParseJoinStep | blog-site-frontend/src/pages/CreatePost.tsx:124 | the first tag and then the rest after ", " parse as the first tag followed by the rest |
| EditorText.InsertAround | blog-site-frontend/src/pages/CreatePost.tsx:91-112 | the selection wrapped in prefix and suffix, with the cursor after the suffix; its properties are the insertion lemmas of this module |
| EditorText.ParseTags | blog-site-frontend/src/pages/CreatePost.tsx:124 | split at commas, trim each piece, drop the empty ones |
| EditorText.JoinTags | blog-site-frontend/src/pages/EditPost.tsx:58 | the tags joined by ", "; `PostEditor.PayloadTagsRoundTrip` shows that parsing gives them back |
| Text.Lower | blog-site-frontend/src/pages/Home.tsx:110 | lower-casing keeps the length and maps each character on its own |
| Text.Trim | blog-site-frontend/src/pages/CreatePost.tsx:124 | the result has no white space at either end and is no longer than the input |
| Text.TrimEmptyIff | blog-site-frontend/src/pages/CreatePost.tsx:124 | trimming gives the empty string exactly for blank input |
| Text.JavaTrim | blog-site-backend/src/main/java/com/fsk/blogsitebackend/service/AboutService.java:99 | Java's trim leaves no control character or space at either end and yields a piece of the input |
| Text.Split | blog-site-frontend/src/pages/About.tsx:588 | splitting at a character gives at least one piece, one exactly when the character is absent, and no piece holds it |
| Text.IndexOf | blog-site-frontend/src/components/ui/CategoryDropdown.tsx:41-42 | the first occurrence of the text, and no occurrence before it; -1 when there is none |
| Text.Substring | blog-site-frontend/src/components/ui/Typewriter.tsx:29-31 | with arguments in range the result is that slice, and never longer than the text |
| Text.SplitOn | blog-site-frontend/src/pages/About.tsx:134 | JavaScript's split on a non-empty separator always gives at least one piece |
| Text.NatToString | blog-site-backend/src/main/java/com/fsk/blogsitebackend/service/AboutService.java:106 | a natural number in decimal: at least one digit, and digits only |
| Text.IntToString | blog-site-frontend/src/pages/EditPost.tsx:59 | an integer in decimal, with a minus sign when negative |

## Left out

- Controllers, response envelopes, MapStruct mappers, `api.ts`, JSX rendering and styling are thin layers around the modelled logic and are not part of this model.
- Persistence: repositories are sequences or maps held by the services. Database unique constraints, transactions, lazy loading and duplicate rows from JPQL joins are not modelled.
- PostService.GetFilteredPosts: slices the matches in table order. The source sorts them by `publishedAt`, newest first, before it slices (`PostService.java:154`). The model therefore does not capture which matching posts fall on a given page, nor their order. Only a first page that covers all matches holds the same posts as the source (`PostService.FirstPageComplete`).
- PostService.FilterPosts: the title search treats the query as plain text. `%` and `_` inside it, which SQL `LIKE` reads as wildcards, are not modelled.
- The repository pass-throughs of `PostService`, `PostCommentService`, `UserService` and `AboutService` are not modelled. They are find, save, delete and exists calls that add no logic. So are `PostService.update(UUID, PostEntity)` (`PostService.java:119-136`), the `AboutService` save and delete methods, and the MapStruct mapping in `getAboutInfo`.
- `NotificationService.getNotificationsForUser` is a repository query ordered by creation time plus a field-copying mapping, and is not modelled.
- Clock and identifiers: the current time is a parameter and UUIDs are a counter. Toast ids from `Math.random` are parameters, assumed fresh.
- Dates: date-fns `format`/`parse` on the about page are function parameters, and so is the month formatting. `formatDistanceToNow` is not modelled.
- Text: characters are Dafny `char`s. Lengths count characters, not UTF-16 code units. Lower-casing is ASCII only, with no locale rules.
- CategoryDropdown.HighlightProperties: the search text is matched literally. A search holding regular-expression metacharacters, which the source passes into `new RegExp` unescaped, is not modelled.
- `highlightText` in `Home.tsx` (lines 89-107) is the same function as the category dropdown's and is modelled once, in `CategoryDropdown`.
- Timers (toast expiry, typewriter ticks and pause, focus restoring) are event methods. Their delays are not modelled.
- Typewriter.Typewriter.constructor: requires a non-empty list. With an empty list the source would read an undefined text, which is not modelled.
- A service call and its answer are one step in several page models (social media admin, category manager, comments). Interleavings of overlapping requests, such as out-of-order answers on the home page, are not modelled.
- DOM: `IntersectionObserver` tracking of the active heading (`TableOfContents.tsx:29-52`) and `closest()` checks are not modelled. Click-outside handlers are events that receive the outcome of `closest()`.
- SocialMediaAdmin.SortByOrder: `displayOrder` is an optional integer. A `NaN` from `parseInt` on a non-numeric input is not modelled.
- Category ids are strings on every page. The number-to-string conversion of ids coming from the API is modelled only in `EditPost.FormOf`.
- `CommentItem` rendering and its recursion over replies, `ThemeContext`, `ReadingProgress`, and the simulated `Login`, `Contact` and `CreateAnnouncement` pages are not modelled.
- About page: the delete buttons (`handleDelete`, `About.tsx:161-175`) and the admin-mode toggle (`About.tsx:119-121`) are single service calls or flag flips, and are not modelled.
- Browser storage is a field of the page models. The storage event of other tabs is the `Navbar.NavbarState.StorageChanged` event.
- Post tags and categories: `PostEntity` keeps them in a `HashSet`, whose iteration order is unspecified. The model keeps them as a sequence in the order the tag loop adds them, so the order of tags and categories in a response matches the source only up to order.
- NotificationService.AfterCreate: the unread counter is an unbounded integer. The overflow of the `Integer` column `unreadNotificationCount` past 2^31 - 1 is not modelled.

## Findings

| source | as written | input that shows it | evidently intended | confidence | as-written member | corrected member |
|---|---|---|---|---|---|---|
| blog-site-frontend/src/pages/EditPost.tsx:402 | the preview's blockquote filter drops children whose `type` is "\n"; a "\n" child is a text node without a `type`, so nothing is dropped and a leading line break becomes the first child | the quote `> [!NOTE] x`, whose children are a line break, the paragraph and a line break: the first child is not a paragraph, so the quote renders plain | the line breaks are dropped, the first paragraph is inspected, and the quote renders as a NOTE alert box | not executed; high | EditPost.LeadingBreakDiscrepancy | EditPost.AlertBlockquote |
| blog-site-frontend/src/components/ui/MarkdownToolbar.tsx:111 | the items of the language, color and heading menus (lines 111, 166 and 204) are buttons without `type`, so they are submit buttons; in the comment form (`CommentForm.tsx:42-45`) the toolbar sits inside the `<form>` | a non-blank comment and a pick from the heading menu: the heading is inserted and the comment is also sent | a menu pick only inserts, as the toolbar's own buttons with `type="button"` (lines 93-95) do | not executed; high | CommentForm.CommentFormState.MenuPick | CommentForm.CommentFormState.HandleInsert |
| blog-site-frontend/src/pages/SocialMediaAdmin.tsx:234 | `IconMap` is an object literal, so `IconMap[name] \|\| Twitter` (here, at line 108 and at `Navbar.tsx:163`/`269`) also finds the members every object inherits from `Object.prototype`; they are truthy, so they do not fall back to Twitter | the free-text icon name "constructor" (the input at lines 154-160): the preview and the list render `Object` as a component | an unknown name, inherited or not, shows the Twitter icon and no preview | not executed; high | SocialMediaAdmin.InheritedNameDiscrepancy | SocialMediaAdmin.IconFor |
