# biblioteka — a verified model of the account, permission and serializer core

This project models the decision and state logic of the *biblioteka* library site, a Django / Django REST framework application. It models that logic over an in-memory store and proves properties of it in Dafny:

- **Records.** The `CustomUser`, `Item`, `Book` and `News` records, with their length limits, unique constraints (email, username, ISBN), defaults, default ordering (newest first), string forms, and the cascade from a deleted user to their News.
- **Store and session.** The database is a class `Store.Db`. It holds the user table, the bearer-token table (one token per user) and the News table, and its invariant is the constraint set the database enforces. A client's session is `Store.Session`.
- **Auth flows.** `register`, `login` and `logout` of `users/views.py` change the user and token tables and the session step by step. They are proved against the validation functions of the serializers.
- **Registration.** The registration serializer and the HTML registration form each have field validation, a password-confirmation check and a `create`/`save`. The serializer checks the password match only after every field is valid. The form always runs its `clean` hook.
- **Permissions.** The `IsAuthor` permission, plus the per-action permission table, the visible-set filter and the `"me"` lookup of `UserViewSet`.
- **Field rules.** The 13-digit ISBN validator inside its field pipeline, the three-way file-URL choice (absolute, relative or none), the read-only field sets, and the forced author assignment when News is created.
- **Management commands.** `create_user` and `create_superuser`. Each is modelled as a specification function on the account tables and as an imperative `Handle` method. For `create_superuser`, `Handle` is proved equal to `Run`, and `Run` is proved to keep the store constraints and to be idempotent. For `create_user`, `Run` models the command as written, which never creates a user (Findings below); `Handle` is proved equal to `RunIntended`, the command with that defect removed, not to `Run`.

Framework pieces the repository only calls are parameters of the model:

- password hashing (`Hasher`);
- the email, username-charset and password-strength validators (`FieldChecks`);
- the result of `authenticate`;
- the freshly generated token key;
- `build_absolute_uri` (`UriBuilder`);
- the clock (`now`).

Where the code does something other than what its own names, help texts and messages announce, the model follows the code:

- **`NewsSerializer` needs `author` in the payload.** `author` is writable and required (it is not among the read-only fields), and `create` then overwrites it with the requesting user. A POST without `author` is therefore a 400, not a 201 (`LandingSerializers.ValidateNews`, `LandingSerializers.ClientAuthorIgnored`).
- **Staff get no exemption at object level.** `IsAuthor.has_object_permission` only compares `author` with the caller. Because `Book.author` is a string, every unsafe method on a Book is denied to everyone at object level (`Permissions.BookObjectPermission`).
- **The registration serializer reports a mismatch only on otherwise-valid input.** Its password-mismatch error appears only when every field is valid, because `validate` runs after field validation. The HTML form reports the mismatch alongside any other errors.
- **Registration stores the email as given; the form normalizes it.** The form normalizes the email through the user model's own `clean` before its unique check runs, so two addresses that differ only in the case of the domain collide on the form path.
- **`create_user` never creates a user (Findings below).** Its help text and its success message announce a created user, but it passes an unknown `phone_number` keyword argument, so every run that passes its checks ends in the "unexpected error" message.
- **Unauthenticated callers get 403, not 401.** Session authentication is the first configured authenticator, and it sends no authentication challenge. This covers a `logout` by an anonymous caller.

## Model

| member | source | states |
|---|---|---|
| UserModel.FindByEmail | users/management/commands/create_superuser.py:75 | the lookup by login key finds a user exactly when one has that email, and it is that user (unique emails) |
| UserModel.UserText | users/models.py:44-45 | a user's string form is the email, " (", the username and ")" |
| UserModel.UsersInOrder | users/models.py:50 | users are listed newest `date_joined` first and the listing is a permutation of the table |
| UserModel.StripLeft | users/management/commands/create_superuser.py:92-96 | the manager's strip of leading whitespace cuts off exactly a run of whitespace and leaves a text that starts with none |
| UserModel.StripRight | users/management/commands/create_superuser.py:92-96 | the strip of trailing whitespace cuts off exactly a run of whitespace and leaves a text that ends with none |
| UserModel.NormalizeEmail | users/management/commands/create_superuser.py:92-96 | the manager keeps the local part of the stripped address and lower-cases the part after the last '@'; an address without '@' is kept as given |
| Ordering.SortNewestFirst | landing/models.py:84 | the default ordering yields a newest-first list with the same elements |
| Ordering.SortKeepsOrderedList | landing/models.py:137 | the `-created_at` ordering rearranges nothing that is already newest first, so listing an ordered table gives it back as is |
| LandingModel.AddBookKeepsIsbnsUnique | landing/models.py:48-53 | adding a book whose ISBN is free keeps ISBNs unique |
| LandingModel.BookText | landing/models.py:78-79 | a Book's string form is title, " - ", author |
| LandingModel.NewNews | landing/models.py:117-129 | a new News row carries the given title, content and author and both timestamps set to the creation time |
| LandingModel.BooksInOrder | landing/models.py:84 | books are listed newest `created_at` first, as a permutation |
| LandingModel.NewsInOrder | landing/models.py:137 | News items are listed newest `created_at` first, as a permutation |
| LandingModel.RemoveAuthoredBy | landing/models.py:103-106 | deleting a user removes exactly the News items they authored and keeps all others unchanged |
| LandingModel.CascadeKeepsAuthorsExisting | landing/models.py:103-109 | after the cascade every remaining News item still has an existing author |
| Media.FilePath | config/settings.py:98 | a stored file's URL is the media prefix followed by its name |
| Media.FileUrl | landing/serializers.py:79-84 | the URL is none exactly when there is no file, absolute when a request is in context, relative otherwise |
| Store.TokenOf | users/views.py:149 | a user's token key is a key of the token table that belongs to that user |
| Store.GetOrCreate | users/views.py:144 | get_or_create creates a token exactly when the user has none; otherwise it returns the existing key and leaves the table alone; one token per user is kept |
| Store.GetOrCreateIdempotent | users/views.py:136-150 | a second get_or_create for the same user changes nothing and returns the same key, so repeated logins return the same key |
| Store.WithoutTokensOf | users/views.py:168-172 | deleting a user's token removes exactly that user's tokens and does nothing when there is none |
| Store.RevokeIdempotent | users/views.py:168-179 | deleting a token twice is deleting it once, and other users keep their tokens |
| Store.InsertKeepsValid | users/models.py:22-26 | inserting a user whose email and username are free keeps every table constraint |
| Store.UpdateKeepsValid | users/models.py:22-26 | saving a user whose email and username clash with no other row keeps every table constraint |
| Store.GrantKeepsValid | users/views.py:144 | get_or_create on an existing user keeps every table constraint |
| Store.AuthenticateToken | config/settings.py:110-112 | a presented key authenticates its user exactly when the key exists and the user is active; an unknown key is invalid |
| Store.GrantedTokenAuthenticates | users/views.py:144-149 | the key get_or_create hands out authenticates its active user |
| Store.RevokedTokenRejected | users/views.py:170 | after logout the deleted key no longer authenticates anyone |
| Store.Db.constructor | users/models.py:6-50 | an empty database satisfies every constraint |
| Store.Db.InsertUser | users/serializers.py:81 | the new row gets the next id, nothing else changes, and the constraints hold |
| Store.Db.SaveUser | users/serializers.py:84 | an update replaces exactly one row and keeps the constraints |
| Store.Db.CreateToken | users/serializers.py:86 | a token is created for a user that had none, binding the new key to that user |
| Store.Db.GetOrCreateToken | users/views.py:105 | the token table and the returned key and flag are those of get_or_create |
| Store.Db.DeleteTokenOf | users/views.py:170 | the user's token is gone, other tokens and all other tables are unchanged |
| Store.Db.InsertNews | landing/serializers.py:167 | a News row is inserted under a fresh id with an existing author |
| Store.Db.DeleteUser | landing/models.py:103-106 | deleting a user removes their row, their token and exactly their News, and keeps the constraints |
| Store.Session.constructor | users/views.py:141 | a new session is logged out |
| Permissions.HasPermission | landing/permissions.py:5-10 | safe methods always pass; an unsafe method passes exactly for an authenticated staff user, since the missing `is_author` counts as false |
| Permissions.HasObjectPermission | landing/permissions.py:12-19 | safe methods pass; otherwise `author == user` decides when the object has an author, else `book.author == user`, else deny |
| Permissions.StaffNotExempt | landing/permissions.py:15-16 | a staff user who is not the author is denied unsafe methods on an authored object |
| Permissions.NewsObjectPermission | landing/permissions.py:15-16 | an unsafe method on a News item is allowed exactly for its author |
| Permissions.BookObjectPermission | landing/permissions.py:15-16 | an unsafe method on a Book is denied to every actor, staff included |
| Permissions.ItemObjectPermission | landing/permissions.py:19 | an unsafe method on an Item is denied to every actor |
| Serialization.AcceptedInput | landing/serializers.py:34 | read-only and undeclared keys never reach the validated data; every other declared key keeps its value |
| LandingSerializers.ItemReadOnlyFields | landing/serializers.py:31-34 | Item input never sets `id` or `created_at` |
| LandingSerializers.BookReadOnlyFields | landing/serializers.py:53-68 | Book input never sets `id`, `created_at` or `updated_at` |
| LandingSerializers.NewsReadOnlyFields | landing/serializers.py:131-146 | News input never sets `id`, the timestamps, `author_username` or `author_email` |
| LandingSerializers.DigitRunMeansDigitsOfLength | landing/serializers.py:113-116 | "exactly n digits" holds iff the value has length n and every character is a digit |
| LandingSerializers.ValidateIsbn | landing/serializers.py:106-117 | accepted exactly when 13 digits, returned unchanged; any non-digit (or empty) value gets the digits error first; an all-digit value of another length gets the length error |
| LandingSerializers.IsbnField | landing/serializers.py:94-117 | the isbn field accepts exactly a 13-digit value not already used; length errors of the validator only arise below 13 characters |
| LandingSerializers.AcceptedIsbnFitsModel | landing/models.py:48-53 | a book saved with an accepted ISBN fits the 13-character limit and keeps ISBNs unique |
| LandingSerializers.CoverImageUrl | landing/serializers.py:70-84 | `cover_image_url` is none exactly without a cover, absolute with a request, relative without |
| LandingSerializers.NewsImageUrl | landing/serializers.py:148-155 | `image_url` is none exactly without an image, absolute with a request, relative without |
| LandingSerializers.ValidateNews | landing/serializers.py:131-146 | title and content are required and non-blank, the title is at most 255 characters, `author` is required and must exist; a valid payload is kept |
| LandingSerializers.NewsRecord | landing/serializers.py:167 | the created row carries the validated fields, takes `is_published` true when not given, and is stamped with the creation time |
| LandingSerializers.CreateNews | landing/serializers.py:157-167 | exactly one News row is inserted, authored by the requesting user whatever author the client sent |
| LandingSerializers.ClientAuthorIgnored | landing/serializers.py:164-167 | two payloads that differ only in `author` create the same row, authored by the requesting user |
| UserSerializers.ProfileReadOnlyFields | users/serializers.py:104-123 | a profile update cannot change `id`, `date_joined`, `last_login`, `is_active`, the password or the staff flags; username, email and avatar pass through |
| UserSerializers.RegistrationReadOnlyFields | users/serializers.py:33-43 | registration input never sets `id` |
| UserSerializers.ValidateRegistration | users/serializers.py:44-64 | all field errors are reported together; a missing or taken email is an email error; a missing or taken username is a username error; differing passwords always fail, and with otherwise-valid fields the only error is on `password_confirm`; success means every check passed |
| UserSerializers.RegisteredUser | users/serializers.py:77-84 | the created row has the declared fields and the hash of the password; the confirmation is dropped and the raw password is not stored |
| UserSerializers.CreateRegisteredUser | users/serializers.py:66-88 | create adds exactly one user, with the hashed password, and exactly one token bound to that user, and keeps the constraints |
| UserSerializers.AvatarUrl | users/serializers.py:125-132 | `avatar_url` is none exactly without an avatar, absolute with a request, relative without |
| UserSerializers.LoginFieldErrors | users/serializers.py:135-155 | login needs an email that is an email address and a non-empty password |
| UserViews.GetPermissions | users/views.py:33-49 | `list` and `destroy` take the admin permission; every other action takes the authenticated permission |
| UserViews.CheckPermissions | users/views.py:33-49 | `list` and `destroy` pass exactly for staff; other actions pass exactly for authenticated callers; an anonymous caller is refused as not authenticated |
| UserViews.GetQueryset | users/views.py:51-61 | staff see every user; any other member sees exactly their own row; the anonymous user sees none |
| UserViews.IdText | users/views.py:69-71 | an id in a URL is a non-empty run of digits |
| UserViews.ParsePk | users/views.py:71 | a pk yields an id exactly when it is a non-empty run of digits |
| UserViews.ParseIdText | users/views.py:69-71 | reading an id's URL form gives the id back, and that form is never "me" |
| UserViews.GetObject | users/views.py:63-71 | "me" is the caller with no lookup; any other pk resolves exactly when it names a row in the caller's visible set |
| UserViews.OtherUserHidden | users/views.py:58-71 | a non-staff caller asking for another user's id gets not found |
| UserViews.VisibleUserFound | users/views.py:58-71 | every caller finds their own row by id, and staff find every row |
| UserViews.Register | users/views.py:98-114 | invalid input is 400 with its field errors and changes nothing; valid input is 201 with the new user under the next id and the token bound to it, and get_or_create mints no second token; the News table and its id counter never change |
| UserViews.Login | users/views.py:128-157 | 400 for an invalid payload and 401 for failed authentication, both changing nothing; otherwise 200 with the session logged in, `last_login` stamped and the get_or_create token; no user is added and the News table and its id counter never change |
| UserViews.Logout | users/views.py:160-179 | an authenticated caller's token is deleted if present and the session ends, always with 200; an anonymous caller is refused and nothing changes; users, News and both id counters are untouched |
| UserForms.FormErrors | users/forms.py:39-59 | each field's error condition holds exactly when that field is reported; `password_confirm` is reported exactly when blank or when both passwords cleaned and differ |
| UserForms.MismatchReportedWithOtherErrors | users/forms.py:39-47 | the mismatch is reported regardless of other fields, never when the password itself was rejected, and a valid form has equal passwords |
| UserForms.ValidFormFieldsFree | users/forms.py:49-59 | a valid form's email (raw and normalized) and username are not taken |
| UserForms.FormUser | users/forms.py:61-63 | the saved instance has the normalized email, the declared fields (username, names, birth date) and the hash of the cleaned password, joined now, active, without staff flags, avatar or last login |
| UserForms.Save | users/forms.py:61-66 | an invalid form is refused without change; a valid one persists the user under the next id, advancing the user id counter, only when commit is true; no token is created and News and its id counter are untouched |
| CommandInput.Prompted | users/management/commands/create_user.py:69-75 | a missing or empty option is replaced by the prompt answer unless prompting is off |
| CommandInput.OrNone | users/management/commands/create_user.py:82-87 | an empty optional answer counts as no value |
| CommandInput.OrEmpty | users/management/commands/create_user.py:119-120 | a missing name is stored as the empty string |
| CreateUserCommand.Gather | users/management/commands/create_user.py:58-94 | a prompted password that is not confirmed aborts first; a missing email, username or password aborts next; otherwise the resolved values are non-empty |
| CreateUserCommand.ReadValues | users/management/commands/create_user.py:58-94 | the prompting steps give exactly the values or abort reason of `Gather` |
| CreateUserCommand.Run | users/management/commands/create_user.py:96-145 | as written, no run changes the tables: a prompting or required-value abort is reported as such, a taken email is reported first, then a taken username, and every other run ends in the unexpected-error message |
| CreateUserCommand.AsWrittenRejectsFreshAccount | users/management/commands/create_user.py:115-122 | on an empty table with every value given, the command as written reports an error where the corrected one creates user 0 |
| CreateUserCommand.NewUser | users/management/commands/create_user.py:115-122 | the created row has the normalized email, the hashed password, names or "", and no staff flags |
| CreateUserCommand.CheckThenCreate | users/management/commands/create_user.py:96-136 | a taken email is reported exactly when the given email is taken; a taken username exactly when the email is free and the username taken; only a creation changes the tables, giving the next id and a new token whose key is printed |
| CreateUserCommand.CreateAccount | users/management/commands/create_user.py:115-136 | the new user gets the next id and a new token whose key is printed, unless its normalized email or its username is taken, which fails with every table unchanged; the constraints are kept |
| CreateUserCommand.RunIntended | users/management/commands/create_user.py:96-136 | only a created user changes the tables; an existing email is reported exactly when the given email is taken; an existing username exactly when the email is free and the username taken; a created user gets the next id and a new token, whose key is printed; the constraints are kept |
| CreateUserCommand.IntendedCreatesFreshAccounts | users/management/commands/create_user.py:98-136 | past the existence checks, the user is created exactly when the normalized email is free too (else an integrity error), with "" for missing names |
| CreateUserCommand.Handle | users/management/commands/create_user.py:58-145 | the command's steps leave the tables and report the outcome that `RunIntended` gives, and keep the constraints; News and its id counter are untouched |
| CreateSuperuserCommand.Gather | users/management/commands/create_superuser.py:44-71 | a prompted password that is not confirmed aborts first; a missing email, username or password aborts next |
| CreateSuperuserCommand.ReadValues | users/management/commands/create_superuser.py:44-71 | the prompting steps give exactly the values or abort reason of `Gather` |
| CreateSuperuserCommand.PromotedUser | users/management/commands/create_superuser.py:79-84 | promotion sets both flags, resets the password, takes the given username and keeps everything else |
| CreateSuperuserCommand.NewSuperuser | users/management/commands/create_superuser.py:92-96 | a new superuser has the normalized email, the hashed password and both flags set |
| CreateSuperuserCommand.Promote | users/management/commands/create_superuser.py:77-89 | the found row is promoted and the token got or created, unless the new username belongs to another row, which fails with every table unchanged; the constraints are kept |
| CreateSuperuserCommand.CreateNew | users/management/commands/create_superuser.py:90-105 | the new superuser gets the next id and a new token, unless its normalized email or its username is taken, which fails with every table unchanged; the constraints are kept |
| CreateSuperuserCommand.Run | users/management/commands/create_superuser.py:66-122 | aborts change nothing; a found email promotes that row, failing exactly when the promoted row clashes with another; an email not found creates a superuser under the next id with a new token, failing exactly when the normalized email or the username is taken; a failure changes nothing; the constraints are kept |
| CreateSuperuserCommand.RunPromotedOutcome | users/management/commands/create_superuser.py:75-113 | a promoting run found the row by the given email, changed only that row, created no user, and got or created its token (when a run promotes is stated by `CreateSuperuserCommand.Run`) |
| CreateSuperuserCommand.RunCreatedOutcome | users/management/commands/create_superuser.py:75-113 | a creating run found no row by the given email and stored exactly one new superuser under the next id with a new token (when a run creates is stated by `CreateSuperuserCommand.Run`) |
| CreateSuperuserCommand.PromoteIdempotent | users/management/commands/create_superuser.py:79-84 | promoting twice is promoting once |
| CreateSuperuserCommand.RepromotionChangesNothing | users/management/commands/create_superuser.py:77-105 | re-promoting a row that is already promoted and holds a token changes no table |
| CreateSuperuserCommand.FailureRepeats | users/management/commands/create_superuser.py:75-116 | a run that failed on a unique constraint fails again with the tables unchanged, whatever key or clock it sees |
| CreateSuperuserCommand.PromotionRepeats | users/management/commands/create_superuser.py:75-113 | after a promotion, a second run with the same values leaves the tables as they are |
| CreateSuperuserCommand.CreationRepeats | users/management/commands/create_superuser.py:75-113 | after a creation, a second run either re-promotes the new row with nothing changed or, when the stored email is the normalized form of a different given one, fails on the unique constraint |
| CreateSuperuserCommand.RunTwice | users/management/commands/create_superuser.py:75-113 | a second run with the same values leaves the tables exactly as the first run left them |
| CreateSuperuserCommand.PromoteRow | users/management/commands/create_superuser.py:79-83 | the in-place flag, password and username updates give exactly the promoted row |
| CreateSuperuserCommand.PromoteFound | users/management/commands/create_superuser.py:77-113 | the in-place updates, `save` and get_or_create leave the tables and give the outcome that `Promote` gives |
| CreateSuperuserCommand.CreateSuperuser | users/management/commands/create_superuser.py:90-113 | `create_superuser` and the token leave the tables and give the outcome that `CreateNew` gives |
| CreateSuperuserCommand.Handle | users/management/commands/create_superuser.py:44-122 | the command's steps leave the tables and report the outcome that `Run` gives, and keep the constraints; News and its id counter are untouched |

## Left out

- HTML views and templates, the Book and News API views, pagination, the `cms` app, admin registrations, URL routing and settings are not part of this model. Of settings, only the media prefix and the authenticator order are used.
- Password hashing is a deterministic function parameter. The real hasher is salted, so `CreateSuperuserCommand.RunTwice` relies on a re-hashed password comparing equal to the first hash.
- The email-syntax, username-charset and password-strength validators (`validate_password` with the configured validators), and `authenticate`, are opaque parameters. `UserViews.Login` takes the authenticated user, if any, as an input. The requirement is that this user exists, is active and has the given email.
- Token-key generation is an input that must not already be in the table. The clock is an input.
- `build_absolute_uri` is an opaque function. Media URLs are not percent-quoted.
- Session internals are not modelled (cookies, session-key rotation on login, the CSRF check of session authentication). A session is only "logged in as whom".
- Concurrency and database races are not modelled. Uniqueness is a store invariant. A failed insert consumes no auto-increment id here, whereas PostgreSQL's sequences leave a gap.
- Parsing and validation of `birth_date` are not modelled. Dates are taken as already parsed.
- Whitespace trimming by the framework's character fields is not modelled. Values are taken as trimmed.
- Interactive prompts and console output of the two commands are not modelled as I/O. Prompt answers are inputs and the final message is the outcome.
- Database errors other than unique-constraint violations are not modelled: a value longer than its column (a username or name over 150 characters, an email over 254) raises a data error, and a NUL character raises a value error, in the lookups and in the save or insert. In both commands these end in the generic `except Exception` message with nothing stored (users/management/commands/create_superuser.py:119-122, users/management/commands/create_user.py:142-145). The model instead stores such values.
- CreateUserCommand.RunIntended: its `r.1 != UnexpectedError` holds only because those database errors are left out; an over-long or NUL-bearing value would give the unexpected-error message.
- CreateSuperuserCommand.Run: its outcomes cover only the unique-constraint failure; an over-long or NUL-bearing value would instead reach the generic error message with nothing stored.
- LandingSerializers.ValidateIsbn: the digit test is ASCII-only, whereas Python's `str.isdigit` also accepts other Unicode digits.
- UserViews.ParsePk: only a plain ASCII digit run is accepted, whereas Python's `int` also accepts surrounding spaces, a sign, underscores and other Unicode digits.
- UserModel.NormalizeEmail: lower-casing and stripping are ASCII-only. The NFKC normalization the user model applies to its login field is not modelled.
- CreateUserCommand.NewUser: the username is stored as given. The user manager applies NFKC normalization to it before building the row, so a username such as a full-width "ｕser" would be stored, and checked against the unique constraint, as "user"; Unicode normalization is not modelled.
- CreateSuperuserCommand.NewSuperuser: the username is stored as given, without the NFKC normalization the user manager applies, for the same reason as for `CreateUserCommand.NewUser`.
- LandingModel.ItemText and LandingModel.NewsText: the string forms of Item (its name) and News (its title) are plain definitions with nothing to prove about them.
- Permissions.NewsTarget, Permissions.BookTarget and Permissions.ItemTarget: the attributes each record offers the permission check are plain definitions; what they mean for permissions is stated by `Permissions.NewsObjectPermission`, `Permissions.BookObjectPermission` and `Permissions.ItemObjectPermission`.

## Findings

| source | as written | input that shows it | evidently intended | confidence | as-written member | corrected member |
|---|---|---|---|---|---|---|
| users/management/commands/create_user.py:115-122 | `create_user` is called with `phone_number`, which is not a field of the user model. The model constructor raises, and the generic handler at lines 142-145 reports it, so no user is ever created. | `--email reader@example.com --username reader --password secret-pass --noinput` on an empty table | create the user with names defaulting to "" and print the new token's key | not executed | CreateUserCommand.Run | CreateUserCommand.RunIntended |
