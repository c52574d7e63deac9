# BookEasy in Dafny

BookEasy is a hotel-booking site. It has PHP endpoints over a MySQL database for site users, administrators, rooms, bookings and feedback. Its browser pages keep a signed-in user and a booking intent in `sessionStorage` and `localStorage`. This project models the core of both halves and proves what the code promises about them.

Each source file becomes one module:

- **`UserAccounts`** (users/users.php) models the `User` service as a class over a `map` of rows.
  - `login` checks the hash first and plain equality second. A plain-text match upgrades the stored password to a hash.
  - `register` refuses a duplicate email.
  - `changePassword` checks in order user, current password, then length. The `updatePassword` dispatch first checks missing fields and then new ≠ confirm.
  - `password_hash`/`password_verify` are a `PasswordScheme` parameter. `Sound` is its one law: a password verifies against any hash of itself.
- **`AdminLogin`** (admin_control/admin_login.php) is the administrator table.
  - Authentication is exact plain-text equality, and `active = 1` gates it.
  - `createAdmin` never creates a duplicate email.
  - The POST handler returns the 400/401/405/500 codes in the order the code checks them.
  - `filter_var` is a predicate parameter.
- **`AdminClient`** (admin_control/admin_login.js) covers three things:
  - the login form validation, including the email regular expression, proved equal to a positional description;
  - the four `sessionStorage` keys written on success;
  - `logoutAdmin`.
- **`Atlas`** (atlas.js) is the session and booking-intent state machine, defined twice:
  - as functions on the two storage maps, about which the lemmas speak;
  - as methods that perform the same `getItem`/`setItem`/`removeItem` steps on two `Storage` objects.
- **`LocalAccounts`** (users/users.js) is the `localStorage` user and booking store:
  - registration, with a case-insensitive duplicate check;
  - login;
  - the open and completed booking views;
  - completion and rating.
- **`Bookings`** (api/bookings.php) covers the `??` defaults of a create request, the append, and `getByUser` newest first.
- **`Feedback`** (report/report.php) covers the feedback table: status filter, hard delete, and the `SUM(CASE ...)` statistics.
- **`FeedbackForm`** (report/report.js) covers the type labels, the details guard, the request body and the messages.
- **`Rooms`** (rooms/rooms.php) covers the rooms table: listing in id order, substring search, soft delete, and the GET and POST handlers.
- **`RoomBrowser`** (rooms/rooms.js) covers three things:
  - the `RoomManager`'s `currentRoomId`;
  - reading the price back from the details text, then writing `bookingRoom` and going to checkout;
  - the two rules that start a search.
- **`SearchPage`** (script.js) covers the search-form validation, the check-out reset rule and the feedback label.

Helper modules:

- `Wrappers` provides `Option`.
- `Strings` provides JavaScript and PHP `trim`, ASCII case mapping, PHP truthiness, substring search, and JavaScript's string `<`.
- `Lists` provides first match and filter, with multiset and order lemmas.
- `Sorting` provides a stable insertion sort by a string key, proved sorted and a permutation.
- `Numbers` provides decimal numerals and JavaScript `parseInt`.
- `WebStorage` provides the `Storage` class.

How the outside world is modelled:

- **Tables.** Each table is a `seq` of rows with strictly increasing ids below the next `AUTO_INCREMENT` value, or a `map` for users. A `connected` flag stands for the database connection.
- **Time, ids and salts.** `NOW()`, `Date.now()`, `uid()` and the random salt of `password_hash` are parameters.
- **The network.** The answer of a `fetch` is a parameter, with `None` for a failed request.
- **JSON.** `JSON.stringify` is an `encode` parameter whose results are object texts, so they are never empty.

## Model

| member | source | states |
|---|---|---|
| UserAccounts.VerdictProperties | users/users.php:75-86 | A falsy stored password never matches. On a truthy stored value the login check and the `changePassword` check agree. A hash the scheme made verifies by the hash path. After a legacy match the upgraded hash matches the same password by the hash path. |
| UserAccounts.FindByEmail | users/users.php:61-73 | With unique emails, the lookup finds an id exactly when some row has the email, and the row found has it. |
| UserAccounts.UniqueAfterInsert | users/users.php:110-139 | Adding a row with a fresh email, or replacing a row by one with the same email, keeps emails unique. |
| UserAccounts.LoginOutcomeProperties | users/users.php:59-100 | Login yields no user exactly when the email is unknown or the password is rejected, and then the table is unchanged. A hash match changes nothing. A legacy match rewrites only that row's password, to a hash of the supplied one. The user returned has no password field. Unique emails are preserved. |
| UserAccounts.LegacyLoginUpgradesOnce | users/users.php:79-86 | After a legacy login, the same credentials log in again through the hash path and leave the table unchanged. |
| UserAccounts.RegisteredUserLogsIn | users/users.php:103-145 | A registered account, stored with role 'user' and a hashed password, logs in with its password through the hash path. Registering the same email again is refused. |
| UserAccounts.ChangeOutcomeProperties | users/users.php:235-277 | The checks run in the order: 'User not found', then 'Current password is incorrect' (neither hash nor legacy match), then 'New password must be at least 8 characters'. A refusal leaves the table unchanged. Success changes only that row's password, and the new password then logs in through the hash path. |
| UserAccounts.UserService.UpdatePasswordHashed | users/users.php:218-232 | Sets the password of the row with that id, if there is one, and changes nothing else. |
| UserAccounts.UserService.Login | users/users.php:59-100 | Returns the user and the table that `LoginOutcome` gives. With no connection it returns no user, changes nothing and records the connection error. |
| UserAccounts.UserService.Register | users/users.php:103-145 | On a duplicate email: 'Email already registered' and no insert. Otherwise exactly one row, with a hashed password and role 'user'. |
| UserAccounts.UserService.GetUserByEmail | users/users.php:170-189 | The row with that email, without its password, or none. |
| UserAccounts.UserService.ChangePassword | users/users.php:235-277 | Ends in the table or the error that `ChangeOutcome` gives. Every failure leaves the table unchanged. |
| UserAccounts.HandleLogin | users/users.php:293-312 | The table is the one `LoginOutcome` leaves. An unknown email and a wrong password both give 'Invalid email or password', with the recorded error. Success returns the user without its password. With no connection, the database error. |
| UserAccounts.HandleRegister | users/users.php:314-334 | Fills the service's properties and registers. On success: 'Registration successful' with the row read back by email. On failure: the recorded error, or 'Failed to register user'. |
| UserAccounts.HandleUpdatePassword | users/users.php:374-407 | 'Missing required fields', then 'New password and confirm password do not match', are answered before `changePassword` runs, and the table is unchanged. Otherwise the table and answer are what `ChangeOutcome` gives: 'Password updated successfully' or its error. With no connection the answer is 'Database connection failed.'. |
| UserAccounts.HandlePost | users/users.php:289-414 | A login, register or updatePassword request ends exactly as the `login`, `register` or `updatePassword` case, as `LoginAnswered`, `RegisterAnswered` and `UpdatePasswordAnswered` state. Any other action gives 'Invalid action' with nothing changed. |
| AdminLogin.TouchLogin | admin_control/admin_login.php:136-141 | Keeps the length. A row with another id is unchanged. A row with the id has `last_login` set to the time, and every other column kept. |
| AdminLogin.AuthenticateProperties | admin_control/admin_login.php:101-160 | A grant needs an active row with the email and exactly the password, and carries that admin's id, name and email. When emails are unique, such a row always gets a grant. An unknown, inactive or mistyped login gives the same `Denied`. A grant changes only that admin's `last_login`; a denial changes nothing. Increasing ids and unique emails are kept. |
| AdminLogin.CreateRows | admin_control/admin_login.php:169-196 | Refused exactly when some row, active or not, has the email. Otherwise one new active row holds the email, the name and the password as given. |
| AdminLogin.CreatedAdminLogsIn | admin_control/admin_login.php:169-196 | An administrator just created logs in with the same email and password. |
| AdminLogin.AdminStore.AuthenticateAdmin | admin_control/admin_login.php:101-160 | Returns the verdict and the table that `Authenticate` gives. The store's invariant, increasing ids below the next id and unique emails, is kept. |
| AdminLogin.AdminStore.CreateAdmin | admin_control/admin_login.php:169-196 | Ends in the table that `CreateRows` gives. It returns false and changes nothing on a duplicate email. |
| AdminLogin.LoginRejection | admin_control/admin_login.php:211-230 | Codes are 400 in this order: missing email or password, invalid format of the trimmed email, password shorter than 6. Otherwise none. |
| AdminLogin.HandleRequest | admin_control/admin_login.php:199-273 | OPTIONS gives 200 and any other non-POST method 405; invalid JSON gives 400. A missing action means login. Validation precedes the 500 connection error, which precedes the 401 'Invalid email or password'. An unknown action gives 400. The table changes only as `Authenticate` or `CreateRows` say. |
| AdminLogin.HandleLogin | admin_control/admin_login.php:211-243 | The `login` action: the validation errors in order, then the 500 connection error, then the verdict `Authenticate` gives on the table it started from, with 'Login successful' and the admin fields or a 401. |
| AdminLogin.HandleCreate | admin_control/admin_login.php:245-266 | The `create` action: the missing-field 400, the email-format 400, the 500 connection error, then the table `CreateRows` gives with the success message, or the unchanged table with 'Email may already exist'. |
| AdminClient.EmailShapeIff | admin_control/admin_login.js:15 | The regex `^[^\s@]+@[^\s@]+\.[^\s@]+$` holds exactly when the string has no white space and exactly one '@', not first, followed by a '.' that is neither the first nor the last character of the domain. |
| AdminClient.ShapeGivesPattern | admin_control/admin_login.js:15 | A string with no white space, one '@' at position i > 0 and a '.' at p, after i + 1 and before the last position, splits into three pattern words around them. |
| AdminClient.PatternGivesShape | admin_control/admin_login.js:15 | Three pattern words joined by '@' and '.' form a string of that positional shape. |
| AdminClient.ValidateAdminLogin | admin_control/admin_login.js:10-29 | The error list is exactly: 'Email is required' for a blank email, else the format error when the pattern fails, else nothing; then 'Password is required' for an empty password, else the too-short error for fewer than 6 characters, else nothing. Valid exactly when the list is empty. |
| AdminClient.HandleAdminLogin | admin_control/admin_login.js:73-123 | Without the form, nothing happens. An invalid form sends nothing, writes no key and shows the validation errors joined by ". ". A successful reply writes exactly the four admin keys, with name 'Admin' and id '' as defaults, then goes to AdminControl.html. A failed reply or a failed request writes nothing and shows the server's message or the default. |
| AdminClient.LogoutAdmin | admin_control/admin_login.js:139-145 | Removes exactly the four admin keys and returns to adminlogin.html. |
| AdminClient.AdminSessionProperties | admin_control/admin_login.js:105-122 | The session after a login has exactly the old keys plus the four admin keys. The old keys keep their values. A logout afterwards restores every other key. |
| Atlas.GetCurrentUser | atlas.js:12-17 | The session copy when it is truthy, else the durable copy when it is truthy, else none. Never an empty text. |
| Atlas.LoggedInIffCurrentUser | atlas.js:5-17 | Signed in exactly when there is a current user. The session copy wins over the durable one. |
| Atlas.SyncProperties | atlas.js:20-26 | Syncing never overwrites a present session copy and copies only into an empty slot. It touches no other key and is idempotent. |
| Atlas.SyncKeepsIdentity | atlas.js:20-26 | Syncing changes neither whether a user is signed in nor which copy is the current user. |
| Atlas.CheckoutGuardProperties | atlas.js:63-80 | On the checkout page while signed out, `pendingBooking` becomes `bookingRoom` (if it is set), `bookingRoom` is kept, and the visitor goes to login.html with false. Otherwise the result is true and storage is unchanged. |
| Atlas.RestoreProperties | atlas.js:83-91 | Does nothing while signed out or with nothing parked. Otherwise it moves the parked intent to `bookingRoom`, deletes `pendingBooking` and goes to Checkout.html, without touching any other key. |
| Atlas.RestoreOneShot | atlas.js:85-90 | A second restore right after the first changes nothing and goes nowhere. |
| Atlas.PageLoadRedirectsAtMostOnce | atlas.js:94-108 | A page load assigns at most one redirect. |
| Atlas.OnlyEntryPageRestores | atlas.js:104-107 | Outside Project.html a parked intent is never consumed. |
| Atlas.PageLoadResumesFromDurableCopy | atlas.js:94-108 | Because syncing comes first, a visitor with only the durable copy still has a parked intent resumed on the entry page. |
| Atlas.LogoutProperties | atlas.js:52-60 | Removing the two user copies leaves no signed-in user and no current user. Every other key of either storage keeps its value; `bookingRoom` and `pendingBooking` survive. |
| Atlas.EnsureSessionFromLocal | atlas.js:20-26 | Leaves sessionStorage as `SyncSession` gives it, and localStorage unchanged. |
| Atlas.Logout | atlas.js:52-60 | Confirmed: both user copies go and the page goes to Project.html. Not confirmed: nothing changes. |
| Atlas.CheckLoginForCheckout | atlas.js:63-80 | Result, sessionStorage and redirect as `CheckoutGuard` gives them. localStorage is unchanged. |
| Atlas.RestorePendingBooking | atlas.js:83-91 | sessionStorage and redirect as `RestorePending` gives them. localStorage is unchanged. |
| Atlas.OnPageLoad | atlas.js:94-108 | Sync, then the checkout check, then (on the entry page) the restore, ending as `PageLoad` says. |
| LocalAccounts.BookingViews | users/users.js:71-79 | The open view holds exactly the user's uncompleted bookings, earliest `from` first. The completed view holds exactly the completed ones, newest `createdAt` first. Together they are the user's bookings, each exactly once. |
| LocalAccounts.CompleteProperties | users/users.js:81-88 | An unknown id changes nothing. Otherwise the first booking with the id is marked completed, and no other booking and no other field changes. Completing twice is completing once. |
| LocalAccounts.LoginFindsIff | users/users.js:31-39 | A login finds a user exactly when a stored user has the lower-cased email and the exact password. |
| LocalAccounts.RegisteredUserLogsIn | users/users.js:20-39 | A freshly registered account logs in with its email in any letter case and its password. |
| LocalAccounts.AcceptedRating | users/users.js:90-98 | A rating is accepted exactly when `parseInt` gives an integer from 1 to 5. The accepted value is that integer. |
| LocalAccounts.RatingOfNumber | users/users.js:93-95 | Each of "1" to "5" is accepted as itself. |
| LocalAccounts.LocalAccounts.constructor | users/users.js:6-17 | The arrays found under `users` and `bookings` are kept; a missing, corrupt or falsy one starts empty. |
| LocalAccounts.LocalAccounts.RegisterUser | users/users.js:20-28 | An empty field, or an email equal to an existing one ignoring case: refused with the users unchanged. Otherwise exactly one user is appended, with the email lower-cased, and returned without its password. |
| LocalAccounts.LocalAccounts.LoginUser | users/users.js:31-39 | On success `current_user` holds the user without its password. On failure nothing changes. |
| LocalAccounts.LocalAccounts.CurrentUser | users/users.js:42-44 | The stored `current_user` text when it is truthy, else none. |
| LocalAccounts.LocalAccounts.Logout | users/users.js:46-49 | Both user copies go; every other key stays. |
| LocalAccounts.LocalAccounts.AddBooking | users/users.js:52-69 | Appends exactly one uncompleted booking, with extras defaulting to [] and price to 0. |
| LocalAccounts.LocalAccounts.GetCurrentBookings | users/users.js:71-74 | The open view of the stored bookings. |
| LocalAccounts.LocalAccounts.GetOldBookings | users/users.js:76-79 | The completed view of the stored bookings. |
| LocalAccounts.LocalAccounts.CompleteBooking | users/users.js:81-88 | 'Booking not found' with no change for an unknown id. Otherwise the table `Complete` gives. |
| LocalAccounts.LocalAccounts.RateBooking | users/users.js:90-99 | 'Booking not found' first, then 'Invalid rating' unless the rating is accepted; both leave the table unchanged. Otherwise only that booking's rating is set. |
| Bookings.PayloadOf | api/bookings.php:93-105 | Each of the eleven members is bound as given when present. When missing, the defaults are: user and room id null, guests 1, price 0, status 'pending', and '' for name, email, phone, both dates and the special requests. |
| Bookings.PayloadKeepsGivenMembers | api/bookings.php:93-105 | A request that gives every member is bound exactly as sent. Applying the defaults a second time changes nothing. |
| Bookings.ByUserProperties | api/bookings.php:70-82 | Exactly the rows whose `user_id` equals the user, each as often as stored, newest `created_at` first. |
| Bookings.ByUserAfterCreate | api/bookings.php:45-82 | A created booking appears in its own user's list and in no other's, beside everything listed before. |
| Bookings.BookingTable.Create | api/bookings.php:45-68 | With no connection: false and no change. Otherwise exactly one row is appended, without consulting the others. |
| Bookings.BookingTable.GetByUser | api/bookings.php:70-82 | The empty list with no connection, otherwise `ByUser`. |
| Bookings.Handle | api/bookings.php:8-129 | OPTIONS gives an empty answer. A create gives 'Booking saved' or 'Failed to save booking'. Any other POST action gives 'Invalid action' with the table unchanged. getByUser answers success even with no connection, and the user id defaults to 0. Other methods give 'Unsupported method'. |
| Feedback.AllFeedbackProperties | report/report.php:83-107 | With a truthy status, only the rows with it; otherwise every row. Each row appears as often as stored, newest first. |
| Feedback.SetStatus | report/report.php:131-147 | Keeps the length. A row with another id is unchanged. A row with the id has the new status, and every other column kept. |
| Feedback.DeleteProperties | report/report.php:150-165 | After a delete no row has the id, and every other row is still there as often as before. |
| Feedback.SetStatusThenFind | report/report.php:110-147 | An updated row is found again by id with the new status. |
| Feedback.StatisticsBounds | report/report.php:168-191 | `total` is the row count. On an empty table all six sums are NULL, and on a non-empty one all are present. The pending, resolved and in_progress counts, and the bug, feature and complaint counts, each sum to at most `total`. |
| Feedback.FeedbackTable.SubmitFeedback | report/report.php:58-80 | One new row with status 'pending'; nothing with no connection. |
| Feedback.FeedbackTable.GetAllFeedback | report/report.php:83-107 | `AllFeedback` when connected. Otherwise the empty list, with `lastError` set. |
| Feedback.FeedbackTable.GetFeedbackById | report/report.php:110-128 | The first row with the id, or none. |
| Feedback.FeedbackTable.UpdateStatus | report/report.php:131-147 | Ends in the table `SetStatus` gives. |
| Feedback.FeedbackTable.DeleteFeedback | report/report.php:150-165 | Ends in the table `Delete` gives: the row is removed, not flagged. |
| Feedback.FeedbackTable.GetStatistics | report/report.php:168-191 | `Statistics` of the table when connected, otherwise none. |
| Feedback.SubmittedEmail | report/report.php:209 | A missing or PHP-falsy email is stored as NULL; any other is kept. |
| Feedback.HandlePost | report/report.php:202-268 | submitFeedback, updateStatus and deleteFeedback give their success or failure messages, and the table changes only as the operation says. Any other action gives 'Invalid action'. |
| Feedback.HandleGet | report/report.php:271-328 | A listing, a row or 'Feedback not found', the statistics or 'Failed to fetch statistics', and 'Invalid action'. |
| FeedbackForm.GetFriendlyType | report/report.js:67-75 | bug, feature, general and complaint get their four labels. Any other type is returned unchanged. |
| FeedbackForm.FriendlyTypeProperties | report/report.js:67-75 | The label is empty only for the empty type, and only the four known types are relabelled. |
| FeedbackForm.SubmitFeedback | report/report.js:23-65 | Details that are blank after trimming show 'Please provide detailed description' and send nothing. Otherwise the body holds the trimmed details and the trimmed email, or null for an empty email. The message is the thank-you with the label, the server's message or 'Unknown error', or the connection message. |
| FeedbackForm.StoredEmail | report/report.js:48 | A form submission is stored with no email exactly when the trimmed input is empty or "0". |
| Rooms.SearchProperties | rooms/rooms.php:75-93 | The search returns exactly the rooms whose name, description or amenities contain the term, unavailable ones included, in ascending id order. The empty term returns every room. |
| Rooms.UpdateRows | rooms/rooms.php:140-165 | Keeps the length. A row with another id is unchanged. A row with the id gets the five request fields and the availability, and keeps its id and `created_at`. |
| Rooms.UpdateThenFind | rooms/rooms.php:140-165 | An updated room is found by its id at the same place, with the new fields and availability, and its id and `created_at` kept. Every room with another id is as it was. |
| Rooms.SoftDelete | rooms/rooms.php:168-182 | Keeps the length. A row with another id is unchanged. A row with the id has `is_available = 0`, and every other column kept. |
| Rooms.SoftDeleteKeepsRoom | rooms/rooms.php:173 | A deleted room stays in the table with every other column as it was. It is found by id as before, now unavailable. |
| Rooms.RoomTable.GetAllRooms | rooms/rooms.php:58-72 | Every row (soft-deleted ones too) in ascending id order, or the empty list with no connection. |
| Rooms.RoomTable.SearchRooms | rooms/rooms.php:75-93 | `Search` of the table, or the empty list with no connection. |
| Rooms.RoomTable.GetRoomById | rooms/rooms.php:96-111 | The first row with the id, or none. |
| Rooms.RoomTable.AddRoom | rooms/rooms.php:114-137 | One new row with the object's properties and the next id; nothing with no connection. |
| Rooms.RoomTable.UpdateRoom | rooms/rooms.php:140-165 | Ends in the table `UpdateRows` gives. |
| Rooms.RoomTable.DeleteRoom | rooms/rooms.php:168-182 | Ends in the table `SoftDelete` gives. |
| Rooms.HandleGet | rooms/rooms.php:194-236 | getAllRooms, searchRooms (query default ''), getRoomDetails (id default 0, 'Room not found') and 'Invalid action'. |
| Rooms.HandlePost | rooms/rooms.php:239-326 | addRoom always inserts with `is_available = 1`, and a failure reports 'unknown error'. updateRoom defaults `is_available` to 1 and answers 'Room updated successfully' or 'Failed to update room'. deleteRoom is the soft delete and answers 'Room deleted successfully' or 'Failed to delete room'. logBooking changes nothing and always succeeds. Any other action gives 'Invalid action'. |
| RoomBrowser.ExtractPrice | rooms/rooms.js:190-192 | 0 when the text has no digit or comma. NaN (none) when the first run of digits and commas holds no digit. Otherwise the value of the run's digits, commas dropped. |
| RoomBrowser.ExtractPriceOfText | rooms/rooms.js:190-192 | A text made of a label without digits or commas, a group of digits and commas starting with a digit, and a rest not starting with one reads back as the number the group's digits spell. |
| RoomBrowser.FractionIsDropped | rooms/rooms.js:190-192 | Whatever follows a decimal point after the digits is ignored, so "1,500.5" reads back as 1500. |
| RoomBrowser.LeadingCommaIsNaN | rooms/rooms.js:190-192 | ", 5000" reads back as NaN, since the first run is a lone comma. |
| RoomBrowser.IntentOf | rooms/rooms.js:194-201 | The id is `currentRoomId` when it is truthy, else the current time. The price is the extracted one, and the other fields are the modal's texts. |
| RoomBrowser.RoomManager.ShowRoomModal | rooms/rooms.js:171-182 | The modal shows the room's texts and `currentRoomId` is the room's id. |
| RoomBrowser.RoomManager.CloseModal | rooms/rooms.js:184-187 | `currentRoomId` becomes null. |
| RoomBrowser.RoomManager.BookRoom | rooms/rooms.js:189-211 | `bookingRoom` is overwritten with the intent and every other key is untouched. A log request with the intent's id and name goes out, and the page goes to ../Checkout.html. |
| RoomBrowser.BookedIntentResumes | rooms/rooms.js:204-210 | For a signed-out visitor, the checkout page parks the intent the last `bookRoom` wrote (last write wins). After sign-in the restore puts that intent back and goes to checkout. |
| RoomBrowser.CheckForSearchQuery | rooms/rooms.js:38-49 | A truthy `searchQuery` is removed whether or not the page has a search box, and is searched for only when it has one. Afterwards no truthy `searchQuery` remains, so the rule is one-shot. |
| RoomBrowser.SubmitSearch | rooms/rooms.js:51-66 | A term that is blank after trimming reloads all rooms. Otherwise the search uses the trimmed term. |
| RoomBrowser.SubmitSearchTrimmed | rooms/rooms.js:58 | Submitting an already trimmed term asks for the same thing. |
| SearchPage.HandleSearch | script.js:4-29 | Nothing happens without a results element. The search for the location goes out exactly when all four fields are filled and check-in is before check-out as strings. Otherwise the error message is shown. |
| SearchPage.SearchDatesOrdered | script.js:14 | A search that passes has distinct dates. With the dates swapped, or with both set to one date, it is refused. |
| SearchPage.CheckOutAfterChange | script.js:81-87 | Check-out is cleared exactly when it is before the new check-in; an equal date survives. |
| SearchPage.CheckOutNotBefore | script.js:81-87 | After the handler, check-out is empty or not before check-in. Running the handler twice is running it once. |
| SearchPage.DateInputs.ChangeCheckIn | script.js:81-87 | Sets check-in and the check-out minimum, and clears check-out as `CheckOutAfterChange` says. |
| SearchPage.ReplaceFirstDash | script.js:116 | Changes at most one character: the first '-', which becomes a space. It changes nothing when there is no '-'. |
| SearchPage.FriendlyLabelProperties | script.js:116 | The label keeps the length and upper-cases the first character. Only the first '-' after it becomes a space, and the label differs from the type after the first character exactly when there is such a '-'; every other character is kept. |

## Left out

- Database connections, SQL text and PDO exceptions. A table is a sequence or map, and failure is a `connected` flag.
- SQL collation. `LIKE` is plain case-sensitive substring search, so wildcards in the term are not modelled. Email lookups (`WHERE email = ...` in users.php and admin_login.php) compare exactly. A case-insensitive MySQL collation would also find "A@x.com" for a stored "a@x.com" at login, and refuse it as a duplicate at registration and admin creation.
- The order SQL gives rows with equal `created_at`. The model uses a stable sort.
- JSON encoding and decoding. Browser values are stored texts.
- The `users` and `bookings` arrays of users.js are held decoded, as two fields, rather than re-read from and written back to their `localStorage` keys on each call. The constructor takes what `readLS` finds for them: a missing, corrupt or falsy value starts empty, and a stored array is kept.
- HTTP headers, CORS, logging, `alert`, `setTimeout` and the DOM beyond the texts the code copies. `confirm` is a boolean parameter.
- `fetch` and the network. A reply is a parameter, and `logBooking` is only the request it would send.
- Concurrent requests and check-then-insert races.
- UserAccounts.UserService.constructor: requires unique emails in the users table, and the service keeps them. No unique index on `users.email` is part of this model. The model takes such an index for granted: the `update` case, through `updateProfile`, could write a duplicate email without it, and that case is not modelled.
- AdminLogin.AdminStore.constructor: requires unique emails in the admins table, and the store keeps them, since `createAdmin` refuses any existing email. The admins table has no unique constraint in the source. With duplicate emails, `fetch_assoc` at login would return a row in an unspecified order, and the model does not cover that case.
- `localeCompare` and SQL ordering. Both are modelled as the code-point order of strings. That order agrees with JavaScript's UTF-16 code-unit order except when a character above U+FFFF is compared with one from U+E000 to U+FFFF.
- Case mapping of non-ASCII letters, and `strlen` counting bytes of multi-byte characters. JavaScript's `.length` counts UTF-16 code units; the model counts characters. So in the password-length checks of admin_login.js a password of three characters outside the Basic Multilingual Plane passes in the browser (length 6) but is too short in the model.
- `parseFloat` rounding of very long digit strings, and the floating-point price columns. Prices are integers.
- `password_hash`/`password_verify` internals. Beside the law `Sound`, the model requires `TruthyHashes`: a hash is never "" or "0". It is used only where login reads a hash back, and is stated as an explicit parameter requirement.
- `filter_var(FILTER_VALIDATE_EMAIL)` is a predicate parameter of the admin handler.
- `getFriendlyType` on a name of an `Object.prototype` member such as "constructor", which yields a function rather than a string.
- The users endpoint's `updateProfile`, `update`, `getUserById` and `getUserByEmail` handler cases, `Database::getConnection`, and api/contact.php. These are pass-through plumbing; api/contact.php is not part of this model.
- The column projection of `getByUser`, of the feedback listings and of the users' read-back by email (`getUserByEmail`, which also selects `created_at`). Whole rows are returned for the first two; the read-back is the row without its password and without `created_at`.

Behaviour a reader might expect but the code lacks; the model follows the code:

- `register` in users.php checks neither the email format nor the password length.
- `logout` in atlas.js does not clear `bookingRoom` or `pendingBooking`.
- `changePassword` first checks the user, then the current password, then the length.
- `createAdmin` has no password length check, although login requires at least 6 characters.
- `Room` declares no `lastError`, so a failed `addRoom` reports 'unknown error'.
