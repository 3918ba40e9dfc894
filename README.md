# tg-course checkout and back-office, modelled in Dafny

tg-course sells courses through a Telegram bot and has a Flask back office.
This project models the logic under that transport:

- **The bot's per-user checkout state machine** (`bot/bot.py`). One table
  maps each account to a conversation state. The same table also remembers
  the course and payment method chosen last (the `<id>_course` and
  `<id>_payment_method` keys). Every command, button press, text message
  and photo updates that table, the record store and the replies sent.
  - Module `Checkout` states each handler as a function from the chat
    before (sessions, database, replies) to the chat after.
  - Class `Handlers.Bot` runs the same handlers in place, over a `sessions`
    field and a `Store.RecordStore` object.
  - Every handler method is proved to produce exactly its `Checkout`
    function's result and to keep the session invariant.
  - The running handlers use the corrected cancel test of
    `save_course_request` (see "## Findings"); the test as written is
    modelled beside it. Whole checkouts
    (pay by photo, pay by gift card) are proved as sequences of events.
- **The back-office approval workflow and record rules** (`admin/app.py`).
  This covers approve and reject, guarded course deletion, category
  deletion that un-assigns courses, and course and category form
  validation. It also covers the settings upsert, the upload extension
  check and the gift-code repair loop.
- **The record shapes and `Payment.gift_card_code`** (`database/models.py`).
  This includes the round trip between the details text the bot writes and
  the code the back office reads back, after any number of approvals.
- **The helpers** (`utils/helpers.py`): `is_spam`, the
  `detect_duplicate_payment` stub and `random_string`.

The configuration values `BOT_PASSWORD`, `AUTO_APPROVE` and
`PAYMENT_OPTIONS` are parameters (`Checkout.Config`). In the repository's
configuration, `BOT_PASSWORD` is the empty string, so `/start` leaves a user
idle. `PAYMENT_OPTIONS` is assigned twice there, and the second assignment
is the one in force. A timestamp, the image validity check and the file
name returned by saving a proof are given to the handlers as inputs.

Modules:

| file | module | contents |
|---|---|---|
| wrappers.dfy | Wrappers | `Option` |
| strings.dfy | Strings | lowering, substring, replace, strip, split/join, decimal integers |
| sql_like.dfy | SqlLike | SQL `LIKE`/`ilike` matching |
| models.dfy | Models | records, payment status, `GiftCardCode` |
| store.dfy | Store | the record tables, their integrity rules, the `RecordStore` class |
| helpers.dfy | Helpers | spam rule, duplicate stub, random strings |
| admin.dfy | Admin | back-office transitions and validation |
| catalog.dfy | Catalog | course queries, search, payment-method eligibility |
| callbacks.dfy | Callbacks | inline-button data strings and their decoding |
| checkout.dfy | Checkout | the state machine as functions, its invariant and properties |
| bot.dfy | Handlers | the `Bot` class running the handlers in place |

## Model

| member | source | states |
|---|---|---|
| Models.Submitted | database/models.py:65-75 | a newly created payment is `pending`, has no approval date and carries the user, course, method, proof, amount, time and details it was created with |
| Models.GiftCardCode | database/models.py:87-95 | a code is read exactly when the method is `gift`, the details are non-empty and contain the `Gift Card Code:` marker |
| Models.GiftCodeRoundTrip | database/models.py:87-95 | for a code with no surrounding whitespace and neither marker inside, details built as `"Gift Card Code: " + code` followed by any number of `" [REDEEMED]"` suffixes read back as that code |
| Store.EmptyIsConsistent | database/models.py:13-140 | the empty database satisfies the integrity rules: unique category names, telegram ids and setting keys, and payments and requests that refer to existing records |
| Store.InsertUserConsistent | database/models.py:24-28 | adding a user whose telegram id is new keeps every integrity rule |
| Store.EnsureUserFacts | bot/bot.py:72-94 | after get-or-create the account's user exists and the database stays consistent |
| Store.EnsureUserFrame | bot/bot.py:72-94 | get-or-create changes only the users table, and changes it only when the telegram id is new |
| Store.EnsuredUserId | bot/bot.py:72-94 | the id returned belongs to the user with the account's telegram id; for a new account it is the next free id and holds a fresh, unbanned user |
| Store.InsertPaymentConsistent | database/models.py:65-75 | a payment that refers to an existing user and course can be added, gets a fresh id and keeps the database consistent |
| Store.InsertRequestConsistent | database/models.py:133-140 | a course request of an existing user can be added under a fresh id and keeps the database consistent |
| Store.RecordStore.GetOrCreateUser | bot/bot.py:72-94 | finds the user with the account's telegram id or inserts a new one, and returns its id |
| Store.RecordStore.AddPayment | bot/bot.py:969-980 | inserts the payment under the next id and changes nothing else |
| Store.RecordStore.UpdatePayment | bot/bot.py:983-987 | overwrites one payment row in place and leaves every other row and table as it was |
| Store.RecordStore.AddRequest | bot/bot.py:1226-1232 | inserts the course request under the next id and changes nothing else |
| Helpers.IsSpam | utils/helpers.py:73-90 | the keyword loop with early return and the special-character count give spam exactly when a keyword occurs in the lowered text or more than 30% of the characters are special |
| Helpers.PlainTextIsNotSpam | utils/helpers.py:73-90 | text with no keyword and no special character is not spam |
| Helpers.EmptyTextIsNotSpam | utils/helpers.py:73-90 | the empty text is not spam |
| Helpers.AllSpecialIsSpam | utils/helpers.py:84-88 | non-empty text made only of special characters is spam by the ratio rule |
| Helpers.DetectDuplicatePayment | utils/helpers.py:92-100 | never reports a duplicate |
| Helpers.RandomString | utils/helpers.py:50-53 | the result has exactly the requested length and holds only lower-case ASCII letters and digits |
| Helpers.RandomStringReachesAll | utils/helpers.py:50-53 | every string of lower-case letters and digits is a possible result for its length |
| SqlLike.ILikeSearchIsContains | bot/bot.py:1052-1056 | for a query without `%` or `_`, `ilike '%query%'` holds exactly when the lowered text contains the lowered query |
| Admin.Approve | admin/app.py:379-395 | approval sets `approved` and the approval date whatever the prior status, appends `" [REDEEMED]"` to non-empty gift details and changes no other field |
| Admin.Reject | admin/app.py:404-414 | rejection sets `rejected` and changes no other field, not even the approval date or details |
| Admin.ApproveTwiceAppendsTwice | admin/app.py:381-387 | approving a gift payment twice appends the redeemed marker twice and keeps the second date |
| Admin.RejectedCanBeApproved | admin/app.py:381-383 | a rejected payment becomes approved when approved |
| Admin.ApprovalsAppendSuffixes | admin/app.py:386-387 | after n approvals of a gift payment its details are the original details followed by n redeemed markers |
| Admin.ApprovalsKeepGiftCode | admin/app.py:386-387 | any number of approvals leaves the gift code read back by `gift_card_code` unchanged |
| Admin.ApprovedAtKeepsMethod | admin/app.py:379-395 | approvals never change the method, amount, user or course of a payment |
| Admin.ApproveRejectKeepConsistent | admin/app.py:376-416 | approving or rejecting keeps the database consistent and the set of payments unchanged |
| Admin.ApprovePayment | admin/app.py:376-397 | reports whether the payment exists and, if so, approves it in place and changes nothing else |
| Admin.RejectPayment | admin/app.py:401-416 | reports whether the payment exists and, if so, rejects it in place and changes nothing else |
| Admin.DeleteCourseKeepsConsistent | admin/app.py:318-325 | the guarded deletion never leaves a payment pointing at a missing course |
| Admin.DeleteCourse | admin/app.py:308-328 | an unknown course is not found; a course with payments is refused with their count and kept; any other course is removed |
| Admin.DeleteCategoryFacts | admin/app.py:614-619 | deleting a category removes it, deletes no course, un-assigns exactly the courses that were in it and keeps the database consistent |
| Admin.ClearCategory | admin/app.py:614-616 | the loop sets the category of every course in the category to none and leaves the others alone |
| Admin.DeleteCategory | admin/app.py:604-622 | reports whether the category exists and, if so, deletes it after un-assigning its courses |
| Admin.AllowedFileIff | admin/app.py:96-99 | a file name is accepted exactly when it contains a dot and the lowered text after the last dot is png, jpg, jpeg, gif or webp |
| Admin.OptionsTextRoundTrip | admin/app.py:188-189 | the comma-joined checked options split back into the checked options |
| Admin.AddCourse | admin/app.py:173-235 | writes nothing when the title or file link is empty, a paid course has a price of 0 or less, or the upload's extension is not allowed; otherwise inserts the course with the form's fields under the next id |
| Admin.EditCourse | admin/app.py:239-304 | an unknown course is not found; a paid course with price 0 or less is refused and nothing is written; otherwise only that course is updated from the form |
| Admin.AddCategory | admin/app.py:551-571 | refuses an empty name or one equal to an existing name ignoring case; otherwise inserts it under the next id |
| Admin.EditCategory | admin/app.py:575-600 | refuses an empty name or one used by another category ignoring case, its own name excepted; otherwise renames only that category |
| Admin.UpsertFacts | admin/app.py:633-641 | after the upsert exactly one setting has the key, it holds the value, other settings are unchanged and the database stays consistent |
| Admin.UpsertIdempotent | admin/app.py:633-641 | saving the same value twice is the same as saving it once |
| Admin.UpsertExisting | admin/app.py:637-639 | with keys unique, the row the upsert updates is the one row that holds the key |
| Admin.SaveSettingsConsistent | admin/app.py:626-648 | saving the settings form keeps setting keys unique |
| Admin.SaveBotSettings | admin/app.py:626-648 | the loop upserts each known key present in the form, in order |
| Admin.UpsertSetting | admin/app.py:635-641 | the row with the key gets the value, or one new row is added, and the store stays consistent, giving exactly `Admin.Upsert` |
| Admin.MarkMasked | admin/app.py:525-530 | a gift payment whose details hold a masked code gets the manual-update prefix and any other payment is unchanged |
| Admin.MarkMaskedNotIdempotent | admin/app.py:525-530 | running the repair twice prefixes a masked payment twice |
| Admin.MarkMaskedPayments | admin/app.py:525-530 | the loop marks every masked payment and counts exactly the masked ones |
| Admin.FixGiftCodes | admin/app.py:518-539 | rewrites only the payments table, as the repair loop does, and returns the number of payments marked |
| Catalog.ActiveCourse | bot/bot.py:347 | a course is found exactly when it exists and is active, and it is that course |
| Catalog.ActiveCourses | bot/bot.py:96-113 | the course list shows exactly the active courses |
| Catalog.CoursesInCategory | bot/bot.py:1134-1177 | a category lists exactly the active courses filed under it |
| Catalog.CategoriesMenuShowsNonEmpty | bot/bot.py:1091-1132 | the category menu lists exactly the categories that have at least one active course |
| Catalog.ApprovedPurchases | bot/bot.py:865-903 | purchases are only the user's own approved payments |
| Catalog.SearchResults | bot/bot.py:1046-1089 | search only finds active courses |
| Catalog.SearchFindsExactlyMatches | bot/bot.py:1046-1089 | for a query without wildcards, search finds exactly the active courses whose title or category name contains the query, ignoring case |
| Catalog.PercentQueryListsAll | bot/bot.py:1052-1056 | the query is not escaped, so `%` lists every active course |
| Catalog.GlobalMethods | bot/bot.py:486-496 | the global list holds exactly the enabled methods, in the order upi, crypto, paypal, cod, gift |
| Catalog.OfferedMethods | bot/bot.py:481-496 | a course with non-empty options offers its comma-split options; any other course offers exactly the enabled global methods |
| Catalog.PaymentButtons | bot/bot.py:498-524 | a button appears exactly for each of the five known methods that is offered, always in the fixed order |
| Catalog.FallbackButtonsAreGlobals | bot/bot.py:481-524 | with no course options the buttons are exactly the enabled global methods in order |
| Catalog.CourseOptionsOverrideGlobals | bot/bot.py:481-484 | options saved by the back office are offered as they were checked and never replaced by the globals |
| Callbacks.DecodeEncode | bot/bot.py:259-342 | every button data string the bot builds is decoded back into the action it was built for |
| Callbacks.PaymentDataExtraFieldIgnored | bot/bot.py:294-298 | anything after a further `_` in payment data is dropped by the decoding |
| Handlers.OfferedPaymentMethods | bot/bot.py:481-496 | the appends build exactly the offered method list |
| Handlers.PaymentKeyboard | bot/bot.py:498-524 | the appends build exactly the payment buttons |
| Handlers.AppendEnabled | bot/bot.py:486-496 | five conditional appends give the enabled names in the fixed order |
| Checkout.ProofPayment | bot/bot.py:968-987 | a proof payment carries the course, method, proof and price, and is pending, or approved with that time as approval date when auto-approval is on |
| Checkout.StepKeepsInvariant | bot/bot.py:566-707 | every event keeps the remembered course and method paired, keeps a course remembered while a proof or gift code is awaited, and keeps the database consistent |
| Checkout.StartWaitsForPassword | bot/bot.py:172-177 | `/start` registers the user and waits for the password when one is set, otherwise leaves the user idle |
| Checkout.PasswordGate | bot/bot.py:799-818 | while the password is awaited, the password makes the user idle and any other text leaves the state unchanged |
| Checkout.SlashPasswordLocksOut | bot/bot.py:794-818 | a password starting with `/` can never be entered, because such text is skipped first |
| Checkout.CoursesGateAdmitsKnownAccounts | bot/bot.py:187-206 | `/courses` lists the active courses and moves to viewing exactly when the account is not turned away; only an account absent from the state table is turned away, and only when a password is set, so an account still waiting for the password gets the list |
| Checkout.UnavailableCourseChangesNothing | bot/bot.py:455-470 | details, buying and method selection for a missing or inactive course change neither the state nor the database |
| Checkout.FreeCourseSendsLink | bot/bot.py:473-478 | buying an active free course sends its link, creates no payment and makes the user idle |
| Checkout.PaidCourseShowsMethodButtons | bot/bot.py:481-524 | buying a paid course selects payment and shows the offered known methods, each with a button that decodes to that method and course |
| Checkout.SelectionRemembersChoice | bot/bot.py:569-651 | selecting `gift` waits for a gift code, any other method waits for a proof, and both remember exactly the course and method |
| Checkout.BackAndCancelKeepSelection | bot/bot.py:301-334 | back and cancel make the user idle but keep the remembered course and method |
| Checkout.SearchListsMatches | bot/bot.py:1046-1089 | search lists exactly the matching active courses; with none the user becomes idle, otherwise views courses |
| Checkout.PhotoSubmits | bot/bot.py:905-1016 | an awaited, valid and saved proof adds exactly one payment for the remembered course and method at the course's price, and clears the selection |
| Checkout.PhotoPaysOnlyWhenAwaited | bot/bot.py:911-966 | a photo adds no payment unless a proof is awaited, the image is valid and the proof is saved |
| Checkout.PayByPhoto | bot/bot.py:566-1016 | pressing a method button and sending a valid proof creates one payment with that course, method, proof and price, pending or auto-approved, and leaves the user idle with nothing remembered |
| Checkout.AutoApprovalIsBackOfficeApproval | bot/bot.py:982-987 | auto-approving a proof payment gives the same record as approving the pending one in the back office at that time |
| Checkout.AutoApprovedPhotoIsPurchased | bot/bot.py:865-1016 | with auto-approval on, a paid proof appears among the user's purchases right after |
| Checkout.PurchasesButtonShowsPurchases | bot/bot.py:847-848 | the purchases button shows the user's approved purchases |
| Checkout.GiftCodeSubmits | bot/bot.py:709-785 | a gift code for a remembered course adds one pending `gift` payment with no proof and `Gift Card Code: ` details, and clears the selection |
| Checkout.PayByGiftCard | bot/bot.py:709-785 | choosing the gift method and sending a code creates one pending payment whose code the back office reads back as sent, before and after any number of approvals |
| Checkout.PolicyShowsSavedText | bot/bot.py:1179-1196 | the policy shown is the text last saved in the back office, or the default when that text is empty |
| Checkout.SaveRequestOutcome | bot/bot.py:1211-1240 | a course request either cancels and stores nothing, or stores exactly the text under the next id; either way the user becomes idle |
| Checkout.CancelLiteralNeverMatches | bot/bot.py:1215 | the cancel test as written is false for every text |
| Checkout.CancelButtonFiledAsRequest | bot/bot.py:1211-1240 | as written, pressing "Cancel Request" stores the button's text as a course request |
| Checkout.CancelButtonCancels | bot/bot.py:1211-1240 | with the corrected test, the cancel button cancels, and a request is stored exactly when the text is not the cancel button's |
| Handlers.Bot.StartCommand | bot/bot.py:165-185 | runs `/start` in place, giving exactly `Checkout.Start`, and keeps the invariant |
| Handlers.Bot.CoursesCommand | bot/bot.py:187-206 | runs `/courses` in place, giving exactly `Checkout.CoursesCommand` |
| Handlers.Bot.SearchCommand | bot/bot.py:240-256 | runs `/search` in place, giving exactly `Checkout.SearchCommand` |
| Handlers.Bot.HelpCommand | bot/bot.py:208-238 | runs `/help` in place, giving exactly `Checkout.HelpCommand` |
| Handlers.Bot.ShowCourseDetails | bot/bot.py:344-450 | shows an active course and sets viewing, and changes nothing for an unavailable course |
| Handlers.Bot.ShowCoursesInCategory | bot/bot.py:1134-1177 | lists a category's active courses, giving exactly `Checkout.ShowCoursesInCategory` |
| Handlers.Bot.ShowCategoriesMenu | bot/bot.py:1091-1132 | lists the non-empty categories, giving exactly `Checkout.ShowCategoriesMenu` |
| Handlers.Bot.HandleCourseSearch | bot/bot.py:1046-1089 | runs the search in place, giving exactly `Checkout.CourseSearch` |
| Handlers.Bot.ShowPaymentOptions | bot/bot.py:452-564 | runs the buy step in place, giving exactly `Checkout.ShowPaymentOptions` |
| Handlers.Bot.HandlePaymentSelection | bot/bot.py:566-707 | remembers the course and method in place, giving exactly `Checkout.ChoosePaymentMethod` |
| Handlers.Bot.HandleCallback | bot/bot.py:259-342 | decodes a button press and runs the matching handler, giving exactly `Checkout.PressButton` |
| Handlers.Bot.Dispatch | bot/bot.py:267-342 | runs the handler the decoded press selects and keeps the store consistent, giving exactly `Checkout.Dispatch` |
| Handlers.Bot.HandleGiftCode | bot/bot.py:709-785 | records a gift-code payment and clears the selection, giving exactly `Checkout.SubmitGiftCode` |
| Handlers.Bot.HandlePhoto | bot/bot.py:905-1016 | checks the photo guards and records the proof, giving exactly `Checkout.ReceivePhoto` |
| Handlers.Bot.SubmitProof | bot/bot.py:958-1016 | inserts the proof payment, approves it when auto-approval is on, and clears the selection, giving exactly `Checkout.RecordProof` |
| Handlers.Bot.ShowPurchases | bot/bot.py:865-903 | lists the user's approved purchases, giving exactly `Checkout.ShowPurchases` |
| Handlers.Bot.ShowDmcaPolicy | bot/bot.py:1179-1196 | sends the saved policy text or the default, giving exactly `Checkout.ShowPolicy` |
| Handlers.Bot.HandleRequestCourseButton | bot/bot.py:1198-1209 | waits for a course request, giving exactly `Checkout.RequestCourse` |
| Handlers.Bot.SaveCourseRequest | bot/bot.py:1211-1240 | cancels on the cancel button's text and otherwise stores the request, giving exactly the corrected `Checkout.SaveCourseRequest` rather than the test as written |
| Handlers.Bot.HandleText | bot/bot.py:788-863 | dispatches text by state, then by keyboard button, then by the spam check, giving exactly `Checkout.ReceiveText` (with the corrected cancel test) |
| Handlers.Bot.Handle | bot/bot.py:165-1016 | runs any event in place, giving exactly `Checkout.Step` (with the corrected cancel test), and keeps the invariant |

## Left out

- Telegram transport is not modelled: message wording, keyboards, editing versus sending, deleting messages, photo captions, the localhost image checks and `delete_after_delay`. A reply is an abstract `Reply` value on an outbox.
- The help text and the course details card are abstract replies; price formatting is not modelled.
- Query order (`order_by`) is not modelled: course, category and purchase lists are sets. An empty purchase list has no separate wording.
- Flask routing, login, templates, flash messages and upload saving are not modelled. The upload URL of a course form is an input.
- `hash_password`, `get_stats`, `format_course_info`, `shorten_url`, `log_action` and `save_payment_proof` are not modelled. The proof file name is an input that may be absent.
- `is_valid_image` is an input, and the MD5 hashing inside the duplicate stub is not modelled.
- Clocks are a single abstract timestamp per event. Submission and auto-approval therefore share one time.
- Prices and amounts are `real`. Only the comparison with 0 and the copy into a payment's amount are used. The non-finite values `float()` also accepts (`inf`, `nan`) are not modelled: both pass the `price <= 0` test, `inf` is stored, and `nan` is refused only by the NOT NULL price column at commit.
- Concurrency is not modelled; events are handled one at a time. So the branch of `handle_gift_code` with no remembered course is never reached: the invariant keeps a course remembered while a gift code is awaited.
- The duplicate-proof branch of `handle_photo` is dead, because `detect_duplicate_payment` always answers false.
- The states ADMIN_LOGIN and ADMIN_DASHBOARD are not modelled. The `admin_` callback is decoded but does nothing.
- No notification is sent when the back office approves a payment. The source leaves this as a TODO.
- `get_payment_options_markup` is not called by any handler; its five appends are the ones of `Catalog.GlobalMethods`.
- Environment reading in `config/config.py`, the seeding in `database/init_db.py` and the DDL in `database/migration.py` are not part of this model.
- Strings.PyLowerChar: lowering covers ASCII, Latin-1 and the Windows-1252 letters that occur in the button texts, not all of Unicode.
- Strings.ParseInt: accepts an optional `-` or `+` followed by ASCII decimal digits; the surrounding whitespace, the `_` separators and the other Unicode decimal digits that Python's `int()` also accepts are rejected by `AllDigits`.
- Strings.Lower: the `ilike` search lowers ASCII letters only, as SQLite's `LIKE` does; the search follows the SQLite fallback of `config/config.py`, not a Postgres `DATABASE_URL`, where `ILIKE` and `lower()` also fold non-ASCII letters.
- Checkout.SubmitGiftCode: a gift code starting with `/` is dropped by the text handler before it reaches the gift-code step, as in the source, so `PayByGiftCard` requires a code that does not start with `/`.

- Checkout.ReceiveText: an awaited course request goes to the corrected `Checkout.SaveCourseRequest`, so the "Cancel Request" button text is not stored as a request as `bot/bot.py:1215` stores it; the behaviour as written is `Checkout.SaveCourseRequestAsWritten`.
- Checkout.Step: follows `Checkout.ReceiveText`, so it has the same corrected cancel test.
- Handlers.Bot.SaveCourseRequest: runs the corrected cancel test, so the "Cancel Request" button text is not stored as a request as `bot/bot.py:1215` stores it.
- Handlers.Bot.HandleText: follows `Checkout.ReceiveText`, so it has the same corrected cancel test.
- Handlers.Bot.Handle: follows `Checkout.Step`, so it has the same corrected cancel test, and the button branches of `Checkout.Dispatch` below.
- Checkout.Dispatch: the "Back to Categories" and "Back to Courses" branches (`bot/bot.py:277-286`) are modelled as if `show_categories_menu` and `courses_command` succeed on the hand-built `Message`; that message has no client (and with Pyrogram 2 its `message_id=` argument is not accepted), so in the source the handler raises before any reply or state write, and the user keeps the state they had.
- Handlers.Bot.Dispatch: follows `Checkout.Dispatch`, so the two back buttons send their menu and set the viewing state where the source raises.
- Handlers.Bot.HandleCallback: follows `Checkout.Dispatch`, with the same two back-button branches.

## Findings

| source | as written | input that shows it | evidently intended | confidence | as-written member | corrected member |
|---|---|---|---|---|---|---|
| bot/bot.py:1215 | the lowered request text is compared with a literal whose second character is the capital `Œ` (U+0152), which lowering never produces, so the test is never true | pressing the "Cancel Request" button while a course request is awaited: its text is stored as a course request and "Course request cancelled" is never sent | compare with the lowered button text, so the button cancels and stores nothing | high; not executed | Checkout.CancelButtonFiledAsRequest | Checkout.CancelButtonCancels |
