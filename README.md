# Cosmic Nexus account verification, modelled in Dafny

This project models the account-verification lifecycle of Cosmic Nexus, a
Node/Express and Vue application that hands each user a handle, a
`@cosmical.me` address and a Linux account. The model covers:

- **The account record and its rules.** The two Mongoose user schemas: the
  backend's (`BackendUserModel`) and the older server's (`ServerUserModel`).
  They cover setters (trim, lowercase), validators and their messages,
  defaults, the unique indexes and the pre-save hooks. The schemas are data
  (`FieldRules`), the string predicates are in `Validators`, and one
  `Account` record (`Accounts`) holds the union of the fields the handlers
  read and write.
- **The store.** A Mongo collection becomes the class `Store.UserStore`. It
  holds a sequence of records in natural order. `findOne` returns the first
  match. `save` validates, checks the unique indexes and runs the schema's
  hooks.
- **The handlers, one method each.** They cover the backend controller
  (`BackendAuthController`), the backend auth routes (`BackendAuthRoutes`),
  the admin routes (`AdminRoutes`) and the server controller
  (`ServerAuthController`). Each is proved equal to an outcome function
  (reply, records afterwards, external effects attempted). The lemmas about
  those functions state the ordered error cases, the server's
  confirmations, and the backend saves that its hashing hook refuses.
- **The services.** These are the registration-expiry sweep and
  `isUserExpired` (`Cleanup`), and the system-user provisioning sequence
  (`UserSystem`), with the shell as an executor passed in.
- **The error middlewares.** These are the error-to-response classification
  (`ErrorHandler`) and the in-place defaulting middleware (`ErrorMiddleware`).
- **The client.** This covers the per-route guards (`AuthGuards`) and the two
  Vue routers (`AppRouter`, `FrontendRouter`) over shared route records
  (`Navigation`).

Passwords are symbolic. `Hashed(s)` stands for a bcrypt hash of `s`, and a
comparison succeeds only against exactly one hash of the candidate. The
mailer, the clock (`now`, in milliseconds), random bytes, SHA-256, token
lifetimes, the shell, the process uid and environment, and the client's
token refresh are parameters of the operations that use them. Mail and shell
commands appear in an operation's result as the effects it attempted
(`Effects`).

Where the code does something other than what it evidently intends, the
model follows the code:
- The backend controller's registration sets no `verificationExpires`, so the
  token it issues can never be used
  (`BackendAuthController.RegistrationTokenIsStuck`).
- The backend's password path is deselected (`select: false`), and its
  pre-save hook hashes the password on every save. Only login loads the
  password, so login's own save hashes the stored hash again, and the
  password then stops verifying (`BackendUserModel.ResaveBreaksLogin`).
  Every other backend save finds no password to hash and is refused before
  anything is written (`Store.SaveOfUnloaded`). As a result, e-mail and
  phone confirmation, resend, force-verify and the expiry marking all fail
  on the backend (`BackendAuthRoutes.VerifyNeverConfirms`,
  `BackendAuthController.VerifyEmailAnswers`, `Cleanup.ExpirationPass`).
- The server's registration never passes validation, because its schema
  requires a handle and a SIM number that signup does not set
  (`ServerAuthController.SignUpAlwaysInvalid`).
- The backend schema requires `email`, which neither backend registration
  handler sets, so in the source every backend registration is refused
  (`BackendAuthController.RegisterAsWrittenRefused`,
  `BackendAuthRoutes.RegisterAsWrittenRefused`). The rest of the model
  describes the registration the handlers evidently intend, with the address
  stored (see "## Findings").
- Mongoose casts a filter value on a declared path through that path's
  setters. The backend's `csmclName` and `email` paths trim and lower-case, so
  a lookup by handle or by `email` compares the normalised value
  (`BackendUserModel.CastKey`). Filters on undeclared paths, such as
  `regularEmail`, compare the value as sent, and shell commands get the raw
  value.

## Model

| member | source | states |
|---|---|---|
| Accounts.CompareNeedsDepthOne | backend/src/models/user.model.js:81-87 | `comparePassword` succeeds only against a value that is exactly one bcrypt hash of the candidate text. |
| Accounts.NewDocument | backend/src/models/user.model.js:43-56 | A new document takes the schema defaults: every flag false, every token, expiry and derived address absent. |
| Accounts.NoExpiryNoLiveToken | backend/src/controllers/auth.controller.js:106-109 | A record whose token has no expiry never matches the live-token filter (`$gt` on an absent date matches nothing). |
| Accounts.FindFirst | backend/src/controllers/auth.controller.js:106-109 | `findOne` gives the first record in store order that matches the filter, and none exactly when no record matches. |
| Accounts.Select | backend/src/services/cleanup.service.js:47-54 | `find` keeps a record exactly when it is stored and matches the filter, and never returns more records than are stored. |
| Accounts.SelectSingle | backend/src/services/cleanup.service.js:47-54 | Filtering a single record keeps it exactly when it matches. |
| Accounts.SelectAppend | backend/src/services/cleanup.service.js:47-54 | `find` keeps the matching records in store order: filtering two runs of records one after the other is filtering each and joining the results. |
| Accounts.SelectPartition | backend/src/services/cleanup.service.js:86-89 | Every record is selected either by a filter or by its negation, never both. |
| Accounts.Replace | server/src/controllers/auth.controller.js:115 | Saving a loaded document writes it over the record with its id and leaves the others in place. |
| Accounts.RemoveAt | backend/src/routes/admin.routes.js:107 | `deleteOne` removes the one record and keeps the order of the rest. |
| Validators.HandleAfterLowercase | backend/src/models/user.model.js:12-21 | After the lowercase setter, a handle of 3 to 30 letters, digits and hyphens passes the handle pattern, and lower-casing again changes nothing. |
| Validators.EmailPatternShape | backend/src/models/user.model.js:28 | The address pattern holds exactly of strings with no space, one `@` that is not first, and a dot strictly inside the part after it. |
| Validators.SimPatterns | server/src/models/user.model.js:44-55 | The two SIM checks together accept exactly ten digits whose first digit is not zero. |
| Validators.PasswordPatternPlain | server/src/models/user.model.js:61-67 | The complexity pattern holds exactly of eight or more allowed characters with a lower-case letter, an upper-case letter, a digit and a special character. |
| FieldRules.FirstFailureMeaning | server/src/models/user.model.js:5-18 | A path's validator chain reports nothing exactly when every rule passes, and otherwise the message of the first rule that fails. |
| FieldRules.ValidateMeaning | backend/src/models/user.model.js:4-59 | A document's validation error has at most one entry per path, each naming a schema path, and none exactly when every path passes. |
| FieldRules.ValidateReadsValues | backend/src/models/user.model.js:4-59 | Validation reads only the values at the validated paths and the test flag. |
| FieldRules.HashKeepsValid | backend/src/models/user.model.js:62-70 | A valid document stays valid when its password is replaced by a hash and the other paths keep their values. |
| FieldRules.DisplayNameLengthRule | backend/src/models/user.model.js:5-11 | The display-name chain passes exactly for 2 to 50 characters. |
| FieldRules.CsmclNameRule | backend/src/models/user.model.js:12-21 | The handle chain passes exactly for a valid handle. |
| FieldRules.EmailRule | backend/src/models/user.model.js:22-29 | The address chain passes exactly for addresses of the plain shape. |
| FieldRules.PasswordLengthRule | backend/src/models/user.model.js:37-42 | The password chain passes exactly for eight or more characters. |
| BackendUserModel.ErrorsEmptyIff | backend/src/models/user.model.js:4-59 | A document validates exactly when it is acceptable: length and pattern rules hold, with no word-count or SIM rule. |
| BackendUserModel.ErrorsOnlyReadValidatedPaths | backend/src/models/user.model.js:4-59 | Two documents that agree on the validated paths get the same validation errors. |
| BackendUserModel.CastKeyFixed | backend/src/models/user.model.js:12-29 | Casting a handle or address, trimmed and lower-cased, is idempotent: a stored normalised value casts to itself. |
| BackendUserModel.MissingEmailRefused | backend/src/models/user.model.js:22-24 | A document without an address fails validation with "Email is required". |
| BackendUserModel.StrictRegistrationInvalid | backend/src/models/user.model.js:22-24 | A registration document whose address is dropped fails validation with "Email is required", whatever its other fields. |
| BackendUserModel.NoWordOrSimRule | backend/src/models/user.model.js:5-11 | The backend accepts any display name of the right length, whatever its word count, and any SIM number. |
| BackendUserModel.PreSaveEffect | backend/src/models/user.model.js:61-78 | Every save wraps the password in one more hash. The address is derived only for a new document with a handle. Nothing else changes but the timestamps. |
| BackendUserModel.PreSaveKeepsValid | backend/src/models/user.model.js:61-78 | The hooks keep a valid document valid. |
| BackendUserModel.RehashDepth | backend/src/models/user.model.js:62-70 | After `n` saves the stored password is `n` hashes deeper. |
| BackendUserModel.ResaveBreaksLogin | backend/src/models/user.model.js:62-70 | A password that compared equal no longer does after the next save of the record. |
| BackendUserModel.PreHashedNeverVerifies | backend/src/models/user.model.js:62-70 | A password hashed before the document is built is hashed twice on save, and then no candidate compares equal. |
| ServerUserModel.DisplayNameRule | server/src/models/user.model.js:5-18 | The display-name chain passes exactly for 2 to 50 characters forming 1 to 3 words once trimmed. |
| ServerUserModel.SimNumberRule | server/src/models/user.model.js:44-56 | The SIM-number chain passes exactly for ten digits not starting with zero. |
| ServerUserModel.PasswordRule | server/src/models/user.model.js:57-69 | The password chain passes exactly for an acceptable password. A test account skips the complexity check, and a stored hash passes. |
| ServerUserModel.ErrorsByPath | server/src/models/user.model.js:4-102 | A document validates exactly when each of its five validated paths passes its own chain. |
| ServerUserModel.ErrorsEmptyIff | server/src/models/user.model.js:4-102 | A document validates exactly when it is acceptable, with the rules stated without regular expressions. |
| ServerUserModel.ErrorsOnlyReadValidatedPaths | server/src/models/user.model.js:4-102 | Two documents that agree on the validated paths get the same validation errors. |
| ServerUserModel.CastProperties | server/src/models/user.model.js:19-48 | The setters trim every string path and leave no upper-case letter in the handle, and casting again changes nothing. |
| ServerUserModel.PreSaveEffect | server/src/models/user.model.js:104-131 | The password is hashed only when new or modified. The address is derived only for a new document with a handle. `updatedAt` is the save time, and nothing else changes. |
| ServerUserModel.PreSaveKeepsValid | server/src/models/user.model.js:104-131 | The hooks keep a valid document valid. |
| ServerUserModel.NewPasswordVerifies | server/src/models/user.model.js:105-117 | A password given in plain text logs in after the first save. |
| ServerUserModel.ResaveKeepsLogin | server/src/models/user.model.js:105-117 | Re-saving a record whose password was not touched keeps every login that worked. |
| ServerUserModel.ChangedPasswordVerifies | server/src/models/user.model.js:105-117 | A password replaced in plain text is the one that logs in afterwards. |
| ServerUserModel.UnloadedAsLoaded | server/src/models/user.model.js:105-117 | A record loaded without its password goes through the hooks exactly as the loaded record would, since the unmodified password is left alone. |
| Store.UserStore.constructor | backend/src/models/user.model.js:89 | A new collection is empty, its first id is 0, and it satisfies the collection invariant. |
| Store.UserStore.FindOne | backend/src/controllers/auth.controller.js:106-109 | `findOne` gives a stored record that matches the filter, and nothing exactly when no record matches. |
| Store.UserStore.Create | server/src/controllers/auth.controller.js:23-27 | An insert keeps the collection invariant and appends exactly the record `CreateOutcome` describes, or leaves the collection as it was. |
| Store.UserStore.Save | backend/src/controllers/auth.controller.js:127-131 | A save keeps the collection invariant and writes back exactly the record `SaveOutcome` describes, or changes nothing. |
| Store.UserStore.DeleteOne | backend/src/routes/admin.routes.js:107 | `deleteOne` removes the first matching record only and reports a count of 0 or 1. |
| Store.UserStore.DeleteMany | backend/src/services/cleanup.service.js:86-89 | `deleteMany` keeps exactly the records that do not match, in order, and reports how many went. |
| Store.HooksKeepKeys | backend/src/models/user.model.js:72-78 | The save hooks keep the id and the indexed keys. Only a new record with a handle gains its derived address. |
| Store.HooksOfLoaded | server/src/models/user.model.js:104-131 | On a loaded document the hooks change at most the password (a new hash) and set `updatedAt` to the time of the save. |
| Store.HooksKeepValid | backend/src/models/user.model.js:61-78 | The hooks keep a valid document valid under either schema. |
| Store.HooksKeepRecord | server/src/models/user.model.js:104-131 | The hooks keep a valid document valid, keep its id, keys and expiry flag, and stamp the time of the save. |
| Store.ErrorsOfGuarded | server/src/models/user.model.js:4-102 | Two documents that agree on every validated and indexed path get the same validation errors. |
| Store.SaveOfUntouchedRules | backend/src/models/user.model.js:61-70 | On a consistent collection, a save that leaves every validated and indexed path of the stored record alone is refused by the backend's hashing hook when the document holds no password, and otherwise writes the hooked document. |
| Store.SaveOfUnloaded | backend/src/models/user.model.js:41-70 | A record loaded without its password and saved with its guarded paths intact is refused on the backend, whose hook has no password to hash. On the server the hook leaves the unmodified password alone and the record is written with its stored hash. |
| Store.FindsById | backend/src/services/cleanup.service.js:106 | When ids are distinct, looking a stored record up by its id finds that record. |
| Store.SaveOutcomeOfFound | backend/src/models/user.model.js:61-70 | A save of a found document that passes validation is refused by the backend's hashing hook when the document holds no password. Otherwise it is refused as a duplicate when the hooked record clashes with another record, and written when it does not. |
| Store.SameKeysClashWithNone | backend/src/models/user.model.js:12-35 | A record with the id and the unique keys of a stored record clashes with no other record. |
| Store.IdsPin | backend/src/services/cleanup.service.js:106 | In a collection with distinct ids, two positions with the same id are the same position. |
| Store.SaveKeepsConsistent | backend/src/models/user.model.js:12-35 | A successful save keeps ids distinct, every record valid and the unique indexes respected. |
| Store.ReplaceKeepsDistinct | server/src/models/user.model.js:19-48 | Writing back a record under its own id that clashes with no other record keeps the records distinct. |
| Store.CreatedRecord | backend/src/routes/auth.routes.js:47-59 | A successful insert writes a valid record under the next id that clashes with no stored record. |
| Store.CreatedIs | backend/src/routes/auth.routes.js:47-59 | The inserted record is the cast document under the next id, passed through the hooks for a new document. |
| Store.CreateOutcomeOfValid | backend/src/routes/auth.routes.js:47-59 | An insert of a document that passes validation and holds a password is refused only as a duplicate key, and otherwise writes the hooked new record. |
| Store.CastKeepsPassword | backend/src/models/user.model.js:37-42 | The setters leave the password as given. |
| Store.CreateRefusedOnClash | backend/src/models/user.model.js:12-35 | A valid new document that would share a unique key with a stored record is refused as a duplicate key. |
| Store.CreateKeepsConsistent | server/src/models/user.model.js:19-48 | Appending a valid record under the next id that clashes with nothing keeps the collection consistent, with the next id one higher. |
| Store.AppendKeepsDistinct | backend/src/models/user.model.js:12-35 | Appending a record under a new id that clashes with nothing keeps the records distinct. |
| Store.SelectKeepsConsistent | backend/src/services/cleanup.service.js:86-89 | What `find` selects and what `deleteMany` leaves both keep the collection consistent. |
| Store.SelectKeepsDistinct | backend/src/services/cleanup.service.js:47-54 | A filtered subsequence of distinct records is distinct. |
| Store.RemoveAtKeepsConsistent | backend/src/routes/auth.routes.js:290 | Removing one record keeps the collection consistent. |
| Store.SaveNotFoundIff | backend/src/services/cleanup.service.js:115-116 | A save is refused as missing exactly when no record has the document's id. |
| Store.SaveInvalidFirst | server/src/controllers/auth.controller.js:176-180 | Validation runs before the indexes: a stored document that fails validation is refused with its own errors. |
| Store.SavedRecord | server/src/models/user.model.js:128-131 | A successful save writes a valid record with the document's id and `updatedAt` equal to the time of the save. |
| Updates.ApplyKeepsGuarded | backend/src/controllers/auth.controller.js:127-131 | Every handler update except a new password leaves the validated and indexed paths and the id alone. |
| Updates.SaveOfUpdate | backend/src/controllers/auth.controller.js:205-206 | Saving a record loaded with its password after such an update never fails on a consistent collection. It writes the updated record with only the save's stamp added. |
| Updates.ReplaceOnly | server/src/controllers/auth.controller.js:115 | Writing back a record with a stored id changes the record at that position only. |
| Updates.SaveOfSameKeys | server/src/controllers/auth.controller.js:176-180 | A loaded record with unchanged keys is written exactly when it passes validation. Otherwise the save throws the validation error. |
| Updates.UpdateRecord | backend/src/controllers/auth.controller.js:205-206 | Such a save leaves the stamped update at its position and every other record as it was. |
| Updates.UpdateAt | backend/src/controllers/auth.controller.js:205-206 | The save of a record loaded with its password after an update that leaves the guarded paths alone succeeds. It writes exactly the stamped record at that position and leaves every other record as it was. |
| Updates.ApplyUnloaded | backend/src/models/user.model.js:41 | Applying a handler update to a record loaded without its password gives the updated record without its password, except that a new password takes the missing one's place. |
| Updates.SaveOfUnloadedUpdate | backend/src/controllers/auth.controller.js:127-131 | The save of such an update on a record loaded without its password is refused on the backend. On the server it writes the updated record with its stored hash. |
| Updates.UnloadedUpdateAt | server/src/controllers/auth.controller.js:139-141 | On the server such a save writes exactly the stamped update, with the stored hash, at its position and leaves every other record as it was. |
| BackendAuthController.Register | backend/src/controllers/auth.controller.js:27-99 | `register` keeps the collection invariant and leaves the reply, the records and the mail attempted exactly as `RegisterOutcome` describes. |
| BackendAuthController.VerifyEmail | backend/src/controllers/auth.controller.js:102-153 | `verifyEmail` keeps the collection invariant and leaves the reply, the records and the mail exactly as `VerifyEmailOutcome` describes. |
| BackendAuthController.Login | backend/src/controllers/auth.controller.js:156-238 | `login` keeps the collection invariant and leaves the reply and the records exactly as `LoginOutcome` describes, which looks the identifier up lower-cased as the address and normalised as the handle. |
| BackendAuthController.VerifyPhone | backend/src/controllers/auth.controller.js:241-286 | `verifyPhone` keeps the collection invariant and leaves the reply and the records exactly as `VerifyPhoneOutcome` describes. |
| BackendAuthController.ForgotPasswordOutcome | backend/src/controllers/auth.controller.js:289-318 | An address that no record holds once trimmed and lower-cased answers 404. A known one reaches the undefined `generatePasswordResetToken`, so the call throws and the answer is 500 with that error's message. Nothing is saved or mailed. |
| BackendAuthController.ResetPassword | backend/src/controllers/auth.controller.js:321-359 | `resetPassword` keeps the collection invariant and leaves the reply and the records exactly as `ResetPasswordOutcome` describes. |
| BackendAuthController.ResendVerificationEmail | backend/src/controllers/auth.controller.js:447-502 | `resendVerificationEmail` keeps the collection invariant and leaves the reply, the records and the mail exactly as `ResendOutcome` describes. |
| BackendAuthController.CheckUserStatus | backend/src/controllers/auth.controller.js:505-539 | A handle that no record holds once trimmed and lower-cased answers 404. A known handle answers 200, and the answer is "completed" exactly when `id` finds the system user, "pending" otherwise. |
| BackendAuthController.RegisterReplies | backend/src/controllers/auth.controller.js:37-76 | A missing field answers 400 and changes nothing. Otherwise the store either stays as it was with nothing sent, or gains one record at its end with one mail attempted. A 201 implies the record was added. |
| BackendAuthController.RegisterInvalid | backend/src/controllers/auth.controller.js:79-92 | A document that fails validation answers 400 "Validation failed", and nothing changes or is sent. |
| BackendAuthController.RegisterAsWrittenRefused | backend/src/controllers/auth.controller.js:53-92 | As written, with no `email` set, registration answers 400 "All fields are required" for a missing field and 400 "Validation failed" otherwise. Nothing changes and nothing is sent. |
| BackendAuthController.RegisterInserts | backend/src/controllers/auth.controller.js:53-76 | With the address stored as intended, a successful insert appends the registered record and mails the token to its address. The reply is 201 exactly when the mail goes out; otherwise it is 500 and the record stays. |
| BackendAuthController.RegisteredRecord | backend/src/controllers/auth.controller.js:53-63 | The inserted record holds under the next id the handle trimmed and lower-cased, the address lower-cased and trimmed, and the other fields as sent. It is unverified, holds the hex token and has no token expiry. |
| BackendAuthController.RegistrationTokenIsStuck | backend/src/controllers/auth.controller.js:106-109 | The token a registration stores never satisfies `verifyEmail`'s filter, which needs a future expiry that registration never sets. |
| BackendAuthController.RegisteredPasswordIsStuck | backend/src/controllers/auth.controller.js:52-63 | The handler hashes the password and the pre-save hook hashes it again, so the registered password compares equal to no text. |
| BackendAuthController.RegistrationToken | backend/src/controllers/auth.controller.js:59 | The verification token of 32 random bytes is 64 lower-case hex digits, and distinct bytes give distinct tokens. |
| BackendAuthController.VerifyEmailFails | backend/src/controllers/auth.controller.js:127-153 | A live token of an account that has not lapsed answers 500 "An error occurred while verifying email": the confirming save of the record, loaded without its password, is refused. Nothing changes and nothing is mailed. |
| BackendAuthController.VerifyEmailLapsed | backend/src/controllers/auth.controller.js:120-125 | A live token of a lapsed account is refused with 400 "expired" when the account is marked expired already. Otherwise marking it throws the hashing error and the reply is 500. Either way nothing changes and nothing is mailed. |
| BackendAuthController.VerifyEmailAnswers | backend/src/controllers/auth.controller.js:102-153 | On a consistent store the reply is the 400 "invalid" exactly when no record holds the token unexpired, the 400 "expired" exactly when the first holder is marked expired, and the 500 exactly when the first holder is not. So no token is ever confirmed, and the store and the mailbox are never changed. |
| BackendAuthController.LoginSucceeds | backend/src/controllers/auth.controller.js:205-230 | A verified account with the right password logs in. `lastLogin` is stamped on that record only, and the save hashes the stored password once more. |
| BackendAuthController.LoginAnswers | backend/src/controllers/auth.controller.js:156-238 | An absent identifier answers 500. Otherwise the identifier is looked up lower-cased as the address and also trimmed as the handle. An unknown identifier and a wrong password get the same 401, an unverified account gets its own 401, and a verified account logs in exactly with the right password. Only a successful login writes. |
| BackendAuthController.LoginWithoutValidator | backend/src/controllers/auth.controller.js:192-199 | The backend schema defines no `validatePassword`, so with that validator missing nobody logs in and nothing changes. |
| BackendAuthController.LoginBreaksNextCompare | backend/src/controllers/auth.controller.js:205-206 | Because of the rehash on save, a password that compared equal before a successful login no longer does afterwards. |
| BackendAuthController.VerifyPhoneFails | backend/src/controllers/auth.controller.js:259-285 | A live code answers 500 "An error occurred while verifying phone number", because the confirming save is refused. Nothing changes. |
| BackendAuthController.VerifyPhoneAnswers | backend/src/controllers/auth.controller.js:241-286 | `verifyPhone` is refused with 400 exactly when no record holds a live code for the SIM number, and answers 500 exactly when one does, because the confirming save is refused. It never changes the store. |
| BackendAuthController.NewPasswordValid | backend/src/models/user.model.js:37-42 | A valid record given a new plain-text password stays valid exactly when the password has at least 8 characters. |
| BackendAuthController.ResetPasswordSucceeds | backend/src/controllers/auth.controller.js:343-352 | A live reset token and an acceptable password store one hash of the new password, which compares equal to it. The reset token is cleared and no other record changes. |
| BackendAuthController.ResetPasswordTooShort | backend/src/controllers/auth.controller.js:343-358 | A password the schema refuses shows as a 500 carrying the validation message, and nothing changes. |
| BackendAuthController.ResetPasswordAnswers | backend/src/controllers/auth.controller.js:321-359 | An absent token answers 500 with the hashing error. Otherwise the reply is 400 exactly when no record holds the digest of the token unexpired, and 200 exactly for such a record and a password of at least 8 characters. Any other reply leaves the store as it was. |
| BackendAuthController.ResendGuards | backend/src/controllers/auth.controller.js:447-477 | An empty address answers 400, an unknown one 404, and an already verified account 400. Each refusal leaves the store alone and sends nothing. |
| BackendAuthController.ResendFails | backend/src/controllers/auth.controller.js:480-501 | For an unverified account the save of the new token is refused, so the reply is 500, no token is stored and no mail is sent. |
| BackendAuthController.ResendAnswers | backend/src/controllers/auth.controller.js:447-502 | The reply is the 500 exactly when the address is given and its first record is unverified. A resend never changes the store and never sends a mail. |
| BackendAuthRoutes.Register | backend/src/routes/auth.routes.js:11-87 | `POST /register` keeps the collection invariant and leaves the reply, the records and the mail attempted exactly as `RegisterOutcome` describes, whose duplicate check casts the handle and compares the address as sent. |
| BackendAuthRoutes.RegisterReplies | backend/src/routes/auth.routes.js:11-87 | The route answers 201 "pending" exactly when no field is missing, no record has the handle once trimmed and lower-cased or the address as sent, and the insert succeeds. Then the registered record is appended and its verification mail attempted; otherwise nothing changes and nothing is sent. |
| BackendAuthRoutes.RegisterCaseDuplicate | backend/src/routes/auth.routes.js:26-36 | The duplicate check casts the handle as the schema does, so a handle that differs from a stored one only in case or surrounding spaces is found and answers 400 "User already exists", with nothing changed or sent. |
| BackendAuthRoutes.RegisterRefusedInsert | backend/src/routes/auth.routes.js:59-86 | Past the duplicate check, a refused insert answers 500 and changes nothing. |
| BackendAuthRoutes.RegisterAsWrittenRefused | backend/src/routes/auth.routes.js:11-87 | As written, with no `email` set, `POST /register` answers 400 for a missing field or a duplicate and 500 "An error occurred during registration" otherwise. Nothing changes and nothing is sent. |
| BackendAuthRoutes.RouteCreateClashes | backend/src/models/user.model.js:12-21 | A stored handle equal to the new handle once trimmed and lower-cased makes the insert of a valid document fail. |
| BackendAuthRoutes.RouteRegisteredRecord | backend/src/routes/auth.routes.js:43-57 | With the address stored as intended, the inserted record is unverified, holds the handle trimmed and lower-cased and the hex token, valid until 24 hours after the registration. |
| BackendAuthRoutes.PostVerifyEmail | backend/src/routes/auth.routes.js:93-146 | `POST /verify-email` keeps the collection invariant and leaves the reply and the records exactly as `PostVerifyOutcome` describes. |
| BackendAuthRoutes.GetVerifyEmail | backend/src/routes/auth.routes.js:149-180 | `GET /verify-email/:token` keeps the collection invariant and leaves the redirect and the records exactly as `GetVerifyOutcome` describes. |
| BackendAuthRoutes.LookupOrder | backend/src/routes/auth.routes.js:105-127 | The checks run in order. A token no record holds is unknown; a verified holder is refused before the expiry is checked; only a set expiry strictly before now counts as expired; everything else verifies. |
| BackendAuthRoutes.NoExpiryNeverExpires | backend/src/routes/auth.routes.js:122 | A holder without an expiry date is never refused as expired. |
| BackendAuthRoutes.VerifyRefusalsKeepStore | backend/src/routes/auth.routes.js:105-127 | A refused verification changes no record, at either endpoint. |
| BackendAuthRoutes.PostVerifyFails | backend/src/routes/auth.routes.js:130-145 | A token that passes every check answers 500, because the confirming save is refused, and nothing changes. |
| BackendAuthRoutes.GetVerifyFails | backend/src/routes/auth.routes.js:170-179 | A link whose token passes every check redirects to `?error=server-error`, because the confirming save is refused, and nothing changes. |
| BackendAuthRoutes.VerifyNeverConfirms | backend/src/routes/auth.routes.js:93-180 | On a consistent store neither endpoint ever reports a verified address, and neither changes any record. |
| BackendAuthRoutes.GetMirrorsPost | backend/src/routes/auth.routes.js:149-180 | The link and the pasted token give the same records afterwards, and the link's redirect stands for the pasted token's reply. |
| BackendAuthRoutes.RegisterThenVerify | backend/src/routes/auth.routes.js:43-59 | With the address stored as intended, the token a registration stores passes the lookup of the verify-email endpoints for the new account within its 24 hours, when no earlier record holds it. |
| BackendAuthRoutes.FindAfterMisses | backend/src/routes/auth.routes.js:105 | When no stored record matches, `findOne` after an append finds the appended record if it matches. |
| BackendAuthRoutes.ResendVerification | backend/src/routes/auth.routes.js:183-236 | `POST /resend-verification` keeps the collection invariant and leaves the reply, the records and the mail exactly as `ResendOutcome` describes. |
| BackendAuthRoutes.ResendRouteGuards | backend/src/routes/auth.routes.js:187-208 | An empty address answers 400, an unknown one (looked up lower-cased) 404, and a verified account 400. Each refusal changes nothing and sends nothing. |
| BackendAuthRoutes.ResendRouteFails | backend/src/routes/auth.routes.js:210-235 | For an unverified account the save of the new token is refused, so the reply is 500, nothing changes and no mail is sent. |
| BackendAuthRoutes.StatusOutcome | backend/src/routes/auth.routes.js:239-273 | A handle that no record holds once trimmed and lower-cased answers 404. A known handle answers "completed" exactly when the mail account of the handle as sent exists, and 500 exactly when the account check throws. |
| BackendAuthRoutes.DeleteUser | backend/src/routes/auth.routes.js:276-316 | `DELETE /user/:csmclName` keeps the collection invariant and leaves the reply, the records and the command exactly as `DeleteOutcome` describes, which finds the record by the cast handle. |
| BackendAuthRoutes.DeleteRemovesFirst | backend/src/routes/auth.routes.js:281-308 | A handle that no record holds once trimmed and lower-cased answers 404 and changes nothing. Otherwise the first record with the cast handle is gone and the rest keep their order. The reply is 200 exactly when `require` is available, and only then does `userdel -r` run on the handle as sent. |
| AdminRoutes.SomeAdmin | backend/src/routes/admin.routes.js:28 | True exactly when some group is `sudo`, `wheel` or `root`. |
| AdminRoutes.AdminGateDecides | backend/src/routes/admin.routes.js:11-48 | Root passes without any command. Any other uid runs one `groups` call for `USER`, or root when `USER` is unset or empty. The request passes exactly when a word of the trimmed output is an admin group, gets 403 when none is, and 500 when the command fails. |
| AdminRoutes.Behind | backend/src/routes/admin.routes.js:51 | A refused request is answered by the gate alone. An admitted one is answered by the route, after the gate's command. |
| AdminRoutes.RefusedChangesNothing | backend/src/routes/admin.routes.js:32-47 | A refused request changes no record, runs only the `groups` call and answers 403 or 500. |
| AdminRoutes.ReportedGroupsOfOutput | backend/src/routes/admin.routes.js:142-154 | On a `groups` output line, the reported groups are exactly the words after the user name and the colon. |
| AdminRoutes.ListUsers | backend/src/routes/admin.routes.js:54-70 | The listing has one projected entry per record, in store order. |
| AdminRoutes.ListingHidesTheRest | backend/src/routes/admin.routes.js:57-63 | Two stores that agree on the projected fields list alike, so no password, token, code or other field shows. |
| AdminRoutes.DetailsOfFirst | backend/src/routes/admin.routes.js:125-165 | Details are given exactly for a handle some record holds once trimmed and lower-cased whose two commands both succeed. They are those of the first such record, loaded without its password. The groups command runs only after the size command succeeded; an unknown handle runs nothing. |
| AdminRoutes.AdminDeleteUser | backend/src/routes/admin.routes.js:82-122 | `DELETE /users/:csmclName` keeps the collection invariant and leaves the reply, the records and the commands exactly as `AdminDeleteOutcome` describes, which finds the record by the cast handle. |
| AdminRoutes.AdminDeleteRemoves | backend/src/routes/admin.routes.js:89-113 | A handle that no record holds once trimmed and lower-cased answers 404, runs nothing and changes nothing. A known one answers 200 whatever the shell does, and loses its first record while the rest keep their order. `userdel -r` runs first on the handle as sent, and the spool removal follows exactly when it succeeded. |
| AdminRoutes.ForceVerify | backend/src/routes/admin.routes.js:169-203 | `POST /users/:csmclName/verify` keeps the collection invariant and leaves the reply and the records exactly as `ForceVerifyOutcome` describes, which finds the record by the cast handle. |
| AdminRoutes.ForceVerifyFails | backend/src/routes/admin.routes.js:169-203 | A handle that no record holds once trimmed and lower-cased answers 404. A known one answers 500 "Failed to verify user", because the save is refused. No record changes. |
| ServerAuthController.Register | server/src/controllers/auth.controller.js:12-54 | `register` keeps the collection invariant and leaves the answer, the records and the mail exactly as `RegisterOutcome` describes. |
| ServerAuthController.SignUpAlwaysInvalid | server/src/controllers/auth.controller.js:23-27 | The created document has no handle and no SIM number, both of which the server schema requires, so the insert always throws a validation error. |
| ServerAuthController.RegisterAnswers | server/src/controllers/auth.controller.js:12-54 | A used address is passed on as 400 "Email already in use", exactly when some record has it. Any other request is passed on as the insert's validation error. Either way no record changes and no mail is sent. |
| ServerAuthController.RegisterPassesOnInvalid | server/src/controllers/auth.controller.js:22-27 | Past the duplicate check, the handler passes the insert's validation error on, with no record changed and no mail sent. |
| ServerAuthController.LoginAnswers | server/src/controllers/auth.controller.js:56-89 | A missing field is answered 400 before any lookup. A session for the first record with the address is given exactly when its password compares equal; every other failure is the same 401. |
| ServerAuthController.LoginIgnoresVerification | server/src/controllers/auth.controller.js:65-69 | The e-mail verification flag plays no part in whether a login succeeds. |
| ServerAuthController.SameAddressesFindAlike | server/src/controllers/auth.controller.js:66 | Two stores whose records agree position by position on the address find the same first record for it. |
| ServerAuthController.VerifyEmail | server/src/controllers/auth.controller.js:91-127 | `verifyEmail` keeps the collection invariant and leaves the answer, the records and the mail exactly as `VerifyEmailOutcome` describes. |
| ServerAuthController.VerifyEmailConfirms | server/src/controllers/auth.controller.js:91-127 | A token with no live holder is answered 400 and changes nothing. A live one confirms its first holder: the flag is set, token and expiry are gone and the update time is stamped, with the password not re-hashed. Every other record stays. The welcome mail goes to that record, and the answer is 200 exactly when it is sent. |
| ServerAuthController.ForgotPassword | server/src/controllers/auth.controller.js:129-153 | `forgotPassword` keeps the collection invariant and leaves the answer, the records and the mail exactly as `ForgotPasswordOutcome` describes. |
| ServerAuthController.ForgotPasswordUnknown | server/src/controllers/auth.controller.js:133-137 | The answer is 404 exactly when no record has the address, and then nothing changes. |
| ServerAuthController.ForgotPasswordIssues | server/src/controllers/auth.controller.js:139-149 | A known address stores the digest of the mailed token as its reset token, live for the token lifetime, and only its update time changes besides. No other record changes. The answer is 200 exactly when the mail is sent. |
| ServerAuthController.ResetIssued | server/src/controllers/auth.controller.js:140-141 | The save of an issued reset token changes the record only in the token, its expiry and the update time. |
| ServerAuthController.ResetPassword | server/src/controllers/auth.controller.js:155-192 | `resetPassword` keeps the collection invariant and leaves the answer and the records exactly as `ResetPasswordOutcome` describes. |
| ServerAuthController.NewPasswordValid | server/src/models/user.model.js:57-69 | A valid record given a new plain-text password stays valid exactly when the schema's password rule accepts it. |
| ServerAuthController.ResetPasswordSucceeds | server/src/controllers/auth.controller.js:176-188 | A live reset token and an acceptable password store one hash of the new password, which then compares equal. The reset token is cleared, no other record changes, and a session for that record is issued. |
| ServerAuthController.ResetPasswordAnswers | server/src/controllers/auth.controller.js:155-192 | The answer is 400 exactly when no record holds the digest of the token unexpired. A password the schema refuses is passed on as the validation error. Whenever no session is issued, nothing changes. |
| Cleanup.ConfiguredValueWins | backend/src/services/cleanup.service.js:8-10 | A configured decimal number other than zero is taken as written. |
| Cleanup.FallsBackToDefault | backend/src/services/cleanup.service.js:8-10 | An unset variable, a configured zero and an unparsable value all give the default, so a setting is never zero unless its default is. |
| Cleanup.CleanupService.constructor | backend/src/services/cleanup.service.js:6-11 | The three settings come from their variables, with defaults of 4 hours, 48 hours and 7 days. |
| Cleanup.HoursLeftBounds | backend/src/services/cleanup.service.js:34 | An account inside the warning window is told a whole number of hours from 1 to `warningHours`. |
| Cleanup.WarningMailsBounded | backend/src/services/cleanup.service.js:32-44 | The warning pass sends one mail per selected account, in store order, each with an hour count from 1 to `warningHours`. |
| Cleanup.SelectionsDisjoint | backend/src/services/cleanup.service.js:19-54 | No account is both in the warning window and overdue, and an account that expires exactly now is in neither. Both selections hold only unexpired accounts that are not fully verified. |
| Cleanup.TeardownMeaning | backend/src/services/cleanup.service.js:64-73 | The shell is used exactly for accounts with a Linux user. The owner is notified unless that removal failed. |
| Cleanup.TeardownsIsolated | backend/src/services/cleanup.service.js:58-80 | Each account's teardown is its own: the effects of two runs of accounts are those of each run, concatenated. |
| Cleanup.ExpiredRecord | backend/src/services/cleanup.service.js:61-62 | The marked record is expired, stamped with the time of the sweep, and keeps its id, handle and address. |
| Cleanup.MarkExpired | backend/src/services/cleanup.service.js:58-62 | The store the expiration pass leaves when its saves go through: every overdue record is marked expired and saved, and every other record is as it was. |
| Cleanup.NextUntouched | backend/src/services/cleanup.service.js:58 | Midway through the pass, the next overdue record is still stored as it was selected. |
| Cleanup.MarkStep | backend/src/services/cleanup.service.js:61-62 | Writing back the marked record extends the marked part of the store by exactly that record. |
| Cleanup.ExpireStep | backend/src/services/cleanup.service.js:58-62 | In each turn of the expiration loop the save of the next overdue record, loaded without its password, is refused on the backend. On the server it succeeds and extends the marked part of the store by exactly that record. |
| Cleanup.RefusedStep | backend/src/services/cleanup.service.js:58-79 | On the backend the save of each selected record, loaded without its password, is refused, and the catch moves on to the next account. |
| Cleanup.MarkedAll | backend/src/services/cleanup.service.js:58-80 | When the whole selection is done, the store is the marked store. |
| Cleanup.FreshlyExpiredSurvive | backend/src/services/cleanup.service.js:82-89 | The save stamps `updatedAt`, so an account expired in a sweep is not deleted by that same sweep when `deleteDays` is positive. |
| Cleanup.MarkedAt | backend/src/services/cleanup.service.js:61-62 | The marked store holds the marked record at the position of each overdue record. |
| Cleanup.ExpiredNotPurgeable | backend/src/services/cleanup.service.js:86-89 | A record just marked expired is not matched by the deletion filter when `deleteDays` is positive. |
| Cleanup.CleanupService.CleanupExpiredUsers | backend/src/services/cleanup.service.js:13-102 | The sweep keeps the invariant. On the backend every marking save is refused, so the store loses only the purgeable records already there and the mails are the warnings alone. On the server the marked store loses its purgeable records, and the mails are the warnings, then the teardowns. The summary counts the warned, the overdue and the deleted accounts. |
| Cleanup.CleanupService.WarningPass | backend/src/services/cleanup.service.js:17-44 | The warning pass selects exactly the accounts in the warning window and sends exactly their warning mails, in order, writing nothing. |
| Cleanup.ExpirationPass | backend/src/services/cleanup.service.js:46-80 | The expiration pass selects exactly the overdue accounts. On the backend each save is refused and caught, so the store is unchanged and nothing is torn down or mailed. On the server the store is left marked, and the effects are exactly the teardowns of the selection, in order. |
| Cleanup.ExpiryCheckMeaning | backend/src/services/cleanup.service.js:105-132 | The check throws exactly on the backend for an overdue account, with the hashing error, and then nothing changes and nothing is mailed. Otherwise it answers true exactly for a missing account, an expired one, or one past its registration date while not fully verified; then every record with that id is expired. An answer of false changes nothing. |
| Cleanup.ExpiryCheckAt | backend/src/services/cleanup.service.js:105-132 | For a stored account, the backend throws and changes nothing when the account is overdue. Otherwise the answer is whether it has lapsed. The store stays consistent and only that account may change, keeping its id and its e-mail flag. |
| Cleanup.MarkOne | backend/src/services/cleanup.service.js:113-116 | The save of one overdue account, loaded without its password, is refused on the backend. On the server it succeeds and changes that account only, keeping the store consistent. |
| Cleanup.MarkSaves | backend/src/services/cleanup.service.js:113-116 | The save of the marked record, loaded without its password, is refused on the backend and writes the marked account with its stored hash on the server. |
| Cleanup.ExpiryCheckNotOverdue | backend/src/services/cleanup.service.js:105-132 | The check of a stored account that is not overdue answers its expired mark and changes nothing. |
| Cleanup.ExpiryCheckThrows | backend/src/services/cleanup.service.js:113-116 | On the backend the check of an overdue account throws the hashing error, changes nothing and sends nothing. |
| Cleanup.ExpiryCheckMarks | backend/src/services/cleanup.service.js:113-126 | On the server the check of an overdue account marks it expired, saves it and attempts the expiration notice. |
| Cleanup.ExpiryCheckLapsedOnBackend | backend/src/services/cleanup.service.js:105-132 | On the backend a lapsed account is answered true when it is marked expired already; otherwise the check throws. Nothing changes and nothing is sent. |
| Cleanup.ExpiryCheckKeeps | backend/src/services/cleanup.service.js:105-132 | An account that has not lapsed is answered false, and nothing changes. |
| Cleanup.IsUserExpired | backend/src/services/cleanup.service.js:105-132 | `isUserExpired` keeps the invariant and leaves the answer, the records and the mail exactly as `ExpiryCheck` describes. |
| UserSystem.MakeDirs | backend/src/services/user-system.service.js:42-44 | One `mkdir -p` per storage directory, in order. |
| UserSystem.RunAll | backend/src/services/user-system.service.js:12-56 | Commands run in order, each only when every earlier one succeeded. The run succeeds exactly when all of them do; otherwise the last command run is the one that failed, and its error is the result. |
| UserSystem.UserSystemService.constructor | backend/src/services/user-system.service.js:6-10 | Development mode holds exactly when `NODE_ENV` is `development`. |
| UserSystem.UserSystemService.ProvisionOrder | backend/src/services/user-system.service.js:12-49 | Provisioning runs, in order: the user, the password, the Maildir with its owner and mode, the 100 MB quota outside development only, the six storage directories in order, then the home directory's owner and mode. |
| UserSystem.UserSystemService.NoQuotaInDevelopment | backend/src/services/user-system.service.js:27-30 | A quota command is among the provisioning commands exactly outside development. |
| UserSystem.UserSystemService.CreateSystemUser | backend/src/services/user-system.service.js:12-56 | The provisioning commands run in order until one fails. Its error propagates, and nothing already done is undone. |
| UserSystem.UserSystemService.SetUserQuota | backend/src/services/user-system.service.js:89-102 | Development runs nothing and succeeds. Otherwise the one `setquota` runs, and the call succeeds exactly when it does, throwing its error otherwise. |
| UserSystem.CheckSystemUser | backend/src/services/user-system.service.js:80-87 | True exactly when the `id` command for the user succeeds; a failing `id` gives false rather than an error. |
| UserSystem.DeleteSystemUser | backend/src/services/user-system.service.js:58-78 | `userdel -r` runs first and the spool removal only after it succeeds. The call succeeds when nothing fails or the failure says the user does not exist; any other failure is rethrown with a prefix. |
| ErrorHandler.ClassifyCases | backend/src/middleware/error-handler.js:2-37 | Every reply has status "error"; a validation error answers 400 with its field messages joined by ", "; otherwise a Mongo error with code 11000 answers 400 "Duplicate entry found"; anything else answers its own status code (500 when absent or zero) and message ("Internal server error" when absent or empty) |
| ErrorHandler.OtherMongoCodesFallThrough | backend/src/middleware/error-handler.js:22-36 | A Mongo error with any other code gets the same reply as an error of an unrelated name: the default branch |
| ErrorHandler.DefaultReplyIsNeverBlank | backend/src/middleware/error-handler.js:32-36 | Outside the validation branch the reply's message is non-empty and its code non-zero |
| ErrorHandler.ValidationMessageLists | backend/src/middleware/error-handler.js:15-20 | The validation reply is a 400 whose message, split at its commas, gives back every field message in order (each after the separator's space), provided no message contains a comma |
| ErrorHandler.JoinCommaSpace | backend/src/middleware/error-handler.js:18 | Joining with ", " equals joining with "," the list whose later entries are prefixed by a space |
| ErrorMiddleware.ErrorObject.constructor | backend/src/middleware/error.js:3 | An error object holds exactly the given fields |
| ErrorMiddleware.Handle | backend/src/middleware/error.js:3-42 | The response and the error's fields afterwards are those of the middleware's outcome on the error's fields before the call |
| ErrorMiddleware.NormalizedFields | backend/src/middleware/error.js:9-16 | After the writes the status is the error's own when non-empty and "error" otherwise; a not-found error gets code 400 and message "Resource not found"; any other keeps its message and gets its own code when non-zero and 500 otherwise; name, stack and class never change |
| ErrorMiddleware.NormalizedIdempotent | backend/src/middleware/error.js:9-16 | Passing an error through the middleware's writes twice changes nothing the first pass did not |
| ErrorMiddleware.SentHeadersDelegate | backend/src/middleware/error.js:5-7 | Once headers are sent the error is delegated and left unchanged |
| ErrorMiddleware.DevelopmentShowsAll | backend/src/middleware/error.js:18-25 | In development the body carries the updated error in full, its stack, message, code and status |
| ErrorMiddleware.ProductionHidesDetails | backend/src/middleware/error.js:27-41 | In production the body never carries the error or its stack; an operational error keeps its code and message; any other error answers 500 "Something went wrong!" whatever its code |
| ErrorMiddleware.NotFoundAnswers400 | backend/src/middleware/error.js:13-34 | A not-found error is answered with 400 and "Resource not found" in development and as an operational error |
| AuthGuards.FirstFailing | src/middleware/auth.js:14-32 | No page exactly when every required check is met; otherwise the page of a required, unmet check all of whose predecessors are met |
| AuthGuards.UnauthenticatedGoesToLogin | src/middleware/auth.js:7-12 | A visitor who is not signed in is sent to login carrying the target path, whatever the route requires |
| AuthGuards.RequireAuthIsFirstFailingCheck | src/middleware/auth.js:3-35 | For a signed-in user the guard redirects to the first failing setup check in the order email, SIM, mail account, home directory, and passes exactly when every required check is met |
| AuthGuards.FewerRequirementsStillPass | src/middleware/auth.js:14-34 | A route requiring a subset of another's setup steps passes whenever the other passes |
| AuthGuards.RefreshTokenGuardDecides | src/middleware/auth.js:37-61 | A refresh is attempted exactly for a signed-in user; the guard passes exactly when the user is a visitor or the refresh reports success, and otherwise sends the user to login carrying the target |
| AuthGuards.RedirectIfAuthenticatedDecides | src/middleware/auth.js:63-71 | Passes exactly for visitors; signed-in users go to the dashboard |
| Navigation.AnyHas | src/router/index.js:80-81 | True exactly when some matched record sets the flag |
| Navigation.FlattenFlat | frontend/src/router/index.js:5-47 | A table without children resolves record by record, each location matching its own record's meta only |
| Navigation.Named | src/router/index.js:90-96 | A name designates an entry carrying that name, and none when no entry carries it |
| Navigation.NamedFirst | src/router/index.js:90-96 | A name designates the first entry carrying it |
| Navigation.OwnMeta | frontend/src/router/index.js:59 | A location's own meta is that of the deepest record it matches |
| AppRouter.AuthChildPaths | src/router/index.js:30-48 | The sign-in pages resolve to /auth/login, /auth/register and /auth/verify-email |
| AppRouter.AuthEntries | src/router/index.js:27-50 | The children of /auth resolve to the three sign-in pages, each behind the (empty) meta of /auth and its own guest-only meta |
| AppRouter.EntriesAre | src/router/index.js:5-58 | The route table resolves to exactly nine locations, with /auth redirecting to /auth/login |
| AppRouter.RouteTableMeta | src/router/index.js:5-58 | A location is guest-only exactly when it is login, register or verify-email, and needs authentication exactly when it is the dashboard |
| AppRouter.ScrollBehaviorDecides | src/router/index.js:63-74 | A saved position is restored; otherwise a hash is scrolled to smoothly; otherwise the page goes to the top, each exactly in its case |
| AppRouter.BeforeEachDecides | src/router/index.js:78-100 | The user is loaded exactly when signed in and not loaded yet; the guard sends to login carrying the target exactly when some matched record requires authentication and the user is not signed in, to the dashboard exactly when some requires a guest and the user is signed in, and otherwise proceeds |
| AppRouter.LoginInTable | src/router/index.js:31-36 | The name login designates the /auth/login location |
| AppRouter.DashboardInTable | src/router/index.js:52-57 | The name dashboard designates the /dashboard location |
| AppRouter.RedirectTargets | src/router/index.js:88-96 | login is /auth/login, guest-only under /auth; dashboard is /dashboard, needing authentication |
| AppRouter.RedirectsSettle | src/router/index.js:78-100 | Wherever the guard redirects a loaded user or a visitor, the guard lets the same user through |
| AppRouter.TableGuarded | src/router/index.js:88-96 | A visitor asking for the dashboard is sent to login carrying /dashboard; a signed-in user asking for login is sent to the dashboard |
| FrontendRouter.RouteTableMeta | frontend/src/router/index.js:5-47 | Each location matches its own record only; it needs authentication exactly when it is the dashboard and is guest-only exactly when it is a sign-in or password page, never both |
| FrontendRouter.BeforeEachDecides | frontend/src/router/index.js:55-71 | The guard sends to login, without a redirect query, exactly when the route requires authentication and the user is not signed in; to the dashboard exactly when it requires a guest, the user is signed in and the first case does not apply; otherwise it proceeds |
| FrontendRouter.RedirectTargets | frontend/src/router/index.js:59-67 | login is the guest-only /login and dashboard the protected /dashboard |
| FrontendRouter.RedirectsSettle | frontend/src/router/index.js:55-71 | Wherever the guard redirects, it lets the same user through |
| Common.CodeOr | backend/src/middleware/error.js:9 | The fallback exactly when the value is absent or zero, the value itself otherwise |
| Common.TextOr | backend/src/middleware/error.js:10 | The fallback exactly when the text is absent or empty, the text itself otherwise |
| Common.ToHex | backend/src/routes/auth.routes.js:44 | Two lower-case hexadecimal digits per byte |
| Common.HexRoundTrip | backend/src/routes/auth.routes.js:44 | Decoding the hexadecimal text of a token gives the bytes back |
| Common.HexInjective | backend/src/routes/auth.routes.js:44 | Different random bytes never give the same hexadecimal token |
| Common.ToLower | backend/src/models/user.model.js:17 | Lower-casing keeps the length and maps each character on its own |
| Common.ToLowerIdempotent | backend/src/models/user.model.js:17 | Lower-casing twice is lower-casing once |
| Common.TrimProperties | backend/src/models/user.model.js:8 | A trimmed value has no leading or trailing white space, occurs in the original, and trimming again changes nothing |
| Common.ParseIntOfDecimal | backend/src/services/cleanup.service.js:8 | Parsing the decimal text of a number gives the number back |
| Common.SplitOnJoin | backend/src/routes/admin.routes.js:23 | Joining the pieces of a split with the separator gives the text back, and no piece holds the separator |
| Common.JoinSplitOn | backend/src/routes/admin.routes.js:23 | Splitting a join of separator-free pieces gives the pieces back |
| Common.SplitOutputLine | backend/src/routes/admin.routes.js:154 | A command's output line of space-separated words, trimmed and split at spaces, gives the words back |
| Common.SplitSpacesConcat | server/src/models/user.model.js:13 | Splitting at white space loses exactly the white space |
| Common.SplitSpacesWords | server/src/models/user.model.js:13 | Splitting a non-empty trimmed text at white space gives no empty word |

## Left out

- Mail delivery, SMTP and the notification services: a send is a parameter that succeeds or fails. The model records the attempt, not the message content beyond recipient and kind.
- bcrypt, JWT and SHA-256 are symbolic. `Hashed` wraps a secret, and the digest and random bytes are parameters. Signing and checking access and refresh tokens are not modelled.
- The backend controller's `refreshToken` (backend/src/controllers/auth.controller.js:362-421) and `logout` (424-444) handlers only issue or clear JWT cookies. They are not modelled because they touch no record.
- The login route at backend/src/routes/auth.routes.js:90 only forwards to the controller's `login`, which is modelled.
- The backend schema names its address path `email`, while the backend handlers read and write `regularEmail`. The model's `regularEmail` field stands for the schema's `email` path: its validation, its setters and the cast of an `{ email }` filter. A filter on `regularEmail` compares the value as sent. The server's `verificationTokenExpires` is modelled as `verificationExpires`, and the schema's `resetPasswordToken` as `passwordResetToken`.
- A lookup without `+password` gives the record with its password `Unloaded`, and login's lookup gives it loaded. No other `select` projection is modelled.
- The backend schema declares `email`, `emailVerificationToken`, `emailVerificationExpires` and `resetPasswordToken`. It declares none of the paths the backend handlers use instead: `regularEmail`, `simNumber`, `isSimVerified`, `verificationToken`, `verificationExpires`, the SIM code fields, `registrationExpires`, `isExpired`, `linuxUserCreated` and `isTest`. Under Mongoose's default strict mode, writes to undeclared paths are dropped and read back as undefined. The model gives every handler the full `Account` record, so those values persist; the strict-mode drop is not modelled.
- The server controller looks records up by `email`, creates them with `email` and mails `user.email` (server/src/controllers/auth.controller.js:17, 24, 34, 66, 118, 134, 144). Its schema declares only `regularEmail` (server/src/models/user.model.js:29). The model reads every such use as `regularEmail`, so it does not capture what Mongoose does with a filter or a write on the undeclared path.
- An absent request field is the empty string, except login's identifier and the reset token, which are `Option`s: the source calls a string method on them, and an absent one answers 500. What a Mongo filter holding an undefined value matches is not modelled.
- ToLower: maps only the ASCII letters A-Z, and `IsSpace` (for `\s` and `trim`) covers only ASCII white space; every length counts characters. JavaScript's `toLowerCase` maps all of Unicode and can change the length ("İ" becomes two code units). `trim` and `\s` also match U+00A0, U+FEFF and U+2028, and `.length` counts UTF-16 code units. On such input the model's validation differs from the source's: "Ana" U+00A0 "Maria" is two words for server/src/models/user.model.js:13 and one word in the model.
- RegisterInserts, RegisteredRecord, RouteRegisteredRecord and RegisterThenVerify: describe the intended registration, with the address stored. In the source the backend schema requires `email` (backend/src/models/user.model.js:22-24), neither handler sets it (backend/src/controllers/auth.controller.js:53-60, backend/src/routes/auth.routes.js:49-57), and strict mode drops `regularEmail`. So every backend registration is refused: the controller answers 400 "Validation failed" and the route 500 (`BackendAuthController.RegisterAsWrittenRefused`, `BackendAuthRoutes.RegisterAsWrittenRefused`).
- VerifyEmail, VerifyPhone, ResendVerificationEmail, PostVerifyEmail, GetVerifyEmail, ResendVerification and ForceVerify: on the backend their confirming or issuing save is always refused, so the model states no confirmation, single use or issued token for them. Those properties hold of the server's handlers only (`ServerAuthController.VerifyEmailConfirms`, `ServerAuthController.ForgotPasswordIssues`).
- MarkExpired: describes the store the expiration pass leaves only on the server; on the backend the pass leaves the store unchanged (`Cleanup.ExpirationPass`).
- The backend login calls `user.validatePassword`, which the backend schema does not define. It is modelled as a validator parameter; its absence stands for the resulting TypeError.
- The backend `forgotPassword` calls `generatePasswordResetToken`, which is not defined. It is modelled as the TypeError and its 500 reply.
- The server controller uses `crypto` without importing it. It also calls `createVerificationToken` and `createPasswordResetToken`, which its schema does not define. The model gives these their intended behaviour through the random, digest and lifetime parameters, not the runtime failure.
- The `require` call at backend/src/routes/auth.routes.js:293 fails in an ES module. `hasRequire` chooses between that failure (500 after the deletion) and the intended `userdel` run.
- One `now` serves a whole request or sweep, where the source reads the clock several times. Calendar arithmetic on days is `deleteDays` × 86,400,000 ms, with no daylight-saving skew.
- `expiryHours` is read by the cleanup constructor but never used by the sweep. The model keeps the field and nothing reads it.
- `AppError` lives in backend/src/utils/error.js, which is not part of this model. The error's class is the `isAppError` flag.
- A `ValidationError` without an `errors` object would make `Object.values` throw. The model takes its field messages as a sequence that is always present.
- Mongo validation and duplicate-key error messages are approximated by `Store.SaveErrorMessage`: the path messages joined, or a fixed text for a duplicate key and for a missing document.
- A save writes the whole document, with no partial `$set` updates. Failures of `find`, `findOne` and `deleteMany` themselves (a lost connection) are not modelled.
- Command strings are the source's literal text, so quoting and shell injection are not modelled. The server-side storage and linux-user services are reached only through the shell executor.
- The internals of `loadUser` in the client store are a parameter (`authenticatedAfterLoad`), and so is `refreshToken` (`AuthGuards.Refresh`). The Pinia stores themselves, the components and the route components' lazy loading are not modelled.
- Response bodies are modelled as status, code and message, plus the fields the properties need (the listing projection, the reported groups). Other JSON payload fields are not modelled.
- Console logging, the cron trigger, database connections, the app bootstraps and concurrency between requests are not modelled.
- An error passed to `next(err)` in the server controller is a `Raised` value. The error page it would render is not modelled.

## Findings

| source | as written | input that shows it | evidently intended | confidence | as-written member | corrected member |
|---|---|---|---|---|---|---|
| backend/src/controllers/auth.controller.js:53-63 | The new document sets `regularEmail`, which the schema does not declare, and leaves the required `email` path unset | any registration with every field given and no duplicate: validation reports "Email is required" and the reply is 400 "Validation failed" | the address is stored and the account is created, with its verification mail | not executed | BackendAuthController.RegisterAsWrittenRefused | BackendAuthController.RegisterInserts |
| backend/src/routes/auth.routes.js:49-59 | The new document sets `regularEmail`, which the schema does not declare, and leaves the required `email` path unset | any registration with every field given and no duplicate: the save throws the validation error and the reply is 500 "An error occurred during registration" | the address is stored and the reply is 201 "pending" | not executed | BackendAuthRoutes.RegisterAsWrittenRefused | BackendAuthRoutes.RegisterReplies |
