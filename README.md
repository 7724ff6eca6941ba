# Item tracker: a Dafny model of the CRUD, ownership and envelope layer

This project models the item-tracking application: authenticated users create,
list, read, update and delete their own text items through a REST API, and a
single-page dashboard uses that API. The model covers both sides:

- **Backend.** The `Item` entity with its defaults and validation rules; the
  storage gateway, as a class over an in-memory `map` from `id` to record; the
  response envelope; and the five request handlers with their existence (404),
  ownership (403), validation (400) and fault (500) paths.
- **Client.** The API adapter (bearer header, envelope unwrapping), the item
  form, the dashboard's list state, the demonstration authentication service
  and the sign-in / sign-up page.

The model injects everything the code takes from outside:

- the fresh id (`uuidv4`) and each clock reading;
- the caller's verified claim `sub`;
- whether a store call throws (`ItemHandlers.Fault`);
- whether the request body parses (`Option<ItemData>`, where `None` means malformed JSON);
- what the HTTP client hands back for a request (`ItemsApi.Reply`);
- the token held in local storage.

Each request runs atomically against the table.

Modules, one per source file:

| module | file |
|---|---|
| `ItemModel` | `backend/src/models/Item.js` |
| `Store` | `backend/src/utils/dynamodb.js` |
| `Envelope` | `backend/src/utils/response.js` |
| `ItemHandlers` | `backend/src/handlers/items.js` |
| `ClientTypes` | `frontend/src/types/index.ts` |
| `ItemsApi` | `frontend/src/services/api.ts` |
| `ItemForm` | `frontend/src/components/ItemForm.tsx` |
| `Dashboard` | `frontend/src/pages/Dashboard.tsx` |
| `Auth` | `frontend/src/services/auth.ts` |
| `AuthPage` | `frontend/src/pages/AuthPage.tsx` |

Two helper modules support them. `Wrappers` holds Option and Result. `JsText`
holds JavaScript's `trim`, the `||` fallback on strings, and `join`.

Behaviour of the code that the model makes explicit:

- **The owner of an item is its `userId` attribute**, set from the caller's
  verified claim `sub`.
- **Create keeps a client-supplied `id`, `createdAt` and `updatedAt`.** It
  spreads the whole body into the item and overrides only `userId`, so a
  non-empty `id` in the body survives. The store's put is an unconditional
  upsert, so a create that names an existing id replaces that record, even
  one owned by another user (`CreateWithBodyIdReplacesStoredRecord`). With no
  `id` in the body and an unused fresh id, create adds exactly one key
  (`CreateWithFreshIdAddsOneKey`).
- **Update parses the body before its existence check.** A malformed body on
  a missing id therefore yields 500, not 404.
- **Update does not re-validate.** It writes the body's `name` and
  `description` as given, blank values included. The model stores an
  attribute the body lacks as absent; whether the real store accepts that
  write is left open under "Left out".
- **The client never sees the backend's error messages.** The axios instance
  accepts only 2xx statuses, and every `error(...)` the handlers send uses
  400, 403, 404 or 500. Each such reply rejects the request with "Request
  failed with status code N" before the envelope is read, so the dashboard
  shows that text, never "Item not found", "Unauthorized" or a validation
  message (`ItemsApi.UnwrapError`, `ItemsApi.NotFoundSeenAsStatus`).
- **Sign-in never creates a stored token.** The mock session only echoes a
  token that is already stored, so `HandleSignIn` leaves the stored token as
  it was on every path. `getCurrentUser` names `demo@example.com` whoever
  signed in.
- **The form's checks are stricter than the server's.** The form requires a
  trimmed length of at least 2 for the name and 10 for the description. The
  page requires 8 password characters and the service 6. The model proves
  that the form's and the page's checks imply the server's and the
  service's.

## Model

| member | source | states |
|---|---|---|
| `JsText.Trim` | backend/src/models/Item.js:16 | the trimmed string is empty exactly when every character is whitespace, and otherwise neither starts nor ends with whitespace |
| `JsText.TrimIsSlice` | backend/src/models/Item.js:16 | the trimmed string is the slice of the input that starts after its leading whitespace, and everything after the slice is whitespace too |
| `ItemModel.Violations` | backend/src/models/Item.js:13-29 | "Name is required" is reported iff the name is absent or trims to empty; the same holds for the description; "User ID is required" is reported iff the user id is absent or empty; only these messages occur, in the order name, description, user id, at most three; the list is empty iff all three rules hold |
| `ItemModel.Build` | backend/src/models/Item.js:4-11 | a supplied non-empty id, createdAt or updatedAt is kept, and a missing or empty one is replaced by the fresh id or the clock reading; name, description and userId pass through unchanged |
| `ItemModel.Item.constructor` | backend/src/models/Item.js:4-11 | the new item's JSON view is `Build` of its inputs |
| `ItemModel.Item.Validate` | backend/src/models/Item.js:13-29 | returns exactly `Violations` of the item's fields; it has no modifies clause, so no field changes |
| `ItemModel.Item.ToJSON` | backend/src/models/Item.js:31-40 | exactly the six attributes, each copied from the item |
| `Store.Put` | backend/src/utils/dynamodb.js:7-14 | upsert by id: the record sits at its id, the other keys keep their records, and keys stay equal to ids |
| `Store.Find` | backend/src/utils/dynamodb.js:16-24 | returns the record at `id` iff the key is present, and nothing otherwise |
| `Store.OwnedBy` | backend/src/utils/dynamodb.js:26-38 | exactly the stored records whose userId is the given one |
| `Store.Patch` | backend/src/utils/dynamodb.js:40-60 | name, description and updatedAt take the new values; id, userId and createdAt are kept; no other key changes |
| `Store.Remove` | backend/src/utils/dynamodb.js:62-69 | only key `id` goes; an absent key leaves the table as it was |
| `Store.RemoveIdempotent` | backend/src/utils/dynamodb.js:62-69 | deleting twice has the effect of deleting once |
| `Store.FindAfterPut` | backend/src/utils/dynamodb.js:7-24 | a lookup after an upsert returns the record written |
| `Store.FindAfterRemove` | backend/src/utils/dynamodb.js:62-69 | a lookup after a delete finds nothing |
| `Store.ItemTable.CreateItem` | backend/src/utils/dynamodb.js:7-14 | the table becomes `Put` of the old table; keys stay equal to ids |
| `Store.ItemTable.GetItem` | backend/src/utils/dynamodb.js:16-24 | returns `Find` on the table |
| `Store.ItemTable.GetItemsByUser` | backend/src/utils/dynamodb.js:26-38 | returns each record of `OwnedBy` for that user, each exactly once, and nothing else |
| `Store.ItemTable.UpdateItem` | backend/src/utils/dynamodb.js:40-60 | the table becomes `Patch` of the old one, and the full post-update record is returned |
| `Store.ItemTable.DeleteItem` | backend/src/utils/dynamodb.js:62-69 | the table becomes `Remove` of the old one |
| `Envelope.CreateResponse` | backend/src/utils/response.js:1-12 | the given status and body, and the same four CORS headers whatever the status and body |
| `Envelope.Success` | backend/src/utils/response.js:14-19 | body `{success: true, data}` with no error; status 200 unless one is given |
| `Envelope.Error` | backend/src/utils/response.js:21-26 | body `{success: false, error: message}` with no data; status 500 unless one is given |
| `ItemHandlers.Authorize` | backend/src/handlers/items.js:52-60 | existence is checked before ownership: a missing id is Missing whoever asks; a present record is Foreign iff its userId is not the caller's |
| `ItemHandlers.Refusal` | backend/src/handlers/items.js:54-60 | Missing gives 404 "Item not found" and Foreign gives 403 "Unauthorized" |
| `ItemHandlers.Internal` | backend/src/handlers/items.js:26-28 | the `catch` response of every handler: status 500, `success` false, error "Internal server error", no data, the CORS headers |
| `ItemHandlers.Claimed` | backend/src/handlers/items.js:10-13 | the body's attributes, with userId replaced by the caller's claim |
| `ItemHandlers.CreatedRecord` | backend/src/handlers/items.js:10-15 | the stored record is owned by the caller; its id, createdAt and updatedAt are the body's when non-empty, else the fresh id and the clock readings; name and description are the body's |
| `ItemHandlers.CreatedRecordIgnoresBodyUserId` | backend/src/handlers/items.js:10-15 | the record create builds is the same whatever `userId` the body holds, or if it holds none: the claim overrides it |
| `ItemHandlers.CreateWithFreshIdAddsOneKey` | backend/src/handlers/items.js:10-22 | with no id in the body and an unused fresh id, create adds one key and keeps every stored record |
| `ItemHandlers.CreateWithBodyIdReplacesStoredRecord` | backend/src/handlers/items.js:10-22 | a non-empty body id that is already stored is reused, and the upsert hands that record to the caller |
| `ItemHandlers.Handlers.Create` | backend/src/handlers/items.js:5-29 | a malformed body gives 500; violations give 400 with the messages joined by ", "; a store fault gives 500; in all three cases the table is unchanged; otherwise the record, owned by the caller, is upserted and returned with 201 |
| `ItemHandlers.Handlers.List` | backend/src/handlers/items.js:32-44 | returns the `success` response (status 200, the CORS headers) whose data is exactly the caller's records, each once; a store fault gives 500 |
| `ItemHandlers.Handlers.Get` | backend/src/handlers/items.js:46-67 | 404 for a missing id, then 403 for a foreign record, else 200 with the record; a store fault gives 500 |
| `ItemHandlers.Handlers.Update` | backend/src/handlers/items.js:69-93 | a malformed body gives 500 before any lookup; 404 or 403 leave the table unchanged; only after both checks pass is name/description patched unvalidated, and the patched record is returned with 200 |
| `ItemHandlers.Handlers.Delete` | backend/src/handlers/items.js:95-118 | 404 or 403 leave the table unchanged; only after both checks pass is the key removed, with 200 "Item deleted successfully" |
| `ItemHandlers.Walkthrough` | backend/src/handlers/items.js:5-118 | create as u1 gives 201 and a record owned by u1 with updatedAt "t0"; list gives 200 and holds that record; get as u2 gives 403; update gives 200, the new name and updatedAt "t1", the update's clock reading; delete gives 200; get after delete gives 404 |
| `ItemHandlers.RejectedCreate` | backend/src/handlers/items.js:16-20 | a create with an empty name gives 400 with the message "Name is required" alone |
| `ItemsApi.Unwrap` | frontend/src/services/api.ts:24-57 | yields `data` iff the reply is delivered with `success` set and `data` present; otherwise it throws the envelope's error, or the call's fallback when that error is missing or empty, or the HTTP client's rejection message |
| `ItemsApi.UnwrapDelete` | frontend/src/services/api.ts:60-65 | succeeds iff the reply is delivered with `success` set, whatever `data` holds |
| `ItemsApi.Receive` | frontend/src/services/api.ts:6-11 | the instance keeps axios's default status check: a reply is delivered with its envelope iff its status is 2xx; otherwise the request rejects with "Request failed with status code N" |
| `ItemsApi.UnwrapSuccess` | frontend/src/services/api.ts:26-28 | a `success(d)` response with a 2xx status (the backend's 200 and 201) gives back `d`; with any other status the call throws the status message |
| `ItemsApi.UnwrapError` | frontend/src/services/api.ts:26-29 | an `error(m)` response always makes the call throw: `m`, or the fallback when `m` is empty, if its status is 2xx; the status message if not, which covers every status the backend's `error` calls use |
| `ItemsApi.NotFoundSeenAsStatus` | frontend/src/services/api.ts:26-29 | the backend's 404 makes the client throw "Request failed with status code 404", whatever message the envelope holds |
| `ItemsApi.AttachToken` | frontend/src/services/api.ts:14-20 | Authorization is set to "Bearer " + token iff a non-empty token is stored; otherwise the headers are unchanged |
| `ItemForm.NameError` | frontend/src/components/ItemForm.tsx:53-57 | "Name is required" iff the trimmed name is empty, and the 2-character message iff its trimmed length is 1; no error iff the trimmed length is at least 2 |
| `ItemForm.DescriptionError` | frontend/src/components/ItemForm.tsx:59-63 | "Description is required" iff the trimmed description is empty, and the 10-character message iff its trimmed length is 1 to 9 |
| `ItemForm.FormErrors` | frontend/src/components/ItemForm.tsx:50-67 | at most one message per field, keyed by field name, present iff that field's check fails; empty iff both checks pass |
| `ItemForm.FormAcceptedPassesServer` | frontend/src/components/ItemForm.tsx:53-63 | a name and description the form accepts are not blank to the server, and with a caller identity the server reports no violation |
| `ItemForm.FormState.constructor` | frontend/src/components/ItemForm.tsx:29-33 | starts from the item's name and description, or empty strings, with no errors |
| `ItemForm.FormState.Reset` | frontend/src/components/ItemForm.tsx:35-48 | loads the item's values, or empty strings, and clears all errors |
| `ItemForm.FormState.ValidateForm` | frontend/src/components/ItemForm.tsx:50-67 | records `FormErrors` of the current values and returns true iff there are none |
| `ItemForm.FormState.HandleSubmit` | frontend/src/components/ItemForm.tsx:69-75 | when validation passes, the form values go to `onSubmit` and `onClose` is called; otherwise neither happens |
| `ItemForm.FormState.HandleChange` | frontend/src/components/ItemForm.tsx:77-91 | only the edited field changes; that field's error is blanked only if one was showing |
| `Dashboard.ReplaceById` | frontend/src/pages/Dashboard.tsx:65-67 | keeps length and order, replaces every item with the id, and keeps every other item |
| `Dashboard.RemoveById` | frontend/src/pages/Dashboard.tsx:77 | exactly the items with another id remain |
| `Dashboard.RemoveByIdAppend` | frontend/src/pages/Dashboard.tsx:77 | the filter distributes over concatenation, so the kept items stay in their order |
| `Dashboard.RemoveAbsentId` | frontend/src/pages/Dashboard.tsx:77 | filtering out an id that no item carries changes nothing |
| `Dashboard.DashboardState.constructor` | frontend/src/pages/Dashboard.tsx:27-31 | no items, loading, no error, form closed, nothing being edited |
| `Dashboard.DashboardState.FetchItems` | frontend/src/pages/Dashboard.tsx:38-49 | on success the items are replaced; on failure the items stay and the error is set; loading always ends false |
| `Dashboard.DashboardState.HandleCreateItem` | frontend/src/pages/Dashboard.tsx:51-58 | on success the new item comes first and the previous items follow in order; on failure the items stay and the error is set |
| `Dashboard.DashboardState.HandleUpdateItem` | frontend/src/pages/Dashboard.tsx:60-72 | with no edited item nothing changes; on success the items become `ReplaceById` and editing ends; on failure the items stay and the error is set |
| `Dashboard.DashboardState.HandleDeleteItem` | frontend/src/pages/Dashboard.tsx:74-81 | on success the items become `RemoveById`; on failure the items stay and the error is set |
| `Dashboard.DashboardState.HandleEditItem` | frontend/src/pages/Dashboard.tsx:83-86 | remembers the item and opens the form |
| `Dashboard.DashboardState.HandleFormClose` | frontend/src/pages/Dashboard.tsx:88-91 | closes the form and forgets the edited item |
| `Auth.FindIndex` | frontend/src/services/auth.ts:19 | the first user with the email, or none iff no user has it |
| `Auth.FindAppended` | frontend/src/services/auth.ts:19-30 | a user appended with a new email is the one `find` then returns |
| `Auth.Register` | frontend/src/services/auth.ts:13-36 | a known email fails with the "already exists" message, checked first; then a password under 6 characters fails; both leave the table unchanged; a success appends exactly the new user at the end and returns its email and name; unique emails stay unique |
| `Auth.Authenticate` | frontend/src/services/auth.ts:39-60 | "No account found..." iff no user has the email; then "Incorrect password..." on a mismatch; otherwise the stored email and name, with no password |
| `Auth.SignInAfterSignUp` | frontend/src/services/auth.ts:30-56 | after a successful sign-up, signing in with the same email and password returns that email and name |
| `Auth.CurrentUser` | frontend/src/services/auth.ts:74-84 | succeeds iff a token is stored, and then names demo@example.com |
| `Auth.CurrentSession` | frontend/src/services/auth.ts:87-102 | succeeds iff a token is stored, and its ID token is that same token |
| `Auth.AuthService.constructor` | frontend/src/services/auth.ts:5-9 | starts from the three demonstration users, whose emails are distinct |
| `Auth.AuthService.SignUp` | frontend/src/services/auth.ts:13-36 | the outcome and the new table are `Register` of the old table; emails stay unique |
| `Auth.AuthService.SignIn` | frontend/src/services/auth.ts:39-60 | returns `Authenticate` on the table and does not change it |
| `AuthPage.PreCheck` | frontend/src/pages/AuthPage.tsx:79-89 | the password mismatch is checked first, then the 8-character minimum; passes iff the passwords match and have at least 8 characters |
| `AuthPage.PageChecksSubsumeService` | frontend/src/pages/AuthPage.tsx:85 | a form that passes the page's checks is never refused by the service for a short password |
| `AuthPage.PageState.constructor` | frontend/src/pages/AuthPage.tsx:40-49 | tab 0, not loading, no error or success message, all four fields empty; the stored token as given and no navigation yet |
| `AuthPage.PageState.HandleTabChange` | frontend/src/pages/AuthPage.tsx:52-62 | sets the tab and clears the error, the success message and all four fields |
| `AuthPage.PageState.HandleChange` | frontend/src/pages/AuthPage.tsx:64-71 | only the edited field takes the value |
| `AuthPage.PageState.HandleSignUp` | frontend/src/pages/AuthPage.tsx:73-116 | a failed pre-check sets its message and leaves the user table unchanged; a successful sign-up sets the success message, clears the form and switches to tab 0; a failed sign-up shows the service's error or the fallback; loading ends false on every path |
| `AuthPage.PageState.HandleSignIn` | frontend/src/pages/AuthPage.tsx:118-142 | success navigates to the dashboard; failure shows the service's error or the fallback; the stored token is the same afterwards; loading ends false |

## Left out

- The AWS SDK transport, `JSON.parse`/`JSON.stringify`, `uuidv4`, the clock, `console.error` logging, async/await, the simulated `setTimeout` delays and axios networking are not modelled. Their results are parameters: a malformed body is `None`, a throwing store call is a `Fault`, and the HTTP client's result is a `Reply`.
- Store.ItemTable.UpdateItem: requires the key to be present. On an absent key DynamoDB's update would create a new item. No handler reaches that case, because each checks existence first.
- A store that rejects the write of an absent attribute value is not modelled. Update with a body lacking `name` or `description` stores the attribute as absent; if the real store throws instead, that is the `WriteFault` path.
- A JSON `null` body is covered through the existing cases rather than as a value of its own. For create, `{...null, userId}` is `{userId}`, which is a body with every attribute absent, so create answers 400 with the name and description messages. For update, the handler reads the body's attributes only inside `updateItem`, after the 404 and 403 checks; the throw there is the `WriteFault` path.
- Attribute values that are not strings are not modelled; every attribute is an optional string. The code's behaviour for them differs by handler and attribute:
  - Create's `name` and `description`: a falsy one such as `0` or `false` fails the `!this.name` test and gives the same 400 as an absent one; a truthy one, such as a number, makes `trim` throw, which gives 500.
  - Create's `id`, `createdAt` and `updatedAt`: a truthy non-string value is kept as it is, never trimmed, and handed to the put. The table's key is the string `id`, so a numeric, boolean or object `id` makes the put throw; that is the model's `WriteFault` path, which gives 500. For a non-string timestamp, whether the put accepts it depends on the store's schema, which the code does not show.
  - Update: the body goes to `updateItem` without validation, so a non-string `name` or `description` (`0`, `5`, `false`) is stored and returned as given with 200.
- Store.OwnedBy: the query reads only its first result page, because no `LastEvaluatedKey` loop follows it, and the secondary index it reads is eventually consistent. `OwnedBy` and `GetItemsByUser` promise every matching record, which the real query gives only for a result under the page size and once the index has caught up.
- The check-then-act race between `getItem` and `updateItem`/`deleteItem` is left out: each request is atomic here.
- ItemsApi.Unwrap: a network failure is not modelled beyond its message. It arrives as `Reply.Rejected`, like a non-2xx status (`ItemsApi.Receive`). The dashboard's handlers take a `Reply` directly, so they cover both kinds of rejection.
- Dashboard: every thrown value is an `Error`, so the `instanceof Error` fallback messages of the page are not modelled. `handleLogout`, the initial fetch effect and rendering are left out.
- Auth: `signOut` only waits and succeeds, so it is not modelled. The `catch` branches of `signUp`/`signIn` cannot be reached, because nothing in their `try` throws.
- AuthPage.PageState.HandleSignUp: the `catch` branch is not modelled, because the service never throws.
- String lengths (`trim().length`, `password.length`) count Unicode scalar values. JavaScript counts UTF-16 code units, so the two differ for characters outside the Basic Multilingual Plane.
- `frontend/src/components/ItemCard.tsx` (rendering and locale-dependent dates) and `frontend/src/App.tsx` (theme and route guards) are not part of this model.
