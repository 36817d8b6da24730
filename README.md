# Combine: wardrobe, outfit and account logic in Dafny

Combine is a wardrobe app. It has an Express/MongoDB backend and a React Native client. This project models the parts of both that decide what is stored and what is answered.

**Backend**
- **Response envelope.** `Response.successResponse` and `Response.errorResponse` build the JSON bodies the routes send (module `Response`).
- **Owner-scoped queries.** Every collection filters by the requester's id. The find, update and delete queries keyed by `{ _id, userId }` are one generic concept, `Tables.Doc` with `OwnedBy`, `FindOwned`, `UpdateOwned` and `DeleteOwned`.
- **Wardrobe routes** (`Clothes.Wardrobe`): list, add (a required-field guard and the image upload), update and delete clothing items.
- **Outfit-log routes** (`OutfitItems.OutfitLog`): list, add, update and delete rating/like entries.
- **Outfit controller** (`Outfits.OutfitHistory`):
  - generating a suggested outfit. The generator is given the requester's clothing and the outfits to avoid (disliked or still suggested).
  - changing an outfit's status between `suggested`, `worn` and `disliked`.
- **User routes** (`Users.UserDirectory`): sign-up with its guards in order, login with its four failure answers, and delete.
- **Older auth controller** (`Auth.AccountStore`): register and login with bare `{ message }` answers.

**Client screens**
- **Outfits screen** (`OutfitScreen.Screen`):
  - the favourites/custom tabs;
  - one expanded card at a time;
  - the rename dialog, with JavaScript's `trim` blank check;
  - a new outfit arriving through the route parameters.
- **Style screen** (`EditStyle`): the colour toggle capped at three, and the uncapped style toggle.
- **Important-dates editors:**
  - the newer editor (`EditDates.DatesEditor`) checks the date against the `YYYY-MM-DD` pattern;
  - the older one (`LegacyEditDates.LegacyDatesEditor`) has no format check;
  - both share `ImportantDates`.

**How it is modelled**
- **Collections.** Each collection is a class whose field is a sequence of records. It hands out fresh ids from a counter and keeps an invariant `Valid()`: ids are unique and below the counter, and emails are unique where the code checks for duplicates, for requests handled one at a time.
- **Handler results.** Each route handler is a method. Its result is the status and body it sends, or `NotSent` when it returns without answering.
- **Library calls** are function parameters:
  - the outfit generator;
  - password hashing and comparison;
  - token signing.
- **Values the handler reads from its surroundings** are parameters: the date and random ids.

## Model

| member | source | states |
|---|---|---|
| Response.SuccessResponse | backend/api/lib/Response.js:8-13 | the envelope is a success carrying the code and data it was given |
| Response.ErrorResponse | backend/api/lib/Response.js:14-31 | a CustomError keeps the caller's code and its own message; any other value becomes code 500 with "unknown error"; the description is copied in both cases |
| Response.ErrorCodeKept | backend/api/lib/Response.js:14-31 | the envelope's code equals the caller's exactly when the error is a CustomError or the code is already 500 |
| Response.OtherErrorIgnoresCode | backend/api/lib/Response.js:24-30 | for a non-CustomError, the caller's code has no effect on the envelope |
| Response.Accepted | backend/api/routes/clothes.js:104-109 | a success reply is sent with the status its envelope carries as its code, and the envelope holds the data unchanged |
| Response.Rejected | backend/api/routes/clothes.js:53-58 | a refusal built from a plain object sends the caller's HTTP status, but its envelope says 500 |
| Response.Crashed | backend/api/routes/clothes.js:111-115 | the catch branch sends 500, with a failure envelope of code 500, the message "unknown error" and no description |
| Tables.OwnedBy | backend/api/routes/clothes.js:19 | `find({ userId })` returns exactly the stored documents of that owner and no others |
| Tables.FindOwned | backend/api/routes/clothes.js:126-127 | a `{ _id, userId }` lookup finds something exactly when a stored document has both that id and that owner, and what it finds is such a document |
| Tables.UpdateOwned | backend/api/routes/clothes.js:126-130 | `findOneAndUpdate`: length kept; documents not matching id and owner are untouched; matching ones are replaced by the update |
| Tables.DeleteOwned | backend/api/routes/clothes.js:162-165 | `findOneAndDelete`: what is left is exactly the documents not matching id and owner |
| Tables.OwnedByAppend | backend/api/routes/outfitItems.js:11 | an inserted document joins the end of its owner's listing and no other owner's |
| Tables.InsertKeyed | backend/api/routes/clothes.js:102 | inserting a document with a fresh id keeps ids unique and below the counter |
| Tables.UpdateOwnedIsolation | backend/api/routes/clothes.js:126-130 | an update that keeps the owner changes no other user's listing |
| Tables.UpdateOwnedMiss | backend/api/routes/clothes.js:126-132 | when no document matches, the update changes nothing |
| Tables.FindAfterUpdate | backend/api/routes/outfitItems.js:70-74 | with `{ new: true }`, an owner-keeping update leaves the updated document findable under the same id and owner |
| Tables.UpdateOwnedKeyed | backend/api/routes/clothes.js:126-130 | an id-keeping update keeps ids unique and below the counter |
| Tables.DeleteOwnedKeyed | backend/api/routes/outfitItems.js:104-107 | deleting keeps ids unique and below the counter |
| Tables.DeleteOwnedMiss | backend/api/routes/outfitItems.js:104-109 | when no document matches, deleting changes nothing |
| Tables.DeleteOwnedHit | backend/api/routes/outfitItems.js:104-107 | with unique ids, a match is removed and only it: the collection shrinks by exactly one |
| Clothes.RequiredFieldsChecked | backend/api/routes/clothes.js:52 | the add guard passes exactly when name, category, color, occasionId and season are all non-empty; subCategory is not checked, though the refusal message names it |
| Clothes.HasRequiredFields | backend/api/routes/clothes.js:52 | the add guard: name, category, color, occasionId and season are all present and non-empty |
| Clothes.NewCloth | backend/api/routes/clothes.js:84-100 | the saved item belongs to the requester, is active, carries every body field as given, and carries the uploaded image's URL and public id |
| Clothes.ApplyPatch | backend/api/routes/clothes.js:126-130 | every field named in the update body overwrites the stored one, and all other fields stay, including `userId` and `isActive` when named |
| Clothes.Wardrobe.List | backend/api/routes/clothes.js:16-23 | the listing is 200 with the requester's items, all owned by the requester |
| Clothes.Wardrobe.Add | backend/api/routes/clothes.js:33-117 | missing required fields: 400 and nothing stored. No file: nothing sent and nothing stored. Failed upload: 500. Otherwise one item is appended and 201 is sent with it |
| Clothes.Wardrobe.Update | backend/api/routes/clothes.js:120-154 | only the requester's item with that id changes; 404 with the collection unchanged when there is none, else 200 with the updated item |
| Clothes.Wardrobe.Delete | backend/api/routes/clothes.js:157-191 | removes the requester's item with that id. A missing or foreign id ends in the catch branch (500) because the null check comes after the field read, so 404 is never sent |
| Clothes.UpdateKeepingOwnerIsolated | backend/api/routes/clothes.js:124-130 | an update whose body names no other owner cannot change any other user's listing |
| Clothes.UpdateCanReassignOwner | backend/api/routes/clothes.js:122-130 | the update body may name another `userId`. The item then appears in that user's listing and no longer under the requester |
| OutfitItems.NewEntry | backend/api/routes/outfitItems.js:39-45 | the saved entry belongs to the requester and keeps item, rating and description; it is liked exactly when the body's `liked` is true |
| OutfitItems.ApplyPatch | backend/api/routes/outfitItems.js:70-74 | fields named in the update body overwrite the stored ones and the rest stay |
| OutfitItems.EmptyPatchKeeps | backend/api/routes/outfitItems.js:70-74 | an update body naming no field leaves the stored entry as it was |
| OutfitItems.PatchesCompose | backend/api/routes/outfitItems.js:70-74 | repeating an update changes nothing more, and two updates in a row equal one update naming both sets of fields, the later value winning |
| OutfitItems.OutfitLog.List | backend/api/routes/outfitItems.js:9-15 | 200 with the requester's entries, all owned by the requester |
| OutfitItems.OutfitLog.Add | backend/api/routes/outfitItems.js:25-62 | a missing itemId gives 400 and nothing stored; otherwise one entry is appended and 201 is sent with it |
| OutfitItems.OutfitLog.Update | backend/api/routes/outfitItems.js:65-98 | only the requester's entry with that id changes; 404 with nothing changed when there is none, else 200 with the updated entry |
| OutfitItems.OutfitLog.Delete | backend/api/routes/outfitItems.js:101-128 | removes the requester's entry with that id, after which none is findable. 404 with nothing changed when missing; otherwise 200 and exactly one fewer entry |
| OutfitItems.UpdateKeepsEntryScoped | backend/api/routes/outfitItems.js:69-74 | an update that keeps the owner leaves the updated entry findable under its id and owner, and changes no other user's listing |
| Outfits.ParseStatus | backend/api/controllers/outfitController.js:86-88 | a status is accepted exactly when it is present and one of "suggested", "worn", "disliked", and it maps to the status of that name |
| Outfits.ParseStatusName | backend/api/controllers/outfitController.js:86 | every status is accepted under its own name |
| Outfits.Excluded | backend/api/controllers/outfitController.js:25-28 | the avoid-list is exactly the requester's outfits that are disliked or suggested |
| Outfits.WithStatus | backend/api/controllers/outfitController.js:96 | setting the status changes nothing else about the outfit |
| Outfits.NewOutfitName | backend/api/controllers/outfitController.js:50 | a generated outfit is named "New Outfit - " followed by the server's date string |
| Outfits.OutfitHistory.Generate | backend/api/controllers/outfitController.js:12-78 | the checks run in order: no user gives 401; fewer than 3 clothing items gives 400; a generator exception is handed on; no ids or an empty list gives 500. Otherwise exactly one suggested outfit, owned by the requester and holding the generator's ids, is appended and returned with 201 |
| Outfits.OutfitHistory.UpdateStatus | backend/api/controllers/outfitController.js:80-99 | an invalid status gives 400 before any lookup; a missing or foreign outfit gives 404; otherwise only that outfit's status changes, and the updated outfit is returned with 200 |
| Outfits.ExcludedAppend | backend/api/controllers/outfitController.js:25-28 | a stored outfit joins the end of its owner's avoid-list exactly when it is disliked or suggested |
| Outfits.GeneratedIsExcludedNext | backend/api/controllers/outfitController.js:48-57 | a freshly generated outfit is on its owner's avoid-list for the next generation |
| Outfits.StatusUpdateIsolation | backend/api/controllers/outfitController.js:90-97 | a status change by one user never changes another user's avoid-list |
| Outfits.StatusUpdateExclusion | backend/api/controllers/outfitController.js:96-97 | after a status change, the outfit is on the avoid-list exactly when the new status is disliked or suggested. Marking it worn takes it off; setting suggested again puts it back |
| Users.FindByEmail | backend/api/routes/users.js:76 | finds a user exactly when one has that email, and returns such a user |
| Users.HasAt | backend/api/routes/users.js:31 | the '@' check of sign-up and login: the email contains an '@' somewhere |
| Users.SchemaValid | backend/api/db/models/Users.js:4-6 | the schema's `required` rules: userName, email and passwordHash are non-empty |
| Users.RemoveById | backend/api/routes/users.js:137 | every user with another id stays, and none with that id |
| Users.SignupRefusal | backend/api/routes/users.js:14-36 | sign-up is allowed exactly when the email is unregistered, email and password are non-empty, and the email has an '@'. A registered email is reported before missing fields |
| Users.NewUser | backend/api/routes/users.js:38-41 | the stored user is the body with the password replaced by its hash; `isActive` defaults to true |
| Users.AddUnregisteredKeepsDistinct | backend/api/routes/users.js:14-22 | adding a user with a fresh id and an unregistered email keeps ids and emails distinct |
| Users.FindAfterSignup | backend/api/routes/users.js:76 | after a sign-up, a lookup of that email finds the new user, and lookups of other emails are unchanged |
| Users.UserDirectory.Signup | backend/api/routes/users.js:11-54 | a refusal is 400 with its description and changes nothing. A user the schema rejects ends in 500. Otherwise exactly one user is appended and 201 is returned with it |
| Users.UserDirectory.Login | backend/api/routes/users.js:56-133 | the checks run in order: missing fields 400, no '@' 400, unknown email 404, wrong password 401. On success, 200 with the user's id, email and name, and a one-hour token signed over them |
| Users.UserDirectory.Delete | backend/api/routes/users.js:135-158 | the user with that id is removed whoever asks; 404 with nothing changed when there is none |
| Users.RemoveKeepsValid | backend/api/routes/users.js:137 | removing users keeps every stored user valid and keeps ids and emails distinct |
| Users.RemoveMissing | backend/api/routes/users.js:137-147 | deleting an id nobody has changes nothing |
| Auth.FindAccount | backend/controllers/authController.js:8 | finds an account exactly when one has that email, and returns such an account |
| Auth.FindAfterRegister | backend/controllers/authController.js:8-13 | after a registration, a lookup of that email finds the new account, and lookups of other emails are unchanged |
| Auth.AccountStore.Register | backend/controllers/authController.js:5-20 | a registered email is refused with 400; a missing password ends in 500; otherwise exactly one account with the hashed password is appended and 200 is returned |
| Auth.AccountStore.Login | backend/controllers/authController.js:22-38 | unknown email 400; missing password 500; wrong password 400; success 200 with a one-day token over the account id. Only a success carries a token |
| EditStyle.Without | frontend/CombineApp/screens/EditStyleScreen/EditStyleScreen.js:33 | the filter removes every occurrence of the value and keeps every other entry |
| EditStyle.ToggleColor | frontend/CombineApp/screens/EditStyleScreen/EditStyleScreen.js:30-41 | the colour is selected afterwards exactly when it was not selected and fewer than three were; no other colour's membership changes; a list of at most three stays at most three |
| EditStyle.ToggleStyle | frontend/CombineApp/screens/EditStyleScreen/EditStyleScreen.js:42-49 | the style's membership flips with no cap, and no other style's membership changes |
| EditStyle.ColorToggleUnselected | frontend/CombineApp/screens/EditStyleScreen/EditStyleScreen.js:35-39 | an unselected colour is appended at the end while fewer than three are selected; with three, the list is unchanged |
| EditStyle.ColorToggleSelected | frontend/CombineApp/screens/EditStyleScreen/EditStyleScreen.js:31-33 | deselecting filters each part of the list separately, so the remaining colours keep their order |
| EditStyle.WithoutConcat | frontend/CombineApp/screens/EditStyleScreen/EditStyleScreen.js:45 | filtering distributes over concatenation, so kept entries keep their order |
| EditStyle.WithoutAbsent | frontend/CombineApp/screens/EditStyleScreen/EditStyleScreen.js:45 | filtering out an absent value changes nothing |
| EditStyle.WithoutNoDuplicates | frontend/CombineApp/screens/EditStyleScreen/EditStyleScreen.js:33 | filtering keeps a duplicate-free list duplicate-free |
| EditStyle.TogglesKeepNoDuplicates | frontend/CombineApp/screens/EditStyleScreen/EditStyleScreen.js:31-47 | neither toggle introduces a duplicate into a duplicate-free list |
| EditStyle.StyleToggleTwice | frontend/CombineApp/screens/EditStyleScreen/EditStyleScreen.js:43-48 | toggling an absent style twice restores the original list |
| EditStyle.ColorTogglesStayCapped | frontend/CombineApp/screens/EditStyleScreen/EditStyleScreen.js:21-39 | starting from at most three colours, no sequence of taps gets past three |
| ImportantDates.WithoutId | frontend/CombineApp/screens/EditDatesScreen/EditDatesScreen.js:44 | the delete filter never lengthens the list |
| ImportantDates.WithoutIdMembers | frontend/CombineApp/screens/EditDatesScreen/EditDatesScreen.js:44 | the delete filter keeps exactly the entries with another id |
| ImportantDates.WithoutIdConcat | frontend/CombineApp/screens/EditDatesScreen.js:41 | the delete filter distributes over concatenation, so the rest keep their order |
| ImportantDates.WithoutIdAbsent | frontend/CombineApp/screens/EditDatesScreen/EditDatesScreen.js:44 | deleting an id no entry has leaves the list as it was |
| ImportantDates.IsDateShape | frontend/CombineApp/screens/EditDatesScreen/EditDatesScreen.js:31 | the date pattern: exactly ten characters, '-' at positions 4 and 7, an ASCII digit everywhere else, nothing after the last digit |
| ImportantDates.NoRangeCheck | frontend/CombineApp/screens/EditDatesScreen/EditDatesScreen.js:31 | "2025-13-99" passes the pattern; "2025-1-9" and "2025/11/20" do not |
| ImportantDates.FormatThenParse | frontend/CombineApp/screens/EditDatesScreen/EditDatesScreen.js:31 | every four-digit year, two-digit month and two-digit day written as `YYYY-MM-DD` passes the pattern and reads back as the same numbers |
| ImportantDates.ParseThenFormat | frontend/CombineApp/screens/EditDatesScreen/EditDatesScreen.js:31 | every string that passes the pattern is the `YYYY-MM-DD` writing of its own numbers |
| EditDates.DatesEditor.constructor | frontend/CombineApp/screens/EditDatesScreen/EditDatesScreen.js:21-23 | the editor opens on the account's dates, with empty inputs |
| EditDates.DatesEditor.AddDate | frontend/CombineApp/screens/EditDatesScreen/EditDatesScreen.js:25-39 | an empty title or date is refused first, then a date that fails the pattern; both keep the list and the inputs. A success appends one entry at the end and clears both inputs. A list of well-formed dates stays well-formed |
| EditDates.DatesEditor.DeleteDate | frontend/CombineApp/screens/EditDatesScreen/EditDatesScreen.js:41-46 | on confirmation, every entry with that id is removed and the rest stay; cancelling changes nothing |
| EditDates.DatesEditor.Save | frontend/CombineApp/screens/EditDatesScreen/EditDatesScreen.js:48-50 | the list handed to the account context is the current list, unchanged |
| LegacyEditDates.LegacyDatesEditor.constructor | frontend/CombineApp/screens/EditDatesScreen.js:17-25 | the editor opens on the two built-in dates, with empty inputs |
| LegacyEditDates.LegacyDatesEditor.AddDate | frontend/CombineApp/screens/EditDatesScreen.js:28-37 | an empty title or date is refused and changes nothing. Any other date text is accepted as typed (never a format refusal); one entry is appended and both inputs are cleared |
| LegacyEditDates.LegacyDatesEditor.DeleteDate | frontend/CombineApp/screens/EditDatesScreen.js:38-43 | on confirmation, every entry with that id is removed and the rest stay; cancelling changes nothing |
| OutfitScreen.Trim | frontend/CombineApp/screens/OutfitScreen/OutfitScreen.js:101 | `trim` cuts white space off both ends and only there: the result is a middle slice of the text, everything cut is white space, and the result neither starts nor ends with white space |
| OutfitScreen.TrimEmpty | frontend/CombineApp/screens/OutfitScreen/OutfitScreen.js:101 | a name is blank after `trim` exactly when every character is JavaScript white space or a line terminator |
| OutfitScreen.UpdateList | frontend/CombineApp/screens/OutfitScreen/OutfitScreen.js:106-109 | same length and order; cards with the target id get the new name as typed, with all other fields kept; every other card is untouched |
| OutfitScreen.UpdateListIdempotent | frontend/CombineApp/screens/OutfitScreen/OutfitScreen.js:106-109 | renaming twice to the same name is the same as renaming once |
| OutfitScreen.UpdateListMiss | frontend/CombineApp/screens/OutfitScreen/OutfitScreen.js:111-113 | renaming in a list that lacks the card leaves that list as it was, so updating both lists is harmless |
| OutfitScreen.NextExpanded | frontend/CombineApp/screens/OutfitScreen/OutfitScreen.js:89-91 | tapping the expanded card collapses it; tapping any other card makes it the only expanded one |
| OutfitScreen.ToggleTwice | frontend/CombineApp/screens/OutfitScreen/OutfitScreen.js:89-91 | two taps on one card restore a collapsed state or that card's expansion, and collapse a different card's expansion |
| OutfitScreen.Screen.constructor | frontend/CombineApp/screens/OutfitScreen/OutfitScreen.js:59-67 | the screen opens on the favourites tab with the built-in lists, nothing expanded and the dialog closed |
| OutfitScreen.Screen.CurrentData | frontend/CombineApp/screens/OutfitScreen/OutfitScreen.js:82-83 | the favourites are shown exactly when the tab is "favorites"; otherwise the custom list is shown |
| OutfitScreen.Screen.OnFocus | frontend/CombineApp/screens/OutfitScreen/OutfitScreen.js:70-80 | a pending new outfit goes to the front of the custom list, is expanded and shown, and the parameter is cleared. With no pending outfit nothing changes, so a second focus adds nothing |
| OutfitScreen.Screen.ToggleExpand | frontend/CombineApp/screens/OutfitScreen/OutfitScreen.js:89-91 | the expanded id follows `NextExpanded` |
| OutfitScreen.Screen.OpenRenameModal | frontend/CombineApp/screens/OutfitScreen/OutfitScreen.js:94-98 | the dialog opens on the card, filled with its current name |
| OutfitScreen.Screen.SaveRename | frontend/CombineApp/screens/OutfitScreen/OutfitScreen.js:100-117 | with no target or a blank name, only the dialog closes. Otherwise both lists are renamed and the target is cleared |

## Left out

**External services and libraries**
- The outfit generator's internals, and its prompt built from the populated outfits: its source is not part of this model. It is a function parameter whose answer is a list of ids, no answer, or an exception.
- Password hashing and comparison, and token signing and lifetimes: these are library calls, given as function parameters. The token lifetimes ("1h", "1d") are kept as constants.
- Token verification on protected routes: requests carry the requester's id directly.
- Cloudinary upload and image deletion after a cloth is removed: an upload is a given outcome (no file, stored, or failed). A failed image deletion is not modelled.

**Persistence and Mongoose behaviour**
- MongoDB, Mongoose casting and `populate`: collections are sequences of records and ids are naturals from a counter.
  - A malformed id, which Mongoose would reject with a cast error (500), is not modelled.
  - `populate` only enriches the answer, so it is left out.
- Timestamps (`createdAt`/`updatedAt`) are not stored.
- `Users.UserDirectory.Signup` with an absent email: the duplicate lookup is modelled as finding nothing. The driver sends the `undefined` filter value as `null`, and every stored user has an email, as the Users schema requires. The sign-up then stops at the missing-field guard.
- Auth.AccountStore.Register, Auth.AccountStore.Login: the email is always a present string. A request without one is not modelled, because `backend/models/User.js` is not part of this model, so what `findOne({ email: undefined })` would find there is unknown.
- Requests are handled one at a time. In the source, the duplicate-email lookup and the insert are separate awaits (users.js:14 then :41, authController.js:8 then :13), and the Users schema has no `unique` index. Two concurrent sign-ups with the same email could both be stored. The unique-email invariant of `Users.UserDirectory` and `Auth.AccountStore` holds for sequential requests only.
- The ClothingItems and OutfitItems schemas, and `backend/models/User.js`, are not part of this model. Only the fields the routes write are stored, and no schema validation is applied to them.
- The Outfits schema has no `name`, `items` or `status` fields, although the controller writes them. Outfits are modelled as the controller uses them.
- The Users schema registers its class through an undefined `Schema` variable, which would fail at load time. The model keeps the schema's `required` rules, which `SchemaValid` applies.

**Outfit controller**
- The Response and CustomError imports are destructured (`{ Response }`, `{ CustomError }`), so they do not match the modules' default exports. As written, every thrown error would itself fail.
  - The success replies fail too. `Response` is undefined, and the `Response` class has no `success` or `fail` method in any case. So `Response.success(...)` throws at outfitController.js:64 and :99. That happens after `newOutfit.save()` (:57) or `outfit.save()` (:97) has already written to the store. As written, neither handler sends 201, 200 or a 4xx: the outfit is stored, or its status changed, and the request then fails with no reply.
  - The model states the intended outcomes as typed results (`Outfits.Outcome`): created, updated, failed with a status and message, or handed to `next`.
- Outfits.OutfitHistory.Generate, Outfits.OutfitHistory.UpdateStatus: the `Created`, `Updated` and `Failed` outcomes are the replies the handlers are evidently meant to send. The store changes they state are what the code does, but the reply that follows a store change is never sent as written.
- The two reads of the controller (clothing and avoid-list) run concurrently in the source; here they are sequential.
- Ways the code differs from the design the system describes:
  - the generator's ids are not checked against the wardrobe;
  - any status may follow any other, including a return to `suggested`;
  - all of the requester's clothing, active or not, is given to the generator.
  The model follows the code in all three.

**Client screens**
- UI rendering, alerts, navigation, and how the context's `updateUser` stores the list.
- Typing into the text inputs: the inputs are fields the caller sets.
- `Math.random()` ids are a parameter.
- `Outfits.OutfitHistory.Generate`: the outfit's name uses the server's locale date string, which is a parameter here.
- `EditStyle.ToggleColor`: the alert shown when a fourth colour is refused is not modelled; the list simply stays as it was.
