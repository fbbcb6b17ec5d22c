# WaTask client logic in Dafny

WaTask is a task-management web client. Users register and sign in; admins manage accounts and assign tasks with deadlines. Apart from its React views, it holds three groups of plain logic:

- The authentication context. It is a small state machine over browser local storage: restore on mount, `login`, `logout`, and the `protectRoute` decision. Around it sit the admin-only page wrapper, the stand-alone logout button and the login page's redirects.
- The form validators. These cover registration (phone digit-stripping, the Indonesian phone pattern, the e-mail pattern, required fields, password length), login, and the two password-change check chains: the profile page's and the password card's.
- The list and record operations:
  - the user search and role filter;
  - delete by id, update by id, and append;
  - single-field record edits;
  - "assign to all users" and the task-submit guards.

This project models each of these as pure functions over immutable datatypes:

- Storage is a `map<string, string>`.
- Navigation is an emitted path.
- Every awaited request is an `ApiResult` argument, either the server's payload or a failure.
- Every handler returns its new state. A handler whose request carries a body (login, register, profile, password, add user, user and task updates, new task) also returns that body. A delete request carries only the id argument, so the delete handlers return just the new list.
- JavaScript strings are sequences of characters here, but `.length` is counted in UTF-16 code units by `Text.Utf16Length`, so a character outside the Basic Multilingual Plane counts twice.

The contracts state what the handlers promise. The lemmas relate handlers to each other: round trips, idempotence, and the places where two components disagree.

Modules: `Outcomes`, `Text` and `Seqs` hold the shared helpers. `Session` models `context/AuthContext.tsx`, `AdminGate` models `components/ProtectedRoute.tsx`, and `LogoutButton` models `components/logout.tsx`. The pages and components are `LoginPage`, `RegisterPage`, `ProfilePage`, `PasswordForms`, `PasswordCard`, `Users`, `UserList`, `TaskList`, `SettingsPage` and `TaskForm`.

Four behaviours of the code that are easy to misread:

- **Malformed stored user.** A stored user string that does not parse makes the restore effect throw: `JSON.parse` has no handler. So `Session.Restore` returns a failure; it does not fall back to "logged out".
- **Empty token.** Logged-in-ness is `!!token`, so an empty stored token counts as logged out. A stored user is not needed to be logged in.
- **Visitors who are not logged in.** They go to `/login` from `protectRoute` but to `/403` from the admin wrapper. A refused role goes to `/unauthorized`.
- **Logout.** It removes only the `token` and `user` keys, not the whole storage.

## Model

| member | source | states |
|---|---|---|
| `Session.Restore` | context/AuthContext.tsx:22-34 | Logged-in-ness is exactly "the token is stored and non-empty", whatever the stored user. Name and role come from a non-empty stored user and otherwise stay null. An unparseable stored user makes restore fail. |
| `Session.Login` | context/AuthContext.tsx:36-42 | Stores the token and the serialised user and leaves every other key alone. Sets the state to logged in with the user's name and role. Navigates nowhere. |
| `Session.Logout` | context/AuthContext.tsx:44-51 | Removes exactly the token and user keys, keeps every other key and value, resets the state to signed out, and navigates to `/login`. |
| `Session.ProtectRoute` | context/AuthContext.tsx:53-69 | Not logged in gives false and `/login`, whatever the roles. Logged in with no roles or an empty list gives true and no navigation. Otherwise it allows exactly an admitted (non-empty, listed) role and sends a refusal to `/unauthorized`. It allows exactly when it navigates nowhere. |
| `Session.LoginRestoreRoundTrip` | context/AuthContext.tsx:22-42 | Restoring the storage that `login` wrote, with a non-empty token, yields exactly the state `login` set, given a lawful serialise/parse pair. |
| `Session.EmptyTokenLostOnReload` | context/AuthContext.tsx:26-39 | `login` with an empty token sets logged in, but restoring that storage gives logged out. |
| `Session.TokenAloneLogsIn` | context/AuthContext.tsx:23-33 | A token with no stored user restores a logged-in state with null name and role. The role checks of `protectRoute` then refuse it, and a call without roles admits it. |
| `Session.LogoutIdempotent` | context/AuthContext.tsx:44-51 | Logging out twice equals logging out once. |
| `Session.RestoreAfterLogout` | context/AuthContext.tsx:22-51 | Restoring the storage `logout` leaves gives the signed-out state. |
| `AdminGate.Decide` | components/ProtectedRoute.tsx:11-27 | The wrapped page renders iff logged in with role `admin`. The `/403` redirect happens iff it does not render. The decision takes only the login flag and the role. |
| `AdminGate.GatesDisagreeOnVisitor` | components/ProtectedRoute.tsx:16-17 | A visitor who is not logged in is sent to `/login` by `protectRoute` but to `/403` by the admin wrapper. |
| `AdminGate.GatesAgreeOnAdminAccess` | components/ProtectedRoute.tsx:16-24 | The wrapper renders exactly when `protectRoute(["admin"])` allows. |
| `AdminGate.UserRoleForbidden` | components/ProtectedRoute.tsx:16-18 | A logged-in user with role `user` is not rendered and is sent to `/403`. |
| `LogoutButton.HandleLogout` | components/logout.tsx:10-20 | Neither session key remains, every other key and value is kept, and it navigates to `/login`. The context state is not an input. |
| `LogoutButton.HandleLogoutIdempotent` | components/logout.tsx:12-13 | Two clicks leave what one click leaves. |
| `LogoutButton.SameStorageAsContextLogout` | components/logout.tsx:12-13 | The button leaves storage exactly as the context's `logout` does. |
| `LogoutButton.ContextLeftStale` | components/logout.tsx:10-20 | The click takes no context state, so by construction a logged-in in-memory context is left as it was and still admits unguarded routes. A reload of the storage the click leaves restores signed out. |
| `LoginPage.ValidateForm` | app/login/page.tsx:43-52 | The login is in error iff it is all white space. The password is in error iff it is empty. Each error carries its fixed message. |
| `LoginPage.PathAfterLogin` | app/login/page.tsx:69 | Admins go to `/settings` and everyone else goes to `/`. |
| `LoginPage.SettingsPathIffGateRenders` | app/login/page.tsx:64-69 | After `login` records the answer's user, the page picks `/settings` exactly when the admin wrapper guarding that page would render it. |
| `LoginPage.HandleSubmit` | app/login/page.tsx:54-78 | Posts only when the form is valid, with the trimmed login and the verbatim password. On success the storage and state are exactly the context's `login` of the returned token and user, and it navigates by role. Without a request, or on failure, nothing changes and it navigates nowhere. |
| `LoginPage.MountRedirect` | app/login/page.tsx:32-36 | Redirects to `/` iff a non-empty token is stored. |
| `LoginPage.BlankPasswordPosted` | app/login/page.tsx:48-61 | A password of spaces alone passes validation and is posted unchanged. |
| `LoginPage.SignedInVisitorSentHome` | app/login/page.tsx:32-67 | After a successful sign-in with a non-empty token, the page's own effect redirects to `/`. |
| `RegisterPage.StripNonDigits` | app/register/page.tsx:47-53 | The result is all digits. It is a subsequence of the input and keeps each digit as often as it occurs. |
| `RegisterPage.StripIdempotent` | app/register/page.tsx:48 | Stripping twice equals stripping once. |
| `RegisterPage.StripKeepsDigits` | app/register/page.tsx:48 | A string of digits is unchanged. |
| `RegisterPage.HandleChange` | app/register/page.tsx:43-56 | The phone number stores the stripped input and every other field stores the input verbatim. No other field changes, and the role is kept. |
| `RegisterPage.EditsKeepRoleAndDigits` | app/register/page.tsx:43-56 | From any form with role `user` and an all-digit phone number, any run of edits keeps both. |
| `RegisterPage.InitialEditsKeepRoleAndDigits` | app/register/page.tsx:31-56 | From the initial form, after any run of edits the role is still `user` and the phone number is all digits. |
| `RegisterPage.PhoneShape` | app/register/page.tsx:58-76 | An accepted number is all digits, 10 to 15 long (at most 14 after a leading `0`), beyond the 10-13 in the error text. |
| `RegisterPage.FifteenDigitsAccepted` | app/register/page.tsx:60 | A 15-digit number starting with `62` is accepted. |
| `RegisterPage.ValidPhone` | app/register/page.tsx:58-63 | An accepted number is digits only and 10 to 15 characters long. |
| `RegisterPage.ValidPhoneIffShape` | app/register/page.tsx:58-63 | The pattern accepts a number iff it is all digits and has either a leading `0` and 10 to 14 characters, or a leading `62` and 11 to 15 characters. |
| `RegisterPage.EmailPatternIffRules` | app/register/page.tsx:80 | The pattern holds iff there is no white space, exactly one `@` with something before it, and after it a `.` that is neither first nor last. |
| `RegisterPage.FormatsAreNotBlank` | app/register/page.tsx:72-86 | A valid phone number or e-mail is never blank, so "required" fires only when the format check fails too. |
| `RegisterPage.RequiredError` | app/register/page.tsx:69 | Name (and username) are in error iff all white space, with the given message. |
| `RegisterPage.PhoneError` | app/register/page.tsx:72-77 | In error iff not a valid number. A blank number gets "required" and any other failure gets the format message. |
| `RegisterPage.EmailError` | app/register/page.tsx:82-86 | In error iff the address breaks the rules. A blank address gets "required" and any other failure gets the format message. |
| `RegisterPage.PasswordError` | app/register/page.tsx:92-96 | In error iff `.length`, in UTF-16 code units, is under six. An empty password gets "required" and a shorter one gets the length message. |
| `RegisterPage.AstralPasswordAccepted` | app/register/page.tsx:94 | Three emoji are three characters but six UTF-16 code units, and pass the length rule. |
| `Text.Utf16Length` | app/register/page.tsx:94 | `.length` counts UTF-16 code units: at least the number of characters and at most twice it, and zero only for the empty string. |
| `RegisterPage.ValidateForm` | app/register/page.tsx:65-101 | Each field is in error iff its own rule fails: blank name or username, invalid phone or e-mail, password under six UTF-16 code units. The form is clean iff every rule holds. |
| `RegisterPage.HandleSubmit` | app/register/page.tsx:103-114 | Posts the form, role included, iff name and username are not blank, the phone and e-mail are valid and the password has at least six UTF-16 code units. The errors shown are exactly those `validateForm` finds. A success leads to `/login`. |
| `PasswordForms.Edit` | app/profile/page.tsx:68-72 | Only the named password field changes. |
| `ProfilePage.InitProfileForm` | app/profile/page.tsx:51-60 | Without a user the form is kept. Otherwise each field is the user's value, or `""` when missing. |
| `ProfilePage.EditProfile` | app/profile/page.tsx:62-66 | Only the named profile field changes. |
| `ProfilePage.HandleProfileUpdate` | app/profile/page.tsx:74-88 | While loading it does nothing. Otherwise it sends the form, takes the server's user on success, and always clears `loading`. |
| `ProfilePage.CheckPassword` | app/profile/page.tsx:90-105 | Checks in order, and the first failure wins: blank current password, then a new password under 8 UTF-16 code units, then a confirmation mismatch. There is no blank check on the new password. |
| `ProfilePage.HandlePasswordUpdate` | app/profile/page.tsx:90-125 | A failed check sends nothing and changes nothing. Otherwise it sends only the current and new passwords, and empties the form only on success. |
| `ProfilePage.SpacesAcceptedAsNewPassword` | app/profile/page.tsx:96-101 | Eight confirmed spaces pass every check. |
| `ProfilePage.AstralNewPasswordAccepted` | app/profile/page.tsx:96 | Four confirmed emoji are eight UTF-16 code units and pass every check. |
| `ProfilePage.ProfileUpdateRoundTrip` | app/profile/page.tsx:51-88 | When the server answers with the profile as sent, refilling the form from the new user gives back the form that was sent. |
| `PasswordCard.Check` | components/PasswordCard.tsx:23-43 | Checks in order, and the first failure wins: blank current, blank new, new under 8 UTF-16 code units, confirmation mismatch. |
| `PasswordCard.CheckAsWritten` | components/PasswordCard.tsx:23-49 | The chain as written refuses a blank current password, then a blank new one. Past those and the length check it refuses for a mismatch iff the confirmation differs, and accepts otherwise. |
| `PasswordCard.RepeatedCheckUnreachable` | components/PasswordCard.tsx:39-49 | The chain as written, with its repeated mismatch test, decides exactly as the four distinct checks. |
| `PasswordCard.HandleSave` | components/PasswordCard.tsx:23-59 | Calls `onUpdate` iff every check passes, with exactly the current and new passwords, and then empties all three fields. A failed check keeps the form and calls nothing. |
| `PasswordCard.CardAndPageSendSameRequest` | components/PasswordCard.tsx:50-53 | A form passing every check of the card is sent by the card, and the profile page sends the same request for it. |
| `PasswordCard.CardStricterThanProfile` | components/PasswordCard.tsx:24-43 | Whatever the card accepts, the profile page accepts. |
| `PasswordCard.SpacesSplitTheChains` | components/PasswordCard.tsx:29-33 | Eight spaces as the new password are refused by the card and accepted by the profile page. |
| `UserList.FilteredUsers` | components/UserList.tsx:61-65 | Keeps exactly the users whose lower-cased name contains the lower-cased query and whose role matches a non-empty filter. Each is kept as often as it occurs, in order, and the result is never longer than the input. |
| `UserList.FilteredUsersIdempotent` | components/UserList.tsx:61-65 | Filtering the result again with the same query and role changes nothing. |
| `UserList.BlankFilterKeepsAll` | components/UserList.tsx:61-65 | An empty query with "All Roles" keeps every user in order. |
| `UserList.HandleInputChange` | components/UserList.tsx:67-73 | No selection stays none. Otherwise only the named field changes. |
| `UserList.HandleRoleChange` | components/UserList.tsx:75-79 | No selection stays none. Otherwise only the role changes. |
| `UserList.HandleUpdateUser` | components/UserList.tsx:81-92 | Sends the selected user iff one is selected with a non-empty id. The dialog closes only on success. |
| `UserList.DeleteTarget` | components/UserList.tsx:269 | The selected user's id, or `""` when none is selected. |
| `UserList.EditKeepsTarget` | components/UserList.tsx:67-92 | Editing any field but the id keeps the delete target, and the update is sent exactly when it would have been before the edit. |
| `TaskList.LoadTasks` | components/TaskList.tsx:48-56 | The server's list on success, and the current list on failure. |
| `TaskList.DeleteTask` | components/TaskList.tsx:58-69 | On success every task with the id is gone and every other task keeps its count. The result is always a subsequence of the list, and on failure it is the list itself. |
| `TaskList.DeleteTaskIdempotent` | components/TaskList.tsx:62 | Deleting the same id twice equals deleting it once. |
| `TaskList.HandleInputChange` | components/TaskList.tsx:71-79 | No selection stays none. Otherwise only the named field changes. |
| `TaskList.HandleUpdateTask` | components/TaskList.tsx:81-99 | Acts only on a selected task with a non-empty id. On success each task with that id becomes the edited one, the length is kept and the other tasks stay in place. On failure the list is unchanged. |
| `TaskList.DeleteAfterUpdate` | components/TaskList.tsx:58-99 | Deleting after a successful update leaves what deleting alone leaves. |
| `SettingsPage.FetchUsers` | app/settings/page.tsx:20-33 | Success sets the users and clears the error. Failure sets a non-empty error and keeps the users. Loading is over either way. |
| `SettingsPage.AddUser` | app/settings/page.tsx:35-43 | Posts the given form. Success appends the server's new user after the unchanged earlier entries. Failure rethrows with the state unchanged. |
| `SettingsPage.UpdateUser` | app/settings/page.tsx:45-59 | Replaces the entries with the edited user's id and then refetches. A failed refetch leaves the replaced list (same length, others in place). A successful one leaves the server's list. |
| `SettingsPage.DeleteUser` | app/settings/page.tsx:61-69 | Success removes every user with the id and keeps every other user as often as it occurred, in order. Failure rethrows with the state unchanged. |
| `SettingsPage.DeleteUserIdempotent` | app/settings/page.tsx:61-69 | Deleting the same id twice equals deleting it once. |
| `SettingsPage.DeleteAfterUpdate` | app/settings/page.tsx:45-69 | After an update whose refetch failed, deleting the edited id leaves the list that deleting it outright leaves. |
| `SettingsPage.DeleteAfterAdd` | app/settings/page.tsx:35-69 | Deleting a just-created user by its id leaves the list that deleting that id before the creation leaves. |
| `SettingsPage.DeleteWithoutSelection` | components/UserList.tsx:266-271 | Confirming a delete with no user selected deletes the id `""`, which every user with an id survives. |
| `SettingsPage.Render` | app/settings/page.tsx:71-88 | Loading first, then a non-empty error, then the content with the current users. |
| `SettingsPage.MountShowsUsersOrError` | app/settings/page.tsx:16-33 | After the mount fetch the page shows the server's users or the error, never the loading placeholder. |
| `TaskForm.LoadUsers` | components/TaskForm.tsx:35-40 | The fetched users become the server's list on success. The form and checkbox are untouched. |
| `TaskForm.HandleInputChange` | components/TaskForm.tsx:42-48 | Only the named task field changes. The assignment, checkbox and fetched users are kept. |
| `TaskForm.HandleUserSelection` | components/TaskForm.tsx:50-62 | The checkbox takes the clicked value. Checking assigns the ids of all fetched users in order, and unchecking assigns none. Nothing else changes. |
| `TaskForm.CheckboxFollowsLastClick` | components/TaskForm.tsx:50-62 | After any run of clicks the checkbox and the assignment follow the last click. |
| `TaskForm.HandleSubmit` | components/TaskForm.tsx:64-100 | Refuses a deadline not in the future first, then an empty assignment. Otherwise it posts the task. Only a success returns the form to its initial state (keeping the fetched users) and fires `onTaskAdded`; anything else keeps the state. |
| `TaskForm.InvalidDeadlinePasses` | components/TaskForm.tsx:66-75 | An unparseable deadline is not refused by the deadline check. |
| `TaskForm.IsAdmin` | components/TaskForm.tsx:102 | True iff a user is present with role `admin`. |
| `TaskForm.SubmitDisabled` | components/TaskForm.tsx:163-174 | The submit button is disabled iff there is no user or the role is not `admin`. |
| `TaskForm.SubmitEnabledIffGateRenders` | components/TaskForm.tsx:102-174 | For a signed-in user the button is enabled exactly when the admin wrapper renders for that user's role. |
| `TaskForm.CheckedBeforeFetch` | components/TaskForm.tsx:35-62 | Ticking "assign to all" before the user list arrives leaves the box ticked with nobody assigned after the list arrives, so a submit with a good deadline is refused for having no users. |

## Left out

- Rendering is not modelled: JSX, modals, toasts and their settings, icons, images and styling. Only the error text a handler would show is kept, as a `failure` value.
- The HTTP client is a foreign call. Each request's outcome is an `ApiResult` argument, and request URLs are not modelled beyond the payload and the id.
- `router.push` is an emitted path. Routing itself and the timing of React effects are not modelled.
- `localStorage` is an immutable map. Cross-tab storage events are not modelled.
- `JSON.stringify` and `JSON.parse` form the `Session.Codec` parameter. Their round trip, and the rejection of `""`, are the `Session.Lawful` precondition of the round-trip lemmas. JSON itself is not modelled.
- Session.Restore: it models only the effect on a fresh mount, from the signed-out state. A throw is a `Failure` value with no state, because nothing in `AuthContext.tsx` catches it.
- UserList.FilteredUsers: `toLowerCase` is the `lower` parameter, because Unicode case mapping is not a table over single characters. The "keep everything" lemma assumes only `lower("") == ""`.
- Date construction from the date and time strings, and `date-fns` formatting, depend on time zone and locale. A deadline is `Option<int>`, and `None` stands for an invalid date.
- ProfilePage.HandleProfileUpdate: the context as shown provides no `user` or `setUser`. Both are explicit here, so a missing `setUser` does not throw. The effect that refills the form after the user changes is not chained onto the update.
- TaskForm.IsAdmin: the signed-in user is an explicit argument, for the same reason.
- The session operation that replaces the stored user belongs to another revision of the context, not this one.
- Loading flags that only select a placeholder are not modelled: the login page's `isLoading` and the disabled state of buttons while loading. The exception is the profile page's `loading` guard.
- The `onUpdate` prop that the settings page passes to the user table is not modelled: the table never calls it, so a successful table update does not refresh the settings page's list.
- Static and duplicate views are not modelled: the theme navbar, the about and 403 pages, the site configuration, `ProfileCard`, `UserForm`, and the home page's bare `protectRoute()` call. They repeat edit and reset patterns already modelled, or hold no logic.
- The login page's `handleChange` is a one-field record update of the kind `PasswordForms.Edit` already models, so it has no member of its own.
- The throw of `useAuth` outside a provider is framework wiring and is not modelled.
