# Avatar animation dashboards — a Dafny model

The repository is a small multi-role web application (user, subscriber,
admin and guest dashboards for an avatar-animation product). This project
models its three pieces of logic and proves properties of them.

- **The offline pages** (`assets/js/main.js`). Each page is a class:
  - Signup and login pages: a list of role items with an `active` flag, a
    form title, and the email and password inputs that canned test
    credentials fill in.
  - User, subscriber and admin dashboards: galleries, `<select>` options and
    lists that handlers append to and remove from in place, plus video
    previews (`src`, `visible`).

  Elements created by a handler get an identity (`NodeLists.Node`), so
  "remove this element" is removal by identity, as `element.remove()` does.
  Modules `OfflineRoles` and `OfflineDashboards`.
- **The Flask server** (`app.py`):
  - The pure upload-extension check and the role guards of the three
    dashboard routes.
  - A class `App` whose methods are the JSON routes. They act on the `users`
    table (a map keyed by id), the `avatars` table (a sequence in insertion
    order), the `animations` table, and one client's session (a map).
  - Password hashing is a pair of function-valued constants with
    `check(hash(p), p)`.
  - The results of `uuid4` and `secure_filename` are parameters. `created_at` comes from the counter field `App.clock`.

  Module `Server`.
- **The networked pages** (`statics/js/main.js`):
  - Each handler sends one request, shows the reply's message, and on
    success edits a few fields or rebuilds a whole list from a fresh server
    reply.
  - A request's outcome is a parameter: the reply, or the error `fetch`
    threw. The requests sent are logged, so "no request is sent" is a
    postcondition.
  - The rebuilt lists are pure functions of the reply.

  Module `NetworkedPages`.

Modules `Wrappers` (Option), `Text` and `NodeLists` hold what the others
share:
- `Text`: JavaScript `trim`, ASCII lower-casing, the last index of a
  character, and decimal rendering of an id together with its read-back.
- `NodeLists`: identity-carrying element lists.

Behaviour the model keeps exactly as the code has it, though a reader
might expect otherwise:
- The subscriber page's avatar delete removes options in a forward index
  loop, so a matching option right after a removed one survives.
  `SkipRemove` is the exact closed form, and the lemmas prove:
  - which options survive;
  - that other options keep their order;
  - that the loop is complete when no two matching options are adjacent.
- Logging in with a role that has no dashboard endpoint (for example
  `guest`) writes the session first. `url_for` then raises, so the reply is
  a 500 while the session stays logged in.
- `update_subscription` makes any caller, an admin too, a subscriber with an
  active subscription, whatever the plan. The session's role changes even
  when the user row no longer exists.
- `admin_manage_user` reports success for an unknown action and changes
  nothing.
- `delete_avatar` lets only the owner delete; an admin gets a 404 for
  another user's avatar.
- Emails are unique only as far as signup's check keeps them
  (`Server.UniqueEmails`; `App.Signup` preserves it). A profile update
  writes any email. Login therefore fetches some row with the email, and
  succeeds for certain only while emails are unique.

Client methods also check short scenarios as assertions:
- `OfflineRoles.LoginPageDefaultFlow`: loading the login page and
  submitting at once logs in as "User Login", also when no item carries
  that role and the submit check falls back to it.
- `OfflineDashboards.SaveTwiceAppendsTwice`: saving twice appends two cards.
- `Server.SignupThenLogin`: a fresh signup then logs in and lands on
  `/user`.
- `NetworkedPages.GenerateWithLoadedAvatar`: any avatar from a freshly
  loaded select passes the generate check and sends that avatar's id.

## Model

| member | source | states |
|---|---|---|
| OfflineRoles.FirstWithRole | assets/js/main.js:27 | the index of the first item whose `data-role` is `k`, none exactly when no item has that role |
| OfflineRoles.FirstActive | assets/js/main.js:82 | the index of the first item with the `active` class, none exactly when no item is active |
| OfflineRoles.SelectedActivatesFirst | assets/js/main.js:24-29 | after selecting `k`: the roles are unchanged, at most one item is active, and that item is the first with role `k`; no item is active exactly when no item has role `k` |
| OfflineRoles.SelectedIdempotent | assets/js/main.js:24-29 | selecting the same role twice equals selecting it once |
| OfflineRoles.SignupPage.SetSignupRole | assets/js/main.js:24-29 | the items end as `Selected(old items, k)`; the title changes only when `k` is a key of the title map, to that role's title |
| OfflineRoles.SignupPage.constructor | assets/js/main.js:39-40 | role `user` is selected on load only when no item is already active; otherwise items and title are kept |
| OfflineRoles.LoginPage.ActivateRole | assets/js/main.js:58-68 | the title is `r` always; the items end as `Selected(old items, r)`; the inputs are overwritten with `r`'s canned credentials only when `r` has some, else kept |
| OfflineRoles.LoginPage.constructor | assets/js/main.js:76-77 | the page starts on "User Login" with its credentials filled in |
| OfflineRoles.LoginTarget | assets/js/main.js:84-89 | a target exists iff the role has credentials and both inputs equal them exactly; the target is that role's redirect |
| OfflineRoles.LoginPage.Submit | assets/js/main.js:80-93 | the navigation is `LoginTarget` of the active role (or "User Login" when none is active) and the two inputs: that role's redirect iff its credentials equal both inputs |
| OfflineRoles.AutofillLogsIn | assets/js/main.js:58-93 | clicking a role with credentials fills inputs that the submit check then accepts, for that role's redirect |
| OfflineRoles.CredentialsAreRoleSpecific | assets/js/main.js:46-51 | credentials filled in for one role are refused while another role is active |
| NodeLists.Remove | assets/js/main.js:141-142 | removing an element by identity keeps exactly the other elements, and only elements of the list |
| NodeLists.RemoveExactlyOne | assets/js/main.js:141-142 | with distinct identities, removing the element at `k` is `s[..k] + s[k+1..]` |
| OfflineDashboards.UserPage.UploadAvatar | assets/js/main.js:122-148 | with no file nothing changes; else exactly one card and one option carrying the first file's data URL (option text: the file name) are appended, the input is cleared, and the card stays linked to its option |
| OfflineDashboards.UserPage.DeleteAvatar | assets/js/main.js:140-143 | removes exactly that card and the option made with it, nothing else; the option count drops by one |
| OfflineDashboards.LinkedAfterUpload | assets/js/main.js:126-144 | a new card with a new option keeps every card's option in the select and options unshared |
| OfflineDashboards.LinkedAfterDelete | assets/js/main.js:140-143 | removing a card and its option keeps every other card linked to its own option |
| OfflineDashboards.UserPage.Generate | assets/js/main.js:158-165 | with an empty avatar or expression value nothing changes; else the preview shows the avatar value and is visible |
| OfflineDashboards.UserPage.SaveAnimation | assets/js/main.js:168-177 | appends one card with the preview's current `src` and hides the panel, whether or not a preview was showing |
| OfflineDashboards.UserPage.CancelPreview | assets/js/main.js:167 | hides the panel and keeps `src` |
| OfflineDashboards.UserPage.DeleteAnimation | assets/js/main.js:175 | removes exactly the card at `k` |
| OfflineDashboards.SubscriberPage.UploadAvatar | assets/js/main.js:208-239 | with no file nothing changes; else one card and one option in each of the two selects, all with the file's data URL |
| OfflineDashboards.RemoveMatchingForward | assets/js/main.js:229-233 | the forward `select.remove(i)` loop leaves exactly `SkipRemove(options, v)` |
| OfflineDashboards.SkipRemoveKeepsOthers | assets/js/main.js:229-233 | options with another value survive, in their relative order |
| OfflineDashboards.SkipRemoveSparesNext | assets/js/main.js:229-233 | a matching option right after a removed one is skipped and survives |
| OfflineDashboards.SkipRemoveCompleteWhenApart | assets/js/main.js:229-233 | when no two matching options are adjacent, every matching option is removed |
| OfflineDashboards.DuplicateUploadLeavesOption | assets/js/main.js:219-235 | two uploads of the same file and one delete leave one matching option in the select |
| OfflineDashboards.SkipRemoveDrawnFromInput | assets/js/main.js:229-233 | what the loop leaves is drawn from the select's own options, identities still distinct |
| OfflineDashboards.SubscriberPage.DeleteAvatar | assets/js/main.js:227-235 | removes exactly the card at `k`; each select becomes `SkipRemove` of itself with the card's data URL |
| OfflineDashboards.SubscriberPage.PrepareStep1 | assets/js/main.js:250-256 | with an empty expression or avatar nothing changes; else the step-1 preview shows the avatar and is visible |
| OfflineDashboards.SubscriberPage.SaveStep1 | assets/js/main.js:258-283 | appends one card with the step-1 preview's `src` and hides the panel |
| OfflineDashboards.SubscriberPage.CancelStep1 | assets/js/main.js:286 | hides the panel and clears `src` |
| OfflineDashboards.SubscriberPage.Generate | assets/js/main.js:304-310 | with no avatar chosen or no driving video nothing changes; else the preview shows the video's object URL |
| OfflineDashboards.SubscriberPage.SaveGenerated | assets/js/main.js:313-338 | appends one card with the generated preview's `src` and hides the panel |
| OfflineDashboards.SubscriberPage.CancelGenerated | assets/js/main.js:343 | hides the panel and clears `src` |
| OfflineDashboards.SubscriberPage.DeleteAnimation | assets/js/main.js:269-273 | removes exactly the card at `k` |
| OfflineDashboards.AdminPage.CreateUser | assets/js/main.js:393-403 | appends one card exactly when both prompt answers are non-empty; otherwise nothing changes |
| OfflineDashboards.AdminPage.DeleteUser | assets/js/main.js:401 | removes exactly the card at `k` |
| Text.Trim | assets/js/main.js:434 | the result is empty iff the input is all whitespace; otherwise it is the input with all-whitespace text removed on both sides, and it neither starts nor ends with whitespace |
| OfflineDashboards.AdminPage.AddExpression | assets/js/main.js:433-441 | nothing happens when the trimmed name is empty; else the trimmed name is appended and the input cleared |
| OfflineDashboards.AdminPage.DeleteExpression | assets/js/main.js:439 | removes exactly the entry at `k` |
| OfflineDashboards.AdminPage.AddAvatar | assets/js/main.js:414-427 | with no file nothing changes; else one card with the data URL is appended and the input cleared |
| OfflineDashboards.AdminPage.DeleteAvatar | assets/js/main.js:423 | removes exactly the card at `k` |
| Text.LastIndexOf | app.py:33 | the position of the last occurrence of the character, none iff it does not occur |
| Server.AllowedFile | app.py:32-33 | false without a '.'; else true iff the lower-cased text after the last '.' is an allowed extension |
| Server.AllowedFileExamples | app.py:29-33 | "x.PNG" is accepted; "png", "a.png.exe" and "a." are rejected |
| Server.UserDashboard | app.py:53-59 | renders iff the session has a user id and role user, subscriber or admin; otherwise redirects to login |
| Server.SubscriberDashboard | app.py:61-67 | renders iff the session has a user id and role subscriber or admin |
| Server.AdminDashboard | app.py:69-73 | renders iff the session has a user id and role admin |
| Server.DashboardsNested | app.py:53-73 | admin-admitted sessions are subscriber-admitted, which are user-admitted; with no user id all three redirect to login |
| Server.DashboardFor | app.py:147 | a dashboard URL exists exactly for roles user, subscriber and admin, and it is `/` followed by the role |
| Server.App.Signup | app.py:78-109 | a missing or empty field or a taken email inserts nothing (400); otherwise exactly one new row with role `user` and the hashed password; unique emails are preserved |
| Server.App.Login | app.py:115-148 | missing fields give 400; the same 401 for an unknown email and a wrong password, session unchanged; on a match the session gets that row's id, email, name and role, with 200 and the dashboard URL, or 500 for a role without one; with unique emails a matching password always gets in |
| Server.App.Logout | app.py:154-157 | the session becomes empty |
| Server.App.UpdateProfile | app.py:159-188 | without a session 401 and no change; else the session's row and the session take the new name and email |
| Server.App.UploadAvatar | app.py:197-241 | 401 without a session; 400 for no file part, an empty file name or a disallowed extension, inserting nothing; success iff all hold, and then one row owned by the session user with path `avatars/` + stored name |
| Server.App.GetAvatars | app.py:243-259 | 401 without a session; an admin gets every row, anyone else exactly their own, newest first |
| Server.WithoutAvatar | app.py:288 | deleting by id keeps exactly the rows with another id |
| Server.WithoutAvatarRemovesOne | app.py:288 | with strictly ascending ids, deleting the avatar at position `k` removes exactly that row and keeps the others in order |
| Server.WithoutAvatarSorted | app.py:288 | deleting rows keeps the table ordered by id and creation time |
| Server.App.DeleteAvatar | app.py:268-291 | 401 without a session; 404 and no change unless the session's user owns the avatar, admins included; otherwise the row is deleted |
| Server.App.GenerateAnimation | app.py:317-353 | 401 without a session; 400 and no insert without both ids; else one row, marked completed, with path `animations/animation_<uuid>.mp4` |
| Server.App.UpdateSubscription | app.py:390-410 | 401 without a session; else the row (if any) becomes subscriber with status active whatever the plan, and the session's role becomes subscriber |
| Server.App.AdminManageUser | app.py:439-465 | 401 and no change for a non-admin; PUT with suspend or activate sets the status, any other action changes nothing yet succeeds; DELETE removes the row |
| Text.NatToDecimal | statics/js/main.js:203-204 | an id renders as a non-empty string of decimal digits with no leading zero except for 0 itself |
| Text.DecimalRoundTrip | statics/js/main.js:203 | reading back a rendered id gives the id |
| Text.DecimalInjective | statics/js/main.js:203 | distinct ids render differently |
| NetworkedPages.OptionsMatchGallery | statics/js/main.js:188-206 | after a reload the select is the placeholder plus one option per gallery card; option `i+1`'s value reads back as the id card `i` deletes, and only the placeholder's value is empty |
| NetworkedPages.OptionValuesDistinct | statics/js/main.js:189-205 | avatars with distinct ids give options with distinct values |
| NetworkedPages.Caption | statics/js/main.js:299 | a present non-empty expression name is shown as is; a missing or empty one shows "Custom" |
| NetworkedPages.UserListEntries | statics/js/main.js:360-372 | the user list is the heading followed by one entry per user carrying its id; a null status shows as "null" |
| NetworkedPages.SubmitLogin | statics/js/main.js:9-36 | always sends the credentials; navigates iff the reply succeeds, to the reply's redirect; shows the reply's message or the error |
| NetworkedPages.SubmitSignup | statics/js/main.js:42-78 | no request iff the passwords differ, then only "Passwords do not match"; navigates to /login exactly when the passwords match and the reply succeeds; otherwise shows the reply's message or "Signup failed: " and the error |
| NetworkedPages.UpdateSubscription | statics/js/main.js:323-345 | sends the plan; shows nothing exactly when the server refuses |
| NetworkedPages.Logout | statics/js/main.js:425-444 | sends the request, never alerts, and goes to /login iff the reply succeeds |
| NetworkedPages.UserDashboardView.LoadProfile | statics/js/main.js:86-98 | the displayed name and email change only for a successful reply that carries a user |
| NetworkedPages.UserDashboardView.EditProfile | statics/js/main.js:101-107 | shows the form filled with the displayed name and email |
| NetworkedPages.UserDashboardView.SaveProfile | statics/js/main.js:109-135 | sends the form's values; only a success changes the displayed name and email and hides the form; a refusal shows nothing |
| NetworkedPages.UserDashboardView.CancelEdit | statics/js/main.js:137-141 | hides the form |
| NetworkedPages.UserDashboardView.LoadAvatars | statics/js/main.js:179-211 | on success the gallery and select become `Gallery` and `AvatarOptions` of the reply; otherwise neither changes |
| NetworkedPages.UserDashboardView.UploadAvatar | statics/js/main.js:144-176 | with no file no request is sent; a success reloads the avatars and clears the input; a failed request or failed reload keeps the lists |
| NetworkedPages.UserDashboardView.DeleteAvatar | statics/js/main.js:214-231 | a declined confirm sends nothing; a success reloads the avatars instead of editing locally; a refusal shows nothing |
| NetworkedPages.UserDashboardView.LoadAnimations | statics/js/main.js:285-308 | on success the list becomes `AnimationList` of the reply; otherwise it is kept |
| NetworkedPages.UserDashboardView.Generate | statics/js/main.js:234-275 | an empty avatar or expression sends nothing; on success the preview plays `/static/` + the returned path and the animations reload; a failed reload keeps the list |
| NetworkedPages.UserDashboardView.CancelPreview | statics/js/main.js:278-282 | hides the preview |
| NetworkedPages.AdminView.LoadUsers | statics/js/main.js:353-377 | on success the list becomes the "All Users" heading then one entry per user in reply order; otherwise it is kept |
| NetworkedPages.AdminView.SetUserStatus | statics/js/main.js:379-417 | sends the action; a success alerts and reloads the users; a refusal changes nothing; an error alerts "Action failed" |

## Left out

- Server.App.Signup: emails are compared exactly. The database compares them under the column's collation, which is usually case-insensitive, so `User@Test.com` would be refused there when `user@test.com` exists; that collation is not modelled.
- Server.App.Login: emails are compared exactly. A login whose email differs from the stored one only in letter case would match in a case-insensitive collation; that is not modelled.
- NetworkedPages.SubmitSignup: the one-second `setTimeout` before going to /login is not modelled. The navigation is the handler's result.
- OfflineRoles.RoleItem: every `.role-item` is taken to carry a `data-role`. On the signup page an item without one gets no listener and no role key selects it. On the login page it does get a listener: clicking it activates the first item without `data-role` and sets the title from an undefined role, after which the submit check finds no credentials. Neither case is modelled.
- OfflineDashboards.UserPage.SaveAnimation: `src` is kept as the string assigned. The browser resolves a relative option value to an absolute URL on read; that is not modelled.
- Server.App.Signup: the new row's `subscription_status` is taken to be NULL (`None`). The insert leaves it to the column default, which no schema here fixes.
- Server.AllowedFile: lower-cases ASCII letters only. Python's `str.lower()` also lowers non-ASCII letters (U+212A KELVIN SIGN becomes `k`), so such a name can pass on the server and fail here.
- OfflineRoles.SignupPage.SetSignupRole: role keys are treated as plain identifiers. A key holding `"` or `\` would break or change the CSS selector the page builds; that is not modelled.
- OfflineDashboards.SubscriberPage.SaveStep1: `src` is kept as the string assigned. The browser resolves `src` to an absolute URL on read, and an emptied `src` reads back as the page URL; that is not modelled.
- OfflineDashboards.SubscriberPage.SaveGenerated: `src` is kept as the string assigned. The browser's URL resolution on read is not modelled, as for `SaveStep1`.
- Page elements are assumed present. The `if (el)` guards around missing elements are not modelled.
- JavaScript object lookups (`map[k]`, `testCredentials[k]`) ignore inherited keys such as `constructor`.
- An upload click and the FileReader load event it starts are one step. Files read as data URLs are inputs (`LocalFile`).
- Browser facilities are inputs: `URL.createObjectURL`, `prompt`, `confirm` and the chosen files.
- `downloadFile` and the download buttons are not modelled; they only trigger a browser download.
- The subscriber page's driving-video preview on change (assets/js/main.js:295-302) is not modelled. It only shows the chosen file.
- The offline profile edit and save buttons and the alert-only handlers are not modelled: delete account, logout, subscription, search, view, update and suspend. They touch no modelled list or preview.
- The guest page's sample list and upgrade form are not modelled.
- Delete buttons are identified by their card's position at click time.
- `Server.App.Login`: for a role without a dashboard endpoint, the 500 reply's message is a fixed text rather than the exception's text.
- Server routes that raise a database error (the `except` branches returning 500) are not modelled. Neither are SQL, file saving and removal, or the template rendering of `/`, `/login` and `/signup`.
- JSON bodies that are not objects, or fields that are not strings, are not modelled.
- `Server.App.GetAvatars`: `created_at` is a strictly increasing counter, so two rows never tie. The database's timestamps can tie within one second.
- `api_profile` GET, `get_expressions`, `get_animations` and `admin_get_users` are not modelled on the server side. They are read-only queries. Their replies are inputs of the client views that use them.
- One client session is modelled; concurrent requests and their interleaving are not.
- Names and emails interpolated into `innerHTML` are kept as text; HTML parsing of them is not modelled.
- Date formatting (`toLocaleDateString`) is not modelled; the creation date is carried as the server's text.
- The networked handlers do not await their list reloads. The model runs each reload right after the request that triggered it.
- animation_generator.py is not part of this model: model inference and external tools. db_config.py is not part of this model: connection handling.
