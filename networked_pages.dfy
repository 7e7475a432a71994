/** The pages that talk to the server: each handler sends one request, shows
    the reply's message, and on success either edits a few fields or reloads
    a whole list from the server. A request's outcome is a parameter (the
    reply, or the error `fetch` threw); the requests sent are logged so that
    "no request is sent" can be stated. */
module NetworkedPages {
  import opened Wrappers
  import Text

  /** What `await fetch(...)` followed by `response.json()` yields. */
  datatype Fetch<T> = Threw(error: string) | Answered(success: bool, message: string, body: T)

  datatype Request =
    | LoginRequest(email: string, password: string)
    | SignupRequest(fullname: string, email: string, password: string)
    | GetProfile
    | PutProfile(fullname: string, email: string)
    | UploadAvatarRequest(file: string)
    | GetAvatars
    | DeleteAvatarRequest(avatarId: nat)
    | GenerateRequest(avatarValue: string, expressionValue: string)
    | GetAnimations
    | UpdateSubscriptionRequest(plan: string)
    | GetUsers
    | PutUserAction(userId: nat, action: string)
    | LogoutRequest

  // ---------------------------------------------------------------------
  // Replies and what is rendered from them
  // ---------------------------------------------------------------------

  datatype AvatarJson = AvatarJson(avatarId: nat, avatarPath: string)
  datatype AnimationJson = AnimationJson(animationPath: string, expressionName: Option<string>, createdAt: string)
  datatype UserJson = UserJson(userId: nat, fullname: string, email: string, role: string, subscriptionStatus: Option<string>)
  datatype ProfileJson = ProfileJson(fullname: string, email: string)

  /** A gallery card: the image and the avatar its Delete button deletes. */
  datatype AvatarCard = AvatarCard(imageSrc: string, deletes: nat)
  datatype SelectOption = SelectOption(value: string, text: string)
  datatype AnimationCard = AnimationCard(videoSrc: string, caption: string, created: string)
  datatype UserEntry = UserEntry(fullname: string, email: string, role: string, status: string, userId: nat)
  datatype UserListItem = Heading(text: string) | Entry(user: UserEntry)

  const Placeholder := SelectOption("", "--Select Avatar--")

  function StaticUrl(path: string): string {
    "/static/" + path
  }

  function AvatarCardOf(a: AvatarJson): AvatarCard {
    AvatarCard(StaticUrl(a.avatarPath), a.avatarId)
  }

  function AvatarOptionOf(a: AvatarJson): SelectOption {
    var id := Text.NatToDecimal(a.avatarId);
    SelectOption(id, "Avatar " + id)
  }

  /** `animation.expression_name || 'Custom'`: a missing or empty name shows 'Custom'. */
  function Caption(name: Option<string>): (r: string)
    ensures r != []
    ensures name.Some? && name.value != "" ==> r == name.value
    ensures !(name.Some? && name.value != "") ==> r == "Custom"
  {
    if name.Some? && name.value != "" then name.value else "Custom"
  }

  function AnimationCardOf(a: AnimationJson): AnimationCard {
    AnimationCard(StaticUrl(a.animationPath), Caption(a.expressionName), a.createdAt)
  }

  /** A JSON null interpolated into a template literal reads "null". */
  function StatusText(status: Option<string>): string {
    if status.Some? then status.value else "null"
  }

  function UserEntryOf(u: UserJson): UserEntry {
    UserEntry(u.fullname, u.email, u.role, StatusText(u.subscriptionStatus), u.userId)
  }

  /** The gallery rebuilt from a reply: one card per avatar, in reply order. */
  function Gallery(avatars: seq<AvatarJson>): seq<AvatarCard> {
    seq(|avatars|, i requires 0 <= i < |avatars| => AvatarCardOf(avatars[i]))
  }

  /** The avatar select rebuilt from a reply: the placeholder, then one option per avatar. */
  function AvatarOptions(avatars: seq<AvatarJson>): seq<SelectOption> {
    [Placeholder] + seq(|avatars|, i requires 0 <= i < |avatars| => AvatarOptionOf(avatars[i]))
  }

  function AnimationList(animations: seq<AnimationJson>): seq<AnimationCard> {
    seq(|animations|, i requires 0 <= i < |animations| => AnimationCardOf(animations[i]))
  }

  /** The user list rebuilt from a reply: the heading, then one entry per user. */
  function UserList(users: seq<UserJson>): seq<UserListItem> {
    [Heading("All Users")] + seq(|users|, i requires 0 <= i < |users| => Entry(UserEntryOf(users[i])))
  }

  /** After a reload, option `i + 1` of the select and card `i` of the gallery
      are the same avatar: the option's value reads back as the id the card's
      Delete button sends, and only the placeholder has the empty value. */
  lemma OptionsMatchGallery(avatars: seq<AvatarJson>)
    ensures |AvatarOptions(avatars)| == |Gallery(avatars)| + 1
    ensures AvatarOptions(avatars)[0].value == ""
    ensures forall j :: 1 <= j < |AvatarOptions(avatars)| ==>
              && Text.AllDigits(AvatarOptions(avatars)[j].value)
              && AvatarOptions(avatars)[j].value != ""
              && Text.DecimalValue(AvatarOptions(avatars)[j].value) == Gallery(avatars)[j - 1].deletes
  {
    var opts, cards := AvatarOptions(avatars), Gallery(avatars);
    forall j | 1 <= j < |opts|
      ensures Text.AllDigits(opts[j].value) && opts[j].value != ""
      ensures Text.DecimalValue(opts[j].value) == cards[j - 1].deletes
    {
      assert opts[j] == AvatarOptionOf(avatars[j - 1]);
      assert cards[j - 1] == AvatarCardOf(avatars[j - 1]);
      Text.DecimalRoundTrip(avatars[j - 1].avatarId);
    }
  }

  /** Avatars with distinct ids get options with distinct values. */
  lemma OptionValuesDistinct(avatars: seq<AvatarJson>)
    requires forall i, j :: 0 <= i < j < |avatars| ==> avatars[i].avatarId != avatars[j].avatarId
    ensures forall i, j :: 0 <= i < j < |AvatarOptions(avatars)| ==>
              AvatarOptions(avatars)[i].value != AvatarOptions(avatars)[j].value
  {
    var opts := AvatarOptions(avatars);
    forall i, j | 0 <= i < j < |opts| ensures opts[i].value != opts[j].value {
      if i > 0 {
        Text.DecimalInjective(avatars[i - 1].avatarId, avatars[j - 1].avatarId);
      }
    }
  }

  // ---------------------------------------------------------------------
  // Handlers shared by every page
  // ---------------------------------------------------------------------

  /** The effect of a handler that keeps no page state: the request it sent,
      the alerts it showed, and where it navigated. */
  datatype Outcome = Outcome(request: Option<Request>, alerts: seq<string>, navigate: Option<string>)

  /** The login form: sends the credentials; on success goes to the reply's redirect. */
  function SubmitLogin(email: string, password: string, reply: Fetch<string>): (r: Outcome)
    ensures r.request == Some(LoginRequest(email, password))
    ensures r.navigate.Some? <==> reply.Answered? && reply.success
    ensures r.navigate.Some? ==> r.navigate.value == reply.body
    ensures reply.Answered? ==> r.alerts == [reply.message]
    ensures reply.Threw? ==> r.alerts == ["Login failed: " + reply.error]
  {
    match reply
    case Threw(e) => Outcome(Some(LoginRequest(email, password)), ["Login failed: " + e], None)
    case Answered(ok, m, redirect) =>
      Outcome(Some(LoginRequest(email, password)), [m], if ok then Some(redirect) else None)
  }

  /** The signup form: mismatched passwords are refused before any request;
      the confirmation itself is never sent. */
  function SubmitSignup(fullname: string, email: string, password: string, confirm: string, reply: Fetch<()>): (r: Outcome)
    ensures r.request.None? <==> password != confirm
    ensures password != confirm ==> r == Outcome(None, ["Passwords do not match"], None)
    ensures r.request.Some? ==> r.request.value == SignupRequest(fullname, email, password)
    ensures r.navigate.Some? <==> password == confirm && reply.Answered? && reply.success
    ensures r.navigate.Some? ==> r.navigate.value == "/login"
    ensures password == confirm && reply.Answered? ==> r.alerts == [reply.message]
    ensures password == confirm && reply.Threw? ==> r.alerts == ["Signup failed: " + reply.error]
  {
    if password != confirm then Outcome(None, ["Passwords do not match"], None)
    else
      var req := Some(SignupRequest(fullname, email, password));
      match reply
      case Threw(e) => Outcome(req, ["Signup failed: " + e], None)
      case Answered(ok, m, _) => Outcome(req, [m], if ok then Some("/login") else None)
  }

  /** The subscriber page's plan update: only a success or a thrown error is shown. */
  function UpdateSubscription(plan: string, reply: Fetch<()>): (r: Outcome)
    ensures r.request == Some(UpdateSubscriptionRequest(plan)) && r.navigate.None?
    ensures r.alerts == [] <==> reply.Answered? && !reply.success
  {
    var req := Some(UpdateSubscriptionRequest(plan));
    match reply
    case Threw(e) => Outcome(req, ["Update failed: " + e], None)
    case Answered(ok, m, _) => Outcome(req, if ok then [m] else [], None)
  }

  /** The logout buttons: back to the login page on success, silently otherwise. */
  function Logout(reply: Fetch<()>): (r: Outcome)
    ensures r.request == Some(LogoutRequest) && r.alerts == []
    ensures r.navigate.Some? <==> reply.Answered? && reply.success
    ensures r.navigate.Some? ==> r.navigate.value == "/login"
  {
    Outcome(Some(LogoutRequest), [], if reply.Answered? && reply.success then Some("/login") else None)
  }

  // ---------------------------------------------------------------------
  // The user dashboard
  // ---------------------------------------------------------------------

  class UserDashboardView {
    var requests: seq<Request>
    var alerts: seq<string>
    var username: string          // #username text
    var emailText: string         // #email text
    var editFormVisible: bool
    var newUsername: string       // #newUsername input
    var newEmail: string          // #newEmail input
    var fileInput: Option<string> // the file chosen in #avatarUpload
    var gallery: seq<AvatarCard>
    var avatarOptions: seq<SelectOption>
    var animations: seq<AnimationCard>
    var previewSrc: string
    var previewVisible: bool

    constructor ()
      ensures requests == [] && alerts == [] && gallery == [] && animations == []
      ensures avatarOptions == [Placeholder] && !previewVisible && !editFormVisible && fileInput.None?
    {
      requests, alerts := [], [];
      username, emailText := "", "";
      editFormVisible, newUsername, newEmail := false, "", "";
      fileInput := None;
      gallery, avatarOptions, animations := [], [Placeholder], [];
      previewSrc, previewVisible := "", false;
    }

    /** `loadProfile`: a reply without a user (the row is gone) fails inside
        the `try` and, like a thrown request, changes nothing. */
    method LoadProfile(reply: Fetch<Option<ProfileJson>>)
      modifies this`requests, this`username, this`emailText
      ensures requests == old(requests) + [GetProfile]
      ensures if reply.Answered? && reply.success && reply.body.Some?
              then username == reply.body.value.fullname && emailText == reply.body.value.email
              else username == old(username) && emailText == old(emailText)
    {
      requests := requests + [GetProfile];
      if reply.Answered? && reply.success && reply.body.Some? {
        username := reply.body.value.fullname;
        emailText := reply.body.value.email;
      }
    }

    /** The Edit Profile button: shows the form filled with the displayed values. */
    method EditProfile()
      modifies this`editFormVisible, this`newUsername, this`newEmail
      ensures editFormVisible && newUsername == username && newEmail == emailText
    {
      editFormVisible := true;
      newUsername := username;
      newEmail := emailText;
    }

    /** The user typing into the edit form. */
    method TypeProfile(fullname: string, email: string)
      modifies this`newUsername, this`newEmail
      ensures newUsername == fullname && newEmail == email
    {
      newUsername, newEmail := fullname, email;
    }

    /** Save: the displayed name and email change, and the form closes, only
        on success; a refusal shows nothing. */
    method SaveProfile(reply: Fetch<()>)
      modifies this`requests, this`alerts, this`username, this`emailText, this`editFormVisible
      ensures requests == old(requests) + [PutProfile(newUsername, newEmail)]
      ensures reply.Answered? && reply.success ==>
                && username == newUsername && emailText == newEmail && !editFormVisible
                && alerts == old(alerts) + [reply.message]
      ensures !(reply.Answered? && reply.success) ==>
                username == old(username) && emailText == old(emailText) && editFormVisible == old(editFormVisible)
      ensures reply.Answered? && !reply.success ==> alerts == old(alerts)
      ensures reply.Threw? ==> alerts == old(alerts) + ["Update failed: " + reply.error]
    {
      requests := requests + [PutProfile(newUsername, newEmail)];
      match reply
      case Threw(e) =>
        alerts := alerts + ["Update failed: " + e];
      case Answered(ok, m, _) =>
        if ok {
          alerts := alerts + [m];
          username := newUsername;
          emailText := newEmail;
          editFormVisible := false;
        }
    }

    method CancelEdit()
      modifies this`editFormVisible
      ensures !editFormVisible
    {
      editFormVisible := false;
    }

    /** The user picking a file. */
    method ChooseFile(file: Option<string>)
      modifies this`fileInput
      ensures fileInput == file
    {
      fileInput := file;
    }

    /** `loadAvatars`: on success both the gallery and the select are cleared
        and rebuilt, one entry per avatar in reply order; otherwise neither changes. */
    method LoadAvatars(reply: Fetch<seq<AvatarJson>>)
      modifies this`requests, this`gallery, this`avatarOptions
      ensures requests == old(requests) + [GetAvatars]
      ensures reply.Answered? && reply.success ==>
                gallery == Gallery(reply.body) && avatarOptions == AvatarOptions(reply.body)
      ensures !(reply.Answered? && reply.success) ==>
                gallery == old(gallery) && avatarOptions == old(avatarOptions)
    {
      requests := requests + [GetAvatars];
      if reply.Answered? && reply.success {
        var avatars := reply.body;
        gallery := [];
        avatarOptions := [Placeholder];
        var i := 0;
        while i < |avatars|
          invariant 0 <= i <= |avatars|
          invariant requests == old(requests) + [GetAvatars]
          invariant gallery == Gallery(avatars[..i])
          invariant avatarOptions == AvatarOptions(avatars[..i])
        {
          assert Gallery(avatars[..i + 1]) == Gallery(avatars[..i]) + [AvatarCardOf(avatars[i])];
          assert AvatarOptions(avatars[..i + 1]) == AvatarOptions(avatars[..i]) + [AvatarOptionOf(avatars[i])];
          gallery := gallery + [AvatarCardOf(avatars[i])];
          avatarOptions := avatarOptions + [AvatarOptionOf(avatars[i])];
          i := i + 1;
        }
        assert avatars[..i] == avatars;
      }
    }

    /** Upload: without a chosen file nothing is sent; after a successful
        upload the whole avatar list is reloaded and the file input cleared. */
    method UploadAvatar(reply: Fetch<()>, reload: Fetch<seq<AvatarJson>>)
      modifies this`requests, this`alerts, this`gallery, this`avatarOptions, this`fileInput
      ensures fileInput.None? ==> old(fileInput).None? || (reply.Answered? && reply.success)
      ensures old(fileInput).None? ==>
                requests == old(requests) && alerts == old(alerts) + ["Please select an image"] &&
                gallery == old(gallery) && avatarOptions == old(avatarOptions)
      ensures old(fileInput).Some? && reply.Answered? && reply.success ==>
                && requests == old(requests) + [UploadAvatarRequest(old(fileInput).value), GetAvatars]
                && alerts == old(alerts) + [reply.message]
                && (reload.Answered? && reload.success ==> gallery == Gallery(reload.body) && avatarOptions == AvatarOptions(reload.body))
                && (!(reload.Answered? && reload.success) ==> gallery == old(gallery) && avatarOptions == old(avatarOptions))
                && fileInput.None?
      ensures old(fileInput).Some? && !(reply.Answered? && reply.success) ==>
                && requests == old(requests) + [UploadAvatarRequest(old(fileInput).value)]
                && alerts == old(alerts) + [if reply.Threw? then "Upload failed: " + reply.error else reply.message]
                && gallery == old(gallery) && avatarOptions == old(avatarOptions) && fileInput == old(fileInput)
    {
      if fileInput.None? {
        alerts := alerts + ["Please select an image"];
        return;
      }
      requests := requests + [UploadAvatarRequest(fileInput.value)];
      match reply
      case Threw(e) =>
        alerts := alerts + ["Upload failed: " + e];
      case Answered(ok, m, _) =>
        alerts := alerts + [m];
        if ok {
          LoadAvatars(reload);
          fileInput := None;
        }
    }

    /** `deleteAvatar`: a declined confirmation sends nothing; a success
        reloads the avatar list instead of removing the card locally; a
        refusal shows nothing. */
    method DeleteAvatar(avatarId: nat, confirmed: bool, reply: Fetch<()>, reload: Fetch<seq<AvatarJson>>)
      modifies this`requests, this`alerts, this`gallery, this`avatarOptions
      ensures !confirmed ==> requests == old(requests) && alerts == old(alerts) &&
                             gallery == old(gallery) && avatarOptions == old(avatarOptions)
      ensures confirmed && reply.Answered? && reply.success ==>
                && requests == old(requests) + [DeleteAvatarRequest(avatarId), GetAvatars]
                && alerts == old(alerts) + [reply.message]
                && (reload.Answered? && reload.success ==> gallery == Gallery(reload.body) && avatarOptions == AvatarOptions(reload.body))
                && (!(reload.Answered? && reload.success) ==> gallery == old(gallery) && avatarOptions == old(avatarOptions))
      ensures confirmed && !(reply.Answered? && reply.success) ==>
                && requests == old(requests) + [DeleteAvatarRequest(avatarId)]
                && alerts == old(alerts) + (if reply.Threw? then ["Delete failed: " + reply.error] else [])
                && gallery == old(gallery) && avatarOptions == old(avatarOptions)
    {
      if !confirmed {
        return;
      }
      requests := requests + [DeleteAvatarRequest(avatarId)];
      match reply
      case Threw(e) =>
        alerts := alerts + ["Delete failed: " + e];
      case Answered(ok, m, _) =>
        if ok {
          alerts := alerts + [m];
          LoadAvatars(reload);
        }
    }

    /** `loadAnimations`: the list is rebuilt on success and kept otherwise. */
    method LoadAnimations(reply: Fetch<seq<AnimationJson>>)
      modifies this`requests, this`animations
      ensures requests == old(requests) + [GetAnimations]
      ensures reply.Answered? && reply.success ==> animations == AnimationList(reply.body)
      ensures !(reply.Answered? && reply.success) ==> animations == old(animations)
    {
      requests := requests + [GetAnimations];
      if reply.Answered? && reply.success {
        var list := reply.body;
        animations := [];
        var i := 0;
        while i < |list|
          invariant 0 <= i <= |list|
          invariant requests == old(requests) + [GetAnimations]
          invariant animations == AnimationList(list[..i])
        {
          assert AnimationList(list[..i + 1]) == AnimationList(list[..i]) + [AnimationCardOf(list[i])];
          animations := animations + [AnimationCardOf(list[i])];
          i := i + 1;
        }
        assert list[..i] == list;
      }
    }

    /** Generate: an empty avatar or expression selection sends nothing; on
        success the preview plays `/static/` + the reply's path and the
        animation list is reloaded. The reply's body is `animation_path`. */
    method Generate(avatarValue: string, expressionValue: string, reply: Fetch<string>, reload: Fetch<seq<AnimationJson>>)
      modifies this`requests, this`alerts, this`previewSrc, this`previewVisible, this`animations
      ensures avatarValue == "" || expressionValue == "" ==>
                && requests == old(requests) && alerts == old(alerts) + ["Please select avatar and expression"]
                && previewSrc == old(previewSrc) && previewVisible == old(previewVisible) && animations == old(animations)
      ensures avatarValue != "" && expressionValue != "" && reply.Answered? && reply.success ==>
                && requests == old(requests) + [GenerateRequest(avatarValue, expressionValue), GetAnimations]
                && alerts == old(alerts) + [reply.message]
                && previewSrc == StaticUrl(reply.body) && previewVisible
                && (reload.Answered? && reload.success ==> animations == AnimationList(reload.body))
                && (!(reload.Answered? && reload.success) ==> animations == old(animations))
      ensures avatarValue != "" && expressionValue != "" && !(reply.Answered? && reply.success) ==>
                && requests == old(requests) + [GenerateRequest(avatarValue, expressionValue)]
                && alerts == old(alerts) + [if reply.Threw? then "Generation failed: " + reply.error else reply.message]
                && previewSrc == old(previewSrc) && previewVisible == old(previewVisible) && animations == old(animations)
    {
      if avatarValue == "" || expressionValue == "" {
        alerts := alerts + ["Please select avatar and expression"];
        return;
      }
      requests := requests + [GenerateRequest(avatarValue, expressionValue)];
      match reply
      case Threw(e) =>
        alerts := alerts + ["Generation failed: " + e];
      case Answered(ok, m, path) =>
        alerts := alerts + [m];
        if ok {
          previewSrc := StaticUrl(path);
          previewVisible := true;
          LoadAnimations(reload);
        }
    }

    method CancelPreview()
      modifies this`previewVisible
      ensures !previewVisible
    {
      previewVisible := false;
    }
  }

  /** Choosing any real avatar from a freshly loaded select passes the
      generate handler's check and sends that avatar's id. */
  method GenerateWithLoadedAvatar(view: UserDashboardView, avatars: seq<AvatarJson>, k: nat, expressionValue: string,
                                  reply: Fetch<string>, reload: Fetch<seq<AnimationJson>>)
    requires k < |avatars| && expressionValue != ""
    modifies view
  {
    view.LoadAvatars(Answered(true, "", avatars));
    OptionsMatchGallery(avatars);
    assert k + 1 < |view.avatarOptions|;
    var chosen := view.avatarOptions[k + 1].value;
    var before := view.requests;
    view.Generate(chosen, expressionValue, reply, reload);
    assert view.requests[|before|] == GenerateRequest(chosen, expressionValue);
    assert Text.DecimalValue(chosen) == view.gallery[k].deletes == avatars[k].avatarId;
  }

  // ---------------------------------------------------------------------
  // The admin dashboard
  // ---------------------------------------------------------------------

  datatype UserAction = Suspend | Activate

  function ActionName(a: UserAction): string {
    match a
    case Suspend => "suspend"
    case Activate => "activate"
  }

  class AdminView {
    var requests: seq<Request>
    var alerts: seq<string>
    var userList: seq<UserListItem>

    constructor ()
      ensures requests == [] && alerts == [] && userList == []
    {
      requests, alerts, userList := [], [], [];
    }

    /** `loadUsers`: on success the list becomes the heading followed by one
        entry per user in reply order; otherwise it is kept. */
    method LoadUsers(reply: Fetch<seq<UserJson>>)
      modifies this`requests, this`userList
      ensures requests == old(requests) + [GetUsers]
      ensures reply.Answered? && reply.success ==> userList == UserList(reply.body)
      ensures !(reply.Answered? && reply.success) ==> userList == old(userList)
    {
      requests := requests + [GetUsers];
      if reply.Answered? && reply.success {
        var users := reply.body;
        userList := [Heading("All Users")];
        var i := 0;
        while i < |users|
          invariant 0 <= i <= |users|
          invariant requests == old(requests) + [GetUsers]
          invariant userList == UserList(users[..i])
        {
          assert UserList(users[..i + 1]) == UserList(users[..i]) + [Entry(UserEntryOf(users[i]))];
          userList := userList + [Entry(UserEntryOf(users[i]))];
          i := i + 1;
        }
        assert users[..i] == users;
      }
    }

    /** The Suspend and Activate buttons: on success a fixed message and a
        reload; on refusal nothing; on an error "Action failed". */
    method SetUserStatus(userId: nat, action: UserAction, reply: Fetch<()>, reload: Fetch<seq<UserJson>>)
      modifies this`requests, this`alerts, this`userList
      ensures reply.Answered? && reply.success ==>
                && requests == old(requests) + [PutUserAction(userId, ActionName(action)), GetUsers]
                && alerts == old(alerts) + [if action == Suspend then "User suspended" else "User activated"]
                && (reload.Answered? && reload.success ==> userList == UserList(reload.body))
                && (!(reload.Answered? && reload.success) ==> userList == old(userList))
      ensures !(reply.Answered? && reply.success) ==>
                && requests == old(requests) + [PutUserAction(userId, ActionName(action))]
                && alerts == old(alerts) + (if reply.Threw? then ["Action failed"] else [])
                && userList == old(userList)
    {
      requests := requests + [PutUserAction(userId, ActionName(action))];
      match reply
      case Threw(_) =>
        alerts := alerts + ["Action failed"];
      case Answered(ok, _, _) =>
        if ok {
          alerts := alerts + [if action == Suspend then "User suspended" else "User activated"];
          LoadUsers(reload);
        }
    }
  }

  /** Every rendered user entry carries its row's id for the action buttons,
      and a missing status shows as "null". */
  lemma UserListEntries(users: seq<UserJson>)
    ensures |UserList(users)| == |users| + 1 && UserList(users)[0] == Heading("All Users")
    ensures forall i :: 0 <= i < |users| ==>
              UserList(users)[i + 1].Entry? && UserList(users)[i + 1].user.userId == users[i].userId &&
              (users[i].subscriptionStatus.None? ==> UserList(users)[i + 1].user.status == "null")
  {
  }
}
