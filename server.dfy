/** The Flask application: the upload extension check, the dashboard guards,
    and the JSON API's effect on the database tables and on the client's
    session. The MySQL tables are in-memory collections; `lastrowid`, the
    clock behind `created_at`, `uuid4`, `secure_filename` and the password
    hash functions are supplied from outside. */
module Server {
  import opened Wrappers
  import Text

  const ImageExtensions: set<string> := {"png", "jpg", "jpeg", "gif"}
  const VideoExtensions: set<string> := {"mp4", "avi", "mov"}

  /** `k` is the position of the last '.' in `s`. */
  predicate LastDot(s: string, k: nat) {
    k < |s| && s[k] == '.' && forall j :: k < j < |s| ==> s[j] != '.'
  }

  /** `allowed_file`: the name has a '.', and the text after the last '.',
      lower-cased, is one of the allowed extensions. */
  function AllowedFile(filename: string, allowed: set<string>): (r: bool)
    ensures '.' !in filename ==> !r
    ensures forall k :: LastDot(filename, k) ==> (r <==> Text.AsciiLower(filename[k + 1..]) in allowed)
  {
    match Text.LastIndexOf(filename, '.')
    case None => false
    case Some(k) =>
      assert forall k' :: LastDot(filename, k') ==> k' == k;
      Text.AsciiLower(filename[k + 1..]) in allowed
  }

  lemma AllowedFileExamples()
    ensures AllowedFile("x.PNG", ImageExtensions)
    ensures !AllowedFile("png", ImageExtensions)
    ensures !AllowedFile("a.png.exe", ImageExtensions)
    ensures !AllowedFile("a.", ImageExtensions)
  {
    assert LastDot("x.PNG", 1) && "x.PNG"[2..] == "PNG";
    assert Text.AsciiLower("PNG") == "png";
    assert LastDot("a.png.exe", 5) && "a.png.exe"[6..] == "exe";
    assert Text.AsciiLower("exe") == "exe";
    assert LastDot("a.", 1) && "a."[2..] == "";
    assert Text.AsciiLower("") == "";
  }

  // ---------------------------------------------------------------------
  // Session
  // ---------------------------------------------------------------------

  datatype SessionValue = Num(n: nat) | Str(s: string)

  /** Flask's signed-cookie session of one client. */
  type Session = map<string, SessionValue>

  /** `session['user_id']`, when present. */
  function SessionUser(s: Session): Option<nat> {
    if "user_id" in s && s["user_id"].Num? then Some(s["user_id"].n) else None
  }

  /** `session.get('role')`: `None` when the key is missing. */
  function SessionRole(s: Session): Option<string> {
    if "role" in s && s["role"].Str? then Some(s["role"].s) else None
  }

  predicate RoleIn(s: Session, roles: seq<string>) {
    SessionRole(s).Some? && SessionRole(s).value in roles
  }

  datatype PageReply = Render(template: string) | RedirectTo(target: string)

  const LoginPage := "/login"

  /** `/user` admits the roles user, subscriber and admin. */
  function UserDashboard(s: Session): (r: PageReply)
    ensures r == Render("user.html") || r == RedirectTo(LoginPage)
    ensures r.Render? <==> "user_id" in s && SessionRole(s) in {Some("user"), Some("subscriber"), Some("admin")}
  {
    if "user_id" !in s then RedirectTo(LoginPage)
    else if !RoleIn(s, ["user", "subscriber", "admin"]) then RedirectTo(LoginPage)
    else Render("user.html")
  }

  /** `/subscriber` admits the roles subscriber and admin. */
  function SubscriberDashboard(s: Session): (r: PageReply)
    ensures r == Render("subscriber.html") || r == RedirectTo(LoginPage)
    ensures r.Render? <==> "user_id" in s && SessionRole(s) in {Some("subscriber"), Some("admin")}
  {
    if "user_id" !in s then RedirectTo(LoginPage)
    else if !RoleIn(s, ["subscriber", "admin"]) then RedirectTo(LoginPage)
    else Render("subscriber.html")
  }

  /** `/admin` admits the role admin only. */
  function AdminDashboard(s: Session): (r: PageReply)
    ensures r == Render("admin.html") || r == RedirectTo(LoginPage)
    ensures r.Render? <==> "user_id" in s && SessionRole(s) == Some("admin")
  {
    if "user_id" !in s || SessionRole(s) != Some("admin") then RedirectTo(LoginPage)
    else Render("admin.html")
  }

  /** The admitted sessions are nested: admin within subscriber within user,
      and a session without a user id is sent to the login page everywhere. */
  lemma DashboardsNested(s: Session)
    ensures AdminDashboard(s).Render? ==> SubscriberDashboard(s).Render?
    ensures SubscriberDashboard(s).Render? ==> UserDashboard(s).Render?
    ensures "user_id" !in s ==> UserDashboard(s) == SubscriberDashboard(s) == AdminDashboard(s) == RedirectTo(LoginPage)
  {
  }

  /** `url_for(f'{role}_dashboard')`: only three roles have a dashboard
      endpoint; for any other role `url_for` raises. */
  function DashboardFor(role: string): (r: Option<string>)
    ensures r.Some? <==> role in {"user", "subscriber", "admin"}
    ensures r.Some? ==> r.value == "/" + role
  {
    if role == "user" then Some("/user")
    else if role == "subscriber" then Some("/subscriber")
    else if role == "admin" then Some("/admin")
    else None
  }

  // ---------------------------------------------------------------------
  // Tables and the API
  // ---------------------------------------------------------------------

  datatype UserRow = UserRow(fullname: string, email: string, passwordHash: string, role: string,
                             subscriptionStatus: Option<string>)
  datatype AvatarRow = AvatarRow(avatarId: nat, userId: nat, avatarPath: string, createdAt: nat)
  datatype AnimationRow = AnimationRow(animationId: nat, userId: nat, avatarId: string, expressionId: string,
                                       animationPath: string, status: string, createdAt: nat)

  /** A JSON reply: HTTP status, its `success` flag and its `message`. */
  datatype Reply = Reply(status: nat, success: bool, message: string)

  const Unauthorized := Reply(401, false, "Unauthorized")

  /** An uploaded file part: its client-side file name. */
  datatype Upload = Upload(filename: string)

  datatype Method = Put | Delete

  /** Python truthiness of an optional JSON string: present and non-empty. */
  predicate Filled(o: Option<string>) {
    o.Some? && o.value != ""
  }

  predicate EmailTaken(users: map<nat, UserRow>, email: string) {
    exists id :: id in users && users[id].email == email
  }

  /** No two rows share an email. Signup keeps this; a profile update does
      not check it. */
  predicate UniqueEmails(users: map<nat, UserRow>) {
    forall a, b :: a in users && b in users && users[a].email == users[b].email ==> a == b
  }

  /** Row `id` has this email and `password` checks against its hash. */
  predicate Matches(users: map<nat, UserRow>, check: (string, string) -> bool, id: nat, email: string, password: string) {
    id in users && users[id].email == email && check(users[id].passwordHash, password)
  }

  /** The session after a successful login of user `id`. */
  function LoginSession(s: Session, id: nat, u: UserRow): Session {
    s["user_id" := Num(id)]["email" := Str(u.email)]["fullname" := Str(u.fullname)]["role" := Str(u.role)]
  }

  /** `DELETE FROM avatars WHERE avatar_id = %s`. */
  function WithoutAvatar(avatars: seq<AvatarRow>, avatarId: nat): (r: seq<AvatarRow>)
    ensures forall i :: 0 <= i < |r| ==> r[i] in avatars && r[i].avatarId != avatarId
    ensures forall i :: 0 <= i < |avatars| && avatars[i].avatarId != avatarId ==> avatars[i] in r
  {
    if avatars == [] then []
    else if avatars[0].avatarId == avatarId then WithoutAvatar(avatars[1..], avatarId)
    else [avatars[0]] + WithoutAvatar(avatars[1..], avatarId)
  }

  /** `SELECT * FROM avatars WHERE avatar_id = %s AND user_id = %s` finds a row. */
  predicate OwnsAvatar(avatars: seq<AvatarRow>, avatarId: nat, userId: nat) {
    exists i :: 0 <= i < |avatars| && avatars[i].avatarId == avatarId && avatars[i].userId == userId
  }

  /** Whether `get_avatars` shows row `a` to the session's user. */
  predicate ShownTo(a: AvatarRow, userId: nat, isAdmin: bool) {
    isAdmin || a.userId == userId
  }

  /** The `users` table, the `avatars` table in insertion order, the
      `animations` table, and the session of one client. */
  class App {
    const hash: string -> string              // generate_password_hash
    const check: (string, string) -> bool     // check_password_hash(stored, candidate)
    var users: map<nat, UserRow>
    var avatars: seq<AvatarRow>
    var animations: seq<AnimationRow>
    var session: Session
    var nextUserId: nat
    var nextAvatarId: nat
    var nextAnimationId: nat
    var clock: nat

    ghost predicate Valid()
      reads this
    {
      && (forall id :: id in users ==> id < nextUserId)
      && (forall i :: 0 <= i < |avatars| ==> avatars[i].avatarId < nextAvatarId && avatars[i].createdAt < clock)
      && Ascending(avatars)
      && (forall i :: 0 <= i < |animations| ==> animations[i].animationId < nextAnimationId)
      && ("user_id" in session ==> session["user_id"].Num?)
    }

    constructor (hash: string -> string, check: (string, string) -> bool)
      requires forall p :: check(hash(p), p)
      ensures Valid()
      ensures this.hash == hash && this.check == check
      ensures users == map[] && avatars == [] && animations == [] && session == map[]
    {
      this.hash, this.check := hash, check;
      users, avatars, animations, session := map[], [], [], map[];
      nextUserId, nextAvatarId, nextAnimationId, clock := 1, 1, 1, 0;
    }

    /** POST /api/signup: rejected with nothing inserted when a field is missing
        or empty or the email is taken; otherwise one row with role 'user'. */
    method Signup(fullname: Option<string>, email: Option<string>, password: Option<string>) returns (reply: Reply)
      requires Valid()
      modifies this`users, this`nextUserId
      ensures Valid()
      ensures !(Filled(fullname) && Filled(email) && Filled(password)) ==>
                reply == Reply(400, false, "All fields are required") && users == old(users)
      ensures Filled(fullname) && Filled(email) && Filled(password) && EmailTaken(old(users), email.value) ==>
                reply == Reply(400, false, "Email already exists") && users == old(users)
      ensures Filled(fullname) && Filled(email) && Filled(password) && !EmailTaken(old(users), email.value) ==>
                && reply == Reply(200, true, "Account created successfully")
                && old(nextUserId) !in old(users)
                && users == old(users)[old(nextUserId) := UserRow(fullname.value, email.value, hash(password.value), "user", None)]
      ensures UniqueEmails(old(users)) ==> UniqueEmails(users)
    {
      if !(Filled(fullname) && Filled(email) && Filled(password)) {
        return Reply(400, false, "All fields are required");
      }
      if EmailTaken(users, email.value) {
        return Reply(400, false, "Email already exists");
      }
      users := users[nextUserId := UserRow(fullname.value, email.value, hash(password.value), "user", None)];
      nextUserId := nextUserId + 1;
      return Reply(200, true, "Account created successfully");
    }

    /** POST /api/login. Some row with the email is fetched; an unknown
        email and a wrong password get the same reply. On a match the session
        holds that user's id, email, name and role; the reply then carries the
        role's dashboard, and for a role without a dashboard endpoint
        `url_for` raises after the session was written, so the reply is a 500
        while the session stays logged in. */
    method Login(email: Option<string>, password: Option<string>) returns (reply: Reply, redirect: Option<string>)
      requires Valid()
      modifies this`session
      ensures Valid()
      ensures !(Filled(email) && Filled(password)) ==>
                reply == Reply(400, false, "Email and password required") && redirect == None && session == old(session)
      ensures reply.status == 401 || reply.status == 400 ==> redirect == None && session == old(session) && !reply.success
      ensures Filled(email) && Filled(password) ==> reply.status in {200, 401, 500}
      ensures reply.status == 401 ==> reply == Reply(401, false, "Invalid credentials")
      ensures Filled(email) && Filled(password) && (forall id :: !Matches(users, check, id, email.value, password.value)) ==>
                reply.status == 401
      ensures Filled(email) && Filled(password) && UniqueEmails(users) && (exists id :: Matches(users, check, id, email.value, password.value)) ==>
                reply.status != 401
      ensures reply.status in {200, 500} ==>
                exists id :: && Matches(users, check, id, email.value, password.value)
                             && session == LoginSession(old(session), id, users[id])
                             && redirect == DashboardFor(users[id].role)
                             && reply.success == redirect.Some?
                             && reply.status == (if redirect.Some? then 200 else 500)
    {
      if !(Filled(email) && Filled(password)) {
        return Reply(400, false, "Email and password required"), None;
      }
      if !EmailTaken(users, email.value) {
        return Reply(401, false, "Invalid credentials"), None;
      }
      var id :| id in users && users[id].email == email.value;
      var user := users[id];
      if !check(user.passwordHash, password.value) {
        return Reply(401, false, "Invalid credentials"), None;
      }
      session := session["user_id" := Num(id)];
      session := session["email" := Str(user.email)];
      session := session["fullname" := Str(user.fullname)];
      session := session["role" := Str(user.role)];
      redirect := DashboardFor(user.role);
      if redirect.Some? {
        reply := Reply(200, true, "Login successful");
      } else {
        reply := Reply(500, false, "Could not build url for endpoint");
      }
      assert Matches(users, check, id, email.value, password.value);
    }

    /** POST /api/logout: the session is emptied. */
    method Logout() returns (reply: Reply)
      requires Valid()
      modifies this`session
      ensures Valid()
      ensures session == map[] && reply == Reply(200, true, "Logged out successfully")
    {
      session := map[];
      return Reply(200, true, "Logged out successfully");
    }

    /** PUT /api/profile: the session's row gets the new name and email, and
        so does the session; the email is not checked against other rows. */
    method UpdateProfile(fullname: string, email: string) returns (reply: Reply)
      requires Valid()
      modifies this`users, this`session
      ensures Valid()
      ensures SessionUser(old(session)).None? ==> reply == Unauthorized && users == old(users) && session == old(session)
      ensures SessionUser(old(session)).Some? ==>
                var uid := SessionUser(old(session)).value;
                && reply == Reply(200, true, "Profile updated")
                && session == old(session)["fullname" := Str(fullname)]["email" := Str(email)]
                && users == if uid in old(users)
                            then old(users)[uid := old(users)[uid].(fullname := fullname, email := email)]
                            else old(users)
    {
      var uid := SessionUser(session);
      if uid.None? {
        return Unauthorized;
      }
      if uid.value in users {
        users := users[uid.value := users[uid.value].(fullname := fullname, email := email)];
      }
      session := session["fullname" := Str(fullname)];
      session := session["email" := Str(email)];
      return Reply(200, true, "Profile updated");
    }

    /** POST /api/avatar/upload: needs a session, a file part, a non-empty
        file name and an image extension; any failure inserts nothing, success
        inserts one row owned by the session's user. `storedName` is what
        `secure_filename` makes of the uuid-prefixed name. */
    method UploadAvatar(file: Option<Upload>, storedName: string) returns (reply: Reply, avatarId: Option<nat>)
      requires Valid()
      modifies this`avatars, this`nextAvatarId, this`clock
      ensures Valid()
      ensures SessionUser(session).None? ==> reply == Unauthorized
      ensures SessionUser(session).Some? && file.None? ==> reply == Reply(400, false, "No file provided")
      ensures SessionUser(session).Some? && file.Some? && file.value.filename == "" ==>
                reply == Reply(400, false, "No file selected")
      ensures SessionUser(session).Some? && file.Some? && file.value.filename != "" &&
              !AllowedFile(file.value.filename, ImageExtensions) ==>
                reply == Reply(400, false, "Invalid file type")
      ensures !reply.success ==> avatars == old(avatars) && avatarId == None
      ensures reply.success <==> SessionUser(session).Some? && file.Some? && file.value.filename != "" &&
                                 AllowedFile(file.value.filename, ImageExtensions)
      ensures reply.success ==>
                && reply.status == 200 && avatarId == Some(old(nextAvatarId))
                && avatars == old(avatars) + [AvatarRow(old(nextAvatarId), SessionUser(session).value,
                                                        "avatars/" + storedName, old(clock))]
    {
      var uid := SessionUser(session);
      if uid.None? {
        return Unauthorized, None;
      }
      if file.None? {
        return Reply(400, false, "No file provided"), None;
      }
      if file.value.filename == "" {
        return Reply(400, false, "No file selected"), None;
      }
      if AllowedFile(file.value.filename, ImageExtensions) {
        avatars := avatars + [AvatarRow(nextAvatarId, uid.value, "avatars/" + storedName, clock)];
        avatarId := Some(nextAvatarId);
        nextAvatarId := nextAvatarId + 1;
        clock := clock + 1;
        return Reply(200, true, "Avatar uploaded successfully"), avatarId;
      }
      return Reply(400, false, "Invalid file type"), None;
    }

    /** GET /api/avatars: an admin sees every avatar, anyone else only their
        own, newest first. */
    method GetAvatars() returns (reply: Reply, list: seq<AvatarRow>)
      requires Valid()
      ensures SessionUser(session).None? ==> reply == Unauthorized && list == []
      ensures SessionUser(session).Some? ==> reply.success
      ensures SessionUser(session).Some? ==>
                forall a :: a in list <==> a in avatars && ShownTo(a, SessionUser(session).value, SessionRole(session) == Some("admin"))
      ensures forall i, j :: 0 <= i < j < |list| ==> list[i].createdAt > list[j].createdAt
    {
      var uid := SessionUser(session);
      if uid.None? {
        return Unauthorized, [];
      }
      var isAdmin := SessionRole(session) == Some("admin");
      list := [];
      var i := |avatars|;
      while i > 0
        invariant 0 <= i <= |avatars|
        invariant forall a :: a in list <==> a in avatars[i..] && ShownTo(a, uid.value, isAdmin)
        invariant forall p, q :: 0 <= p < q < |list| ==> list[p].createdAt > list[q].createdAt
        invariant forall p, j :: 0 <= p < |list| && 0 <= j < i ==> list[p].createdAt > avatars[j].createdAt
      {
        i := i - 1;
        assert avatars[i..] == [avatars[i]] + avatars[i + 1..];
        if ShownTo(avatars[i], uid.value, isAdmin) {
          list := list + [avatars[i]];
        }
      }
      return Reply(200, true, ""), list;
    }

    /** DELETE /api/avatar/<id>: removes the row only when it belongs to the
        session's user, admins included; otherwise 404 and no change. */
    method DeleteAvatar(avatarId: nat) returns (reply: Reply)
      requires Valid()
      modifies this`avatars
      ensures Valid()
      ensures SessionUser(session).None? ==> reply == Unauthorized && avatars == old(avatars)
      ensures SessionUser(session).Some? && !OwnsAvatar(old(avatars), avatarId, SessionUser(session).value) ==>
                reply == Reply(404, false, "Avatar not found") && avatars == old(avatars)
      ensures SessionUser(session).Some? && OwnsAvatar(old(avatars), avatarId, SessionUser(session).value) ==>
                reply == Reply(200, true, "Avatar deleted") && avatars == WithoutAvatar(old(avatars), avatarId)
    {
      var uid := SessionUser(session);
      if uid.None? {
        return Unauthorized;
      }
      if !OwnsAvatar(avatars, avatarId, uid.value) {
        return Reply(404, false, "Avatar not found");
      }
      WithoutAvatarSorted(avatars, avatarId);
      avatars := WithoutAvatar(avatars, avatarId);
      return Reply(200, true, "Avatar deleted");
    }

    /** POST /api/animation/generate: needs a session and non-empty avatar and
        expression ids; the row is inserted as 'processing' and then marked
        'completed'. Neither id is checked against the caller's avatars. */
    method GenerateAnimation(avatarId: Option<string>, expressionId: Option<string>, uuid: string)
      returns (reply: Reply, animationPath: Option<string>)
      requires Valid()
      modifies this`animations, this`nextAnimationId, this`clock
      ensures Valid()
      ensures SessionUser(session).None? ==> reply == Unauthorized
      ensures SessionUser(session).Some? && !(Filled(avatarId) && Filled(expressionId)) ==>
                reply == Reply(400, false, "Avatar and expression required")
      ensures !reply.success ==> animations == old(animations) && animationPath == None
      ensures reply.success <==> SessionUser(session).Some? && Filled(avatarId) && Filled(expressionId)
      ensures reply.success ==>
                var path := "animations/animation_" + uuid + ".mp4";
                && animationPath == Some(path)
                && animations == old(animations) + [AnimationRow(old(nextAnimationId), SessionUser(session).value,
                                                                 avatarId.value, expressionId.value, path, "completed", old(clock))]
    {
      var uid := SessionUser(session);
      if uid.None? {
        return Unauthorized, None;
      }
      if !(Filled(avatarId) && Filled(expressionId)) {
        return Reply(400, false, "Avatar and expression required"), None;
      }
      var path := "animations/animation_" + uuid + ".mp4";
      var id := nextAnimationId;
      animations := animations + [AnimationRow(id, uid.value, avatarId.value, expressionId.value, path, "processing", clock)];
      nextAnimationId := nextAnimationId + 1;
      clock := clock + 1;
      var last := |animations| - 1;
      animations := animations[last := animations[last].(status := "completed")];
      return Reply(200, true, "Animation generated"), Some(path);
    }

    /** POST /api/subscription/update: whatever the plan, the session's user
        becomes a subscriber with an active subscription (an admin too), and
        the session's role follows even when the row no longer exists. */
    method UpdateSubscription(plan: Option<string>) returns (reply: Reply)
      requires Valid()
      modifies this`users, this`session
      ensures Valid()
      ensures SessionUser(old(session)).None? ==> reply == Unauthorized && users == old(users) && session == old(session)
      ensures SessionUser(old(session)).Some? ==>
                var uid := SessionUser(old(session)).value;
                && reply == Reply(200, true, "Subscription updated")
                && session == old(session)["role" := Str("subscriber")]
                && users == if uid in old(users)
                            then old(users)[uid := old(users)[uid].(role := "subscriber", subscriptionStatus := Some("active"))]
                            else old(users)
    {
      var uid := SessionUser(session);
      if uid.None? {
        return Unauthorized;
      }
      if uid.value in users {
        users := users[uid.value := users[uid.value].(role := "subscriber", subscriptionStatus := Some("active"))];
      }
      session := session["role" := Str("subscriber")];
      return Reply(200, true, "Subscription updated");
    }

    /** PUT or DELETE /api/admin/user/<id>: only an admin session may; PUT sets
        the status for 'suspend' and 'activate' and changes nothing for any
        other action, yet reports success; DELETE removes the row. */
    method AdminManageUser(userId: nat, verb: Method, action: Option<string>) returns (reply: Reply)
      requires Valid()
      modifies this`users
      ensures Valid()
      ensures !("user_id" in session && SessionRole(session) == Some("admin")) ==> reply == Unauthorized && users == old(users)
      ensures "user_id" in session && SessionRole(session) == Some("admin") ==>
                match verb
                case Put =>
                  && reply == Reply(200, true, "User updated")
                  && users == if userId in old(users) && action in {Some("suspend"), Some("activate")}
                              then old(users)[userId := old(users)[userId].(subscriptionStatus :=
                                     Some(if action == Some("suspend") then "suspended" else "active"))]
                              else old(users)
                case Delete =>
                  reply == Reply(200, true, "User deleted") && users == old(users) - {userId}
    {
      if !("user_id" in session && SessionRole(session) == Some("admin")) {
        return Unauthorized;
      }
      match verb
      case Put =>
        if action == Some("suspend") {
          if userId in users {
            users := users[userId := users[userId].(subscriptionStatus := Some("suspended"))];
          }
        } else if action == Some("activate") {
          if userId in users {
            users := users[userId := users[userId].(subscriptionStatus := Some("active"))];
          }
        }
        return Reply(200, true, "User updated");
      case Delete =>
        users := users - {userId};
        return Reply(200, true, "User deleted");
    }
  }

  /** Rows in strictly increasing id and creation-time order. */
  predicate Ascending(avatars: seq<AvatarRow>) {
    forall i, j :: 0 <= i < j < |avatars| ==>
      avatars[i].avatarId < avatars[j].avatarId && avatars[i].createdAt < avatars[j].createdAt
  }

  lemma AscendingTail(avatars: seq<AvatarRow>)
    requires avatars != [] && Ascending(avatars)
    ensures Ascending(avatars[1..])
    ensures forall j :: 0 <= j < |avatars[1..]| ==>
              avatars[0].avatarId < avatars[1..][j].avatarId && avatars[0].createdAt < avatars[1..][j].createdAt
  {
    var tail := avatars[1..];
    forall i, j | 0 <= i < j < |tail|
      ensures tail[i].avatarId < tail[j].avatarId && tail[i].createdAt < tail[j].createdAt
    {
      assert tail[i] == avatars[i + 1] && tail[j] == avatars[j + 1];
    }
    forall j | 0 <= j < |tail| ensures avatars[0].avatarId < tail[j].avatarId && avatars[0].createdAt < tail[j].createdAt {
      assert tail[j] == avatars[j + 1];
    }
  }

  lemma AscendingCons(a: AvatarRow, t: seq<AvatarRow>)
    requires Ascending(t)
    requires forall j :: 0 <= j < |t| ==> a.avatarId < t[j].avatarId && a.createdAt < t[j].createdAt
    ensures Ascending([a] + t)
  {
    var r := [a] + t;
    forall i, j | 0 <= i < j < |r| ensures r[i].avatarId < r[j].avatarId && r[i].createdAt < r[j].createdAt {
      assert r[j] == t[j - 1];
      if i > 0 {
        assert r[i] == t[i - 1];
      }
    }
  }

  /** Deleting avatar rows keeps the table ordered by id and by creation time. */
  lemma {:induction false} WithoutAvatarSorted(avatars: seq<AvatarRow>, avatarId: nat)
    requires Ascending(avatars)
    ensures Ascending(WithoutAvatar(avatars, avatarId))
  {
    if avatars != [] {
      var tail := avatars[1..];
      AscendingTail(avatars);
      WithoutAvatarSorted(tail, avatarId);
      var t := WithoutAvatar(tail, avatarId);
      if avatars[0].avatarId != avatarId {
        forall j | 0 <= j < |t| ensures avatars[0].avatarId < t[j].avatarId && avatars[0].createdAt < t[j].createdAt {
          var q :| 0 <= q < |tail| && tail[q] == t[j];
        }
        AscendingCons(avatars[0], t);
      }
    }
  }

  /** In a table with strictly ascending ids, deleting an existing avatar removes exactly one row. */
  lemma {:induction false} WithoutAvatarRemovesOne(avatars: seq<AvatarRow>, k: nat)
    requires k < |avatars|
    requires forall i, j :: 0 <= i < j < |avatars| ==> avatars[i].avatarId < avatars[j].avatarId
    ensures WithoutAvatar(avatars, avatars[k].avatarId) == avatars[..k] + avatars[k + 1..]
  {
    if k == 0 {
      WithoutAbsentAvatar(avatars[1..], avatars[0].avatarId);
    } else {
      WithoutAvatarRemovesOne(avatars[1..], k - 1);
      assert avatars[1..][k - 1] == avatars[k];
      assert [avatars[0]] + (avatars[1..][..k - 1] + avatars[1..][k..]) == avatars[..k] + avatars[k + 1..];
    }
  }

  lemma {:induction false} WithoutAbsentAvatar(avatars: seq<AvatarRow>, avatarId: nat)
    requires forall i :: 0 <= i < |avatars| ==> avatars[i].avatarId > avatarId
    ensures WithoutAvatar(avatars, avatarId) == avatars
  {
    if avatars != [] {
      WithoutAbsentAvatar(avatars[1..], avatarId);
      assert avatars == [avatars[0]] + avatars[1..];
    }
  }

  /** A signup followed by a login with the same email and password succeeds
      and lands on the user dashboard. */
  method SignupThenLogin(app: App, fullname: string, email: string, password: string)
    requires app.Valid() && fullname != "" && email != "" && password != ""
    requires !EmailTaken(app.users, email) && UniqueEmails(app.users)
    requires forall p :: app.check(app.hash(p), p)
    modifies app
  {
    var id := app.nextUserId;
    var r1 := app.Signup(Some(fullname), Some(email), Some(password));
    assert r1.success;
    assert id in app.users && app.users[id].email == email && app.users[id].role == "user";
    assert Matches(app.users, app.check, id, email, password);
    var r2, redirect := app.Login(Some(email), Some(password));
    assert r2.success && r2.status == 200;
    assert redirect == Some("/user");
    assert SessionUser(app.session) == Some(id) && SessionRole(app.session) == Some("user");
    assert UserDashboard(app.session) == Render("user.html");
    assert AdminDashboard(app.session) == RedirectTo(LoginPage);
  }
}
