/** The role pickers of the offline signup and login pages: a list of
    `.role-item` elements, each carrying a `data-role` and an `active` class,
    a form title, and on the login page the email and password inputs that the
    canned test credentials fill in. */
module OfflineRoles {
  import opened Wrappers

  datatype RoleItem = RoleItem(role: string, active: bool)

  /** Signup page: form title per role key. */
  const SignupTitles: map<string, string> := map[
    "user" := "User Sign Up",
    "admin" := "Admin Sign Up",
    "guest" := "Guest Sign Up",
    "subscriber" := "Subscribers / Paid User Sign Up"
  ]
  const DefaultSignupRole := "user"

  /** Login page: the canned credentials and redirect target per role title. */
  datatype Credentials = Credentials(email: string, password: string, redirect: string)
  const TestCredentials: map<string, Credentials> := map[
    "User Login" := Credentials("user@test.com", "1234", "user.html"),
    "Admin Login" := Credentials("admin@test.com", "admin", "admin.html"),
    "Guest Login" := Credentials("guest@test.com", "guest", "guest.html"),
    "Subscribers / Paid User Login" := Credentials("subscriber@test.com", "sub123", "subscriber.html")
  ]
  const DefaultLoginRole := "User Login"

  /** The first item, in document order, whose `data-role` is `k`
      (`querySelector` on the signup page, `Array.find` on the login page). */
  function FirstWithRole(items: seq<RoleItem>, k: string): (r: Option<nat>)
    ensures r.Some? ==> r.value < |items| && items[r.value].role == k
    ensures r.Some? ==> forall j :: 0 <= j < r.value ==> items[j].role != k
    ensures r.None? <==> forall j :: 0 <= j < |items| ==> items[j].role != k
  {
    if items == [] then None
    else if items[0].role == k then Some(0)
    else match FirstWithRole(items[1..], k)
      case None => None
      case Some(i) => Some(i + 1)
  }

  /** The first item carrying the `active` class (`querySelector('.role-item.active')`). */
  function FirstActive(items: seq<RoleItem>): (r: Option<nat>)
    ensures r.Some? ==> r.value < |items| && items[r.value].active
    ensures r.Some? ==> forall j :: 0 <= j < r.value ==> !items[j].active
    ensures r.None? <==> forall j :: 0 <= j < |items| ==> !items[j].active
  {
    if items == [] then None
    else if items[0].active then Some(0)
    else match FirstActive(items[1..])
      case None => None
      case Some(i) => Some(i + 1)
  }

  /** The items as both pickers leave them: every `active` class removed, then
      added back to the first item whose role is `k`, if there is one. */
  function Selected(items: seq<RoleItem>, k: string): seq<RoleItem> {
    seq(|items|, i requires 0 <= i < |items| => items[i].(active := FirstWithRole(items, k) == Some(i)))
  }

  function CountActive(items: seq<RoleItem>): nat {
    if items == [] then 0 else (if items[0].active then 1 else 0) + CountActive(items[1..])
  }

  /** When the `active` flags mark exactly the position `m` (or none), exactly
      that many items are active and the first active one is `m`. */
  lemma {:induction false} OneHot(items: seq<RoleItem>, m: Option<nat>)
    requires m.Some? ==> m.value < |items|
    requires forall i :: 0 <= i < |items| ==> (items[i].active <==> m == Some(i))
    ensures CountActive(items) == (if m.Some? then 1 else 0)
    ensures FirstActive(items) == m
  {
    if items != [] {
      var m' := match m case Some(v) => if v == 0 then None else Some(v - 1) case None => None;
      forall i | 0 <= i < |items[1..]| ensures items[1..][i].active <==> m' == Some(i) {
        assert items[1..][i] == items[i + 1];
      }
      OneHot(items[1..], m');
    }
  }

  /** Selecting role `k` keeps the items and their roles, leaves at most one
      item active, and that item is the first whose role is `k`; if no item has
      role `k`, none stays active. */
  lemma SelectedActivatesFirst(items: seq<RoleItem>, k: string)
    ensures |Selected(items, k)| == |items|
    ensures forall i :: 0 <= i < |items| ==> Selected(items, k)[i].role == items[i].role
    ensures CountActive(Selected(items, k)) <= 1
    ensures FirstActive(Selected(items, k)) == FirstWithRole(items, k)
    ensures CountActive(Selected(items, k)) == 0 <==> forall i :: 0 <= i < |items| ==> items[i].role != k
  {
    OneHot(Selected(items, k), FirstWithRole(items, k));
  }

  /** Selection depends on the roles only, not on which items were active before,
      so selecting the same role twice is the same as selecting it once. */
  lemma {:induction false} SelectedIdempotent(items: seq<RoleItem>, k: string)
    ensures Selected(Selected(items, k), k) == Selected(items, k)
  {
    SameRolesSameFirst(Selected(items, k), items, k);
  }

  lemma {:induction false} SameRolesSameFirst(a: seq<RoleItem>, b: seq<RoleItem>, k: string)
    requires |a| == |b|
    requires forall i :: 0 <= i < |a| ==> a[i].role == b[i].role
    ensures FirstWithRole(a, k) == FirstWithRole(b, k)
  {
    if a != [] && a[0].role != k {
      SameRolesSameFirst(a[1..], b[1..], k);
    }
  }

  /** The role the login handler checks: the first active item's, or
      "User Login" when no item is active. */
  function ActiveRole(items: seq<RoleItem>): string {
    match FirstActive(items)
    case Some(i) => items[i].role
    case None => DefaultLoginRole
  }

  /** The login submit check: the redirect target when the active role has
      canned credentials and both inputs equal them exactly, otherwise none. */
  function LoginTarget(role: string, email: string, password: string): (r: Option<string>)
    ensures r.Some? <==> role in TestCredentials && email == TestCredentials[role].email &&
                         password == TestCredentials[role].password
    ensures r.Some? ==> r.value == TestCredentials[role].redirect
  {
    if role in TestCredentials && email == TestCredentials[role].email && password == TestCredentials[role].password
    then Some(TestCredentials[role].redirect)
    else None
  }

  /** Clicking a role that has canned credentials and is on the page fills in
      inputs that the login check then accepts, redirecting to that role's page. */
  lemma AutofillLogsIn(items: seq<RoleItem>, r: string)
    requires r in TestCredentials
    requires exists i :: 0 <= i < |items| && items[i].role == r
    ensures ActiveRole(Selected(items, r)) == r
    ensures LoginTarget(ActiveRole(Selected(items, r)), TestCredentials[r].email, TestCredentials[r].password)
            == Some(TestCredentials[r].redirect)
  {
    SelectedActivatesFirst(items, r);
  }

  /** Two distinct roles never share both canned inputs, so credentials filled
      in for one role are refused while another role is active. */
  lemma CredentialsAreRoleSpecific(active: string, filled: string)
    requires active in TestCredentials && filled in TestCredentials && active != filled
    ensures LoginTarget(active, TestCredentials[filled].email, TestCredentials[filled].password) == None
  {
  }

  /** Signup page (assets/js/main.js, signup section). */
  class SignupPage {
    var items: seq<RoleItem>
    var title: string

    /** Page load: role `user` is selected only when no item is already active. */
    constructor (items0: seq<RoleItem>, title0: string)
      ensures FirstActive(items0).Some? ==> items == items0 && title == title0
      ensures FirstActive(items0).None? ==> items == Selected(items0, DefaultSignupRole) && title == SignupTitles[DefaultSignupRole]
    {
      items := items0;
      title := title0;
      new;
      if FirstActive(items).None? {
        SetSignupRole(DefaultSignupRole);
      }
    }

    /** `setSignupRole(k)`: the title changes only when `k` is a key of the
        title map; the items end as `Selected`. */
    method SetSignupRole(k: string)
      modifies this`items, this`title
      ensures items == Selected(old(items), k)
      ensures title == if k in SignupTitles then SignupTitles[k] else old(title)
    {
      if k in SignupTitles {
        title := SignupTitles[k];
      }
      var i := 0;
      while i < |items|
        invariant 0 <= i <= |items| == |old(items)|
        invariant forall j :: 0 <= j < |items| ==> items[j].role == old(items)[j].role
        invariant forall j :: 0 <= j < i ==> !items[j].active
        invariant forall j :: i <= j < |items| ==> items[j] == old(items)[j]
        invariant title == if k in SignupTitles then SignupTitles[k] else old(title)
      {
        items := items[i := items[i].(active := false)];
        i := i + 1;
      }
      SameRolesSameFirst(items, old(items), k);
      var el := FirstWithRole(items, k);
      if el.Some? {
        items := items[el.value := items[el.value].(active := true)];
      }
    }
  }

  /** Login page (assets/js/main.js, login section). */
  class LoginPage {
    var items: seq<RoleItem>
    var title: string
    var email: string
    var password: string

    /** Page load: "User Login" is activated, which also fills in its credentials. */
    constructor (items0: seq<RoleItem>, title0: string, email0: string, password0: string)
      ensures items == Selected(items0, DefaultLoginRole) && title == DefaultLoginRole
      ensures email == "user@test.com" && password == "1234"
    {
      items, title, email, password := items0, title0, email0, password0;
      new;
      ActivateRole(DefaultLoginRole);
    }

    /** `activateRole(r)`: the title becomes `r` unconditionally; the inputs are
        overwritten only when `r` has canned credentials. */
    method ActivateRole(r: string)
      modifies this`items, this`title, this`email, this`password
      ensures items == Selected(old(items), r)
      ensures title == r
      ensures r in TestCredentials ==> email == TestCredentials[r].email && password == TestCredentials[r].password
      ensures r !in TestCredentials ==> email == old(email) && password == old(password)
    {
      var i := 0;
      while i < |items|
        invariant 0 <= i <= |items| == |old(items)|
        invariant forall j :: 0 <= j < |items| ==> items[j].role == old(items)[j].role
        invariant forall j :: 0 <= j < i ==> !items[j].active
        invariant forall j :: i <= j < |items| ==> items[j] == old(items)[j]
        invariant email == old(email) && password == old(password)
      {
        items := items[i := items[i].(active := false)];
        i := i + 1;
      }
      SameRolesSameFirst(items, old(items), r);
      var activeItem := FirstWithRole(items, r);
      if activeItem.Some? {
        items := items[activeItem.value := items[activeItem.value].(active := true)];
      }
      title := r;
      if r in TestCredentials {
        email := TestCredentials[r].email;
        password := TestCredentials[r].password;
      }
    }

    /** The user typing into the two inputs. */
    method Type(e: string, p: string)
      modifies this`email, this`password
      ensures email == e && password == p
    {
      email, password := e, p;
    }

    /** The submit handler: the navigation target, or none (an alert is shown). */
    method Submit() returns (navigate: Option<string>)
      ensures navigate == LoginTarget(ActiveRole(items), email, password)
    {
      var activeRoleEl := FirstActive(items);
      var activeRole := if activeRoleEl.Some? then items[activeRoleEl.value].role else DefaultLoginRole;
      if activeRole in TestCredentials {
        var creds := TestCredentials[activeRole];
        if email == creds.email && password == creds.password {
          return Some(creds.redirect);
        }
      }
      return None;
    }
  }

  /** Loading the login page and submitting at once logs in as "User Login",
      also when no item carries that role and the submit check falls back to it. */
  method LoginPageDefaultFlow(items0: seq<RoleItem>)
  {
    var page := new LoginPage(items0, "", "", "");
    SelectedActivatesFirst(items0, DefaultLoginRole);
    var nav := page.Submit();
    assert nav == Some("user.html");
  }
}
