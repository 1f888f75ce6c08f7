/** The login form's submit handler: it checks that email, password and role
    are filled in, sends the login request, and on success stores the access
    token, the role and the logged-in flag, in that order, before sending the
    browser to the landing page of the role. The request's answer is an input
    of the model; alerts, storage writes and navigation are recorded as the
    browser's event trace. */
module Login {
  import opened Wrappers
  import Sidebar

  /** How `loginUser` settled: with the response body's `accessToken` (absent
      when the body has none), or with a thrown value. */
  datatype Response = Resolved(accessToken: Option<string>) | Rejected(thrown: Thrown)

  /** A thrown value: an `Error` carries a message, anything else does not. */
  datatype Thrown = ErrorValue(message: string) | OtherValue

  /** What the handler does to the browser, in order. */
  datatype Event =
    | Alert(message: string)
    | Request(email: string, password: string, role: string)
    | SetItem(key: string, value: string)
    | Navigate(path: string)

  const FillAllFields := "Please fill all fields!"
  const LoginSuccessful := "\U{2705} Login successful!"
  const SomethingWrong := "Something went wrong!"

  /** The roles of the role selector, without its empty placeholder option. */
  const RoleOptions: seq<string> := ["admin", "project lead", "designer", "frontend", "backend", "accounts"]

  /** `!email || !password || !role` is false: all three are non-empty. */
  predicate Filled(email: string, password: string, role: string)
  {
    email != "" && password != "" && role != ""
  }

  /** The role switch: where each role lands after logging in. */
  function LandingPath(role: string): string
  {
    if role == "frontend" then "/frontend"
    else if role == "backend" then "/backend"
    else if role == "accounts" then "/accounts"
    else if role == "project lead" then "/projectLead"
    else if role == "designer" then "/figmaRepository"
    else if role == "admin" then "/dashboard"
    else "/"
  }

  /** `localStorage.setItem` stores `String(value)`, so a missing token is stored as "undefined". */
  function StoredToken(token: Option<string>): string
  {
    match token
    case Some(t) => t
    case None => "undefined"
  }

  /** The message shown when the login request fails. */
  function FailureMessage(thrown: Thrown): string
  {
    match thrown
    case ErrorValue(m) => m
    case OtherValue => SomethingWrong
  }

  /** Everything one submission does, in order. */
  function SubmitEvents(email: string, password: string, role: string, response: Response): seq<Event>
  {
    if !Filled(email, password, role) then [Alert(FillAllFields)]
    else
      [Request(email, password, role)] +
      match response
      case Resolved(token) =>
        [SetItem("token", StoredToken(token)), SetItem("role", role), SetItem("isLoggedIn", "true"),
         Alert(LoginSuccessful), Navigate(LandingPath(role))]
      case Rejected(thrown) => [Alert(FailureMessage(thrown))]
  }

  /** The storage after one submission. */
  function StorageAfter(storage: map<string, string>, email: string, password: string, role: string, response: Response): map<string, string>
  {
    if Filled(email, password, role) && response.Resolved? then
      storage["token" := StoredToken(response.accessToken)]["role" := role]["isLoggedIn" := "true"]
    else storage
  }

  /** The browser state the handler touches. */
  class Browser {
    var storage: map<string, string>
    var href: string
    var events: seq<Event>

    constructor (storage: map<string, string>, href: string)
      ensures this.storage == storage && this.href == href && events == []
    {
      this.storage := storage;
      this.href := href;
      events := [];
    }

    /** `alert(message)`. */
    method ShowAlert(message: string)
      modifies this
      ensures events == old(events) + [Alert(message)]
      ensures storage == old(storage) && href == old(href)
    {
      events := events + [Alert(message)];
    }

    /** `loginUser(email, password, role)`: the request goes out and settles
        with `response`. */
    method LoginUser(email: string, password: string, role: string, response: Response) returns (r: Response)
      modifies this
      ensures r == response
      ensures events == old(events) + [Request(email, password, role)]
      ensures storage == old(storage) && href == old(href)
    {
      events := events + [Request(email, password, role)];
      r := response;
    }

    /** `localStorage.setItem(key, value)`. */
    method SetStorageItem(key: string, value: string)
      modifies this
      ensures storage == old(storage)[key := value]
      ensures events == old(events) + [SetItem(key, value)]
      ensures href == old(href)
    {
      storage := storage[key := value];
      events := events + [SetItem(key, value)];
    }

    /** `window.location.href = path`. */
    method Assign(path: string)
      modifies this
      ensures href == path
      ensures events == old(events) + [Navigate(path)]
      ensures storage == old(storage)
    {
      href := path;
      events := events + [Navigate(path)];
    }
  }

  /** `handleSubmit`. */
  method HandleSubmit(browser: Browser, email: string, password: string, role: string, response: Response)
    modifies browser
    ensures browser.events == old(browser.events) + SubmitEvents(email, password, role, response)
    ensures browser.storage == StorageAfter(old(browser.storage), email, password, role, response)
    ensures browser.href ==
      if Filled(email, password, role) && response.Resolved? then LandingPath(role) else old(browser.href)
  {
    if email == "" || password == "" || role == "" {
      browser.ShowAlert(FillAllFields);
      return;
    }
    ghost var before := browser.events;
    var data := browser.LoginUser(email, password, role, response);
    match data
    case Resolved(token) =>
      browser.SetStorageItem("token", StoredToken(token));
      browser.SetStorageItem("role", role);
      browser.SetStorageItem("isLoggedIn", "true");
      browser.ShowAlert(LoginSuccessful);
      browser.Assign(LandingPath(role));
      assert browser.events == before + [Request(email, password, role),
        SetItem("token", StoredToken(token)), SetItem("role", role), SetItem("isLoggedIn", "true"),
        Alert(LoginSuccessful), Navigate(LandingPath(role))];
    case Rejected(thrown) =>
      browser.ShowAlert(FailureMessage(thrown));
  }

  /** An incomplete form only shows the fill-all-fields alert: no request, no
      storage write, no navigation. */
  lemma IncompleteFormOnlyAlerts(storage: map<string, string>, email: string, password: string, role: string, response: Response)
    requires email == "" || password == "" || role == ""
    ensures SubmitEvents(email, password, role, response) == [Alert(FillAllFields)]
    ensures StorageAfter(storage, email, password, role, response) == storage
  {
  }

  /** Storage is written only after the request has been sent, and only when
      it resolved: token first, then the role exactly as selected, then the
      logged-in flag; the navigation to the landing page comes last. */
  lemma WritesFollowResolvedRequest(email: string, password: string, role: string, response: Response)
    ensures var ev := SubmitEvents(email, password, role, response);
      (exists i :: 0 <= i < |ev| && ev[i].SetItem?) <==> Filled(email, password, role) && response.Resolved?
    ensures var ev := SubmitEvents(email, password, role, response);
      forall i :: 0 <= i < |ev| && ev[i].SetItem? ==>
        0 < i && ev[0] == Request(email, password, role)
    ensures Filled(email, password, role) && response.Resolved? ==>
      var ev := SubmitEvents(email, password, role, response);
      && ev[1] == SetItem("token", StoredToken(response.accessToken))
      && ev[2] == SetItem("role", role)
      && ev[3] == SetItem("isLoggedIn", "true")
      && ev[|ev| - 1] == Navigate(LandingPath(role))
  {
    var ev := SubmitEvents(email, password, role, response);
    if Filled(email, password, role) && response.Resolved? {
      assert ev[1].SetItem?;
    }
  }

  /** A failed login shows the error's message, or a generic one for a thrown
      non-error, and neither stores anything nor navigates. */
  lemma FailedLoginNoWriteNoRedirect(email: string, password: string, role: string, thrown: Thrown, storage: map<string, string>)
    requires Filled(email, password, role)
    ensures SubmitEvents(email, password, role, Rejected(thrown)) ==
      [Request(email, password, role), Alert(if thrown.ErrorValue? then thrown.message else SomethingWrong)]
    ensures StorageAfter(storage, email, password, role, Rejected(thrown)) == storage
  {
  }

  /** After a successful login the stored role is the selected one and the flag reads "true". */
  lemma StoredAfterSuccess(storage: map<string, string>, email: string, password: string, role: string, token: Option<string>)
    requires Filled(email, password, role)
    ensures var s := StorageAfter(storage, email, password, role, Resolved(token));
      && s["role"] == role && s["isLoggedIn"] == "true" && s["token"] == StoredToken(token)
      && (forall k :: k in storage && k !in {"token", "role", "isLoggedIn"} ==> k in s && s[k] == storage[k])
  {
  }

  /** Every role of the selector has its own landing page; any other role lands on `/`. */
  lemma LandingPaths(role: string)
    ensures LandingPath("frontend") == "/frontend"
    ensures LandingPath("backend") == "/backend"
    ensures LandingPath("accounts") == "/accounts"
    ensures LandingPath("project lead") == "/projectLead"
    ensures LandingPath("designer") == "/figmaRepository"
    ensures LandingPath("admin") == "/dashboard"
    ensures role !in RoleOptions ==> LandingPath(role) == "/"
    ensures LandingPath("project_lead") == "/"
  {
  }

  /** Every role of the selector lands on a page whose item its own sidebar
      menu shows, highlighted. */
  lemma LandingIsInMenu(role: string)
    requires role in RoleOptions
    ensures exists item :: item in Sidebar.FilteredItems(Some(role)) && Sidebar.IsActive(LandingPath(role), item)
  {
    var k :=
      if role == "admin" then 0
      else if role == "project lead" then 3
      else if role == "designer" then 5
      else if role == "frontend" then 6
      else if role == "backend" then 7
      else 9;
    var item := Sidebar.MenuItems[k];
    LandingItem(role, k);
    Sidebar.FilteredItemsExactly(Some(role), item);
  }

  lemma LandingItem(role: string, k: nat)
    requires role in RoleOptions
    requires k == if role == "admin" then 0
      else if role == "project lead" then 3
      else if role == "designer" then 5
      else if role == "frontend" then 6
      else if role == "backend" then 7
      else 9
    ensures k < |Sidebar.MenuItems|
    ensures role in Sidebar.MenuItems[k].roles
    ensures Sidebar.IsActive(LandingPath(role), Sidebar.MenuItems[k])
  {
    LandingAdmin();
    LandingProjectLead();
    LandingDesigner();
    LandingFrontend();
    LandingBackend();
    LandingAccounts();
  }

  /** "admin" lands on Dashboard, an item listing that role. */
  lemma LandingAdmin()
    ensures "admin" in Sidebar.MenuItems[0].roles && LandingPath("admin") == "/" + Sidebar.MenuItems[0].id
  {
  }

  /** "project lead" lands on Project Lead, an item listing that role. */
  lemma LandingProjectLead()
    ensures "project lead" in Sidebar.MenuItems[3].roles && LandingPath("project lead") == "/" + Sidebar.MenuItems[3].id
  {
  }

  /** "designer" lands on Figma Repository, an item listing that role. */
  lemma LandingDesigner()
    ensures "designer" in Sidebar.MenuItems[5].roles && LandingPath("designer") == "/" + Sidebar.MenuItems[5].id
  {
  }

  /** "frontend" lands on Frontend, an item listing that role. */
  lemma LandingFrontend()
    ensures "frontend" in Sidebar.MenuItems[6].roles && LandingPath("frontend") == "/" + Sidebar.MenuItems[6].id
  {
  }

  /** "backend" lands on Backend, an item listing that role. */
  lemma LandingBackend()
    ensures "backend" in Sidebar.MenuItems[7].roles && LandingPath("backend") == "/" + Sidebar.MenuItems[7].id
  {
  }

  /** "accounts" lands on Accounts, an item listing that role. */
  lemma LandingAccounts()
    ensures "accounts" in Sidebar.MenuItems[9].roles && LandingPath("accounts") == "/" + Sidebar.MenuItems[9].id
  {
  }

  /** After a successful login the sidebar, which reads the stored role,
      shows the landing page's item. */
  lemma MenuAfterLogin(storage: map<string, string>, email: string, password: string, role: string, token: Option<string>)
    requires Filled(email, password, role) && role in RoleOptions
    ensures var s := StorageAfter(storage, email, password, role, Resolved(token));
      exists item :: item in Sidebar.FilteredItems(Some(s["role"])) && Sidebar.IsActive(LandingPath(role), item)
  {
    LandingIsInMenu(role);
  }
}
