/** The dashboard application: the session it keeps for the operator and the
    handlers that read it. The session is a map that `login` writes and
    `logout` clears; a request is authenticated exactly when the map holds
    the key `user`. The session is then either Anonymous or Authenticated;
    only a login with the one configured credential pair moves it to
    Authenticated, and only a logout moves it back. */
module App {
  import opened Wrappers
  import opened Compute
  import opened Inventory
  import opened Api

  const AdminEmail: string := "admin@gmail.com"
  const AdminPassword: string := "admin123"
  const UserKey: string := "user"
  const InvalidCredentials: string := "Invalid credentials"

  datatype SessionState = Anonymous | Authenticated

  class Dashboard {
    var session: map<string, string>

    /** Only a successful login writes `user`, and it writes the admin's email. */
    ghost predicate Valid()
      reads this
    {
      UserKey in session ==> session[UserKey] == AdminEmail
    }

    constructor ()
      ensures Valid() && session == map[]
    {
      session := map[];
    }

    /** `require_login()`: a request is authenticated exactly when the
        session holds `user`, which is then the admin's email. */
    function RequireLogin(): (loggedIn: bool)
      reads this
      ensures loggedIn <==> UserKey in session
      ensures loggedIn && Valid() ==> session[UserKey] == AdminEmail
    {
      UserKey in session
    }

    ghost function State(): SessionState
      reads this
    {
      if RequireLogin() then Authenticated else Anonymous
    }

    /** `/login`: a POST whose email and password are exactly the configured
        pair records the user and redirects to the dashboard; any other POST
        leaves the session as it was and shows the form with an error; a GET
        shows the form. */
    method Login(isPost: bool, email: Option<string>, password: Option<string>) returns (resp: Response)
      requires Valid()
      modifies this
      ensures Valid()
      ensures isPost && email == Some(AdminEmail) && password == Some(AdminPassword) ==>
                session == old(session)[UserKey := AdminEmail] && State() == Authenticated &&
                resp == Response(302, RedirectTo(DashboardPage))
      ensures isPost && !(email == Some(AdminEmail) && password == Some(AdminPassword)) ==>
                session == old(session) && resp == Response(200, Rendered(LoginPage, Some(InvalidCredentials)))
      ensures !isPost ==> session == old(session) && resp == Response(200, Rendered(LoginPage, None))
    {
      if isPost {
        if email == Some(AdminEmail) && password == Some(AdminPassword) {
          session := session[UserKey := email.value];
          return Response(302, RedirectTo(DashboardPage));
        } else {
          return Response(200, Rendered(LoginPage, Some(InvalidCredentials)));
        }
      }
      resp := Response(200, Rendered(LoginPage, None));
    }

    /** `/logout`: clears the whole session, whatever it held. */
    method Logout() returns (resp: Response)
      modifies this
      ensures Valid() && session == map[] && State() == Anonymous
      ensures resp == Response(302, RedirectTo(LoginPage))
    {
      session := map[];
      resp := Response(302, RedirectTo(LoginPage));
    }

    /** `/dashboard`: the page for an authenticated session, otherwise a
        redirect to the login form. */
    method ShowDashboard() returns (resp: Response)
      ensures RequireLogin() <==> resp.status == 200
      ensures resp.status == 200 ==> resp.body == Rendered(DashboardPage, None)
      ensures resp.status != 200 ==> resp == Response(302, RedirectTo(LoginPage))
    {
      if !RequireLogin() {
        return Response(302, RedirectTo(LoginPage));
      }
      resp := Response(200, Rendered(DashboardPage, None));
    }

    /** `/api/vms`: 401 without a call for an anonymous session; otherwise
        `list_all` followed by the listing pass, answering the listing or,
        when an instance-view call raised, 500. */
    method ApiListVms(cloud: Cloud) returns (resp: Response, ops: seq<Op>)
      ensures !RequireLogin() ==> resp == Unauthorized() && ops == []
      ensures RequireLogin() ==> ops != [] && ops[0] == ListAll
      ensures RequireLogin() ==> (resp.status == 200 <==> AllResolve(cloud.vms, cloud.views))
      ensures resp.status == 200 ==>
                resp.body.Listing? && IsListingOf(resp.body.vms, cloud.vms, cloud.views) &&
                ops == [ListAll] + ViewCalls(cloud.vms)
      ensures RequireLogin() && resp.status != 200 ==>
                resp == UpstreamFailure() && FailedPass(cloud.vms, cloud.views, ops[1..])
    {
      if !RequireLogin() {
        return Unauthorized(), [];
      }
      var listing, calls := ListVms(cloud.vms, cloud.views);
      ops := [ListAll] + calls;
      assert ops[1..] == calls;
      match listing
      case Some(entries) => resp := Response(200, Listing(entries));
      case None => resp := UpstreamFailure();
    }

    /** `/api/vm/status-count`: 401 without a call for an anonymous session;
        otherwise `list_all` followed by the tally pass, answering the four
        counters or, when an instance-view call raised, 500. */
    method ApiStatusCount(cloud: Cloud) returns (resp: Response, ops: seq<Op>)
      ensures !RequireLogin() ==> resp == Unauthorized() && ops == []
      ensures RequireLogin() ==> ops != [] && ops[0] == ListAll
      ensures RequireLogin() ==> (resp.status == 200 <==> AllResolve(cloud.vms, cloud.views))
      ensures resp.status == 200 ==>
                AllResolve(cloud.vms, cloud.views) && resp.body.Counts? &&
                IsTallyOf(resp.body.tally, cloud.vms, cloud.views) &&
                resp.body.tally.total == resp.body.tally.running + resp.body.tally.stopped + resp.body.tally.other &&
                ops == [ListAll] + ViewCalls(cloud.vms)
      ensures RequireLogin() && resp.status != 200 ==>
                resp == UpstreamFailure() && FailedPass(cloud.vms, cloud.views, ops[1..])
    {
      if !RequireLogin() {
        return Unauthorized(), [];
      }
      var tally, calls := StatusCount(cloud.vms, cloud.views);
      ops := [ListAll] + calls;
      assert ops[1..] == calls;
      match tally
      case Some(t) => resp := Response(200, Counts(t));
      case None => resp := UpstreamFailure();
    }

    /** The five per-VM handlers, gated on this session. */
    method ApiVm(action: VmAction, rg: Option<string>, vmName: Option<string>, cloud: Cloud)
      returns (resp: Response, ops: seq<Op>)
      ensures !RequireLogin() ==> resp == Unauthorized() && ops == []
      ensures (resp, ops) == Dispatch(RequireLogin(), action, rg, vmName, cloud)
    {
      var out := Dispatch(RequireLogin(), action, rg, vmName, cloud);
      resp, ops := out.0, out.1;
    }
  }

  /** Authentication follows the session: an anonymous session reaches no
      cloud call through any API handler, a login with the configured pair
      opens it, and a logout closes it again. */
  method SessionLifecycle(cloud: Cloud, action: VmAction, rg: string, vmName: string)
    requires rg != "" && vmName != ""
  {
    var app := new Dashboard();
    var r, ops := app.ApiListVms(cloud);
    assert r.status == 401 && ops == [];
    r, ops := app.ApiVm(action, Some(rg), Some(vmName), cloud);
    assert r.status == 401 && ops == [];
    r := app.Login(true, Some(AdminEmail), Some("wrong"));
    assert app.State() == Anonymous;
    r := app.Login(true, Some(AdminEmail), Some(AdminPassword));
    assert app.State() == Authenticated;
    r, ops := app.ApiVm(action, Some(rg), Some(vmName), cloud);
    assert |ops| >= 1;
    r, ops := app.ApiVm(action, Some(rg), Some(""), cloud);
    assert r.status == 400 && ops == [];
    r := app.Logout();
    r, ops := app.ApiStatusCount(cloud);
    assert r.status == 401 && ops == [];
  }
}
