/** The route table of the users app (`backend/users/urls.py`). The project's
    root URL configuration, which mounts this table under `api/auth/`, is not
    part of this model; the mount point is a constant here. */
module Urls {
  import opened Common

  datatype View =
    | RegistrationView
    | LoginView
    | RefreshTokenView
    | LogoutView
    | CurrentUserView
    | DeleteUserView

  datatype Route = Route(path: string, view: View, name: string)

  /** `urlpatterns`. */
  const UrlPatterns: seq<Route> := [
    Route("v1/register/", RegistrationView, "register"),
    Route("v1/login/", LoginView, "login"),
    Route("v1/refresh/", RefreshTokenView, "refresh_token"),
    Route("v1/logout/", LogoutView, "logout"),
    Route("v1/users/", CurrentUserView, "users"),
    Route("v1/users/delete/", DeleteUserView, "delete_user")]

  /** Where the root configuration includes this table. */
  const Mount: string := "api/auth/"

  /** The view of the first route whose pattern is exactly `path`. */
  function ResolveIn(routes: seq<Route>, path: string): (r: Option<View>)
    ensures r.Some? ==> exists i :: 0 <= i < |routes| && routes[i].path == path && routes[i].view == r.value
    ensures r.None? <==> forall i :: 0 <= i < |routes| ==> routes[i].path != path
  {
    if routes == [] then None
    else if routes[0].path == path then Some(routes[0].view)
    else ResolveIn(routes[1..], path)
  }

  function Resolve(path: string): Option<View> {
    ResolveIn(UrlPatterns, path)
  }

  /** Six routes, all versioned under `v1/` and all ending in a slash. */
  lemma RoutesAreVersioned()
    ensures |UrlPatterns| == 6
    ensures forall i :: 0 <= i < |UrlPatterns| ==>
      StartsWith(UrlPatterns[i].path, "v1/") && EndsWith(UrlPatterns[i].path, "/")
  {
    forall i | 0 <= i < |UrlPatterns|
      ensures StartsWith(UrlPatterns[i].path, "v1/") && EndsWith(UrlPatterns[i].path, "/")
    {
      var p := UrlPatterns[i].path;
      assert p[..3] == "v1/";
      assert p[|p| - 1..] == "/";
    }
  }

  /** No two routes share a pattern, so every pattern resolves to its own view. */
  lemma RoutesAreDistinct()
    ensures forall i, j :: 0 <= i < j < |UrlPatterns| ==> UrlPatterns[i].path != UrlPatterns[j].path
    ensures forall i :: 0 <= i < |UrlPatterns| ==> Resolve(UrlPatterns[i].path) == Some(UrlPatterns[i].view)
  {
    var ps := UrlPatterns;
    assert ps[0].path[3] == 'r' && ps[1].path[3] == 'l' && ps[2].path[3] == 'r' && ps[3].path[3] == 'l';
    assert ps[4].path[3] == 'u' && ps[5].path[3] == 'u';
    assert ps[0].path[5] == 'g' && ps[2].path[5] == 'f';
    assert ps[1].path[5] == 'g' && ps[3].path[5] == 'g' && ps[1].path[4] == 'o' && ps[3].path[4] == 'o';
    assert |ps[1].path| == 9 && |ps[3].path| == 10;
    assert |ps[4].path| == 9 && |ps[5].path| == 16;
  }

  /** No two routes share a name, so `reverse` finds each route by its name. */
  lemma RouteNamesAreDistinct()
    ensures forall i, j :: 0 <= i < j < |UrlPatterns| ==> UrlPatterns[i].name != UrlPatterns[j].name
  {
    var ps := UrlPatterns;
    assert ps[0].name[0] == 'r' && ps[2].name[0] == 'r' && |ps[0].name| == 8 && |ps[2].name| == 13;
    assert ps[1].name[3] == 'i' && ps[3].name[3] == 'o';
    assert ps[4].name[0] == 'u' && ps[5].name[0] == 'd';
  }

  /** The profile endpoints: `v1/users/` is the current-user view and
      `v1/users/delete/` the account deletion. */
  lemma UserRoutes()
    ensures Resolve("v1/users/") == Some(CurrentUserView)
    ensures Resolve("v1/users/delete/") == Some(DeleteUserView)
  {
    RoutesAreDistinct();
    assert UrlPatterns[4].path == "v1/users/";
    assert UrlPatterns[5].path == "v1/users/delete/";
  }

  /** Patterns match exactly: without its trailing slash a path resolves to nothing. */
  lemma NoSlashNoRoute()
    ensures Resolve("v1/users") == None
  {
    forall i | 0 <= i < |UrlPatterns| ensures UrlPatterns[i].path != "v1/users" {
      assert |UrlPatterns[i].path| != 8;
    }
  }
}
