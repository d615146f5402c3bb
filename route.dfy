/** resource/public/js/components/customRoute.js: a <custom-route> element
    that mounts its screen element once when the current path equals its own
    path and tears it down when the path moves elsewhere. */
module Route {
  import opened Wrappers
  import opened Js
  import Auth

  /** An element made by document.createElement(tag) and mounted as a child. */
  datatype Element = Element(tag: string)

  /** The static attributes of a route: data-path, data-auth-required and
      data-element (the tag of the screen to mount). */
  datatype RouteConfig = RouteConfig(path: Option<string>, authRequired: Option<string>, element: string)

  /** The private fields #ready and #rendered, and the element's children. */
  datatype Mount = Mount(ready: bool, rendered: bool, children: seq<Element>)

  /** What one handleRouteChange does: the new mount state, whether it started
      authenticateGithub (without waiting for it), and whether isAuthenticated
      raised, which ends the call before anything is mounted. */
  datatype Reaction = Reaction(mount: Mount, startedAuth: bool, threw: bool)

  /** `!currentPath` is false: the attribute is there and not empty. */
  predicate Present(s: Option<string>) {
    s.Some? && s.value != ""
  }

  /** The route's path equals the (present) current path. A missing data-path
      never equals a string. */
  predicate Matches(current: Option<string>, cfg: RouteConfig) {
    Present(current) && cfg.path == current
  }

  /** data-auth-required is the string 'true'. */
  predicate NeedsAuth(cfg: RouteConfig) {
    cfg.authRequired == Some("true")
  }

  /** The invariant the route keeps: #rendered holds exactly when one child,
      the screen element, is mounted, and otherwise there is no child. */
  predicate Tidy(m: Mount, cfg: RouteConfig) {
    m.children == if m.rendered then [Element(cfg.element)] else []
  }

  /** handleRouteChange, given the current data-current-path and the result
      isAuthenticated() would give. */
  function OnRouteChange(m: Mount, current: Option<string>, cfg: RouteConfig, isAuth: Result<bool, Exception>): (r: Reaction)
    ensures r.mount.ready == m.ready
    ensures !(r.startedAuth && r.threw)
    ensures r.mount.rendered ==> r.mount.children == m.children || r.mount.children == m.children + [Element(cfg.element)]
  {
    if !m.ready || !Present(current) then
      Reaction(m, false, false)
    else if Matches(current, cfg) then
      if NeedsAuth(cfg) && isAuth.Failure? then
        Reaction(m, false, true)
      else
        var started := NeedsAuth(cfg) && isAuth == Success(false);
        if !m.rendered then
          Reaction(Mount(m.ready, true, m.children + [Element(cfg.element)]), started, false)
        else
          Reaction(m, started, false)
    else
      Reaction(Mount(m.ready, false, []), false, false)
  }

  /** Before connectedCallback (#ready false) a path change mounts and unmounts
      nothing. */
  lemma NotReadyIsNoop(m: Mount, current: Option<string>, cfg: RouteConfig, isAuth: Result<bool, Exception>)
    requires !m.ready
    ensures OnRouteChange(m, current, cfg, isAuth) == Reaction(m, false, false)
  {
  }

  /** An empty or absent data-current-path changes nothing. */
  lemma AbsentPathIsNoop(m: Mount, current: Option<string>, cfg: RouteConfig, isAuth: Result<bool, Exception>)
    requires !Present(current)
    ensures OnRouteChange(m, current, cfg, isAuth) == Reaction(m, false, false)
  {
  }

  /** A matching path on a dormant route appends exactly one child, the
      data-element, and sets #rendered. */
  lemma MatchMountsOneChild(m: Mount, current: Option<string>, cfg: RouteConfig, isAuth: Result<bool, Exception>)
    requires m.ready && !m.rendered && Tidy(m, cfg) && Matches(current, cfg)
    requires !(NeedsAuth(cfg) && isAuth.Failure?)
    ensures var r := OnRouteChange(m, current, cfg, isAuth);
            r.mount.rendered && r.mount.children == m.children + [Element(cfg.element)]
            && |r.mount.children| == 1
  {
  }

  /** A repeated matching notification while rendered is a no-op on the mount. */
  lemma ActivationIsIdempotent(m: Mount, current: Option<string>, cfg: RouteConfig, isAuth: Result<bool, Exception>)
    ensures var once := OnRouteChange(m, current, cfg, isAuth).mount;
            OnRouteChange(once, current, cfg, isAuth).mount == once
  {
  }

  /** A present, non-matching path clears the children and #rendered. */
  lemma MismatchUnmounts(m: Mount, current: Option<string>, cfg: RouteConfig, isAuth: Result<bool, Exception>)
    requires m.ready && Present(current) && !Matches(current, cfg)
    ensures var r := OnRouteChange(m, current, cfg, isAuth);
            !r.mount.rendered && r.mount.children == [] && !r.startedAuth && !r.threw
  {
  }

  /** Every route change keeps the invariant: #rendered iff exactly one child. */
  lemma OnRouteChangeKeepsTidy(m: Mount, current: Option<string>, cfg: RouteConfig, isAuth: Result<bool, Exception>)
    requires Tidy(m, cfg)
    ensures Tidy(OnRouteChange(m, current, cfg, isAuth).mount, cfg)
    ensures var r := OnRouteChange(m, current, cfg, isAuth).mount;
            r.rendered <==> |r.children| == 1
  {
  }

  /** Leaving and coming back remounts exactly once. */
  lemma LeaveThenReturnRemountsOnce(m: Mount, away: string, cfg: RouteConfig, isAuth: Result<bool, Exception>)
    requires m.ready && Tidy(m, cfg) && cfg.path.Some? && cfg.path.value != ""
    requires away != "" && Some(away) != cfg.path
    requires !(NeedsAuth(cfg) && isAuth.Failure?)
    ensures var left := OnRouteChange(m, Some(away), cfg, isAuth).mount;
            var back := OnRouteChange(left, cfg.path, cfg, isAuth).mount;
            left.children == [] && back.rendered && back.children == [Element(cfg.element)]
  {
  }

  /** authenticateGithub is started exactly when a matching route requires
      auth and isAuthenticated() answers false; the mount goes ahead anyway. */
  lemma AuthStartedIff(m: Mount, current: Option<string>, cfg: RouteConfig, isAuth: Result<bool, Exception>)
    requires Tidy(m, cfg)
    ensures var r := OnRouteChange(m, current, cfg, isAuth);
            && (r.startedAuth <==> m.ready && Matches(current, cfg) && NeedsAuth(cfg) && isAuth == Success(false))
            && (r.startedAuth ==> r.mount.rendered && r.mount.children == [Element(cfg.element)])
  {
  }

  /** Only a failing isAuthenticated() on a matching protected route raises, and
      then the mount is left as it was. */
  lemma ThrowsOnlyFromAuthCheck(m: Mount, current: Option<string>, cfg: RouteConfig, isAuth: Result<bool, Exception>)
    ensures var r := OnRouteChange(m, current, cfg, isAuth);
            r.threw <==> m.ready && Matches(current, cfg) && NeedsAuth(cfg) && isAuth.Failure?
    ensures OnRouteChange(m, current, cfg, isAuth).threw ==> OnRouteChange(m, current, cfg, isAuth).mount == m
  {
  }

  class CustomRoute {
    const config: RouteConfig
    var currentPath: Option<string>
    var routeState: Option<Value>
    var ready: bool
    var rendered: bool
    var children: seq<Element>

    ghost predicate Valid()
      reads this
    {
      Tidy(View(), config)
    }

    function View(): Mount
      reads this
    {
      Mount(ready, rendered, children)
    }

    /** The constructor: not ready, nothing rendered, no children. */
    constructor (config: RouteConfig)
      ensures Valid() && this.config == config
      ensures !ready && !rendered && children == []
      ensures currentPath == None && routeState == None
    {
      this.config := config;
      currentPath := None;
      routeState := None;
      ready := false;
      rendered := false;
      children := [];
    }

    /** handleRouteChange; isAuthenticated() is read at `now` from `auth`. */
    method HandleRouteChange(auth: Auth.GithubAuth, now: int) returns (startedAuth: bool, threw: bool)
      requires Valid()
      modifies this
      ensures Valid()
      ensures currentPath == old(currentPath) && routeState == old(routeState)
      ensures Reaction(View(), startedAuth, threw)
           == OnRouteChange(old(View()), currentPath, config, auth.IsAuthenticated(now))
    {
      startedAuth, threw := false, false;
      var current := currentPath;
      if !ready || !Present(current) {
        return;
      }
      if current == config.path {
        if config.authRequired == Some("true") {
          var authenticated := auth.IsAuthenticated(now);
          if authenticated.Failure? {
            threw := true;
            return;
          }
          if !authenticated.value {
            startedAuth := true;
          }
        }
        if !rendered {
          children := children + [Element(config.element)];
          rendered := true;
        }
      } else {
        children := [];
        rendered := false;
      }
    }

    /** connectedCallback: the route becomes ready and handles the current path. */
    method ConnectedCallback(auth: Auth.GithubAuth, now: int) returns (startedAuth: bool, threw: bool)
      requires Valid()
      modifies this
      ensures Valid() && ready
      ensures currentPath == old(currentPath) && routeState == old(routeState)
      ensures Reaction(View(), startedAuth, threw)
           == OnRouteChange(old(View()).(ready := true), currentPath, config, auth.IsAuthenticated(now))
    {
      ready := true;
      startedAuth, threw := HandleRouteChange(auth, now);
    }

    /** attributeChangedCallback: only a data-current-path change is handled. */
    method AttributeChangedCallback(name: string, auth: Auth.GithubAuth, now: int) returns (startedAuth: bool, threw: bool)
      requires Valid()
      modifies this
      ensures Valid()
      ensures currentPath == old(currentPath) && routeState == old(routeState)
      ensures name == "data-current-path" ==>
        Reaction(View(), startedAuth, threw) == OnRouteChange(old(View()), currentPath, config, auth.IsAuthenticated(now))
      ensures name != "data-current-path" ==>
        View() == old(View()) && !startedAuth && !threw
    {
      startedAuth, threw := false, false;
      if name == "data-current-path" {
        startedAuth, threw := HandleRouteChange(auth, now);
      }
    }

    /** setAttribute('data-current-path', path) and the callback it fires. */
    method SetCurrentPath(path: string, auth: Auth.GithubAuth, now: int) returns (startedAuth: bool, threw: bool)
      requires Valid()
      modifies this
      ensures Valid()
      ensures currentPath == Some(path) && routeState == old(routeState)
      ensures Reaction(View(), startedAuth, threw) == OnRouteChange(old(View()), Some(path), config, auth.IsAuthenticated(now))
    {
      currentPath := Some(path);
      startedAuth, threw := AttributeChangedCallback("data-current-path", auth, now);
    }

    /** setAttribute('data-route-state', JSON.stringify(state)) and the callback
        it fires, which changes nothing else. */
    method SetRouteState(state: Value, auth: Auth.GithubAuth, now: int)
      requires Valid()
      modifies this
      ensures Valid()
      ensures routeState == Some(state) && currentPath == old(currentPath) && View() == old(View())
    {
      routeState := Some(state);
      var _, _ := AttributeChangedCallback("data-route-state", auth, now);
    }
  }
}
