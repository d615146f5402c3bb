/** resource/public/js/components/customRouter.js: the <custom-router> that
    republishes the current path and state to every <custom-route> below it. */
module Router {
  import opened Wrappers
  import opened Js
  import Routing
  import Auth
  import Route

  /** The state the popstate listener hands to the routes: `event.state || {}`. */
  function DeliveredState(event: Routing.PopStateEvent): (v: Value)
    ensures event.state == None ==> v == EmptyObject
  {
    OrEmptyObject(event.state)
  }

  /** Whatever state routing.push was given, the event it dispatches makes the
      routes receive `{}`. */
  lemma PushDeliversEmptyObject(n: Routing.Nav, url: Routing.Url, state: Value)
    ensures var after := Routing.AfterPush(n, url, state);
            DeliveredState(after.events[|after.events| - 1]) == EmptyObject
  {
  }

  class CustomRouter {
    const history: Routing.History
    /** The custom-route descendants, in document order. */
    const routes: seq<Route.CustomRoute>

    ghost predicate Valid()
      reads this, history, routes
    {
      && history.Valid()
      && (forall i, j :: 0 <= i < j < |routes| ==> routes[i] != routes[j])
      && (forall i :: 0 <= i < |routes| ==> routes[i].Valid())
    }

    /** Every route now holds `path` and `state` and has reacted to `path` from
        the mount state it had before; `started[i]` says whether route i
        started authenticateGithub. */
    twostate predicate Delivered(auth: Auth.GithubAuth, now: int, path: string, state: Value, started: seq<bool>)
      reads this, routes, auth
    {
      && |started| == |routes|
      && forall i :: 0 <= i < |routes| ==>
           && routes[i].currentPath == Some(path)
           && routes[i].routeState == Some(state)
           && var r := Route.OnRouteChange(old(routes[i].View()), Some(path), routes[i].config, auth.IsAuthenticated(now));
              routes[i].View() == r.mount && started[i] == r.startedAuth
    }

    /** The constructor: replaceState({}, '', pathname + search), which keeps
        the path and the query, drops the fragment, keeps the number of entries
        and attaches `{}`. The popstate listener it registers is OnPopState. */
    constructor (history: Routing.History, routes: seq<Route.CustomRoute>)
      requires history.Valid()
      requires forall i, j :: 0 <= i < j < |routes| ==> routes[i] != routes[j]
      requires forall i :: 0 <= i < |routes| ==> routes[i].Valid()
      modifies history
      ensures Valid() && this.history == history && this.routes == routes
      ensures |history.entries| == |old(history.entries)|
      ensures history.entries == old(history.entries)[..|old(history.entries)| - 1]
                                 + [Routing.Entry(old(history.Location()).(hash := ""), EmptyObject)]
      ensures history.Location().pathname == old(history.Location()).pathname
      ensures history.Location().search == old(history.Location()).search
      ensures history.Location().hash == "" && history.State() == EmptyObject
      ensures history.events == old(history.events)
    {
      this.history := history;
      this.routes := routes;
      new;
      var initialLocalUrl := Routing.Url(history.Location().pathname, history.Location().search, "");
      history.ReplaceState(EmptyObject, initialLocalUrl);
    }

    /** updateRoutes(path, state): every route, matched or not, gets
        data-current-path = path and data-route-state = state, in order. */
    method UpdateRoutes(path: string, state: Value, auth: Auth.GithubAuth, now: int) returns (started: seq<bool>)
      requires Valid()
      modifies routes
      ensures Valid()
      ensures Delivered(auth, now, path, state, started)
      ensures path != "" ==> forall i :: 0 <= i < |routes| && old(routes[i].ready) && routes[i].config.path != Some(path) ==>
                routes[i].children == [] && !routes[i].rendered
      ensures path != "" ==> forall i ::
                (0 <= i < |routes| && old(routes[i].ready) && routes[i].config.path == Some(path)
                 && !(Route.NeedsAuth(routes[i].config) && auth.IsAuthenticated(now).Failure?)) ==>
                routes[i].children == [Route.Element(routes[i].config.element)] && routes[i].rendered
    {
      started := [];
      for i := 0 to |routes|
        invariant forall k :: 0 <= k < |routes| ==> routes[k].Valid()
        invariant |started| == i
        invariant forall k :: 0 <= k < i ==>
          && routes[k].currentPath == Some(path)
          && routes[k].routeState == Some(state)
          && var r := Route.OnRouteChange(old(routes[k].View()), Some(path), routes[k].config, auth.IsAuthenticated(now));
             routes[k].View() == r.mount && started[k] == r.startedAuth
        invariant forall k :: i <= k < |routes| ==> unchanged(routes[k])
      {
        var s, _ := routes[i].SetCurrentPath(path, auth, now);
        routes[i].SetRouteState(state, auth, now);
        started := started + [s];
      }
    }

    /** connectedCallback: the routes receive location.pathname and
        `history.state || {}`. */
    method ConnectedCallback(auth: Auth.GithubAuth, now: int) returns (started: seq<bool>)
      requires Valid()
      modifies routes
      ensures Valid()
      ensures Delivered(auth, now, history.Location().pathname, OrEmptyObject(Some(history.State())), started)
      ensures history.View() == old(history.View())
    {
      started := UpdateRoutes(history.Location().pathname, OrEmptyObject(Some(history.State())), auth, now);
    }

    /** The popstate listener: the routes receive location.pathname and
        `event.state || {}`. */
    method OnPopState(event: Routing.PopStateEvent, auth: Auth.GithubAuth, now: int) returns (started: seq<bool>)
      requires Valid()
      modifies routes
      ensures Valid()
      ensures Delivered(auth, now, history.Location().pathname, DeliveredState(event), started)
      ensures history.View() == old(history.View())
    {
      started := UpdateRoutes(history.Location().pathname, DeliveredState(event), auth, now);
    }
  }
}
