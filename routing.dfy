/** resource/public/js/routing.js and the part of window.history it drives: a
    stack of session-history entries, of which the last is the current one, and
    the popstate events dispatched to the window. */
module Routing {
  import opened Wrappers
  import opened Js

  /** A same-document URL: location.pathname, location.search and
      location.hash (the fragment, `#` included, or empty). */
  datatype Url = Url(pathname: string, search: string, hash: string)

  /** The entry location `/`. */
  const Home: Url := Url("/", "", "")

  /** One session-history entry: its URL and the state object attached to it. */
  datatype Entry = Entry(url: Url, state: Value)

  /** A popstate event as the window's listeners receive it; `state` is absent
      when the event was made by the plain Event constructor. */
  datatype PopStateEvent = PopStateEvent(state: Option<Value>)

  /** The history as a value: the entries and the events dispatched so far. */
  datatype Nav = Nav(entries: seq<Entry>, events: seq<PopStateEvent>)

  /** What `push(url, state)` turns `n` into. */
  function AfterPush(n: Nav, url: Url, state: Value): Nav {
    Nav(n.entries + [Entry(url, state)], n.events + [PopStateEvent(None)])
  }

  class History {
    var entries: seq<Entry>
    var events: seq<PopStateEvent>

    ghost predicate Valid()
      reads this
    {
      |entries| > 0
    }

    function View(): Nav
      reads this
    {
      Nav(entries, events)
    }

    /** window.location of the current entry. */
    function Location(): Url
      requires Valid()
      reads this
    {
      entries[|entries| - 1].url
    }

    /** window.history.state: the current entry's state (`null` until one is set). */
    function State(): Value
      requires Valid()
      reads this
    {
      entries[|entries| - 1].state
    }

    /** A document loaded at `url`: one entry without state, no events yet. */
    constructor (url: Url)
      ensures Valid()
      ensures entries == [Entry(url, Null)] && events == []
    {
      entries := [Entry(url, Null)];
      events := [];
    }

    /** history.pushState(state, '', url): a new current entry; no event. */
    method PushState(state: Value, url: Url)
      requires Valid()
      modifies this
      ensures Valid()
      ensures entries == old(entries) + [Entry(url, state)]
      ensures events == old(events)
    {
      entries := entries + [Entry(url, state)];
    }

    /** history.replaceState(state, '', url): the current entry is overwritten;
        the number of entries stays the same. */
    method ReplaceState(state: Value, url: Url)
      requires Valid()
      modifies this
      ensures Valid()
      ensures |entries| == |old(entries)|
      ensures entries == old(entries)[..|old(entries)| - 1] + [Entry(url, state)]
      ensures events == old(events)
    {
      entries := entries[..|entries| - 1] + [Entry(url, state)];
    }

    /** window.dispatchEvent(event) for a popstate event. */
    method DispatchPopState(event: PopStateEvent)
      modifies this
      ensures entries == old(entries)
      ensures events == old(events) + [event]
    {
      events := events + [event];
    }
  }

  /** push(url, state): one new current entry `(url, state)`, then one popstate
      event. The event is built by `new Event('popstate', state)`, which reads no
      `state` member from its second argument, so it carries no state. */
  method Push(history: History, url: Url, state: Value)
    requires history.Valid()
    modifies history
    ensures history.Valid()
    ensures history.View() == AfterPush(old(history.View()), url, state)
    ensures history.Location() == url && history.State() == state
  {
    history.PushState(state, url);
    history.DispatchPopState(PopStateEvent(None));
  }

  /** push adds exactly one entry, leaves the earlier ones as they were, makes
      `(url, state)` current and dispatches exactly one event, without state. */
  lemma PushAppendsOneEntry(n: Nav, url: Url, state: Value)
    ensures var r := AfterPush(n, url, state);
            && |r.entries| == |n.entries| + 1
            && r.entries[..|n.entries|] == n.entries
            && r.entries[|n.entries|] == Entry(url, state)
            && |r.events| == |n.events| + 1
            && r.events[..|n.events|] == n.events
            && r.events[|n.events|].state == None
  {
  }
}
