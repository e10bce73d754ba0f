/** The values the deep-link resolver works on: the live navigation state tree,
    navigation actions with their nested `{screen, params}` payloads, the
    navigator handles whose parent links lead to the root, and the two navigator
    names the resolver classifies by. */
module Navigation {

  datatype Option<+T> = None | Some(value: T)

  /** Reading a property of `undefined` in JavaScript throws a TypeError; every
      such read in the resolver yields `TypeError` instead of a value. */
  datatype Result<+T> = Ok(value: T) | TypeError

  /** Names of the navigators the resolver treats specially (NAVIGATORS). */
  const CentralPaneNavigator: string := "CentralPaneNavigator"
  const RightModalNavigator: string := "RightModalNavigator"

  /** A navigator's state: its key, its stack of routes and the index of the
      active one. Nothing forces `index` into range: the resolver reads
      `routes[index]` and fails when it is not. */
  datatype NavState = NavState(key: string, routes: seq<Route>, index: int)

  /** A route on a navigator's stack; `state` is present when the route is itself
      a nested navigator. */
  datatype Route = Route(name: string, state: Option<NavState>)

  /** The nested navigation parameters `{screen, params}`; either part may be
      undefined. */
  datatype Params = Params(screen: Option<string>, params: Option<Params>)

  /** `payload: {name, params}` of an action. A RESET action carries a state in
      its payload and so has no `name`. */
  datatype Payload = Payload(name: Option<string>, params: Option<Params>)

  datatype ActionType = Navigate | Push | Replace | Reset

  /** A navigation action; `kind` is the JavaScript `type` field and `target` the
      key of the navigator it is dispatched against. */
  datatype Action = Action(kind: ActionType, payload: Payload, target: Option<string>)

  /** A navigation handle: the state of its navigator and the handle of the
      parent navigator (`getParent()`), absent at the root. */
  datatype Navigator = Navigator(state: NavState, parent: Option<Navigator>)

  /** The `navigation` argument as a caller may pass it: `undefined`, `null` or
      a mounted navigator's handle. */
  datatype Handle = Undefined | Null | Mounted(navigator: Navigator)

  /** `routes[index]`, or undefined when the index is out of range. */
  function ActiveRoute(s: NavState): (r: Option<Route>)
    ensures r.Some? ==> r.value in s.routes
  {
    if 0 <= s.index < |s.routes| then Some(s.routes[s.index]) else None
  }

  /** lodash `_.last(routes)`: the top of the stack, undefined when it is empty. */
  function LastRoute(s: NavState): Option<Route>
  {
    if |s.routes| == 0 then None else Some(s.routes[|s.routes| - 1])
  }

  /** The navigator reached from `s` by following the active route's nested
      state `k` times, if every step exists. */
  function Descendant(s: NavState, k: nat): Option<NavState>
    decreases k
  {
    if k == 0 then Some(s)
    else match ActiveRoute(s)
      case Some(Route(_, Some(child))) => Descendant(child, k - 1)
      case _ => None
  }

  /** The name of the active route of `Descendant(s, k)`. */
  function ActiveNameAt(s: NavState, k: nat): Option<string>
  {
    match Descendant(s, k)
    case None => None
    case Some(d) =>
      match ActiveRoute(d)
      case None => None
      case Some(r) => Some(r.name)
  }

  /** The key of `Descendant(s, k)`. */
  function DescendantKey(s: NavState, k: nat): Option<string>
  {
    match Descendant(s, k)
    case None => None
    case Some(d) => Some(d.key)
  }

  /** The payload a target chain describes `k` levels down: level 0 is `p`
      itself, level `k + 1` is `{name: params.screen, params: params.params}` of
      level `k`. */
  function PayloadAt(p: Payload, k: nat): Option<Payload>
    decreases k
  {
    if k == 0 then Some(p)
    else match p.params
      case None => None
      case Some(q) => PayloadAt(Payload(q.screen, q.params), k - 1)
  }

  /** `n` is `h` or one of its ancestors. */
  predicate AncestorOrSelf(n: Navigator, h: Navigator)
  {
    n == h || (h.parent.Some? && AncestorOrSelf(n, h.parent.value))
  }

  /** The navigator at the end of the parent chain of `h`. */
  function RootOf(h: Navigator): (r: Navigator)
    ensures r.parent.None?
    ensures AncestorOrSelf(r, h)
  {
    match h.parent
    case None => h
    case Some(p) => RootOf(p)
  }
}
