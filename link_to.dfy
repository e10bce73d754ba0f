/** `linkTo(navigation, path, type)`: find the root navigator, turn the path
    into a target state and a derived action, retype a NAVIGATE action by the
    three ordered rules, then dispatch the minimal action (right-hand modal
    targets), the derived action, or reset to the target state. */
module LinkTo {
  import opened Navigation
  import opened MinimalAction

  /** The caller's navigation intent that asks for REPLACE. */
  const Up: string := "UP"

  /** The collaborators whose code is not part of this model:
      `getStateFromPath`, `getActionFromState` applied with the linking
      configuration, and `getTopmostReportId`. */
  datatype Linking = Linking(
    stateFromPath: string -> NavState,
    actionFromState: NavState -> Option<Action>,
    topmostReportId: NavState -> Option<string>)

  /** The one effect of a call: a dispatch on the root, a reset of the root, or
      a thrown error (the missing-handle error or a TypeError). */
  datatype Outcome =
    | Dispatched(action: Action)
    | ResetTo(state: NavState)
    | NoNavigationError
    | TypeErrorThrown

  /** The type the derived `action` ends up with, given the root's current
      state `current`, the resolved target state and the caller's intent. Only a
      NAVIGATE action is retyped, by the first rule that applies. The RHP-entry
      rule reads the root's last route and throws when the root has none. */
  function Classify(action: Action, intent: Option<string>, current: NavState, resolved: NavState,
                    topmostReportId: NavState -> Option<string>): (r: Result<ActionType>)
    ensures r.Ok? ==> r.value == action.kind || (action.kind == Navigate && r.value in {Push, Replace})
    ensures r.TypeError? ==> action.payload.name == Some(RightModalNavigator) && |current.routes| == 0
  {
    if action.kind != Navigate then Ok(action.kind)
    else if action.payload.name == Some(CentralPaneNavigator)
            && topmostReportId(current) != topmostReportId(resolved) then Ok(Push)
    else if intent == Some(Up) then Ok(Replace)
    else if action.payload.name == Some(RightModalNavigator) then
      match LastRoute(current)
      case None => TypeError
      case Some(last) => if last.name != RightModalNavigator then Ok(Push) else Ok(Navigate)
    else Ok(Navigate)
  }

  /** What a call does once the root navigator `root` has been found. The
      derived action is read before it is tested for `undefined`, so an
      undefined action throws instead of reaching the reset: as written the
      reset is never reached, and every call either dispatches exactly one
      action or throws a TypeError (the collaborators here always return). */
  function Resolve(root: Navigator, path: string, intent: Option<string>, linking: Linking): (o: Outcome)
    ensures o.Dispatched? || o == TypeErrorThrown
  {
    var state := linking.stateFromPath(path);
    match linking.actionFromState(state)
    case None => TypeErrorThrown
    case Some(derived) =>
      match Classify(derived, intent, root.state, state, linking.topmostReportId)
      case TypeError => TypeErrorThrown
      case Ok(kind) =>
        var action := derived.(kind := kind);
        if action.payload.name == Some(RightModalNavigator) then
          match MinimalFrom(action, root.state, None)
          case TypeError => TypeErrorThrown
          case Ok(m) =>
            Dispatched(if m.targetName == Some(RightModalNavigator)
                       then m.minimalAction.(kind := Replace) else m.minimalAction)
        else Dispatched(action)
  }

  /** `linkTo(navigation, path, type)`. The state the root navigator reports
      (`root.getState()`) and the root state read through the handle
      (`navigation.getRootState()`) are both the root's state. */
  method LinkTo(navigation: Handle, path: string, intent: Option<string>, linking: Linking)
    returns (o: Outcome)
    ensures navigation == Undefined ==> o == NoNavigationError
    ensures navigation == Null ==> o == TypeErrorThrown
    ensures navigation.Mounted? ==> o == Resolve(RootOf(navigation.navigator), path, intent, linking)
  {
    if navigation == Undefined {
      return NoNavigationError;
    }
    if navigation == Null {
      // `null` passes the `undefined` test and `root.getParent()` is read of it
      return TypeErrorThrown;
    }

    var root := navigation.navigator;
    var current := root.parent;
    while current.Some?
      invariant current == root.parent
      invariant RootOf(root) == RootOf(navigation.navigator)
      decreases root
    {
      root := current.value;
      current := root.parent;
    }

    var state := linking.stateFromPath(path);
    var derived := linking.actionFromState(state);
    if derived.None? {
      // `action.type` is read of an undefined action
      return TypeErrorThrown;
    }
    var action := derived.value;

    // retype by rebinding, rule by rule as `Classify` states them
    if action.kind == Navigate {
      if action.payload.name == Some(CentralPaneNavigator)
         && linking.topmostReportId(root.state) != linking.topmostReportId(state) {
        action := action.(kind := Push);
      } else if intent == Some(Up) {
        action := action.(kind := Replace);
      } else if action.payload.name == Some(RightModalNavigator) {
        var last := LastRoute(root.state);
        if last.None? {
          // `.name` is read of `_.last([])`
          return TypeErrorThrown;
        }
        if last.value.name != RightModalNavigator {
          action := action.(kind := Push);
        }
      }
    }

    if action.payload.name == Some(RightModalNavigator) {
      var minimal := GetMinimalAction(action, root.state);
      if minimal.TypeError? {
        return TypeErrorThrown;
      }
      // the search always yields an action, so it is always dispatched here
      var minimalAction := minimal.value.minimalAction;
      if minimal.value.targetName == Some(RightModalNavigator) {
        minimalAction := minimalAction.(kind := Replace);
      }
      return Dispatched(minimalAction);
    }

    // the derived action is known to be defined here, so the reset is never reached
    return Dispatched(action);
  }

  /** Classification, rule by rule: each result type in terms of the inputs,
      in both directions. A type other than NAVIGATE is kept; PUSH comes from
      the report switch or, failing that and without UP, from entering the
      right-hand modal from outside; REPLACE from UP when there is no report
      switch; NAVIGATE stays when no rule applies. */
  lemma ClassifyRules(action: Action, intent: Option<string>, current: NavState, resolved: NavState,
                      topmostReportId: NavState -> Option<string>)
    ensures var r := Classify(action, intent, current, resolved, topmostReportId);
            var reportSwitch := action.payload.name == Some(CentralPaneNavigator)
                                && topmostReportId(current) != topmostReportId(resolved);
            var rhpEntry := action.payload.name == Some(RightModalNavigator)
                            && LastRoute(current).Some? && LastRoute(current).value.name != RightModalNavigator;
            var rhpOpen := action.payload.name == Some(RightModalNavigator)
                           && LastRoute(current).Some? && LastRoute(current).value.name == RightModalNavigator;
            && (action.kind != Navigate ==> r == Ok(action.kind))
            && (action.kind == Navigate ==>
                  && (r == Ok(Push) <==> reportSwitch || (intent != Some(Up) && rhpEntry))
                  && (r == Ok(Replace) <==> !reportSwitch && intent == Some(Up))
                  && (r == Ok(Navigate) <==> !reportSwitch && intent != Some(Up)
                                             && (action.payload.name != Some(RightModalNavigator) || rhpOpen))
                  && (r == TypeError <==> !reportSwitch && intent != Some(Up)
                                          && action.payload.name == Some(RightModalNavigator)
                                          && |current.routes| == 0))
  {
  }

  /** An undefined derived action throws, where the fallback reset was meant. */
  lemma UndefinedActionThrows(root: Navigator, path: string, intent: Option<string>, linking: Linking)
    requires linking.actionFromState(linking.stateFromPath(path)).None?
    ensures Resolve(root, path, intent, linking) == TypeErrorThrown
  {
  }

  /** When classification throws (the `.name` read of `_.last([])` on a root
      with no routes), the call throws. */
  lemma ClassificationThrows(root: Navigator, path: string, intent: Option<string>, linking: Linking)
    requires var state := linking.stateFromPath(path);
             && linking.actionFromState(state).Some?
             && Classify(linking.actionFromState(state).value, intent, root.state, state, linking.topmostReportId).TypeError?
    ensures Resolve(root, path, intent, linking) == TypeErrorThrown
  {
  }

  /** An action not aimed at the right-hand modal is dispatched as derived,
      with only its type changed by classification. */
  lemma NonModalDispatchesClassified(root: Navigator, path: string, intent: Option<string>, linking: Linking)
    requires var state := linking.stateFromPath(path);
             && linking.actionFromState(state).Some?
             && linking.actionFromState(state).value.payload.name != Some(RightModalNavigator)
             && Classify(linking.actionFromState(state).value, intent, root.state, state, linking.topmostReportId).Ok?
    ensures var state := linking.stateFromPath(path);
            var derived := linking.actionFromState(state).value;
            var o := Resolve(root, path, intent, linking);
            && o.Dispatched?
            && o.action.payload == derived.payload
            && o.action.target == derived.target
            && Ok(o.action.kind) == Classify(derived, intent, root.state, state, linking.topmostReportId)
  {
  }

  /** An action aimed at the right-hand modal always dispatches the minimal
      action, even when the search did not descend; its type is REPLACE when the
      search last descended through the right-hand modal itself and the
      classified type otherwise. */
  lemma ModalDispatchesMinimal(root: Navigator, path: string, intent: Option<string>, linking: Linking)
    requires var state := linking.stateFromPath(path);
             && linking.actionFromState(state).Some?
             && linking.actionFromState(state).value.payload.name == Some(RightModalNavigator)
             && Classify(linking.actionFromState(state).value, intent, root.state, state, linking.topmostReportId).Ok?
    ensures var state := linking.stateFromPath(path);
            var derived := linking.actionFromState(state).value;
            var kind := Classify(derived, intent, root.state, state, linking.topmostReportId).value;
            var search := MinimalFrom(derived.(kind := kind), root.state, None);
            var o := Resolve(root, path, intent, linking);
            && (search.TypeError? ==> o == TypeErrorThrown)
            && (search.Ok? ==>
                  && o.Dispatched?
                  && o.action.payload == search.value.minimalAction.payload
                  && o.action.target == search.value.minimalAction.target
                  && o.action.kind == (if search.value.targetName == Some(RightModalNavigator) then Replace else kind))
  {
  }

  /** End to end for the right-hand modal: when the live tree and the target
      chain agree on exactly the first `k` levels, the call dispatches the
      level-`k` payload against the level-`k` navigator; it is REPLACE when the
      route at level `k - 1` is the right-hand modal (so always when `k == 1`),
      and otherwise keeps the classified type. */
  lemma {:induction false} ModalDispatchAfterAgreement(root: Navigator, path: string, intent: Option<string>,
                                                       linking: Linking, k: nat)
    requires var state := linking.stateFromPath(path);
             && linking.actionFromState(state).Some?
             && linking.actionFromState(state).value.payload.name == Some(RightModalNavigator)
             && Classify(linking.actionFromState(state).value, intent, root.state, state, linking.topmostReportId).Ok?
    requires var payload := linking.actionFromState(linking.stateFromPath(path)).value.payload;
             && (forall j :: 0 <= j < k ==> MatchesAt(payload, root.state, j))
             && DiffersAt(payload, root.state, k)
    ensures var state := linking.stateFromPath(path);
            var derived := linking.actionFromState(state).value;
            var kind := Classify(derived, intent, root.state, state, linking.topmostReportId).value;
            Resolve(root, path, intent, linking) == Dispatched(Action(
              if k > 0 && ActiveNameAt(root.state, k - 1) == Some(RightModalNavigator) then Replace else kind,
              PayloadAt(derived.payload, k).value,
              if k == 0 then derived.target else DescendantKey(root.state, k)))
    ensures k == 1 ==> Resolve(root, path, intent, linking).action.kind == Replace
  {
    var state := linking.stateFromPath(path);
    var derived := linking.actionFromState(state).value;
    var kind := Classify(derived, intent, root.state, state, linking.topmostReportId).value;
    MinimalAfterAgreement(derived.(kind := kind), root.state, None, k);
    if k == 1 {
      assert MatchesAt(derived.payload, root.state, 0);
    }
  }

  /** A root whose active, topmost route is the right-hand modal, showing the
      settings flow, which shows its profile screen. */
  function SettingsOpenRoot(): Navigator
  {
    var settings := NavState("settings-stack", [Route("Settings_Profile", None)], 0);
    var modal := NavState("modal-stack", [Route("Settings", Some(settings))], 0);
    Navigator(NavState("root-stack", [Route("Home", None), Route(RightModalNavigator, Some(modal))], 1), None)
  }

  /** Resolution that derives a NAVIGATE to the right-hand modal with the
      nested chain `screen` / `leaf`. */
  function ModalLinking(screen: string, leaf: string): Linking
  {
    var target := NavState("target", [], 0);
    var action := Action(Navigate, Payload(Some(RightModalNavigator),
                                           Some(Params(Some(screen), Some(Params(Some(leaf), None))))), None);
    Linking(_ => target, _ => Some(action), _ => None)
  }

  /** With the settings flow open, a link to another settings screen is dispatched
      as a NAVIGATE of that screen inside the settings navigator: the search
      last descended through "Settings", not through the right-hand modal. */
  lemma SettingsToSecurityScenario()
    ensures Resolve(SettingsOpenRoot(), "/settings/security", None, ModalLinking("Settings", "Settings_Security"))
            == Dispatched(Action(Navigate, Payload(Some("Settings_Security"), None), Some("settings-stack")))
  {
  }

  /** With the settings flow open, a link into the search flow replaces the
      flow inside the right-hand modal. */
  lemma SettingsToSearchScenario()
    ensures Resolve(SettingsOpenRoot(), "/search", None, ModalLinking("Search", "Search_Page"))
            == Dispatched(Action(Replace, Payload(Some("Search"), Some(Params(Some("Search_Page"), None))),
                                 Some("modal-stack")))
  {
  }
}
