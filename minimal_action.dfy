/** The search for the smallest action into the right-hand modal stack
    (`getMinimalAction`): walk the live tree down its active routes while the
    active route's name is the name the action asks for, shrinking the action to
    its nested `{screen, params}` and retargeting it at the nested navigator. */
module MinimalAction {
  import opened Navigation

  /** `{minimalAction, targetName}`: the action to dispatch and the name of the
      last route the search descended through (null when it did not descend). */
  datatype Minimal = Minimal(minimalAction: Action, targetName: Option<string>)

  /** The search from `s` with the action `a`, having last descended through
      `targetName`. */
  function MinimalFrom(a: Action, s: NavState, targetName: Option<string>): (r: Result<Minimal>)
    ensures r.Ok? ==> r.value.minimalAction.kind == a.kind
    ensures r.Ok? ==> (r.value == Minimal(a, targetName)
                       || (r.value.minimalAction.target.Some? && r.value.targetName.Some?))
    decreases s
  {
    match ActiveRoute(s)
    case None => TypeError
    case Some(route) =>
      if Some(route.name) != a.payload.name then Ok(Minimal(a, targetName))
      else match route.state
        case None => TypeError
        case Some(child) =>
          match a.payload.params
          case None => TypeError
          case Some(p) =>
            MinimalFrom(Action(a.kind, Payload(p.screen, p.params), Some(child.key)), child, Some(route.name))
  }

  /** `getMinimalAction(action, state)`. */
  method GetMinimalAction(action: Action, state: NavState) returns (r: Result<Minimal>)
    ensures r == MinimalFrom(action, state, None)
  {
    var currentAction := action;
    var currentState := state;
    var currentTargetKey: Option<string> := None;
    var targetName: Option<string> := None;
    while true
      invariant MinimalFrom(currentAction, currentState, targetName) == MinimalFrom(action, state, None)
      decreases currentState
    {
      if !(0 <= currentState.index < |currentState.routes|) {
        return TypeError;
      }
      var route := currentState.routes[currentState.index];
      if Some(route.name) != currentAction.payload.name {
        break;
      }
      targetName := Some(route.name);
      if route.state.None? {
        return TypeError;
      }
      assert route in currentState.routes;
      currentState := route.state.value;
      currentTargetKey := Some(currentState.key);
      if currentAction.payload.params.None? {
        return TypeError;
      }
      var params := currentAction.payload.params.value;
      currentAction := Action(currentAction.kind, Payload(params.screen, params.params), currentTargetKey);
    }
    return Ok(Minimal(currentAction, targetName));
  }

  /** The live tree and the action's chain agree at level `j`: both exist there
      and the active route's name is the name the chain asks for. */
  predicate MatchesAt(p: Payload, s: NavState, j: nat)
  {
    PayloadAt(p, j).Some? && ActiveNameAt(s, j).Some? && ActiveNameAt(s, j) == PayloadAt(p, j).value.name
  }

  /** Both exist at level `k` and the active route's name differs from the one
      the chain asks for. */
  predicate DiffersAt(p: Payload, s: NavState, k: nat)
  {
    PayloadAt(p, k).Some? && ActiveNameAt(s, k).Some? && ActiveNameAt(s, k) != PayloadAt(p, k).value.name
  }

  /** When the tree and the chain agree on exactly the first `k` levels, the
      minimal action is the chain's level-`k` payload aimed at the level-`k`
      navigator, with the action's type, and `targetName` is the route at level
      `k - 1`; with `k == 0` the action comes back unchanged. */
  lemma {:induction false} MinimalAfterAgreement(a: Action, s: NavState, targetName: Option<string>, k: nat)
    requires forall j :: 0 <= j < k ==> MatchesAt(a.payload, s, j)
    requires DiffersAt(a.payload, s, k)
    ensures MinimalFrom(a, s, targetName) == Ok(Minimal(
              Action(a.kind, PayloadAt(a.payload, k).value, if k == 0 then a.target else DescendantKey(s, k)),
              if k == 0 then targetName else ActiveNameAt(s, k - 1)))
    decreases k
  {
    if k > 0 {
      assert MatchesAt(a.payload, s, 0);
      assert ActiveNameAt(s, 1).Some? by {
        if k > 1 { assert MatchesAt(a.payload, s, 1); }
      }
      var route := ActiveRoute(s).value;
      var child := route.state.value;
      var q := a.payload.params.value;
      var a' := Action(a.kind, Payload(q.screen, q.params), Some(child.key));
      forall j: nat ensures PayloadAt(a'.payload, j) == PayloadAt(a.payload, j + 1)
                       && ActiveNameAt(child, j) == ActiveNameAt(s, j + 1)
                       && DescendantKey(child, j) == DescendantKey(s, j + 1)
      {
      }
      forall j | 0 <= j < k - 1 ensures MatchesAt(a'.payload, child, j) {
        assert MatchesAt(a.payload, s, j + 1);
      }
      MinimalAfterAgreement(a', child, Some(route.name), k - 1);
    }
  }

  /** The search throws when the tree and the chain agree on the first `k`
      levels and at level `k` the active index is out of range, or the names
      match but the route has no nested navigator or the chain has no params. */
  lemma {:induction false} MinimalThrows(a: Action, s: NavState, targetName: Option<string>, k: nat)
    requires forall j :: 0 <= j < k ==> MatchesAt(a.payload, s, j)
    requires Descendant(s, k).Some? && PayloadAt(a.payload, k).Some?
    requires ActiveNameAt(s, k).None?
          || (MatchesAt(a.payload, s, k) && (Descendant(s, k + 1).None? || PayloadAt(a.payload, k + 1).None?))
    ensures MinimalFrom(a, s, targetName) == TypeError
    decreases k
  {
    if k > 0 {
      assert MatchesAt(a.payload, s, 0);
      var route := ActiveRoute(s).value;
      var child := route.state.value;
      var q := a.payload.params.value;
      var a' := Action(a.kind, Payload(q.screen, q.params), Some(child.key));
      forall j: nat ensures PayloadAt(a'.payload, j) == PayloadAt(a.payload, j + 1)
                       && Descendant(child, j) == Descendant(s, j + 1)
                       && ActiveNameAt(child, j) == ActiveNameAt(s, j + 1)
      {
      }
      forall j | 0 <= j < k - 1 ensures MatchesAt(a'.payload, child, j) {
        assert MatchesAt(a.payload, s, j + 1);
      }
      MinimalThrows(a', child, Some(route.name), k - 1);
    }
  }

  /** Every result the search returns comes from some depth of exact agreement
      between the tree and the chain. */
  lemma {:induction false} MinimalHasAgreementDepth(a: Action, s: NavState, targetName: Option<string>)
    requires MinimalFrom(a, s, targetName).Ok?
    ensures exists k: nat :: (forall j :: 0 <= j < k ==> MatchesAt(a.payload, s, j)) && DiffersAt(a.payload, s, k)
    decreases s
  {
    var route := ActiveRoute(s).value;
    if Some(route.name) != a.payload.name {
      assert DiffersAt(a.payload, s, 0);
    } else {
      var child := route.state.value;
      var q := a.payload.params.value;
      var a' := Action(a.kind, Payload(q.screen, q.params), Some(child.key));
      MinimalHasAgreementDepth(a', child, Some(route.name));
      var k: nat :| (forall j :: 0 <= j < k ==> MatchesAt(a'.payload, child, j)) && DiffersAt(a'.payload, child, k);
      forall j: nat ensures PayloadAt(a'.payload, j) == PayloadAt(a.payload, j + 1)
                       && ActiveNameAt(child, j) == ActiveNameAt(s, j + 1)
      {
      }
      forall j | 0 <= j < k + 1 ensures MatchesAt(a.payload, s, j) {
        if j > 0 { assert MatchesAt(a'.payload, child, j - 1); }
      }
      assert DiffersAt(a.payload, s, k + 1);
    }
  }
}
