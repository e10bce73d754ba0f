# Deep-link resolver (`linkTo`) — a Dafny model

This project models `linkTo`, the deep-link resolver of the app's navigation
layer. Given a navigation handle, a path and an optional intent (`'UP'`), it
does four things:

- It walks the handle's parent links up to the root navigator.
- It turns the path into a target state and a derived action, using
  collaborators this model treats as inputs.
- It retypes a NAVIGATE action by three ordered rules:
  - a central-pane report switch gives PUSH;
  - the `'UP'` intent gives REPLACE;
  - entering the right-hand modal (RHP) from outside gives PUSH.
- It makes exactly one of three moves:
  - for an RHP target, it dispatches the minimal action found by
    `getMinimalAction`, forcing REPLACE when the search last went through the
    RHP navigator itself;
  - otherwise, it dispatches the derived action;
  - the code's reset branch for an undefined action, which as written is never
    reached (see below).

The model has three modules:

- `Navigation` (`navigation.dfy`) holds the data model. It has:
  - navigator states with routes and an active index;
  - actions with their nested `{screen, params}` payloads;
  - navigator handles with parent links;
  - an independent description of the live tree's active chain (`Descendant`,
    `ActiveNameAt`, `DescendantKey`) and of an action's target chain
    (`PayloadAt`).
- `MinimalAction` (`minimal_action.dfy`) holds `getMinimalAction`, written as a
  `while` loop (`GetMinimalAction`) and proved equal to the recursive
  specification `MinimalFrom`. Lemmas then describe `MinimalFrom` exactly
  against the two chains:
  - when the chains agree on exactly `k` levels, the result is the chain's
    level-`k` payload aimed at the level-`k` navigator;
  - it throws when the descent breaks;
  - every result comes from such a `k`.
- `LinkTo` (`link_to.dfy`) holds the classification (`Classify`), the call as
  a specification (`Resolve`) and the method `LinkTo`. `LinkTo` walks the
  parent chain in a loop, rebinds the action with its new type, calls
  `GetMinimalAction`, and is proved equal to `Resolve` on the root. Lemmas
  state the classification table, the dispatch rules and two worked scenarios.

How a JavaScript crash is modelled: a read of a property of `undefined` throws a
TypeError. The model makes each such crash a `TypeError` result rather than a
precondition:

- an active index out of range;
- a matched route without a nested state;
- a matched payload without `params`;
- `_.last([])` on a root with no routes;
- a `null` navigation handle, which passes the `undefined` test at line 46
  and throws at `root.getParent()` on line 55;
- an undefined derived action. Lines 64 and 81 read `action` before line 93
  tests it.

So, as written, the reset at `linkTo.js:96` is never reached; the contract
of `Resolve` states this.

A link to `RHP/Settings/Security` while the RHP shows `Settings/Profile` is
dispatched as a NAVIGATE of `Settings_Security` against the settings
navigator, not as a REPLACE, because the last route the search went through is
`Settings`, not the RHP (`SettingsToSecurityScenario`).

## Model

| member | source | states |
|---|---|---|
| `Navigation.RootOf` | src/libs/Navigation/linkTo.js:50-57 | the parent walk ends at a navigator that has no parent and is the handle itself or one of its ancestors |
| `Navigation.ActiveRoute` | src/libs/Navigation/linkTo.js:27-29 | the active route `routes[index]`, when defined, is one of the navigator's own routes, so descending into its nested state goes into a strictly smaller tree |
| `MinimalAction.MinimalFrom` | src/libs/Navigation/linkTo.js:21-43 | the search keeps the action's type; it either returns the action and `targetName` unchanged, or returns an action with a target key and a non-null `targetName` |
| `MinimalAction.GetMinimalAction` | src/libs/Navigation/linkTo.js:21-43 | the `while` loop that updates `currentAction`, `currentState`, `currentTargetKey` and `targetName` returns exactly what the search specification gives from `targetName` null, including its TypeErrors |
| `MinimalAction.MinimalAfterAgreement` | src/libs/Navigation/linkTo.js:21-42 | suppose the live tree's active chain and the action's `{screen, params}` chain agree on exactly the first `k` levels. Then the minimal action keeps the type, has the level-`k` payload, and targets the key of the level-`k` navigator. Its `targetName` is the route name at level `k - 1`. With `k = 0` the action comes back unchanged and `targetName` stays null |
| `MinimalAction.MinimalThrows` | src/libs/Navigation/linkTo.js:27-37 | the search throws when, after agreeing levels, either the active index is out of range, or the names match but the route has no nested state or the payload has no `params` |
| `MinimalAction.MinimalHasAgreementDepth` | src/libs/Navigation/linkTo.js:27-42 | every result the search returns stops at a level where the two chains first disagree, after agreeing on every shallower level |
| `LinkTo.LinkTo` | src/libs/Navigation/linkTo.js:45-98 | an `undefined` handle throws the navigation error; a `null` handle throws a TypeError at `getParent()`. Otherwise the parent walk reaches the root, and the outcome is what `Resolve` gives on that root |
| `LinkTo.Classify` | src/libs/Navigation/linkTo.js:63-78 | only a NAVIGATE action is retyped, and only to PUSH or REPLACE; classification throws only for an RHP target over a root with no routes. The rule-by-rule table is `ClassifyRules` |
| `LinkTo.ClassifyRules` | src/libs/Navigation/linkTo.js:63-78 | a type other than NAVIGATE is kept. For NAVIGATE, each result is characterised in both directions. PUSH comes from the report switch, or else (without UP) from entering the RHP from outside. REPLACE comes from UP without a report switch. NAVIGATE stays when no rule applies, including an RHP target whose root already ends with the RHP. The call throws only on an RHP target over an empty root |
| `LinkTo.Resolve` | src/libs/Navigation/linkTo.js:59-97 | once the root is found, every call dispatches exactly one action or throws a TypeError, when the collaborators return normally; it never resets, because line 64 reads `action` before the line-93 test. Its dispatches are stated by `NonModalDispatchesClassified`, `ModalDispatchesMinimal` and `ModalDispatchAfterAgreement` |
| `LinkTo.ClassificationThrows` | src/libs/Navigation/linkTo.js:75 | when classification throws at the `.name` read of `_.last([])` on a root with no routes, the call throws |
| `LinkTo.UndefinedActionThrows` | src/libs/Navigation/linkTo.js:61-64 | an undefined derived action makes the call throw at the `action.type` read |
| `LinkTo.NonModalDispatchesClassified` | src/libs/Navigation/linkTo.js:63-94 | an action not aimed at the RHP is dispatched with its derived payload and target, and with the classified type |
| `LinkTo.ModalDispatchesMinimal` | src/libs/Navigation/linkTo.js:80-90 | an RHP-targeted action always dispatches the minimal action, even after zero descents. Its type is REPLACE when the search last descended through the RHP, and the classified type otherwise. A search that throws makes the call throw |
| `LinkTo.ModalDispatchAfterAgreement` | src/libs/Navigation/linkTo.js:80-90 | end to end for an RHP target whose chain agrees with the live tree on exactly `k` levels: it dispatches the level-`k` payload against the level-`k` navigator. It is REPLACE when the level-`k - 1` route is the RHP (always when `k = 1`), and the classified type otherwise |
| `LinkTo.SettingsToSecurityScenario` | src/libs/Navigation/linkTo.js:21-90 | with the RHP showing Settings/Profile, a link to Settings/Security becomes a NAVIGATE of Settings_Security against the settings navigator |
| `LinkTo.SettingsToSearchScenario` | src/libs/Navigation/linkTo.js:21-90 | with the RHP showing Settings, a link to the Search flow becomes a REPLACE of the flow against the RHP navigator |

## Left out

- `LinkTo.Resolve`: the collaborators are total here. An error they throw,
  such as an unresolvable path, propagates out of `linkTo` and is not
  modelled.
- `getStateFromPath`, `getActionFromState` with `linkingConfig.config`, and
  `getTopmostReportId`: their code is not part of this model. They are the
  function-valued fields of the `Linking` input. URL parsing is not modelled.
- `NAVIGATORS`: that file is not part of this model. The two navigator names
  are string constants. Only the fact that they differ matters.
- `getParent`, `getState` and `getRootState` are modelled on an immutable
  handle value, `Navigator(state, parent)`. `root.getState()` and
  `navigation.getRootState()` are both the root navigator's state, which
  assumes the runtime reports one consistent tree.
- `dispatch` and `reset` are modelled as the returned `Outcome`, not as
  effects on a live tree.
- Mutating `action.type` and `minimalAction.type` in place is modelled as
  rebinding to an updated value. Aliasing between `action` and `minimalAction`
  after zero descents is not modelled: nothing reads `action` after that
  mutation.
- Route `params` and any other fields of routes, actions and payloads are not
  modelled. The resolver reads only the fields that are modelled.
- The messages of thrown errors are not modelled. The missing-handle error
  and the TypeErrors are told apart only by constructor.
- `src/libs/actions/Session.js`, `src/types/onyx/*.ts` and the crash-reporting
  test mock are outside the resolver: they are API and key-value-store glue,
  type declarations, and test scaffolding.
