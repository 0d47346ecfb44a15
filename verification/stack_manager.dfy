/** The `StackManager` facade: the module-level `stackMap`, the list of
    stack-updated callbacks and the `configuration` holding the stack-building
    strategy, with one transition per facade operation.

    The module-level variables become one immutable `Manager` value; each
    operation takes the current value and returns the next one. */
module StackManager {
  import opened Wrappers
  import opened StackBuilder

  /** A `displaySetInstanceUid`. */
  type Key = string

  /** What `stackMap` holds per key. */
  type Stack = seq<ImageId>

  /** The JavaScript values a caller may pass as a callback, classified as
      `typeof` classifies them. */
  datatype JsValue =
    | Undefined
    | Null
    | Boolean(b: bool)
    | Number(n: int)
    | Str(s: string)
    | Object(ref: nat)
    | Function(ref: nat)

  /** `typeof value === 'function'`. */
  predicate IsFunction(value: JsValue)
  {
    value.Function?
  }

  datatype OHIFError = OHIFError(message: string)

  const CallbackNotFunctionMessage: string := "callback must be provided as a function"

  /** What a strategy leaves behind: the map and callback list it was handed
      (which it may have changed, since both are passed by reference), the ids
      it returns, and the metadata it submitted. */
  datatype StrategyOutcome = StrategyOutcome(
    stacks: map<Key, Stack>,
    callbacks: seq<JsValue>,
    imageIds: seq<ImageId>,
    trace: seq<Submission>)

  /** `createAndAddStack(stackMap, study, displaySet, stackUpdatedCallbacks)`. */
  type Strategy = (map<Key, Stack>, Study, DisplaySet, seq<JsValue>) -> StrategyOutcome

  /** The configuration object: either the module's own `createAndAddStack`,
      or one a caller supplied through `setConfiguration`. */
  datatype Configuration =
    | DefaultConfiguration
    | CustomConfiguration(createAndAddStack: Strategy)

  datatype Manager = Manager(
    stacks: map<Key, Stack>,
    configuration: Configuration,
    callbacks: seq<JsValue>)

  /** The result of `makeAndAddStack`: the manager afterwards, the ids
      returned and the metadata submitted. */
  datatype Made = Made(manager: Manager, imageIds: seq<ImageId>, trace: seq<Submission>)

  /** The result of `addStackUpdatedCallback`: the manager afterwards and the
      error thrown, if any. */
  datatype Registered = Registered(manager: Manager, thrown: Option<OHIFError>)

  /** Every registered callback is a function. */
  ghost predicate Valid(m: Manager)
  {
    forall i :: 0 <= i < |m.callbacks| ==> IsFunction(m.callbacks[i])
  }

  /** The state when the module has loaded: no stacks, no callbacks, the
      default strategy. */
  function Init(): (m: Manager)
    ensures Valid(m)
    ensures m.callbacks == []
    ensures GetAllStacks(m) == map[]
    ensures forall k :: FindStack(m, k) == None
    ensures m.configuration.DefaultConfiguration?
  {
    Manager(map[], DefaultConfiguration, [])
  }

  function ClearStacks(m: Manager): (r: Manager)
    ensures forall k :: FindStack(r, k) == None
    ensures GetAllStacks(r) == map[]
    ensures r.callbacks == m.callbacks
    ensures GetConfiguration(r) == GetConfiguration(m)
  {
    m.(stacks := map[])
  }

  /** Runs the configured strategy, handing it the live map and callback
      list. The default strategy leaves both as they were. */
  function MakeAndAddStack(m: Manager, idFor: IdGenerator, study: Study, ds: DisplaySet): (r: Made)
    ensures r.manager.configuration == m.configuration
    ensures m.configuration.DefaultConfiguration? ==>
              && r.manager == m
              && r.imageIds == Build(idFor, study, ds).imageIds
              && r.trace == Build(idFor, study, ds).trace
    ensures m.configuration.CustomConfiguration? ==>
              var outcome := m.configuration.createAndAddStack(m.stacks, study, ds, m.callbacks);
              && r.imageIds == outcome.imageIds
              && r.trace == outcome.trace
              && r.manager.stacks == outcome.stacks
              && r.manager.callbacks == outcome.callbacks
  {
    match m.configuration
    case DefaultConfiguration =>
      var built := Build(idFor, study, ds);
      Made(m, built.imageIds, built.trace)
    case CustomConfiguration(strategy) =>
      var outcome := strategy(m.stacks, study, ds, m.callbacks);
      Made(m.(stacks := outcome.stacks, callbacks := outcome.callbacks), outcome.imageIds, outcome.trace)
  }

  /** `stackMap[displaySetInstanceUid]`, with `undefined` as None. */
  function FindStack(m: Manager, key: Key): (r: Option<Stack>)
    ensures r.Some? <==> key in GetAllStacks(m)
    ensures r.Some? ==> r.value == GetAllStacks(m)[key]
  {
    if key in m.stacks then Some(m.stacks[key]) else None
  }

  /** The current map of keys to stacks. */
  function GetAllStacks(m: Manager): map<Key, Stack>
  {
    m.stacks
  }

  /** Appends the callback when it is a function; otherwise throws and leaves
      the manager as it was. */
  function AddStackUpdatedCallback(m: Manager, callback: JsValue): (r: Registered)
    ensures r.thrown.None? <==> IsFunction(callback)
    ensures r.thrown.Some? ==>
              r.thrown.value.message == CallbackNotFunctionMessage && r.manager == m
    ensures r.thrown.None? ==>
              && |r.manager.callbacks| == |m.callbacks| + 1
              && r.manager.callbacks[..|m.callbacks|] == m.callbacks
              && r.manager.callbacks[|m.callbacks|] == callback
              && r.manager.stacks == m.stacks
              && r.manager.configuration == m.configuration
  {
    if !IsFunction(callback) then Registered(m, Some(OHIFError(CallbackNotFunctionMessage)))
    else Registered(m.(callbacks := m.callbacks + [callback]), None)
  }

  function GetConfiguration(m: Manager): Configuration
  {
    m.configuration
  }

  /** Replaces the configuration wholesale, with no check of its shape. */
  function SetConfiguration(m: Manager, config: Configuration): (r: Manager)
    ensures GetConfiguration(r) == config
    ensures GetAllStacks(r) == GetAllStacks(m) && r.callbacks == m.callbacks
  {
    m.(configuration := config)
  }

  // ---------------------------------------------------------------------------
  // Properties of the facade.
  // ---------------------------------------------------------------------------

  /** Under the default configuration, `makeAndAddStack` returns the
      builder's ids and changes neither the map nor the callback list: no
      lookup answers differently afterwards. */
  lemma DefaultMakeChangesNoLookup(m: Manager, idFor: IdGenerator, study: Study, ds: DisplaySet, key: Key)
    requires m.configuration.DefaultConfiguration?
    ensures var r := MakeAndAddStack(m, idFor, study, ds);
            && FindStack(r.manager, key) == FindStack(m, key)
            && GetAllStacks(r.manager) == GetAllStacks(m)
            && r.manager.callbacks == m.callbacks
            && |r.imageIds| == TotalFrames(ds.images)
  {
    BuildLength(idFor, study, ds);
  }

  /** The stack just built is not registered under its display set's key: on
      a manager that has no entry for that key, there is still none after
      `makeAndAddStack` with the default configuration, even when ids were
      produced. */
  lemma DefaultMakeStoresNothing(m: Manager, idFor: IdGenerator, study: Study, ds: DisplaySet)
    requires m.configuration.DefaultConfiguration?
    requires FindStack(m, ds.displaySetInstanceUid) == None
    ensures FindStack(MakeAndAddStack(m, idFor, study, ds).manager, ds.displaySetInstanceUid) == None
    ensures |ds.images| > 0 ==> |MakeAndAddStack(m, idFor, study, ds).imageIds| > 0
  {
  }

  /** Setting a configuration and reading it back gives it unchanged, and
      setting the one just read changes nothing. */
  lemma ConfigurationRoundTrip(m: Manager, config: Configuration)
    ensures GetConfiguration(SetConfiguration(m, config)) == config
    ensures SetConfiguration(m, GetConfiguration(m)) == m
    ensures SetConfiguration(SetConfiguration(m, config), GetConfiguration(m)) == m
  {
  }

  /** Every facade operation keeps the callback list made of functions; a
      build does so under the default configuration, which leaves the list
      untouched. */
  lemma OperationsPreserveValid(m: Manager, callback: JsValue, config: Configuration,
                                idFor: IdGenerator, study: Study, ds: DisplaySet)
    requires Valid(m)
    ensures Valid(ClearStacks(m))
    ensures Valid(SetConfiguration(m, config))
    ensures Valid(AddStackUpdatedCallback(m, callback).manager)
    ensures m.configuration.DefaultConfiguration? ==> Valid(MakeAndAddStack(m, idFor, study, ds).manager)
  {
  }

  /** Registering callbacks one after another keeps them in registration
      order; a rejected value leaves no trace. */
  lemma CallbacksInOrder(m: Manager, first: JsValue, second: JsValue)
    requires IsFunction(first)
    ensures var r1 := AddStackUpdatedCallback(m, first).manager;
            var r2 := AddStackUpdatedCallback(r1, second).manager;
            && r2.callbacks == m.callbacks + [first] + (if IsFunction(second) then [second] else [])
  {
  }
}
