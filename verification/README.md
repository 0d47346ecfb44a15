# StackManager (OHIF viewer base): a Dafny model

This project models the stack registry of the OHIF viewer's
`StackManager.js`. It has two parts.

- **The default stack builder `createAndAddStack`**. It takes a display set's
  ordered images and returns an ordered list of image ids. An image with
  `numFrames > 1` gives one id per frame, in frame order. Any other image gives
  one id. The builder also hands one metadata record per id to the metadata
  store.
- **The `StackManager` facade**. It holds three pieces of module state:
  `stackMap`, the stack-updated callback list and the `configuration` that holds
  the building strategy. Its operations are `clearStacks`, `makeAndAddStack`,
  `findStack`, `getAllStacks`, `addStackUpdatedCallback`, `getConfiguration` and
  `setConfiguration`.

Files:

- `wrappers.dfy` (module `Wrappers`): `Option`, which stands for JavaScript's
  `undefined`.
- `stack_builder.dfy` (module `StackBuilder`): the builder, in two forms.
  - `Build` is a pure expansion.
  - `CreateAndAddStack` is a method with the source's nested loops, which is
    proved equal to `Build`.
  - `SlotSubmission` is an independent description of what belongs at each
    output position. Lemmas tie the two descriptions together in both
    directions.
- `stack_manager.dfy` (module `StackManager`): the facade. The module-level
  variables become one immutable `Manager` value, with one transition function
  per operation.

Collaborators the model does not contain:

- The id generator `getImageId` (line 2) is the function parameter
  `idFor: (Image, Option<nat>) -> ImageId`.
  - `getImageId(image)` is `idFor(image, None)`.
  - `getImageId(image, i)` is `idFor(image, Some(i))`.
- The metadata store `addMetaData` (line 3) is an output. The builder returns
  the ordered trace of `Submission(imageId, record)` calls it made. The trace
  records each record as it stands at the moment of the call.
- A caller-supplied strategy is a function value. It receives the live map
  and callback list, and it returns what it leaves in them. In JavaScript both
  are passed by reference, so a strategy may change them.

## Where the code and its doc comments differ

The doc comments in `StackManager.js` promise more than the code does:

- Lines 59-60 and 96-98 say a registered callback is called when a stack is
  added or updated.
- Line 71 ("Create a stack from an image set") and the name `makeAndAddStack`
  suggest that the stack is stored.

The code does neither:

- `createAndAddStack` is handed `stackMap` but only returns `imageIds`.
- `makeAndAddStack` passes the callback list along but never calls it.

The model follows the code. `StackManager.DefaultMakeChangesNoLookup` and
`StackManager.DefaultMakeStoresNothing` state this behaviour: under the default
configuration, the map and callback list stay the same, and nothing becomes
findable under the display set's key.

## Model

| member | source | states |
|---|---|---|
| `StackBuilder.CreateAndAddStack` | Packages/ohif-viewerbase/client/lib/StackManager.js:19-51 | The loop-based builder (per image a fresh record, per frame the record's `frame` overwritten before the id is pushed and submitted) returns exactly the ids and submissions of the functional expansion `Build`; there is one id per slot, and every slot `(p, f)` holds its submission at position `Offset(p) + f` |
| `StackBuilder.BuildLength` | Packages/ohif-viewerbase/client/lib/StackManager.js:20-50 | The number of returned ids is the sum over images of `numFrames` (if above 1) or 1; there is exactly one metadata submission per id, in the same order, with the same id; an empty display set gives no ids and no submissions |
| `StackBuilder.BuildSlot` | Packages/ohif-viewerbase/client/lib/StackManager.js:24-47 | Frame `f` of the image at 0-based position `p` is emitted at position `Offset(p) + f`; its record names that image, the display set and the study, has `numImages` = number of source images and `imageIndex = p + 1`; for a multi-frame image the id is `getImageId(image, f)` and the record's `frame` is `f`; otherwise `f` is 0, the id is `getImageId(image)` and the record has no `frame` |
| `StackBuilder.BuildMatchesSlots` | Packages/ohif-viewerbase/client/lib/StackManager.js:24-48 | The builder's submission trace agrees with the position-by-position description at every slot of every image |
| `StackBuilder.SlotsDetermineBuild` | Packages/ohif-viewerbase/client/lib/StackManager.js:19-51 | Conversely, any trace of the right length that agrees with the position-by-position description at every slot is the builder's trace, so the description determines the output completely |
| `StackBuilder.BuildRecordsShared` | Packages/ohif-viewerbase/client/lib/StackManager.js:20-31 | Every submitted record carries `numImages` equal to the number of source images (not of frames), an `imageIndex` between 1 and that number, and the display set and study the stack was built from |
| `StackBuilder.BuildOrder` | Packages/ohif-viewerbase/client/lib/StackManager.js:24-41 | Display-set order is kept: along the output the image index never decreases, and two outputs with the same image index are frames of one multi-frame image in ascending frame order |
| `StackBuilder.FrameSubmissionsAt` | Packages/ohif-viewerbase/client/lib/StackManager.js:36-41 | The frame loop of a multi-frame image submits frames `0 .. numFrames-1` in order, the `i`-th under id `getImageId(image, i)` with the record's `frame` equal to `i` at the time of the call |
| `StackBuilder.ImageSubmissionsAt` | Packages/ohif-viewerbase/client/lib/StackManager.js:33-47 | One image contributes `numFrames` submissions when `numFrames > 1` and one otherwise (including an absent count), each matching its slot description |
| `StackBuilder.TwoImageScenario` | Packages/ohif-viewerbase/client/lib/StackManager.js:19-51 | For a single-frame image A followed by a three-frame image B the ids are `[getImageId(A), getImageId(B,0), getImageId(B,1), getImageId(B,2)]`, image indices `1,2,2,2`, frames absent, 0, 1, 2, and `numImages` 2 throughout |
| `StackManager.Init` | Packages/ohif-viewerbase/client/lib/StackManager.js:6-8 | At module load the map is empty, so no key has a stack (line 6); the callback list is empty (line 8); and the configuration is the default `createAndAddStack` (installed at lines 53-55) |
| `StackManager.ClearStacks` | Packages/ohif-viewerbase/client/lib/StackManager.js:67-69 | After clearing, `findStack` is undefined for every key and `getAllStacks` is empty; the callback list and the configuration are unchanged |
| `StackManager.MakeAndAddStack` | Packages/ohif-viewerbase/client/lib/StackManager.js:76-78 | The result is whatever the configured strategy returns when handed the live map, the study, the display set and the callback list; the default strategy returns the builder's ids and submissions and leaves the manager as it was; the configuration itself is never changed |
| `StackManager.FindStack` | Packages/ohif-viewerbase/client/lib/StackManager.js:84-86 | A lookup finds a stack exactly when the key is in the map `getAllStacks` returns, and then finds the stack stored there; an unset key gives `undefined` rather than an error |
| `StackManager.AddStackUpdatedCallback` | Packages/ohif-viewerbase/client/lib/StackManager.js:100-105 | An `OHIFError` with message "callback must be provided as a function" is thrown exactly when the value is not a function, and then the manager is unchanged; otherwise the value is appended at the end, the list grows by one, earlier entries, map and configuration stay as they were |
| `StackManager.SetConfiguration` | Packages/ohif-viewerbase/client/lib/StackManager.js:119-121 | Any configuration is accepted without a shape check; `getConfiguration` then returns it, and the map and callback list are untouched |
| `StackManager.ConfigurationRoundTrip` | Packages/ohif-viewerbase/client/lib/StackManager.js:109-121 | Reading back a configuration just set gives it unchanged; setting the configuration just read changes nothing; setting one and then restoring the old one gives back the original manager |
| `StackManager.DefaultMakeChangesNoLookup` | Packages/ohif-viewerbase/client/lib/StackManager.js:76-78 | Under the default configuration `makeAndAddStack` changes neither `stackMap` nor the callback list, so `findStack(k)` answers the same before and after for every key; it returns one id per frame of the display set |
| `StackManager.DefaultMakeStoresNothing` | Packages/ohif-viewerbase/client/lib/StackManager.js:76-78 | The stack just built is not registered: with the default configuration, a key without a stack before `makeAndAddStack` still has none afterwards, even when a non-empty display set produced ids |
| `StackManager.OperationsPreserveValid` | Packages/ohif-viewerbase/client/lib/StackManager.js:100-105 | The callback list holds only functions before and after clearing, setting the configuration, registering any value, and building with the default configuration |
| `StackManager.CallbacksInOrder` | Packages/ohif-viewerbase/client/lib/StackManager.js:100-105 | Callbacks registered one after another appear in registration order after the earlier ones, and a rejected value adds nothing |

`GetAllStacks` and `GetConfiguration` plain-return a field of the state. They
are described through `FindStack`, `ClearStacks`, `SetConfiguration` and
`ConfigurationRoundTrip`.

## Left out

- Logging: `OHIF.log.info` at line 35 has no behavioural content.
- The internals of `getImageId` and of the metadata store (`getImageId.js` and
  `metaDataProvider.js`) are not part of this model. The id generator is an
  uninterpreted function parameter, so nothing is assumed about uniqueness.
  Duplicate ids would overwrite each other in the store, and that behaviour
  is the store's.
- Shared record object: one `metaData` object per image is passed to every
  `addMetaData` call for that image's frames, and line 37 then mutates it. What
  the external store finally holds for earlier frames depends on whether it
  copies the object. The model records each record's value at call time.
- Non-integer `numFrames` is not modelled. `numFrames` is an optional integer,
  so fractional and string values are left out, along with JavaScript's
  coercion of them in `>` and `<`.
- `getAllStacks` reference semantics: the live map is returned, and a caller
  can mutate it from outside. The model returns the current map value, so
  outside mutation through that handle is not modelled.
- `getConfiguration` reference semantics: the live configuration object is
  returned. A caller can change the strategy in place, for example with
  `getConfiguration().createAndAddStack = f`, without calling
  `setConfiguration`. A saved handle then carries every later change, so in
  JavaScript the third round trip of `ConfigurationRoundTrip` restores the
  object as it is now, not as it was when it was read. The model returns the
  configuration as a value. An in-place change of the strategy to `f` reaches
  the same state as `SetConfiguration(m, CustomConfiguration(f))`, so it is
  covered by that transition.
- Malformed configurations: `setConfiguration` stores anything, and a
  configuration without a callable `createAndAddStack` only fails inside the
  next `makeAndAddStack`. The model types a configuration as the default or
  a strategy function, so that lazy failure is not modelled.
- Custom strategies are limited to returning a list of ids. A strategy that
  returns something else is not modelled. So is one that calls back into the
  facade while it runs, for example to change the configuration.
- Callback invocation: the code never calls the callbacks, so only the list
  is modelled.
- Plain-object key quirks of JavaScript maps (`"__proto__"`, inherited
  properties) are left out. The map is a Dafny `map<string, seq<ImageId>>`.
- `OperationsPreserveValid`: for a build under a custom configuration it
  promises nothing, because such a strategy may put any value into the
  callback list it is handed.
