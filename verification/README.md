# Animation state selector and build helpers, modelled in Dafny

This project models two parts of a first-person shooter sample built on Unity.

**The animation state selector** (`AnimGraph_StateSelector.Instance`) sits at the root of a character's animation graph. It is configured with a list of controller definitions. Each definition names an animation state (Stand, Run, Jump, InAir, Dead), a sub-controller template, a default transition time, and custom transition times from particular source states.

At construction the instance does two passes:
- it creates one sub-controller per distinct template, gives it a mixer port, and builds its duration table;
- it binds each animation state's slot to the controller of the first definition naming that state.

Every tick it does three things:
- it classifies the character's locomotion state into an animation state;
- it tracks the current and previous animation states;
- it blends towards the current state's port at a rate taken from the duration table, then runs the presentation update of the controller of every filled slot whose port carries weight. A weighted controller shared by several states is therefore updated once per slot.

`Shutdown` likewise works slot by slot: a controller shared by several states is shut down once per slot.

**The build helpers** (`BuildTools`) do the following:
- count dependency occurrences in a dictionary;
- select the non-scene dependencies shared by several asset bundles;
- make an asset bundle build record;
- compose the build name (date, build number, change set) and the build output path.

Files:
- `wrappers.dfy`: the `Option` type.
- `locomotion.dfy`: the character's locomotion state snapshot that the selector reads.
- `state_selector.dfy`: the state selector. It holds the pure classifier, the construction passes as functions with the imperative loops proved against them, and the `Instance` class with its fields and in-place updates.
- `build_tools.dfy`: the build helpers. `Counts` is the in-place dictionary; the counting and selection loops are methods proved against `Tally`; the name and path formatting are functions with splitting round-trips.

How the source's entities are represented:
- **Sub-controller instances** are values `Controller(serial, template)`. The serial is the creation order. The mixer starts with no inputs and `AddInput` returns the new input's index, so each controller's port equals its serial.
- **Calls into sub-controllers** are recorded in trace fields of `Instance`, in order: the logic update with its first-update flag, the presentation update, and `Shutdown`.
- **Mixer weights** are not modelled. The set of ports with a positive input weight is a parameter.
- **Single-precision floats** are modelled as reals. 1/0 is modelled as `BlendRate.Unbounded`.

## Model

| member | source | states |
|---|---|---|
| StateSelector.GetAnimState | Assets/Scripts/Game/Modules/Character/Animation/AnimGraph/AnimGraph_StateSelector.cs:195-222 | The classifier is total and never returns NumStates. Run has exactly GroundMove as its preimage, Jump exactly Jump, InAir exactly DoubleJump and InAir, and Dead exactly Dead. |
| StateSelector.UnlistedLocoIsStand | Assets/Scripts/Game/Modules/Character/Animation/AnimGraph/AnimGraph_StateSelector.cs:198-219 | A locomotion value outside the switch falls back to Stand. |
| StateSelector.EveryStateIsReachable | Assets/Scripts/Game/Modules/Character/Animation/AnimGraph/AnimGraph_StateSelector.cs:195-222 | Every real animation state is the classification of some locomotion state. |
| StateSelector.TimesTable | Assets/Scripts/Game/Modules/Character/Animation/AnimGraph/AnimGraph_StateSelector.cs:91-102 | A definition's duration table has one entry per real state. Its entries are given by TimesTableLookup. |
| StateSelector.OverrideLookup | Assets/Scripts/Game/Modules/Character/Animation/AnimGraph/AnimGraph_StateSelector.cs:91-102 | After the custom transitions are written over a table, each entry is the time of the last custom transition from that source state, or the old entry if none names it. |
| StateSelector.TimesTableLookup | Assets/Scripts/Game/Modules/Character/Animation/AnimGraph/AnimGraph_StateSelector.cs:91-102 | The duration from a source state is the definition's default time unless a custom transition names that state; if several do, the last one wins. |
| StateSelector.BuildTransitionTimes | Assets/Scripts/Game/Modules/Character/Animation/AnimGraph/AnimGraph_StateSelector.cs:91-102 | The in-place array loops (fill with the default, then overwrite per custom transition) produce exactly the duration table of the definition. |
| StateSelector.Instantiate | Assets/Scripts/Game/Modules/Character/Animation/AnimGraph/AnimGraph_StateSelector.cs:72-105 | The first construction pass over the definitions. It creates at most one controller and port per definition; InstantiateKeys, InstantiateConsistent, InstantiateOnePerTemplate and InstantiateTimes state the rest. |
| StateSelector.InstantiateKeys | Assets/Scripts/Game/Modules/Character/Animation/AnimGraph/AnimGraph_StateSelector.cs:72-81 | After the first pass, a template has a controller exactly when some definition names it. Null templates are skipped. |
| StateSelector.NewTemplateNotRegistered | Assets/Scripts/Game/Modules/Character/Animation/AnimGraph/AnimGraph_StateSelector.cs:74-78 | A definition whose template appears first at its index finds no controller registered for that template yet. |
| StateSelector.InstantiateLast | Assets/Scripts/Game/Modules/Character/Animation/AnimGraph/AnimGraph_StateSelector.cs:72-105 | The last definition registers its template (next controller, next port, its duration table) exactly when the template is non-null and not yet registered; otherwise the registry is unchanged. |
| StateSelector.InstantiatePrefixStep | Assets/Scripts/Game/Modules/Character/Animation/AnimGraph/AnimGraph_StateSelector.cs:72-105 | The same step stated for each iteration of the first loop. |
| StateSelector.InstantiateConsistent | Assets/Scripts/Game/Modules/Character/Animation/AnimGraph/AnimGraph_StateSelector.cs:80-89 | Each registered controller belongs to its template, its port is its creation index, it has a full-length duration table, and the port list is 0, 1, 2, … in creation order. |
| StateSelector.InstantiateOnePerTemplate | Assets/Scripts/Game/Modules/Character/Animation/AnimGraph/AnimGraph_StateSelector.cs:66-89 | Exactly one controller and one mixer port per distinct template: distinct templates get distinct instances, every port belongs to one of them, and there are as many ports as controllers. |
| StateSelector.InstantiateTimes | Assets/Scripts/Game/Modules/Character/Animation/AnimGraph/AnimGraph_StateSelector.cs:91-104 | A controller's duration table is built from the first definition using its template, not from later ones. |
| StateSelector.InstantiateControllers | Assets/Scripts/Game/Modules/Character/Animation/AnimGraph/AnimGraph_StateSelector.cs:72-105 | The first construction loop fills the three dictionaries and the port list exactly as the first pass prescribes. |
| StateSelector.Slots | Assets/Scripts/Game/Modules/Character/Animation/AnimGraph/AnimGraph_StateSelector.cs:108-122 | The second construction pass over the definitions. It yields one slot per real state; the slot lemmas below state the contents. |
| StateSelector.SlotsDefinedPrefix | Assets/Scripts/Game/Modules/Character/Animation/AnimGraph/AnimGraph_StateSelector.cs:108-122 | The second pass's lookups succeed on every prefix of the definitions when they succeed on the whole list. |
| StateSelector.SlotsStep | Assets/Scripts/Game/Modules/Character/Animation/AnimGraph/AnimGraph_StateSelector.cs:108-122 | One step of the second pass changes at most the slot of the last definition's state, and fills it when that definition is the first naming its state. |
| StateSelector.SlotsBoundOnlyIfNamed | Assets/Scripts/Game/Modules/Character/Animation/AnimGraph/AnimGraph_StateSelector.cs:108-122 | A filled slot's state is named by some definition. |
| StateSelector.SlotsBoundIfNamed | Assets/Scripts/Game/Modules/Character/Animation/AnimGraph/AnimGraph_StateSelector.cs:108-122 | A state named by any definition ends with its slot filled. |
| StateSelector.SlotsBoundIff | Assets/Scripts/Game/Modules/Character/Animation/AnimGraph/AnimGraph_StateSelector.cs:108-122 | A slot is filled exactly when some definition names its state (both directions). |
| StateSelector.SlotsPrefixStep | Assets/Scripts/Game/Modules/Character/Animation/AnimGraph/AnimGraph_StateSelector.cs:108-122 | In each iteration of the second loop, a definition is the first naming its state exactly when that slot is still empty. It then binds the slot to its template's controller; otherwise the table is unchanged. |
| StateSelector.SlotsFirstWins | Assets/Scripts/Game/Modules/Character/Animation/AnimGraph/AnimGraph_StateSelector.cs:108-121 | A state's slot holds the controller of the first definition naming that state, with that controller's updater flag, port and duration table. The table was built from the first definition using the template, which may be an earlier definition. |
| StateSelector.LaterDefinitionIgnored | Assets/Scripts/Game/Modules/Character/Animation/AnimGraph/AnimGraph_StateSelector.cs:110-115 | Appending a definition for an already named state leaves the whole table unchanged. |
| StateSelector.SlotsAreBindings | Assets/Scripts/Game/Modules/Character/Animation/AnimGraph/AnimGraph_StateSelector.cs:117-121 | Every filled slot holds its controller's updater flag, port and duration table as looked up from the registry. |
| StateSelector.SharedControllerSharesEntry | Assets/Scripts/Game/Modules/Character/Animation/AnimGraph/AnimGraph_StateSelector.cs:117-121 | States bound to the same controller share the same port, updater and duration table. |
| StateSelector.WellFormedSlotsDefined | Assets/Scripts/Game/Modules/Character/Animation/AnimGraph/AnimGraph_StateSelector.cs:110-121 | For definitions construction accepts, every lookup of the second pass succeeds on every prefix. |
| StateSelector.StateTable | Assets/Scripts/Game/Modules/Character/Animation/AnimGraph/AnimGraph_StateSelector.cs:64-122 | The slot array that construction builds from accepted definitions, with one slot per real state. Its contents are given by StateTableEntry and SlotsBoundIff. |
| StateSelector.StateTableEntry | Assets/Scripts/Game/Modules/Character/Animation/AnimGraph/AnimGraph_StateSelector.cs:72-122 | The slot of a state named first by definition i holds the controller of i's template, with that template's updater flag and port. Its duration table comes from definition k, the first one naming that template. |
| StateSelector.BindStates | Assets/Scripts/Game/Modules/Character/Animation/AnimGraph/AnimGraph_StateSelector.cs:107-122 | The second construction loop fills the slot array in place with exactly the state table, and every filled slot's table has one entry per state. |
| StateSelector.Instance.constructor | Assets/Scripts/Game/Modules/Character/Animation/AnimGraph/AnimGraph_StateSelector.cs:53-125 | A new instance holds the state table and the port list in creation order. The last, current and previous states are all the NumStates sentinel, and no calls have been made yet. |
| StateSelector.Instance.Shutdown | Assets/Scripts/Game/Modules/Character/Animation/AnimGraph/AnimGraph_StateSelector.cs:127-133 | Shuts down the controller of every slot in slot order. All slots must be filled. |
| StateSelector.ShutdownCallCount | Assets/Scripts/Game/Modules/Character/Animation/AnimGraph/AnimGraph_StateSelector.cs:127-133 | A controller is shut down once per slot bound to it, so a controller shared by k states is shut down k times. |
| StateSelector.Instance.UpdateGraphLogic | Assets/Scripts/Game/Modules/Character/Animation/AnimGraph/AnimGraph_StateSelector.cs:145-155 | The flag is true exactly when the classified state differs from the last one seen, so the first call is always a first update. The last state becomes the classified one. The controller's logic update runs, with the flag, only if the slot has an updater. |
| StateSelector.ControllerOf | Assets/Scripts/Game/Modules/Character/Animation/AnimGraph/AnimGraph_StateSelector.cs:166-170 | A state has a controller exactly when it is a real state with a filled slot; the sentinel has none. |
| StateSelector.Advance | Assets/Scripts/Game/Modules/Character/Animation/AnimGraph/AnimGraph_StateSelector.cs:163-176 | A presentation step. Current and tick become the new pair; nothing changes when the pair is unchanged. The previous state moves only when the controller changes: it becomes the old current state, or the new state on the very first switch. Once set it never returns to the sentinel. |
| StateSelector.ReplayStaysStarted | Assets/Scripts/Game/Modules/Character/Animation/AnimGraph/AnimGraph_StateSelector.cs:163-176 | Once a previous state is recorded, any number of steps keep a real previous state. |
| StateSelector.PreviousIsOriginOfLastSwitch | Assets/Scripts/Game/Modules/Character/Animation/AnimGraph/AnimGraph_StateSelector.cs:163-176 | Over chained transitions, the previous state is the state that was current just before the last controller change. |
| StateSelector.BlendRateFor | Assets/Scripts/Game/Modules/Character/Animation/AnimGraph/AnimGraph_StateSelector.cs:181-182 | With a positive duration the rate is 1/duration. Otherwise it is 1/deltaTime, which is unbounded exactly when deltaTime is 0. |
| StateSelector.Instance.AdvancePresentation | Assets/Scripts/Game/Modules/Character/Animation/AnimGraph/AnimGraph_StateSelector.cs:163-177 | Updates the three bookkeeping fields in place exactly as one presentation step, and leaves a real previous state. |
| StateSelector.Instance.UpdateWeightedControllers | Assets/Scripts/Game/Modules/Character/Animation/AnimGraph/AnimGraph_StateSelector.cs:185-192 | Runs the presentation update of every filled slot whose port carries weight, in slot order. |
| StateSelector.WeightedCallCount | Assets/Scripts/Game/Modules/Character/Animation/AnimGraph/AnimGraph_StateSelector.cs:185-192 | A controller's presentation update runs once per weighted slot bound to it. |
| StateSelector.Instance.ApplyPresentationState | Assets/Scripts/Game/Modules/Character/Animation/AnimGraph/AnimGraph_StateSelector.cs:157-193 | Advances the bookkeeping with the classified state and tick. The duration is the current slot's table entry for the previous state, the rate is the blend rate for that duration, and the target is the current slot's port. The weighted controllers are updated. |
| BuildTools.Counts.constructor | Assets/Scripts/EditorTools/Editor/BuildTools.cs:202 | A new dictionary is empty. |
| BuildTools.Tally | Assets/Scripts/EditorTools/Editor/BuildTools.cs:142-155 | The dictionary after counting a key list occurrence by occurrence. Counting never removes a key; TallyCounts gives the exact counts. |
| BuildTools.TallyCounts | Assets/Scripts/EditorTools/Editor/BuildTools.cs:142-155 | After counting, the keys are the old keys plus the counted ones. Each count grew by the number of occurrences of its key, a new key holds exactly that number, and other keys keep their counts. |
| BuildTools.TallyAppend | Assets/Scripts/EditorTools/Editor/BuildTools.cs:204-211 | Counting two key lists one after the other is counting their concatenation. |
| BuildTools.AddKeys | Assets/Scripts/EditorTools/Editor/BuildTools.cs:142-155 | Updates the dictionary in place so that each key's count grows by its number of occurrences and no other key is added or changed. |
| BuildTools.MakeAssetBundleBuild | Assets/Scripts/EditorTools/Editor/BuildTools.cs:191-198 | The record carries the given name, an empty variant, and the given assets in order. |
| BuildTools.MadeBuildDependencies | Assets/Scripts/EditorTools/Editor/BuildTools.cs:191-211 | A bundle made by MakeAssetBundleBuild contributes exactly the dependency lists of its assets to the count. |
| BuildTools.AssetDependenciesStep | Assets/Scripts/EditorTools/Editor/BuildTools.cs:206-210 | Each asset's dependency list is counted after those of the assets before it. |
| BuildTools.BuildDependenciesStep | Assets/Scripts/EditorTools/Editor/BuildTools.cs:204-211 | Each build's dependency lists are counted after those of the builds before it. |
| BuildTools.CountDependencies | Assets/Scripts/EditorTools/Editor/BuildTools.cs:202-211 | The nested loops leave in the dictionary the count of every dependency list of every asset of every build. |
| BuildTools.IsScene | Assets/Scripts/EditorTools/Editor/BuildTools.cs:216 | The scene test: an ordinal ".unity" suffix check, characterised by SceneSuffix. |
| BuildTools.SceneSuffix | Assets/Scripts/EditorTools/Editor/BuildTools.cs:216-217 | A path is a scene, and is skipped, exactly when it is some stem followed by ".unity". |
| BuildTools.SelectShared | Assets/Scripts/EditorTools/Editor/BuildTools.cs:213-222 | Lists, each once and in any order, exactly the non-scene keys whose count exceeds 1. |
| BuildTools.FindSharedDependencies | Assets/Scripts/EditorTools/Editor/BuildTools.cs:200-223 | A path is returned exactly when it is not a scene and occurs more than once over all dependency lists of all assets of all builds. No path is returned twice. |
| BuildTools.Digits | Assets/Scripts/EditorTools/Editor/BuildTools.cs:295 | A zero-padded field has exactly the requested width and holds only digits. |
| BuildTools.DigitsRoundTrip | Assets/Scripts/EditorTools/Editor/BuildTools.cs:295 | A zero-padded field reads back as the number it was made from. |
| BuildTools.FormatDate | Assets/Scripts/EditorTools/Editor/BuildTools.cs:295 | The "yyyyMMdd" text of a date is exactly eight digits. |
| BuildTools.FormatDateRoundTrip | Assets/Scripts/EditorTools/Editor/BuildTools.cs:294-295 | The "yyyyMMdd" text has 8 digits, and its year, month and day fields read back as the date. |
| BuildTools.GetBuildName | Assets/Scripts/EditorTools/Editor/BuildTools.cs:280-297 | The name starts with the formatted date and a dot. With neither environment variable set, the rest is "Dev.0". |
| BuildTools.BuildNameParts | Assets/Scripts/EditorTools/Editor/BuildTools.cs:280-297 | The build name splits on '.' into the date, the build number ("Dev" when unset) and the change set ("0" when unset), provided neither given value contains a dot. |
| BuildTools.TargetName | Assets/Scripts/EditorTools/Editor/BuildTools.cs:299-301 | A target's name is non-empty and contains no '/'. |
| BuildTools.GetBuildPath | Assets/Scripts/EditorTools/Editor/BuildTools.cs:299-302 | The path starts with "Builds/" and ends with the build name. |
| BuildTools.BuildPathParts | Assets/Scripts/EditorTools/Editor/BuildTools.cs:299-302 | The build path splits on '/' into "Builds", the target name, and product_target_buildName, provided the product and build names contain no '/'. |
| BuildTools.SplitFirst | Assets/Scripts/EditorTools/Editor/BuildTools.cs:295 | Splitting a separator-free piece followed by the separator peels off that piece. |
| BuildTools.SplitThree | Assets/Scripts/EditorTools/Editor/BuildTools.cs:295 | Three separator-free pieces joined by the separator split back into those three pieces. |

## Left out

- Unity's Playables plumbing is not modelled: creating the mixer, `AddInput`, the sub-controllers' `GetPlayableOutput`, and `SetPlayableInput`/`GetPlayableOutput` of the instance itself. The only fact kept is that the mixer's new input index equals its input count.
- The crossfade (`SimpleTranstion.Update`) and its weight arithmetic are not part of this model. `ApplyPresentationState` returns the target port, duration and rate it would pass on. Which ports carry a positive weight is a parameter.
- Single-precision rounding is not modelled: durations and rates are reals. 1/deltaTime at deltaTime 0 is `Unbounded` rather than IEEE infinity.
- The `GameTime`/`deltaTime` arguments forwarded to sub-controllers are not recorded in the call traces. The traces record which controller was called, and for the logic update, the first-update flag.
- The entity-manager read of `CharAnimState` becomes an argument.
- The "Animation state already registered" warning is not modelled. The definition is skipped as in the source.
- StateSelector.Instance.constructor: requires well-formed definitions instead of modelling the exceptions the source would throw. These are a state outside the five real states (an index out of range), a custom transition from such a state in the definition that builds a table, and a null template on the first definition of a state (a null dictionary key).
- StateSelector.Instance.ApplyPresentationState: requires the classified state's slot to be filled. On an empty slot the source dereferences a null duration table.
- StateSelector.Instance.Shutdown: requires every slot to be filled. On an empty slot the source dereferences a null controller.
- BuildTools.AddKeys: counts are unbounded integers; the 32-bit overflow of `dictionary[key]++` is not modelled.
- BuildTools.SelectShared: the dictionary's enumeration order is left open, so the result is specified as a set without duplicates, not as a particular order.
- BuildTools.IsScene: the test is an ordinal suffix comparison. The source's culture-sensitive `EndsWith` is not modelled.
- BuildTools.FindSharedDependencies: the asset database's recursive dependency query is a function parameter.
- BuildTools.GetBuildName: the clock and the BUILD_NUMBER and P4_CHANGELIST environment variables are arguments. The date is formatted in the Gregorian calendar only.
- BuildTools.GetBuildPath: `Application.productName` is an argument. Only the three targets the build menus use are modelled.
- The file-system, asset-database, pipeline and menu operations of the build tool are not part of this model. These are directory copying, building the game and bundles, loading assets, reserializing, opening the build folder, post-processing, the build menus and the upload in `Deploy`.
- `MakeSceneBundleBuild` is not part of this model: it depends on the asset database and the level manager.
- Assets/Scripts/Game/Modules/Effect/SpatialEffect/SpatialEffectRegistry.cs is not part of this model: it is an empty subclass with no logic of its own.
