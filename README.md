# GameSceneManagerFusion in Dafny

A model of `GameSceneManagerFusion`, the scene-load coordinator this Unity package plugs into a
Photon Fusion `NetworkRunner`. The coordinator notices when the runner's authoritative scene
reference drifts away from the one it last loaded. It then loads the matching game level while a
process-wide guard keeps other coordinators from loading at the same time. Afterwards it discovers
the networked scene objects of the loaded scenes and hands them to the runner.

The model has four modules, one per part of that file:

- `Levels` (`levels.dfy`): the offset mapping between scene references and registered levels
  (`TryGetLevelAsset`, `TryGetLevelRef`). C# `int` arithmetic is 32-bit and unchecked, and the model
  writes out the wrap-around of `offset + Length` and `i + offset`.
- `Discovery` (`discovery.dfy`): `FindNetworkObjects`, an imperative walk over scenes, then roots,
  then network objects. Each network object is a class with constant flags and one mutable `active`
  bit. The walk is proved against `Kept`, a function of the active bits as they stood before the
  call.
- `Coordinator` (`coordinator.dfy`): the class `GameSceneManagerFusion` with its cached reference,
  its outdated and in-progress flags and its bound runner. `LoadGuard` is the static
  `s_CurrentlyLoading`, shared by all instances. `NetworkRunner` is reduced to the scene it reports
  and the trace of `InvokeSceneLoadStart`, `RegisterSceneObjects` and `InvokeSceneLoadDone` calls.
- `Scenarios` (`scenarios.dfy`): client methods that replay small concrete situations against the
  contracts. They cover the A/B/C/D discovery filter, a load from reference 1001 with three levels at
  offset 1000, a reference that does not resolve followed by one that does, and a live and then
  destroyed guard holder.

`Assert.Check` calls are programming-error faults. Each one is the precondition of the member that
contains it.

The load body is synchronous: the load that `LateUpdate` starts runs to completion inside that
`LateUpdate`. It is split where the source awaits the integration. `SetLevelAsync` takes the guard,
reports the load start and calls `SetLevelGSMIntegration`. `CompleteLoad` is lines 185-198. It is
stated for any `Integration`, meaning any way the integration may have used its `finished`
delegate. The integration as written never calls that delegate.

Where the intended design of the system and the code differ, the model follows the code:

- `m_LoadingInProgress` is never set to true. `LateUpdate` ensures the flag never becomes true, so
  the in-progress checks at lines 36 and 107 never fire.
- `SetLevelGSMIntegration` never calls `finished` and returns `null`. Every load therefore ends in
  the "did not invoke finished delegate" branch. No objects are registered and no "load done" is
  reported (`SetLevelAsync`, `LateUpdate`).
- `LateUpdate` adopts the new reference and clears the outdated flag before the load runs. So once
  a load has ended, failed or not, `IsReady` is true (last ensures of `LateUpdate`).
  `Scenarios.ResolutionFailureScenario` shows this for a reference that does not resolve.
- The disable pass runs inside the per-root loop, over the whole result so far. An object met again
  under a later root is then already inactive. `Kept` models that. `KeptMembership` shows the
  returned set does not depend on it. `KeptWithoutRepeats` shows the returned list does not either
  when no object is reached twice.

## Model

| member | source | states |
|---|---|---|
| `Levels.TryGetLevelAsset` | Runtime/Scripts/GameSceneManagerFusion.cs:144-153 | a reference resolves iff `offset <= ref < offset + Length` and that range does not pass `int.MaxValue`; if so, to `registeredLevels[ref - offset]`. A wrapped range resolves nothing |
| `Levels.IndexOf` | Runtime/Scripts/GameSceneManagerFusion.cs:156-161 | first-match index: absent iff the asset is not registered, otherwise a slot holding it with no earlier slot holding it |
| `Levels.TryGetLevelRef` | Runtime/Scripts/GameSceneManagerFusion.cs:155-165 | the loop succeeds iff the asset is registered, and returns the first matching index plus the offset in 32-bit arithmetic |
| `Levels.IndexOfFirst` | Runtime/Scripts/GameSceneManagerFusion.cs:156-160 | the index where the scan stops is the first match |
| `Levels.LevelRefResolves` | Runtime/Scripts/GameSceneManagerFusion.cs:144-165 | round trip from a level: the reference handed out for a registered level resolves back to that level when the range does not wrap |
| `Levels.SceneRefRoundTrip` | Runtime/Scripts/GameSceneManagerFusion.cs:144-165 | round trip from a reference: its level maps back to a reference in `[offset, ref]`, equal to `ref` iff no earlier slot holds the same level |
| `Levels.DistinctLevelsBijection` | Runtime/Scripts/GameSceneManagerFusion.cs:144-165 | with no level registered twice, every resolvable reference maps back to itself |
| `Discovery.Roots` | Runtime/Scripts/GameSceneManagerFusion.cs:64-67 | every object under the roots the walk visits belongs to the loaded scenes |
| `Discovery.RootsExactly` | Runtime/Scripts/GameSceneManagerFusion.cs:64-67 | a root is visited iff it is a root of one of the scenes |
| `Discovery.Filter` | Runtime/Scripts/GameSceneManagerFusion.cs:71-77 | everything the filter keeps is an object of the root that is a scene object and active or activated by the user |
| `Discovery.ScanRoot` | Runtime/Scripts/GameSceneManagerFusion.cs:68-78 | the inner loop appends exactly the filtered objects of one root, in order |
| `Discovery.ScanSeesEarlierDeactivation` | Runtime/Scripts/GameSceneManagerFusion.cs:71-88 | scanning a later root under the bits left by earlier disable passes keeps what `KeepInRoot` says of the bits before the walk |
| `Discovery.Deactivate` | Runtime/Scripts/GameSceneManagerFusion.cs:84-88 | `SetActive(false)` on every object of the list, and on nothing else |
| `Discovery.VisitRoot` | Runtime/Scripts/GameSceneManagerFusion.cs:67-89 | one root: the result grows by `KeepInRoot`, and with `disable` every object of the result ends inactive while the others keep their bits |
| `Discovery.KeptStep` | Runtime/Scripts/GameSceneManagerFusion.cs:67-89 | one more root extends the walk's result by what that root keeps |
| `Discovery.FindNetworkObjects` | Runtime/Scripts/GameSceneManagerFusion.cs:61-93 | returns `Kept` of the roots in walk order; every returned object has a valid GUID; with `disable` exactly the returned objects end inactive and no other bit changes; one visibility-node call per root when requested |
| `Discovery.KeepInRootMembership` | Runtime/Scripts/GameSceneManagerFusion.cs:71-77 | an object is kept from a root iff it is under that root and passes the filter as the walk meets it |
| `Discovery.KeptMembership` | Runtime/Scripts/GameSceneManagerFusion.cs:61-93 | an object is returned iff it is under some root, is a scene object, and was active or activated by the user before the call, whatever `disable` is |
| `Discovery.KeepInRootFresh` | Runtime/Scripts/GameSceneManagerFusion.cs:73-88 | a root none of whose objects was kept earlier is scanned with the plain filter |
| `Discovery.KeptWithoutRepeats` | Runtime/Scripts/GameSceneManagerFusion.cs:61-93 | when no object is reached twice, the result is the plain filter of all objects in walk order, independent of `disable` |
| `Scenarios.FilterScenarioKept` | Runtime/Scripts/GameSceneManagerFusion.cs:71-88 | of A (scene, active), B (scene, inactive, user-activated), C (scene, inactive) and D (not scene), the walk keeps exactly A then B |
| `Coordinator.IndexByGuid` | Runtime/Scripts/GameSceneManagerFusion.cs:169-177 | the delegate's dictionary is built iff the GUIDs are distinct (`Add` throws otherwise); its keys are the objects' GUIDs and each maps to the object carrying it |
| `Coordinator.Completion` | Runtime/Scripts/GameSceneManagerFusion.cs:186-198 | registration then "load done" are reported iff the delegate ran with distinct GUIDs, and the registered values are exactly the delegate's objects; otherwise nothing is reported |
| `Coordinator.LoadGuard.constructor` | Runtime/Scripts/GameSceneManagerFusion.cs:16 | the guard starts empty |
| `Coordinator.GameSceneManagerFusion.constructor` | Runtime/Scripts/GameSceneManagerFusion.cs:17-25 | a new component has no runner, the default scene reference and both flags clear |
| `Coordinator.GameSceneManagerFusion.IsReady` | Runtime/Scripts/GameSceneManagerFusion.cs:104-112 | ready iff not loading, not outdated and the runner's scene equals the cached reference; reads only, changes nothing |
| `Coordinator.GameSceneManagerFusion.Initialize` | Runtime/Scripts/GameSceneManagerFusion.cs:115-118 | with no live runner bound, binds the given runner and changes nothing else |
| `Coordinator.GameSceneManagerFusion.Shutdown` | Runtime/Scripts/GameSceneManagerFusion.cs:120-128 | unbinds the runner and clears outdated; the cached reference becomes the offline level's reference if it is registered and is kept otherwise; in-progress flag and guard untouched; the new reference resolves to the offline level |
| `Coordinator.GameSceneManagerFusion.CompleteLoad` | Runtime/Scripts/GameSceneManagerFusion.cs:185-198 | on every path the guard is released and the in-progress flag cleared; registration and "load done" are appended to the runner's trace only when the delegate ran without throwing |
| `Coordinator.GameSceneManagerFusion.SetLevelAsync` | Runtime/Scripts/GameSceneManagerFusion.cs:132-199 | from an empty guard: takes the guard, reports the load start, and ends with the guard free and the flag clear; because the integration at lines 132-142 never calls `finished`, every load ends as `FinishNotCalled` with no registration and no "load done" |
| `Coordinator.GameSceneManagerFusion.LateUpdate` | Runtime/Scripts/GameSceneManagerFusion.cs:27-58 | no runner: nothing changes; drift sets outdated; up to date, in progress or a live other holder: nothing else changes; a dead holder is cleared and the load runs; a load adopts the runner's scene, clears outdated, leaves the guard free; the flag never becomes true; afterwards ready iff up to date or a load ran |

## Left out

- Unity's scene graph: `activeInHierarchy` is each object's own `active` bit. Deactivating a kept object does not propagate to the objects below it. The returned list is unaffected, because all of a root's objects are scanned before that root's disable pass.
- `RunnerVisibilityNode.AddVisibilityNodes` is a call into Fusion. `FindNetworkObjects` only counts its calls.
- `GameSceneManager.SetLevelAsync` and the Addressables load it performs are external I/O. The integration as written discards their result, so the model does not represent it.
- `async`/`await`: a load runs to completion within the `LateUpdate` that starts it. The window while the integration is awaited is therefore not modelled. During that window, as written, `IsReady` already reports true, and a second drift on the same instance meets the `Assert.Check` at line 41.
- `WeakReference` and garbage collection: a reclaimed guard target is the same as `null`. A destroyed but not yet reclaimed holder is a holder whose `destroyed` field is set.
- `Debug.LogError` output: `LoadStatus` names the branch that logs instead.
- A fault of the awaited `GameSceneManager.SetLevelAsync` (line 134) is not distinguished: it skips the error log at line 193, but the `finally` block still releases the guard and nothing is registered, so the model reports it as `FinishNotCalled`, with the same end state.
- Fusion runner internals: `InvokeSceneLoadStart`, `RegisterSceneObjects` and `InvokeSceneLoadDone` are entries appended to `NetworkRunner.events`. Exceptions they might throw are not modelled.
- `Assert.Check` is modelled as a precondition. What a failed assertion would do at run time is not modelled. That includes a failed check at line 180, which would reach the `finally` block.
- The explicit `INetworkSceneManager` wrappers (lines 96-102) only relay, so `Initialize` and `Shutdown` are modelled directly.
- `Runner == runner` (lines 105, 121) is reference equality. Unity's rule that a destroyed object compares equal to `null` is not modelled.
- The initial `m_CurrentLevelRef` is `default(SceneRef)`, which the model takes to be the integer 0. Fusion's `SceneRef` encoding is not part of this model, so whether a runner reporting scene 0 counts as drift on the first tick rests on that assumption.
- `SceneRef.None` is the `None` result of `TryGetLevelRef`. Its raw value is not modelled.
- `prevLevel` (line 51) feeds only a comment, so it is not modelled.
- `gameLevelSceneOffset` is a public field, modelled as a constant because the core never assigns it.
