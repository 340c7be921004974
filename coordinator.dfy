/** The load coordinator of GameSceneManagerFusion: the per-instance load state machine driven by
    `LateUpdate`, `Initialize`, `Shutdown` and `IsReady`, the process-wide single-flight guard
    `s_CurrentlyLoading`, and the load body `SetLevelAsync`.

    The asynchronous load runs to completion inside the `LateUpdate` that starts it. Unity's
    liveness test (`!obj` on a destroyed object) is the field `destroyed`; the Fusion runner is
    reduced to the scene it reports and the trace of the calls the coordinator makes on it. */
module Coordinator {

  import opened Wrappers
  import opened Levels
  import opened Discovery

  /** The calls the coordinator makes on its runner. */
  datatype RunnerEvent =
    | SceneLoadStart                                               // Runner.InvokeSceneLoadStart()
    | RegisterSceneObjects(sceneObjects: map<Guid, NetworkObject>) // Runner.RegisterSceneObjects(...)
    | SceneLoadDone                                                // Runner.InvokeSceneLoadDone()

  /** The Fusion `NetworkRunner`, as the coordinator sees it. */
  class NetworkRunner {
    var currentScene: SceneRef
    var destroyed: bool
    var events: seq<RunnerEvent>

    constructor (currentScene: SceneRef)
      ensures this.currentScene == currentScene && !destroyed && events == []
    {
      this.currentScene := currentScene;
      destroyed := false;
      events := [];
    }
  }

  /** The static `s_CurrentlyLoading`: a non-owning slot naming the coordinator whose load is in
      flight. `null` also stands for a target the garbage collector has reclaimed. */
  class LoadGuard {
    var holder: GameSceneManagerFusion?

    constructor ()
      ensures holder == null
    {
      holder := null;
    }
  }

  /** `GameSceneManager.Instance.registeredLevels` and `GameSceneManager.offlineLevel`. */
  datatype LevelTable = LevelTable(registeredLevels: seq<GameLevel>, offlineLevel: GameLevel)

  type Registry = t: LevelTable | IsLevelArray(t.registeredLevels) witness LevelTable([], NullLevel)

  /** What the level integration did with the `finished` delegate it was handed: never called it,
      or called it with these scene objects. */
  datatype Integration = NotFinished | Finished(sceneObjects: seq<NetworkObject>)

  /** How a load body ended. */
  datatype LoadStatus =
    | Registered       // objects registered and the load reported done
    | FinishNotCalled  // "SwitchLevel implementation did not invoke finished delegate"
    | DuplicateGuid    // Dictionary.Add threw inside the delegate; the task faulted

  /** Which way one `LateUpdate` went. */
  datatype Tick =
    | NoRunner
    | UpToDate
    | AlreadyLoading
    | WaitingForOtherLoad
    | LoadRan(status: LoadStatus)

  /** No two objects share a `NetworkGuid`. */
  predicate GuidsDistinct(objs: seq<NetworkObject>)
  {
    forall i, j :: 0 <= i < j < |objs| ==> objs[i].guid != objs[j].guid
  }

  /** The delegate body: `levelObjects.Add(obj.NetworkGuid, obj)` for each object in turn, where
      `Add` throws on a key already present (`None`). */
  function IndexByGuid(objs: seq<NetworkObject>): (r: Option<map<Guid, NetworkObject>>)
    ensures r.Some? <==> GuidsDistinct(objs)
    ensures r.Some? ==> r.value.Keys == (set o | o in objs :: o.guid)
    ensures r.Some? ==> forall g :: g in r.value ==> r.value[g] in objs && r.value[g].guid == g
  {
    if objs == [] then Some(map[])
    else
      var init, o := objs[..|objs| - 1], objs[|objs| - 1];
      assert objs == init + [o];
      match IndexByGuid(init)
      case None => None
      case Some(m) =>
        if o.guid in m then None
        else Some(m[o.guid := o])
  }

  /** How the load body ends once the integration has returned, and what it then reports to the
      runner: registration followed by "load done" exactly when the delegate ran and its objects
      carry distinct GUIDs; nothing otherwise. */
  function Completion(integration: Integration): (c: (LoadStatus, seq<RunnerEvent>))
    ensures c.0 == Registered <==> integration.Finished? && GuidsDistinct(integration.sceneObjects)
    ensures c.0 == DuplicateGuid <==> integration.Finished? && !GuidsDistinct(integration.sceneObjects)
    ensures c.0 == Registered ==> |c.1| == 2 && c.1[1] == SceneLoadDone
    ensures c.0 == Registered ==> c.1[0].RegisterSceneObjects? && c.1[0].sceneObjects.Values == set o | o in integration.sceneObjects
    ensures c.0 != Registered ==> c.1 == []
  {
    match integration
    case NotFinished => (FinishNotCalled, [])
    case Finished(objs) =>
      match IndexByGuid(objs)
      case None => (DuplicateGuid, [])
      case Some(levelObjects) =>
        assert levelObjects.Values == set o | o in objs by {
          forall o | o in objs ensures o in levelObjects.Values {
            assert o.guid in levelObjects;
            assert levelObjects[o.guid] == o by {
              var k :| 0 <= k < |objs| && objs[k] == o;
              var p := levelObjects[o.guid];
              var k' :| 0 <= k' < |objs| && objs[k'] == p;
              assert k == k';
            }
          }
        }
        (Registered, [RegisterSceneObjects(levelObjects), SceneLoadDone])
  }

  class GameSceneManagerFusion {
    const guard: LoadGuard              // s_CurrentlyLoading, shared by every instance
    const levels: Registry               // registeredLevels, offlineLevel
    const gameLevelSceneOffset: Int32
    var runner: NetworkRunner?          // Runner
    var currentLevelRef: SceneRef       // m_CurrentLevelRef
    var currentLevelOutdated: bool      // m_CurrentLevelOutdated
    var loadingInProgress: bool         // m_LoadingInProgress
    var destroyed: bool                 // the component has been destroyed

    /** A fresh component: no runner, `default(SceneRef)` (raw value 0) cached, both flags clear. */
    constructor (guard: LoadGuard, levels: Registry, gameLevelSceneOffset: Int32)
      ensures this.guard == guard && this.levels == levels && this.gameLevelSceneOffset == gameLevelSceneOffset
      ensures runner == null && currentLevelRef == 0
      ensures !currentLevelOutdated && !loadingInProgress && !destroyed
    {
      this.guard := guard;
      this.levels := levels;
      this.gameLevelSceneOffset := gameLevelSceneOffset;
      runner := null;
      currentLevelRef := 0;
      currentLevelOutdated := false;
      loadingInProgress := false;
      destroyed := false;
    }

    /** `(bool)Runner`: a runner is bound and not destroyed. */
    predicate Bound()
      reads this, runner
    {
      runner != null && !runner.destroyed
    }

    /** `LateUpdate` gets past its early returns: bound, outdated once the drift check has run, and
        no load in progress. */
    predicate LoadDue()
      reads this, runner
    {
      Bound() && (runner.currentScene != currentLevelRef || currentLevelOutdated) && !loadingInProgress
    }

    /** `INetworkSceneManager.IsReady`, whose `Assert.Check(Runner == runner)` is its precondition. */
    function IsReady(r: NetworkRunner): (ready: bool)
      requires runner == r
      reads this, r
      ensures ready <==> !loadingInProgress && !currentLevelOutdated && r.currentScene == currentLevelRef
    {
      if loadingInProgress then false
      else if currentLevelOutdated then false
      else if r.currentScene != currentLevelRef then false
      else true
    }

    /** `Initialize`: bind the runner; `Assert.Check(!Runner)` is the precondition. */
    method Initialize(r: NetworkRunner)
      requires !Bound()
      modifies this`runner
      ensures runner == r
    {
      runner := r;
    }

    /** `Shutdown`: unbind the runner, re-target the cached reference to the offline level when that
        level is registered, and clear the outdated flag. The in-progress flag and the guard are
        left alone. */
    method Shutdown(r: NetworkRunner)
      requires runner == r
      modifies this`runner, this`currentLevelRef, this`currentLevelOutdated
      ensures runner == null && !currentLevelOutdated
      ensures currentLevelRef ==
        match LevelRefOf(gameLevelSceneOffset, levels.registeredLevels, levels.offlineLevel)
        case Some(levelRef) => levelRef
        case None => old(currentLevelRef)
      ensures levels.offlineLevel in levels.registeredLevels && RangeFits(gameLevelSceneOffset, levels.registeredLevels) ==>
        TryGetLevelAsset(gameLevelSceneOffset, levels.registeredLevels, currentLevelRef) == Some(levels.offlineLevel)
    {
      runner := null;
      var levelRef := TryGetLevelRef(gameLevelSceneOffset, levels.registeredLevels, levels.offlineLevel);
      if levelRef.Some? {
        currentLevelRef := levelRef.value;
      }
      currentLevelOutdated := false;
      if levels.offlineLevel in levels.registeredLevels && RangeFits(gameLevelSceneOffset, levels.registeredLevels) {
        LevelRefResolves(gameLevelSceneOffset, levels.registeredLevels, levels.offlineLevel);
      }
    }

    /** `SetLevelGSMIntegration` as written: it resolves the reference (logging an error when that
        fails), awaits the external level load when it succeeds, discards the loaded collection and
        never calls `finished`. The second result is the level it resolved. */
    method SetLevelGSMIntegration(levelRef: SceneRef) returns (integration: Integration, gameLevel: Option<GameLevel>)
      ensures gameLevel == TryGetLevelAsset(gameLevelSceneOffset, levels.registeredLevels, levelRef)
      ensures gameLevel.Some? ==> gameLevel.value in levels.registeredLevels
      ensures integration == NotFinished
    {
      gameLevel := TryGetLevelAsset(gameLevelSceneOffset, levels.registeredLevels, levelRef);
      integration := NotFinished;
    }

    /** The end of `SetLevelAsync` once the integration has returned: the `finally` block, whose
        `Assert.Check` that this instance holds the guard is the precondition, releases the guard
        and clears the in-progress flag on every path; registration and "load done" follow only
        when the delegate ran without throwing. */
    method CompleteLoad(integration: Integration) returns (status: LoadStatus)
      requires guard.holder == this
      requires runner != null
      modifies guard, this`loadingInProgress, runner`events
      ensures guard.holder == null && !loadingInProgress
      ensures status == Completion(integration).0
      ensures runner.events == old(runner.events) + Completion(integration).1
    {
      var levelObjects: Option<map<Guid, NetworkObject>> := None;
      if integration.Finished? {
        levelObjects := IndexByGuid(integration.sceneObjects);
      }
      // finally
      guard.holder := null;
      loadingInProgress := false;
      if !integration.Finished? {
        status := FinishNotCalled;
      } else if levelObjects.None? {
        status := DuplicateGuid;
      } else {
        runner.events := runner.events + [RegisterSceneObjects(levelObjects.value), SceneLoadDone];
        status := Registered;
      }
    }

    /** `SetLevelAsync`: `Assert.Check` that the guard is empty (the precondition), take the guard,
        report the load start, run the integration and complete. With the integration as written,
        every load ends without registration. */
    method SetLevelAsync(level: SceneRef) returns (status: LoadStatus)
      requires guard.holder == null
      requires runner != null
      modifies guard, this`loadingInProgress, runner`events
      ensures guard.holder == null && !loadingInProgress
      ensures status == FinishNotCalled
      ensures runner.events == old(runner.events) + [SceneLoadStart]
    {
      guard.holder := this;
      runner.events := runner.events + [SceneLoadStart];
      var integration, _ := SetLevelGSMIntegration(level);
      status := CompleteLoad(integration);
    }

    /** `LateUpdate`, one tick of the state machine. The `Assert.Check(target != this)` reached when
        a load is due and the guard is occupied is the precondition. */
    method LateUpdate() returns (tick: Tick)
      requires !(LoadDue() && guard.holder == this)
      modifies this`currentLevelRef, this`currentLevelOutdated, this`loadingInProgress, guard, runner
      ensures runner != null ==> runner.currentScene == old(runner.currentScene) && runner.destroyed == old(runner.destroyed)
      ensures tick.NoRunner? <==> !old(Bound())
      ensures tick.UpToDate? <==>
        old(Bound()) && !old(currentLevelOutdated) && old(runner.currentScene) == old(currentLevelRef)
      ensures tick.AlreadyLoading? <==>
        old(Bound()) && (old(currentLevelOutdated) || old(runner.currentScene) != old(currentLevelRef)) && old(loadingInProgress)
      ensures tick.WaitingForOtherLoad? <==>
        old(LoadDue()) && old(guard.holder) != null && !old(guard.holder.destroyed)
      ensures tick.LoadRan? <==>
        old(LoadDue()) && (old(guard.holder) == null || old(guard.holder.destroyed))
      // no load started: the cached reference, the guard, the flag and the runner's trace are as they were
      ensures !tick.LoadRan? ==>
        && currentLevelRef == old(currentLevelRef)
        && guard.holder == old(guard.holder)
        && loadingInProgress == old(loadingInProgress)
        && (runner != null ==> runner.events == old(runner.events))
      ensures tick.NoRunner? ==> currentLevelOutdated == old(currentLevelOutdated)
      ensures tick.UpToDate? || tick.AlreadyLoading? || tick.WaitingForOtherLoad? ==>
        currentLevelOutdated == (old(currentLevelOutdated) || old(runner.currentScene) != old(currentLevelRef))
      // a load ran: the runner's scene is adopted, the flags are clear, the guard is free again
      ensures tick.LoadRan? ==>
        && currentLevelRef == old(runner.currentScene)
        && !currentLevelOutdated && !loadingInProgress
        && guard.holder == null
        && runner.events == old(runner.events) + [SceneLoadStart]
        && tick.status == FinishNotCalled
      ensures loadingInProgress ==> old(loadingInProgress)
      ensures Bound() ==> (IsReady(runner) <==> (tick.UpToDate? && !loadingInProgress) || tick.LoadRan?)
    {
      if runner == null || runner.destroyed {
        return NoRunner;
      }
      if runner.currentScene != currentLevelRef {
        currentLevelOutdated := true;
      }
      if !currentLevelOutdated || loadingInProgress {
        return if !currentLevelOutdated then UpToDate else AlreadyLoading;
      }
      var target := guard.holder;
      if target != null {
        if target.destroyed {
          guard.holder := null;
        } else {
          return WaitingForOtherLoad;
        }
      }
      currentLevelRef := runner.currentScene;
      currentLevelOutdated := false;
      var status := SetLevelAsync(currentLevelRef);
      return LoadRan(status);
    }
  }
}
