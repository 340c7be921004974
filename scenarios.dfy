/** Worked scenarios: clients of the coordinator and of the discovery walk that check, from the
    contracts alone, what the code does on small concrete inputs. */
module Scenarios {

  import opened Wrappers
  import opened Levels
  import opened Discovery
  import opened Coordinator

  /** A single scene with a single root. */
  lemma SingleRoot(root: Root)
    ensures SceneObjects([[root]]) == set o | o in root
    ensures Roots([[root]]) == [root]
  {
    var scenes := [[root]];
    assert scenes[0] in scenes && root in scenes[0];
    forall o | o in SceneObjects(scenes) ensures o in root {
      var s, r :| s in scenes && r in s && o in r;
    }
    var none: seq<Scene> := scenes[..0];
    assert none == [];
  }

  lemma FourObjects(a: NetworkObject, b: NetworkObject, c: NetworkObject, d: NetworkObject)
    ensures (set o | o in [a, b, c, d]) == {a, b, c, d}
  {
  }

  /** The walk over one root of A, B, C, D with `disable` set keeps A and B. */
  lemma FilterScenarioKept(a: NetworkObject, b: NetworkObject, c: NetworkObject, d: NetworkObject, act: Activity)
    requires a in act && b in act && c in act && d in act
    requires a.isSceneObject && act[a]
    requires b.isSceneObject && !act[b] && b.activatedByUser
    requires c.isSceneObject && !act[c] && !c.activatedByUser
    requires !d.isSceneObject
    ensures Within([[a, b, c, d]], act.Keys)
    ensures Kept([[a, b, c, d]], act, true) == [a, b]
  {
    var root := [a, b, c, d];
    var roots: seq<Root> := [root];
    assert roots[..0] == [];
    var abc: seq<NetworkObject> := [a, b, c];
    var ab: seq<NetworkObject> := [a, b];
    var just: seq<NetworkObject> := [a];
    assert root[..3] == abc && abc[..2] == ab && ab[..1] == just && just[..0] == [];
    assert KeepInRoot(just, act, [], true) == [a];
    assert KeepInRoot(ab, act, [], true) == [a, b];
    assert KeepInRoot(abc, act, [], true) == [a, b];
    assert KeepInRoot(root, act, [], true) == [a, b];
    assert Kept(roots, act, true) == Kept([], act, true) + KeepInRoot(root, act, [], true);
  }

  /** One root holding A (scene object, active), B (scene object, inactive, activated by the user),
      C (scene object, inactive) and D (not a scene object): A and B come back, in that order, and
      with `disable` set only they end inactive. */
  method FilterScenario()
  {
    var a := new NetworkObject(true, false, 1, true, true);
    var b := new NetworkObject(true, true, 2, true, false);
    var c := new NetworkObject(true, false, 3, true, false);
    var d := new NetworkObject(false, false, 0, false, true);
    var result := FilterFour(a, b, c, d);
    assert result == [a, b];
    assert !a.active && !b.active && !c.active && d.active;
  }

  /** The walk of FilterScenario over one scene holding the root [a, b, c, d]. */
  method FilterFour(a: NetworkObject, b: NetworkObject, c: NetworkObject, d: NetworkObject)
    returns (result: seq<NetworkObject>)
    requires a.isSceneObject && a.active && a.guidValid
    requires b.isSceneObject && !b.active && b.activatedByUser && b.guidValid
    requires c.isSceneObject && !c.active && !c.activatedByUser
    requires !d.isSceneObject && d.active
    modifies a, b, c, d
    ensures result == [a, b]
    ensures !a.active && !b.active && !c.active && d.active
  {
    var root := [a, b, c, d];
    var scenes := [[root]];
    SingleRoot(root);
    FourObjects(a, b, c, d);
    ghost var act := ActiveOf({a, b, c, d});
    FilterScenarioKept(a, b, c, d, act);
    assert SceneObjects(scenes) == {a, b, c, d};
    var calls;
    result, calls := FindNetworkObjects(scenes, true, false);
    assert calls == 0;
    assert a in SceneObjects(scenes) && b in SceneObjects(scenes);
    assert c in SceneObjects(scenes) && d in SceneObjects(scenes);
  }

  /** Three levels at offset 1000 and a runner on reference 1001: the load resolves level 1 and runs,
      but the integration never reports back, so the runner sees only the load start; the coordinator
      nevertheless reports ready, and the guard is free. */
  method EndToEndScenario()
  {
    var guard := new LoadGuard();
    var table := LevelTable([Level(0), Level(1), Level(2)], Level(0));
    var manager := new GameSceneManagerFusion(guard, table, 1000);
    var runner := new NetworkRunner(1001);
    assert TryGetLevelAsset(1000, table.registeredLevels, 1001) == Some(Level(1));
    manager.Initialize(runner);
    assert !manager.IsReady(runner);
    var tick := manager.LateUpdate();
    assert tick == LoadRan(FinishNotCalled);
    assert runner.events == [SceneLoadStart];
    assert manager.IsReady(runner);
    assert guard.holder == null;
    tick := manager.LateUpdate();
    assert tick == UpToDate;
    manager.Shutdown(runner);
    assert manager.currentLevelRef == 1000 && manager.runner == null;
  }

  /** A reference past the registered levels fails to resolve; the load still takes and releases the
      guard, and a later drift to a valid reference starts a new load. */
  method ResolutionFailureScenario()
  {
    var guard := new LoadGuard();
    var table := LevelTable([Level(0), Level(1), Level(2)], Level(0));
    var manager := new GameSceneManagerFusion(guard, table, 1000);
    var runner := new NetworkRunner(1500);
    assert TryGetLevelAsset(1000, table.registeredLevels, 1500) == None;
    manager.Initialize(runner);
    var tick := manager.LateUpdate();
    assert tick == LoadRan(FinishNotCalled) && guard.holder == null;
    assert runner.events == [SceneLoadStart];
    assert manager.IsReady(runner);
    runner.currentScene := 1002;
    tick := manager.LateUpdate();
    assert tick.LoadRan? && manager.currentLevelRef == 1002;
    assert runner.events == [SceneLoadStart, SceneLoadStart];
  }

  /** Two coordinators share the guard. While the other one holds it alive, a drift waits; once that
      holder is destroyed, the next tick clears the guard and loads. */
  method GuardScenario()
  {
    var guard := new LoadGuard();
    var table := LevelTable([Level(0)], Level(0));
    var first := new GameSceneManagerFusion(guard, table, 1000);
    var second := new GameSceneManagerFusion(guard, table, 1000);
    var runner := new NetworkRunner(1000);
    second.Initialize(runner);
    guard.holder := first;
    var tick := second.LateUpdate();
    assert tick == WaitingForOtherLoad;
    assert second.currentLevelOutdated && second.currentLevelRef == 0 && runner.events == [];
    assert !second.IsReady(runner);
    first.destroyed := true;
    tick := second.LateUpdate();
    assert tick.LoadRan? && guard.holder == null && second.currentLevelRef == 1000;
  }
}
