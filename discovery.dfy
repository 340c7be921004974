/** `FindNetworkObjects` of GameSceneManagerFusion: walk every loaded scene, every root game object
    of it and every `NetworkObject` under that root (inactive ones included), keep the scene objects
    that are active in the hierarchy or activated by the user, and optionally deactivate what was
    kept.

    Unity's scene graph is abstracted: a scene is its sequence of roots, a root is the sequence of
    network objects `GetComponentsInChildren(true, …)` lists for it, and each network object is a
    record of its flags plus one mutable bit, `active`, that stands for `activeInHierarchy` and that
    `SetActive(false)` clears. */
module Discovery {

  /** A `NetworkGuid`. */
  type Guid = nat

  class NetworkObject {
    const isSceneObject: bool    // Flags.IsSceneObject()
    const activatedByUser: bool  // Flags.IsActivatedByUser()
    const guid: Guid
    const guidValid: bool        // NetworkGuid.IsValid
    var active: bool             // gameObject.activeInHierarchy

    constructor (isSceneObject: bool, activatedByUser: bool, guid: Guid, guidValid: bool, active: bool)
      ensures this.isSceneObject == isSceneObject && this.activatedByUser == activatedByUser
      ensures this.guid == guid && this.guidValid == guidValid && this.active == active
    {
      this.isSceneObject := isSceneObject;
      this.activatedByUser := activatedByUser;
      this.guid := guid;
      this.guidValid := guidValid;
      this.active := active;
    }
  }

  /** The network objects under one root game object, in the order Unity lists them. */
  type Root = seq<NetworkObject>

  /** A loaded scene instance, as its root game objects. */
  type Scene = seq<Root>

  /** The roots of all scenes, scene after scene. */
  function Roots(scenes: seq<Scene>): (roots: seq<Root>)
    ensures Within(roots, SceneObjects(scenes))
  {
    if scenes == [] then [] else Roots(scenes[..|scenes| - 1]) + scenes[|scenes| - 1]
  }

  /** The walk meets every root of every scene, and nothing else. */
  lemma {:induction false} RootsExactly(scenes: seq<Scene>)
    ensures forall i, j :: 0 <= i < |scenes| && 0 <= j < |scenes[i]| ==> scenes[i][j] in Roots(scenes)
    ensures forall k :: 0 <= k < |Roots(scenes)| ==> exists i :: 0 <= i < |scenes| && Roots(scenes)[k] in scenes[i]
  {
    if scenes != [] {
      var init := scenes[..|scenes| - 1];
      RootsExactly(init);
      assert Roots(scenes) == Roots(init) + scenes[|scenes| - 1];
      forall k | 0 <= k < |Roots(scenes)|
        ensures exists i :: 0 <= i < |scenes| && Roots(scenes)[k] in scenes[i]
      {
        if k < |Roots(init)| {
          var i :| 0 <= i < |init| && Roots(init)[k] in init[i];
          assert Roots(scenes)[k] == Roots(init)[k] && scenes[i] == init[i];
        } else {
          var last := |scenes| - 1;
          assert Roots(scenes)[k] == scenes[last][k - |Roots(init)|];
          assert Roots(scenes)[k] in scenes[last];
        }
      }
      forall i, j | 0 <= i < |scenes| && 0 <= j < |scenes[i]| ensures scenes[i][j] in Roots(scenes) {
        if i < |init| {
          assert init[i] == scenes[i];
        }
      }
    } else {
      assert Roots(scenes) == [];
    }
  }

  /** The network objects under all roots, root after root. */
  function Flatten(roots: seq<Root>): seq<NetworkObject>
  {
    if roots == [] then [] else Flatten(roots[..|roots| - 1]) + roots[|roots| - 1]
  }

  /** Every network object reachable from the loaded scenes. */
  ghost function SceneObjects(scenes: seq<Scene>): set<NetworkObject>
  {
    set s, r, o | s in scenes && r in s && o in r :: o
  }

  /** Every object under `roots` is in `objs`. */
  ghost predicate Within(roots: seq<Root>, objs: set<NetworkObject>)
  {
    forall r, o :: r in roots && o in r ==> o in objs
  }

  /** A snapshot of the active bits of some network objects. */
  type Activity = map<NetworkObject, bool>

  ghost function ActiveOf(objs: set<NetworkObject>): (act: Activity)
    reads objs
    ensures act.Keys == objs
    ensures forall o :: o in objs ==> act[o] == o.active
  {
    map o | o in objs :: o.active
  }

  /** The filter of `FindNetworkObjects`: a scene object that is active or was activated by the user. */
  predicate Eligible(o: NetworkObject, act: Activity)
    requires o in act
  {
    o.isSceneObject && (act[o] || o.activatedByUser)
  }

  /** The same filter as the walk meets `o` under a later root, stated over the bits `act` had
      before the walk: with `disable` set, every object kept under an earlier root (`earlier`) has
      been deactivated by then, so it only passes again as activated by the user. */
  predicate EligibleAfter(o: NetworkObject, act: Activity, earlier: seq<NetworkObject>, disable: bool)
    requires o in act
  {
    o.isSceneObject && ((act[o] && !(disable && o in earlier)) || o.activatedByUser)
  }

  /** The objects of `objs` that pass the filter, in order. */
  function Filter(objs: seq<NetworkObject>, act: Activity): (r: seq<NetworkObject>)
    requires forall o :: o in objs ==> o in act
    ensures forall o :: o in r ==> o in objs && Eligible(o, act)
  {
    if objs == [] then []
    else
      var o := objs[|objs| - 1];
      Filter(objs[..|objs| - 1], act) + (if Eligible(o, act) then [o] else [])
  }

  /** What the scan of one root appends to the result. */
  function KeepInRoot(objs: Root, act: Activity, earlier: seq<NetworkObject>, disable: bool): seq<NetworkObject>
    requires forall o :: o in objs ==> o in act
  {
    if objs == [] then []
    else
      var o := objs[|objs| - 1];
      KeepInRoot(objs[..|objs| - 1], act, earlier, disable) + (if EligibleAfter(o, act, earlier, disable) then [o] else [])
  }

  /** What `FindNetworkObjects` returns after walking `roots`, given the active bits `act` the
      objects had before the walk. */
  function Kept(roots: seq<Root>, act: Activity, disable: bool): seq<NetworkObject>
    requires Within(roots, act.Keys)
  {
    if roots == [] then []
    else
      var earlier := Kept(roots[..|roots| - 1], act, disable);
      earlier + KeepInRoot(roots[|roots| - 1], act, earlier, disable)
  }

  /** The scan of one root: the objects under it that are scene objects and active or activated by
      the user, in order. */
  method ScanRoot(objs: Root) returns (kept: seq<NetworkObject>)
    ensures kept == Filter(objs, ActiveOf(set o | o in objs))
  {
    ghost var act := ActiveOf(set o | o in objs);
    kept := [];
    for k := 0 to |objs|
      invariant kept == Filter(objs[..k], act)
    {
      var o := objs[k];
      assert objs[..k + 1][..k] == objs[..k];
      if o.isSceneObject {
        if o.active || o.activatedByUser {
          kept := kept + [o];
        }
      }
    }
    assert objs[..|objs|] == objs;
  }

  /** Scanning a root in the middle of the walk sees the bits the earlier disable passes left:
      what it keeps then is what `KeepInRoot` says of the bits before the walk. */
  lemma {:induction false} ScanSeesEarlierDeactivation(objs: Root, now: Activity, before: Activity,
                                                         earlier: seq<NetworkObject>, disable: bool)
    requires forall o :: o in objs ==> o in now && o in before
    requires forall o :: o in objs ==> now[o] == (before[o] && !(disable && o in earlier))
    ensures Filter(objs, now) == KeepInRoot(objs, before, earlier, disable)
  {
    if objs != [] {
      ScanSeesEarlierDeactivation(objs[..|objs| - 1], now, before, earlier, disable);
    }
  }

  /** The disable pass: `SetActive(false)` on every object of `objs`. */
  method Deactivate(objs: seq<NetworkObject>)
    modifies set o | o in objs
    ensures forall o :: o in objs ==> !o.active
  {
    for m := 0 to |objs|
      invariant forall o :: o in objs[..m] ==> !o.active
    {
      assert objs[..m + 1] == objs[..m] + [objs[m]];
      objs[m].active := false;
    }
    assert objs[..|objs|] == objs;
  }

  /** The body of the per-root loop: scan the root, append what passes to `result` and, with
      `disable` set, deactivate everything in the result so far. `all` is the set of objects the
      walk may touch and `act` their bits before the walk. */
  method VisitRoot(objs: Root, result: seq<NetworkObject>, disable: bool,
                   ghost all: set<NetworkObject>, ghost act: Activity)
    returns (result': seq<NetworkObject>)
    requires forall o :: o in objs ==> o in all
    requires forall o :: o in result ==> o in all && o.guidValid
    requires forall o :: o in all ==> o in act && o.active == (act[o] && !(disable && o in result))
    requires forall o :: o in all && Eligible(o, act) ==> o.guidValid
    modifies all
    ensures result' == result + KeepInRoot(objs, act, result, disable)
    ensures forall o :: o in result' ==> o in all && o.guidValid
    ensures forall o :: o in all ==> o.active == (act[o] && !(disable && o in result'))
  {
    var kept := ScanRoot(objs);
    ScanSeesEarlierDeactivation(objs, ActiveOf(set o | o in objs), act, result, disable);
    result' := result + kept;
    if disable {
      Deactivate(result');
    }
  }

  /** One more root extends the walk by what `KeepInRoot` keeps of it. */
  lemma KeptStep(done: seq<Root>, roots: seq<Root>, j: nat, act: Activity, disable: bool)
    requires j < |roots|
    requires Within(done, act.Keys) && Within(roots, act.Keys)
    ensures Within(done + roots[..j], act.Keys) && Within(done + roots[..j + 1], act.Keys)
    ensures Kept(done + roots[..j + 1], act, disable)
         == Kept(done + roots[..j], act, disable) + KeepInRoot(roots[j], act, Kept(done + roots[..j], act, disable), disable)
  {
    assert (done + roots[..j + 1])[..|done| + j] == done + roots[..j];
  }

  /** `FindNetworkObjects`. `RunnerVisibilityNode.AddVisibilityNodes` is not modelled; the method
      reports how many times it calls it. The `Assert.Check` on the GUID of each kept object is the
      precondition that every object the filter can keep carries a valid GUID. */
  method FindNetworkObjects(scenes: seq<Scene>, disable: bool, addVisibilityNodes: bool)
    returns (result: seq<NetworkObject>, visibilityNodeCalls: nat)
    requires forall o :: o in SceneObjects(scenes) && o.isSceneObject && (o.active || o.activatedByUser) ==> o.guidValid
    modifies SceneObjects(scenes)
    ensures result == Kept(Roots(scenes), old(ActiveOf(SceneObjects(scenes))), disable)
    ensures forall o :: o in result ==> o.guidValid
    ensures forall o :: o in SceneObjects(scenes) ==> o.active == (old(o.active) && !(disable && o in result))
    ensures visibilityNodeCalls == if addVisibilityNodes then |Roots(scenes)| else 0
  {
    ghost var all := SceneObjects(scenes);
    ghost var act0 := ActiveOf(all);
    assert forall o :: o in all && Eligible(o, act0) ==> o.guidValid;
    result, visibilityNodeCalls := [], 0;
    for i := 0 to |scenes|
      invariant Within(Roots(scenes[..i]), all)
      invariant result == Kept(Roots(scenes[..i]), act0, disable)
      invariant forall o :: o in result ==> o in all && o.guidValid
      invariant forall o :: o in all ==> o.active == (act0[o] && !(disable && o in result))
      invariant visibilityNodeCalls == if addVisibilityNodes then |Roots(scenes[..i])| else 0
    {
      var roots := scenes[i];
      ghost var done := Roots(scenes[..i]);
      assert scenes[..i + 1][..i] == scenes[..i];
      assert done + roots[..0] == done;
      assert Within(roots, all) by {
        assert scenes[i] in scenes;
      }
      for j := 0 to |roots|
        invariant Within(done + roots[..j], all)
        invariant result == Kept(done + roots[..j], act0, disable)
        invariant forall o :: o in result ==> o in all && o.guidValid
        invariant forall o :: o in all ==> o.active == (act0[o] && !(disable && o in result))
        invariant visibilityNodeCalls == if addVisibilityNodes then |done| + j else 0
      {
        var objs := roots[j];
        assert roots[j] in roots;
        KeptStep(done, roots, j, act0, disable);
        result := VisitRoot(objs, result, disable, all, act0);
        if addVisibilityNodes {
          visibilityNodeCalls := visibilityNodeCalls + 1;
        }
      }
      assert roots[..|roots|] == roots;
    }
    assert scenes[..|scenes|] == scenes;
  }

  /** What one root keeps is exactly its objects that pass the filter as the walk meets them. */
  lemma {:induction false} KeepInRootMembership(objs: Root, act: Activity, earlier: seq<NetworkObject>,
                                                disable: bool, o: NetworkObject)
    requires forall x :: x in objs ==> x in act
    ensures o in KeepInRoot(objs, act, earlier, disable) <==> o in objs && EligibleAfter(o, act, earlier, disable)
  {
    if objs != [] {
      var init := objs[..|objs| - 1];
      assert objs == init + [objs[|objs| - 1]];
      KeepInRootMembership(init, act, earlier, disable, o);
    }
  }

  /** The walk returns exactly the objects under the scenes' roots that are scene objects and were
      active or activated by the user before the call, whatever `disable` says: an object deactivated
      under an earlier root was already kept there. */
  lemma {:induction false} KeptMembership(roots: seq<Root>, act: Activity, disable: bool, o: NetworkObject)
    requires Within(roots, act.Keys)
    ensures o in Kept(roots, act, disable) <==> o in Flatten(roots) && o in act && Eligible(o, act)
  {
    if roots != [] {
      var init, last := roots[..|roots| - 1], roots[|roots| - 1];
      assert Within(init, act.Keys) by {
        forall r, x | r in init && x in r ensures x in act.Keys {
          assert r in roots;
        }
      }
      assert last in roots;
      KeptMembership(init, act, disable, o);
      KeepInRootMembership(last, act, Kept(init, act, disable), disable, o);
    }
  }

  /** No object appears twice. */
  predicate NoDuplicates(objs: seq<NetworkObject>)
  {
    forall i, j :: 0 <= i < j < |objs| ==> objs[i] != objs[j]
  }

  lemma {:induction false} FilterAppend(a: seq<NetworkObject>, b: seq<NetworkObject>, act: Activity)
    requires forall o :: o in a + b ==> o in act
    ensures Filter(a + b, act) == Filter(a, act) + Filter(b, act)
  {
    if b != [] {
      var init := b[..|b| - 1];
      assert (a + b)[..|a + b| - 1] == a + init;
      FilterAppend(a, init, act);
    } else {
      assert a + b == a;
    }
  }

  /** A root none of whose objects was kept before is scanned with the plain filter. */
  lemma {:induction false} KeepInRootFresh(objs: Root, act: Activity, earlier: seq<NetworkObject>, disable: bool)
    requires forall o :: o in objs ==> o in act && o !in earlier
    ensures KeepInRoot(objs, act, earlier, disable) == Filter(objs, act)
  {
    if objs != [] {
      KeepInRootFresh(objs[..|objs| - 1], act, earlier, disable);
    }
  }

  /** When every object is reached once (the scene graph is a forest), the walk is the plain filter of
      all objects in walk order, so `disable` does not change what is returned. */
  lemma {:induction false} KeptWithoutRepeats(roots: seq<Root>, act: Activity, disable: bool)
    requires Within(roots, act.Keys)
    requires NoDuplicates(Flatten(roots))
    ensures forall o :: o in Flatten(roots) ==> o in act
    ensures Kept(roots, act, disable) == Filter(Flatten(roots), act)
  {
    FlattenWithin(roots, act.Keys);
    if roots != [] {
      var init, last := roots[..|roots| - 1], roots[|roots| - 1];
      var flat := Flatten(init);
      assert Flatten(roots) == flat + last;
      assert Within(init, act.Keys) by {
        forall r, x | r in init && x in r ensures x in act.Keys {
          assert r in roots;
        }
      }
      assert NoDuplicates(flat) by {
        forall i, j | 0 <= i < j < |flat| ensures flat[i] != flat[j] {
          assert flat[i] == Flatten(roots)[i] && flat[j] == Flatten(roots)[j];
        }
      }
      KeptWithoutRepeats(init, act, disable);
      var earlier := Kept(init, act, disable);
      forall o | o in last ensures o in act && o !in earlier {
        assert last in roots;
        var j :| 0 <= j < |last| && last[j] == o;
        assert Flatten(roots)[|flat| + j] == o;
        forall i | 0 <= i < |flat| ensures flat[i] != o {
          assert Flatten(roots)[i] == flat[i];
        }
        KeptMembership(init, act, disable, o);
      }
      KeepInRootFresh(last, act, earlier, disable);
      FilterAppend(flat, last, act);
    }
  }

  lemma {:induction false} FlattenWithin(roots: seq<Root>, objs: set<NetworkObject>)
    requires Within(roots, objs)
    ensures forall o :: o in Flatten(roots) ==> o in objs
  {
    if roots != [] {
      var init := roots[..|roots| - 1];
      assert Within(init, objs) by {
        forall r, x | r in init && x in r ensures x in objs {
          assert r in roots;
        }
      }
      assert roots[|roots| - 1] in roots;
      FlattenWithin(init, objs);
    }
  }
}
