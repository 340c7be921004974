/** The offset mapping between Fusion scene references and the registered game levels
    (`TryGetLevelAsset` and `TryGetLevelRef` of GameSceneManagerFusion).

    C# `int` arithmetic is 32-bit and unchecked, so `gameLevelSceneOffset + registeredLevels.Length`
    and `i + gameLevelSceneOffset` wrap around; the model writes that wrap-around out. */
module Levels {

  import opened Wrappers

  const MinInt32: int := -0x8000_0000
  const MaxInt32: int := 0x7fff_ffff

  /** A C# `int`. */
  type Int32 = x: int | MinInt32 <= x <= MaxInt32

  /** A Fusion `SceneRef`; the source reads it through its implicit conversion to `int`. */
  type SceneRef = Int32

  /** A `GameLevel` asset as the source compares it: by identity, with `null` as one more value. */
  datatype GameLevel = NullLevel | Level(id: nat)

  /** The sum of two C# `int`s, unchecked: the mathematical sum wrapped into 32 bits. */
  function AddInt32(a: Int32, b: Int32): (r: Int32)
    ensures MinInt32 <= a + b <= MaxInt32 ==> r == a + b
    ensures a + b > MaxInt32 ==> r == a + b - 0x1_0000_0000
    ensures a + b < MinInt32 ==> r == a + b + 0x1_0000_0000
  {
    var s := a + b;
    if s > MaxInt32 then s - 0x1_0000_0000
    else if s < MinInt32 then s + 0x1_0000_0000
    else s
  }

  /** A C# array length fits in an `int`. */
  predicate IsLevelArray(levels: seq<GameLevel>)
  {
    |levels| <= MaxInt32
  }

  /** The level range does not run past `int.MaxValue`: `offset + Length` is computed without wrapping. */
  predicate RangeFits(offset: Int32, levels: seq<GameLevel>)
  {
    offset + |levels| <= MaxInt32
  }

  /** `TryGetLevelAsset`: a reference resolves exactly when it lies in
      `[offset, offset + Length)` as C# computes that bound; it then names the level at
      `levelRef - offset`. Because the upper bound wraps, a table whose range runs past
      `int.MaxValue` resolves nothing at all. */
  function TryGetLevelAsset(offset: Int32, levels: seq<GameLevel>, levelRef: SceneRef): (r: Option<GameLevel>)
    requires IsLevelArray(levels)
    ensures r.Some? <==> RangeFits(offset, levels) && offset <= levelRef < offset + |levels|
    ensures r.Some? ==> 0 <= levelRef - offset < |levels| && r.value == levels[levelRef - offset]
  {
    var index: int := levelRef;
    if index < offset || index >= AddInt32(offset, |levels|) then None
    else Some(levels[index - offset])
  }

  /** The position of the first registered level equal to `asset`, if any. */
  function IndexOf(levels: seq<GameLevel>, asset: GameLevel): (r: Option<nat>)
    ensures r.None? <==> asset !in levels
    ensures r.Some? ==> r.value < |levels| && levels[r.value] == asset
    ensures r.Some? ==> forall j :: 0 <= j < r.value ==> levels[j] != asset
  {
    if levels == [] then None
    else if levels[0] == asset then Some(0)
    else match IndexOf(levels[1..], asset)
      case None => None
      case Some(i) => Some(i + 1)
  }

  /** The scene reference `TryGetLevelRef` hands out for `asset`: the first matching index plus the
      offset, in 32-bit arithmetic. */
  function LevelRefOf(offset: Int32, levels: seq<GameLevel>, asset: GameLevel): Option<SceneRef>
    requires IsLevelArray(levels)
  {
    match IndexOf(levels, asset)
    case None => None
    case Some(i) => Some(AddInt32(i, offset))
  }

  /** `TryGetLevelRef`: a linear scan for the first registered level equal to `asset`.
      `None` stands for returning false with `SceneRef.None`. */
  method TryGetLevelRef(offset: Int32, levels: seq<GameLevel>, asset: GameLevel) returns (r: Option<SceneRef>)
    requires IsLevelArray(levels)
    ensures r.Some? <==> asset in levels
    ensures r == LevelRefOf(offset, levels, asset)
  {
    var i := 0;
    while i < |levels|
      invariant 0 <= i <= |levels|
      invariant forall j :: 0 <= j < i ==> levels[j] != asset
    {
      if levels[i] == asset {
        IndexOfFirst(levels, asset, i);
        return Some(AddInt32(i, offset));
      }
      i := i + 1;
    }
    return None;
  }

  /** An index holding `asset` with no earlier match is the one `IndexOf` finds. */
  lemma {:induction false} IndexOfFirst(levels: seq<GameLevel>, asset: GameLevel, i: nat)
    requires i < |levels| && levels[i] == asset
    requires forall j :: 0 <= j < i ==> levels[j] != asset
    ensures IndexOf(levels, asset) == Some(i)
  {
    if i > 0 {
      IndexOfFirst(levels[1..], asset, i - 1);
    }
  }

  /** Round trip from a registered level: the reference `TryGetLevelRef` hands out resolves back to
      the same level, as long as the level range does not wrap. */
  lemma LevelRefResolves(offset: Int32, levels: seq<GameLevel>, asset: GameLevel)
    requires IsLevelArray(levels) && RangeFits(offset, levels)
    requires asset in levels
    ensures LevelRefOf(offset, levels, asset).Some?
    ensures TryGetLevelAsset(offset, levels, LevelRefOf(offset, levels, asset).value) == Some(asset)
  {
  }

  /** Round trip from a scene reference: the level a reference resolves to maps back to a reference
      no greater than it, and to that very reference exactly when no earlier slot holds the same
      level (first match wins). */
  lemma SceneRefRoundTrip(offset: Int32, levels: seq<GameLevel>, levelRef: SceneRef)
    requires IsLevelArray(levels)
    requires TryGetLevelAsset(offset, levels, levelRef).Some?
    ensures var asset := TryGetLevelAsset(offset, levels, levelRef).value;
      && LevelRefOf(offset, levels, asset).Some?
      && offset <= LevelRefOf(offset, levels, asset).value <= levelRef
      && (LevelRefOf(offset, levels, asset).value == levelRef <==>
          forall j :: 0 <= j < levelRef - offset ==> levels[j] != asset)
  {
    var asset := TryGetLevelAsset(offset, levels, levelRef).value;
    assert levels[levelRef - offset] == asset;
  }

  /** With no level registered twice, the two lookups are inverse bijections between
      `[offset, offset + Length)` and the registered levels. */
  lemma DistinctLevelsBijection(offset: Int32, levels: seq<GameLevel>, levelRef: SceneRef)
    requires IsLevelArray(levels)
    requires forall i, j :: 0 <= i < j < |levels| ==> levels[i] != levels[j]
    requires TryGetLevelAsset(offset, levels, levelRef).Some?
    ensures LevelRefOf(offset, levels, TryGetLevelAsset(offset, levels, levelRef).value) == Some(levelRef)
  {
    SceneRefRoundTrip(offset, levels, levelRef);
  }
}
