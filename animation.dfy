/** Skeletal-animation bookkeeping (src/Renderer/Animation.h and
    Animation.cpp): the keyframe search of a bone's tracks, the numbering of
    bones an animation adds to a model's bone table, the bone lookup by name,
    and the Animator's playback state. Interpolation and bone matrices are
    left out; times are reals. */
module Animations {
  import opened Wrappers
  import opened MathTypes

  /** MAX_BONES: the size of the final bone-matrix array. */
  const MaxBones: nat := 100

  /** glm::mat4(1.0f), column-major. */
  function Identity4(): (m: Mat4)
    ensures |m| == 16
  {
    seq(16, i => if i % 5 == 0 then 1.0 else 0.0)
  }

  datatype BoneInfo = BoneInfo(id: int, offsetMatrix: Mat4)

  /** A BoneInfo as default-constructed: id -1, identity offset. */
  const DefaultBoneInfo: BoneInfo := BoneInfo(-1, Identity4())

  // ---------------------------------------------------------------------
  // Keyframe search.

  /** Bone::GetPositionIndex, GetRotationIndex and GetScaleIndex share this
      loop over their own key timestamps: the first index whose next key lies
      after the time. The source asserts that one exists. */
  method KeyIndex(timeStamps: seq<real>, animationTime: real) returns (index: nat)
    requires exists i :: 1 <= i < |timeStamps| && animationTime < timeStamps[i]
    ensures index + 1 < |timeStamps| && animationTime < timeStamps[index + 1]
    ensures forall j :: 1 <= j <= index ==> timeStamps[j] <= animationTime
  {
    index := 0;
    while index + 1 < |timeStamps|
      invariant index < |timeStamps|
      invariant forall j :: 1 <= j <= index ==> timeStamps[j] <= animationTime
    {
      if animationTime < timeStamps[index + 1] {
        return;
      }
      index := index + 1;
    }
    assert false;
  }

  /** On a track in time order, every key after the one the search returns
      lies after the time, so key index+1 is the first key past it. */
  lemma KeyIndexBrackets(timeStamps: seq<real>, animationTime: real, index: nat)
    requires Ascending(timeStamps)
    requires index + 1 < |timeStamps| && animationTime < timeStamps[index + 1]
    ensures forall k :: index < k < |timeStamps| ==> animationTime < timeStamps[k]
  {
  }

  /** Keys are stored in time order. */
  ghost predicate Ascending(timeStamps: seq<real>)
  {
    forall i, j :: 0 <= i < j < |timeStamps| ==> timeStamps[i] <= timeStamps[j]
  }

  /** On an ascending track of two or more keys, a time before the last key
      has an index, and the bracketing index is unique. */
  lemma KeyIndexUnique(timeStamps: seq<real>, animationTime: real, i: nat, k: nat)
    requires Ascending(timeStamps)
    requires i + 1 < |timeStamps| && (i == 0 || timeStamps[i] <= animationTime) && animationTime < timeStamps[i + 1]
    requires k + 1 < |timeStamps| && (k == 0 || timeStamps[k] <= animationTime) && animationTime < timeStamps[k + 1]
    ensures i == k
  {
  }

  /** The key timestamps a bone reads from its animation channel. */
  datatype Channel = Channel(nodeName: string, positionTimes: seq<real>, rotationTimes: seq<real>, scaleTimes: seq<real>)

  /** A bone: its name, its ID in the model's bone table and its key tracks.
      The local transform it interpolates is left out. */
  datatype Bone = Bone(name: string, id: int, positionTimes: seq<real>, rotationTimes: seq<real>, scaleTimes: seq<real>)
  {
    method GetPositionIndex(animationTime: real) returns (index: nat)
      requires exists i :: 1 <= i < |positionTimes| && animationTime < positionTimes[i]
      ensures index + 1 < |positionTimes| && animationTime < positionTimes[index + 1]
      ensures forall j :: 1 <= j <= index ==> positionTimes[j] <= animationTime
    {
      index := KeyIndex(positionTimes, animationTime);
    }

    method GetRotationIndex(animationTime: real) returns (index: nat)
      requires exists i :: 1 <= i < |rotationTimes| && animationTime < rotationTimes[i]
      ensures index + 1 < |rotationTimes| && animationTime < rotationTimes[index + 1]
      ensures forall j :: 1 <= j <= index ==> rotationTimes[j] <= animationTime
    {
      index := KeyIndex(rotationTimes, animationTime);
    }

    method GetScaleIndex(animationTime: real) returns (index: nat)
      requires exists i :: 1 <= i < |scaleTimes| && animationTime < scaleTimes[i]
      ensures index + 1 < |scaleTimes| && animationTime < scaleTimes[index + 1]
      ensures forall j :: 1 <= j <= index ==> scaleTimes[j] <= animationTime
    {
      index := KeyIndex(scaleTimes, animationTime);
    }
  }

  function MakeBone(channel: Channel, id: int): Bone
  {
    Bone(channel.nodeName, id, channel.positionTimes, channel.rotationTimes, channel.scaleTimes)
  }

  // ---------------------------------------------------------------------
  // Bone numbering.

  /** The bone table and bone count after the channels named `names` are
      read in order: a name not yet in the table gets the current count as its
      ID (in an otherwise default BoneInfo) and the count goes up by one. */
  function AssignIds(names: seq<string>, boneInfoMap: map<string, BoneInfo>, boneCount: int): (r: (map<string, BoneInfo>, int))
    decreases |names|
  {
    if names == [] then (boneInfoMap, boneCount)
    else
      var prev := AssignIds(names[..|names| - 1], boneInfoMap, boneCount);
      var name := names[|names| - 1];
      if name in prev.0 then prev
      else (prev.0[name := DefaultBoneInfo.(id := prev.1)], prev.1 + 1)
  }

  /** Names already in the table keep their entry; the table ends up holding
      exactly the old names and the channel names. */
  lemma {:induction false} AssignIdsKeeps(names: seq<string>, boneInfoMap: map<string, BoneInfo>, boneCount: int)
    ensures var r := AssignIds(names, boneInfoMap, boneCount);
      && (forall n :: n in boneInfoMap ==> n in r.0 && r.0[n] == boneInfoMap[n])
      && (forall n :: n in r.0 <==> n in boneInfoMap || n in names)
      && r.1 >= boneCount
    decreases |names|
  {
    if names != [] {
      var init := names[..|names| - 1];
      AssignIdsKeeps(init, boneInfoMap, boneCount);
      forall n | n in names ensures n in init || n == names[|names| - 1] {
        var k :| 0 <= k < |names| && names[k] == n;
        if k < |init| {
          assert init[k] == n;
        }
      }
    }
  }

  /** The names the channels add get IDs from the old count up to (not
      including) the new one, with an identity offset. */
  lemma {:induction false} AssignIdsRange(names: seq<string>, boneInfoMap: map<string, BoneInfo>, boneCount: int)
    ensures var r := AssignIds(names, boneInfoMap, boneCount);
      forall n :: n in r.0 && n !in boneInfoMap ==>
        boneCount <= r.0[n].id < r.1 && r.0[n].offsetMatrix == Identity4()
    decreases |names|
  {
    if names != [] {
      AssignIdsRange(names[..|names| - 1], boneInfoMap, boneCount);
      AssignIdsKeeps(names[..|names| - 1], boneInfoMap, boneCount);
    }
  }

  /** No two names the channels add share an ID. */
  lemma {:induction false} AssignIdsDistinct(names: seq<string>, boneInfoMap: map<string, BoneInfo>, boneCount: int)
    ensures var r := AssignIds(names, boneInfoMap, boneCount);
      forall a, b :: a in r.0 && b in r.0 && a !in boneInfoMap && b !in boneInfoMap && a != b ==>
        r.0[a].id != r.0[b].id
    decreases |names|
  {
    if names != [] {
      var init := names[..|names| - 1];
      AssignIdsDistinct(init, boneInfoMap, boneCount);
      AssignIdsRange(init, boneInfoMap, boneCount);
    }
  }

  lemma NewKeyCounts(m: map<string, BoneInfo>, old_: set<string>, k: string, v: BoneInfo)
    requires k !in m
    ensures |m[k := v].Keys - old_| == |m.Keys - old_| + (if k in old_ then 0 else 1)
  {
    if k in old_ {
      assert m[k := v].Keys - old_ == m.Keys - old_;
    } else {
      assert m[k := v].Keys - old_ == (m.Keys - old_) + {k};
    }
  }

  /** The count grows by exactly the number of names added, so with the two
      lemmas above the new IDs are consecutive from the old count. */
  lemma {:induction false} AssignIdsCount(names: seq<string>, boneInfoMap: map<string, BoneInfo>, boneCount: int)
    ensures var r := AssignIds(names, boneInfoMap, boneCount);
      r.1 == boneCount + |r.0.Keys - boneInfoMap.Keys|
    decreases |names|
  {
    if names != [] {
      var init := names[..|names| - 1];
      AssignIdsCount(init, boneInfoMap, boneCount);
      var prev := AssignIds(init, boneInfoMap, boneCount);
      var name := names[|names| - 1];
      if name !in prev.0 {
        AssignIdsKeeps(init, boneInfoMap, boneCount);
        NewKeyCounts(prev.0, boneInfoMap.Keys, name, DefaultBoneInfo.(id := prev.1));
      }
    }
  }

  /** The names of the channels, in order. */
  function ChannelNames(channels: seq<Channel>): (names: seq<string>)
    ensures |names| == |channels| && forall i :: 0 <= i < |channels| ==> names[i] == channels[i].nodeName
  {
    seq(|channels|, i requires 0 <= i < |channels| => channels[i].nodeName)
  }

  /** One bone per channel, each with its name's ID in the table. */
  function BonesFor(channels: seq<Channel>, boneInfoMap: map<string, BoneInfo>): (bones: seq<Bone>)
    requires forall i :: 0 <= i < |channels| ==> channels[i].nodeName in boneInfoMap
    ensures |bones| == |channels|
  {
    seq(|channels|, i requires 0 <= i < |channels| => MakeBone(channels[i], boneInfoMap[channels[i].nodeName].id))
  }

  /** A table that keeps every entry the channels use gives the same bones. */
  lemma BonesForStable(channels: seq<Channel>, m: map<string, BoneInfo>, m': map<string, BoneInfo>)
    requires forall i :: 0 <= i < |channels| ==> channels[i].nodeName in m
    requires forall k :: k in m ==> k in m' && m'[k] == m[k]
    ensures BonesFor(channels, m') == BonesFor(channels, m)
  {
  }

  /** One more channel gives one more bone at the end. */
  lemma BonesForAppend(channels: seq<Channel>, i: nat, m: map<string, BoneInfo>)
    requires i < |channels|
    requires forall j :: 0 <= j <= i ==> channels[j].nodeName in m
    ensures BonesFor(channels[..i + 1], m) == BonesFor(channels[..i], m) + [MakeBone(channels[i], m[channels[i].nodeName].id)]
  {
  }

  class Animation {
    var duration: real
    var ticksPerSecond: int
    var bones: seq<Bone>
    var boneInfoMap: map<string, BoneInfo>

    constructor (duration: real, ticksPerSecond: int)
      ensures this.duration == duration && this.ticksPerSecond == ticksPerSecond
      ensures bones == [] && boneInfoMap == map[]
    {
      this.duration := duration;
      this.ticksPerSecond := ticksPerSecond;
      bones := [];
      boneInfoMap := map[];
    }

    /** Animation::ReadMissingBones: the loop over the channels, numbering
        names the table lacks and appending one bone per channel; the table
        and count are the caller's, passed by reference in the source. */
    method ReadMissingBones(channels: seq<Channel>, infos: map<string, BoneInfo>, count: int)
      returns (newInfos: map<string, BoneInfo>, newCount: int)
      modifies this
      ensures (newInfos, newCount) == AssignIds(ChannelNames(channels), infos, count)
      ensures forall i :: 0 <= i < |channels| ==> channels[i].nodeName in newInfos
      ensures bones == old(bones) + BonesFor(channels, newInfos)
      ensures boneInfoMap == newInfos
      ensures duration == old(duration) && ticksPerSecond == old(ticksPerSecond)
    {
      newInfos := infos;
      newCount := count;
      var names := ChannelNames(channels);
      for i := 0 to |channels|
        invariant (newInfos, newCount) == AssignIds(names[..i], infos, count)
        invariant forall j :: 0 <= j < i ==> channels[j].nodeName in newInfos
        invariant bones == old(bones) + BonesFor(channels[..i], newInfos)
        invariant duration == old(duration) && ticksPerSecond == old(ticksPerSecond)
      {
        ghost var before := newInfos;
        var boneName := channels[i].nodeName;
        if boneName !in newInfos {
          newInfos := newInfos[boneName := DefaultBoneInfo.(id := newCount)];
          newCount := newCount + 1;
        }
        assert names[..i + 1][..i] == names[..i];
        BonesForStable(channels[..i], before, newInfos);
        bones := bones + [MakeBone(channels[i], newInfos[boneName].id)];
        BonesForAppend(channels, i, newInfos);
      }
      assert names[..|channels|] == names;
      assert channels[..|channels|] == channels;
      boneInfoMap := newInfos;
    }

    /** Animation::FindBone: the first bone with the name, or none. */
    function FindBone(name: string): (r: Option<nat>)
      reads this
      ensures r.Some? ==> r.value < |bones| && bones[r.value].name == name
      ensures r.Some? ==> forall j :: 0 <= j < r.value ==> bones[j].name != name
      ensures r.None? ==> forall j :: 0 <= j < |bones| ==> bones[j].name != name
    {
      FirstBoneNamed(bones, name, 0)
    }
  }

  function FirstBoneNamed(bones: seq<Bone>, name: string, from: nat): (r: Option<nat>)
    requires from <= |bones|
    ensures r.Some? ==> from <= r.value < |bones| && bones[r.value].name == name
    ensures r.Some? ==> forall j :: from <= j < r.value ==> bones[j].name != name
    ensures r.None? ==> forall j :: from <= j < |bones| ==> bones[j].name != name
    decreases |bones| - from
  {
    if from == |bones| then None
    else if bones[from].name == name then Some(from)
    else FirstBoneNamed(bones, name, from + 1)
  }

  // ---------------------------------------------------------------------
  // Playback.

  /** C's fmod: x minus the quotient truncated toward zero times y. */
  function FMod(x: real, y: real): real
    requires y != 0.0
  {
    var q := x / y;
    var t := if q >= 0.0 then q.Floor else -((-q).Floor);
    x - (t as real) * y
  }

  /** For a positive duration, the wrapped time of an overrun lies in
      [0, duration). */
  lemma FModWraps(x: real, y: real)
    requires 0.0 < y < x
    ensures 0.0 <= FMod(x, y) < y
  {
    var q := x / y;
    assert q * y == x;
    assert q > 0.0;
    var t := q.Floor as real;
    var f := q - t;
    assert 0.0 <= f < 1.0;
    assert FMod(x, y) == f * y;
    assert 0.0 <= f * y;
    assert y - f * y == (1.0 - f) * y;
  }

  /** The time a running animation moves to: advanced by ticks per second
      times the frame time times the time scale, wrapped by fmod when past the
      duration. */
  function Advance(currentTime: real, ticksPerSecond: int, dt: real, timeScale: real, duration: real): real
    requires duration != 0.0
  {
    var advanced := currentTime + (ticksPerSecond as real) * dt * timeScale;
    if advanced > duration then FMod(advanced, duration) else advanced
  }

  /** With a positive duration a running animation never ends up past the
      end, and a step that does not go back before 0 stays at or after 0. */
  lemma AdvanceStaysInDuration(currentTime: real, ticksPerSecond: int, dt: real, timeScale: real, duration: real)
    requires duration > 0.0
    ensures Advance(currentTime, ticksPerSecond, dt, timeScale, duration) <= duration
    ensures currentTime + (ticksPerSecond as real) * dt * timeScale >= 0.0 ==>
      Advance(currentTime, ticksPerSecond, dt, timeScale, duration) >= 0.0
  {
    var advanced := currentTime + (ticksPerSecond as real) * dt * timeScale;
    if advanced > duration {
      FModWraps(advanced, duration);
    }
  }

  /** std::clamp(v, lo, hi) as the library writes it. */
  function Clamp(v: real, lo: real, hi: real): real
  {
    if v < lo then lo else if hi < v then hi else v
  }

  /** The progress SetProgress stores for a fraction below 1. */
  function ProgressTime(fraction: real, duration: real): (t: real)
    ensures duration >= 0.01 ==> 0.0 <= t <= duration - 0.01
    ensures 0.0 <= fraction * duration <= duration - 0.01 ==> t == fraction * duration
  {
    Clamp(fraction * duration, 0.0, duration - 0.01)
  }

  class Animator {
    var finalBoneMatrices: seq<Mat4>
    var currentAnimation: Animation?
    var currentTime: real
    var deltaTime: real
    var timeScale: real
    var isPaused: bool

    /** A new animator starts at time 0, scale 1, running, with MAX_BONES
        identity bone matrices. */
    constructor (currentAnimation: Animation?)
      ensures this.currentAnimation == currentAnimation
      ensures currentTime == 0.0 && timeScale == 1.0 && !isPaused
      ensures |finalBoneMatrices| == MaxBones
      ensures forall i :: 0 <= i < |finalBoneMatrices| ==> finalBoneMatrices[i] == Identity4()
    {
      this.currentAnimation := currentAnimation;
      currentTime := 0.0;
      timeScale := 1.0;
      isPaused := false;
      deltaTime := 0.0;
      finalBoneMatrices := seq(MaxBones, _ => Identity4());
    }

    /** UpdateAnimation: a paused animator keeps its time; a running one
        advances it. The bone-transform pass that follows dereferences the
        animation unconditionally, so there must be one. */
    method UpdateAnimation(dt: real)
      requires currentAnimation != null
      requires !isPaused ==> currentAnimation.duration != 0.0
      modifies this
      ensures currentAnimation == old(currentAnimation) && timeScale == old(timeScale) && isPaused == old(isPaused)
      ensures deltaTime == dt
      ensures isPaused ==> currentTime == old(currentTime)
      ensures !isPaused ==>
        currentTime == Advance(old(currentTime), currentAnimation.ticksPerSecond, dt, timeScale, currentAnimation.duration)
    {
      deltaTime := dt;
      if !isPaused {
        if currentAnimation != null {
          currentTime := currentTime + (currentAnimation.ticksPerSecond as real) * dt * timeScale;
          var duration := currentAnimation.duration;
          if currentTime > duration {
            currentTime := FMod(currentTime, duration);
          }
        }
      }
    }

    /** PlayAnimation: switch animation and rewind. */
    method PlayAnimation(animation: Animation?)
      modifies this
      ensures currentAnimation == animation && currentTime == 0.0
      ensures deltaTime == old(deltaTime) && timeScale == old(timeScale) && isPaused == old(isPaused)
              && finalBoneMatrices == old(finalBoneMatrices)
    {
      currentAnimation := animation;
      currentTime := 0.0;
    }

    /** SetProgress: nothing without an animation or for a fraction of 1 or
        more; otherwise the time is that fraction of the duration, clamped.
        On that path the bone-transform pass rewrites the bone matrices; it is
        not modelled, so nothing is said about them there. */
    method SetProgress(fraction: real)
      modifies this
      ensures currentAnimation == old(currentAnimation) && timeScale == old(timeScale) && isPaused == old(isPaused)
      ensures deltaTime == old(deltaTime)
      ensures currentAnimation == null || fraction >= 1.0 ==>
        currentTime == old(currentTime) && finalBoneMatrices == old(finalBoneMatrices)
      ensures currentAnimation != null && fraction < 1.0 ==>
        currentTime == ProgressTime(fraction, currentAnimation.duration)
    {
      if currentAnimation == null || fraction >= 1.0 {
        return;
      }
      var duration := currentAnimation.duration;
      currentTime := ProgressTime(fraction, duration);
      assert duration == currentAnimation.duration;
    }

    method SetPaused(paused: bool)
      modifies this
      ensures isPaused == paused
      ensures currentTime == old(currentTime) && currentAnimation == old(currentAnimation) && timeScale == old(timeScale)
      ensures deltaTime == old(deltaTime) && finalBoneMatrices == old(finalBoneMatrices)
    {
      isPaused := paused;
    }
  }
}
