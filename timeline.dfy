/**
 * The timeline of a MovieClip: its frame counters, the one-shot action
 * latch, frame labels and scenes, the goto family with its eager rebuild
 * of children that a jump leaves, the per-frame advance, the build of a
 * placed copy and the bookkeeping of a draw pass.
 */
module Timeline {

  import opened Wrappers
  import Int32
  import opened Labels
  import opened Instances
  import opened Compositing

  /** A compiled ActionScript closure, taken as an opaque token. */
  datatype Action = Action(token: nat)

  /** One entry of the player's action queue: the actions of the caller's current frame, and the caller. */
  datatype QueueEntry = QueueEntry(actions: Option<seq<Action>>, caller: MovieClip)

  /** A call of `_$createInstance`: on this clip for a child, or on the parent for this clip. */
  datatype Request = ChildRebuild(id: int) | ParentRebuild(id: int)

  /** The frame argument of the goto family: a frame number or a label name. */
  datatype FrameRef = Frame(n: int) | Label(name: string)

  /** The fields of a PlaceObject2 record that the build reads; each flag is an integer tested against 1. */
  datatype PlaceTag = PlaceTag(
    placeFlagHasName: int, name: string,
    placeFlagHasRatio: int, ratio: int,
    placeFlagHasClipDepth: int, clipDepth: int)

  /** The player state that all clips of a stage share: the action queue and the draw trace. */
  class Player {
    var actions: seq<QueueEntry>
    var trace: seq<DrawEvent>

    constructor ()
      ensures actions == [] && trace == []
    {
      actions := [];
      trace := [];
    }
  }

  // ---------------------------------------------------------------------------
  // Specification functions

  /** The frame a goto argument resolves to before the range test; an unmatched label gives 0. */
  function ResolvedFrame(labels: seq<FrameLabel>, target: FrameRef): int
  {
    match target
    case Frame(n) => Int32.ToInt32(n)
    case Label(s) =>
      match LabelNamed(labels, Lower(s))
      case Some(l) => Int32.ToInt32(l.frame)
      case None => 0
  }

  /** Where a goto to `frame` lands, or None when it changes nothing. */
  function GotoDestination(frame: int, current: int, total: int): (r: Option<int>)
    requires 1 <= total
    ensures r.None? <==> frame <= 0 || frame == current
    ensures r.Some? ==> 1 <= r.value <= total
    ensures r.Some? ==> (r.value == frame <==> frame <= total)
    ensures r.Some? && frame > total ==> r.value == 1
  {
    if frame > 0 && frame != current then Some(if frame > total then 1 else frame) else None
  }

  /** The goto argument once a found scene's offset is applied: a label turns into a string, worth frame 0. */
  function SceneTarget(target: FrameRef, scene: Option<Scene>): FrameRef
  {
    match scene
    case None => target
    case Some(s) =>
      match target
      case Frame(n) => Frame(Int32.ToInt32(n + s.offset))
      case Label(_) => Frame(0)
  }

  /** The rebuild requests a goto issues for the ids it prunes, in order. */
  function RebuildRequests(ids: seq<int>): (r: seq<Request>)
    ensures |r| == |ids| && forall i :: 0 <= i < |ids| ==> r[i] == ChildRebuild(ids[i])
  {
    if ids == [] then [] else RebuildRequests(ids[..|ids| - 1]) + [ChildRebuild(ids[|ids| - 1])]
  }

  lemma RebuildRequestsSnoc(ids: seq<int>, x: int)
    ensures RebuildRequests(ids + [x]) == RebuildRequests(ids) + [ChildRebuild(x)]
  {
    assert (ids + [x])[..|ids|] == ids;
  }

  lemma PruneStep(cs: seq<Child>, n: nat, frame: int)
    requires 1 <= n <= |cs|
    ensures Pruned(cs[n - 1], frame) ==> PruneIds(cs[..n], frame) == PruneIds(cs[..n - 1], frame) + [cs[n - 1].id]
    ensures !Pruned(cs[n - 1], frame) ==> PruneIds(cs[..n], frame) == PruneIds(cs[..n - 1], frame)
  {
    assert cs[..n][..n - 1] == cs[..n - 1];
    assert PruneIds(cs[..n - 1], frame) + [] == PruneIds(cs[..n - 1], frame);
  }

  lemma ConcatRegroup(b: seq<DrawEvent>, e: seq<DrawEvent>, r: seq<DrawEvent>, m: seq<DrawEvent>, d: seq<DrawEvent>, a: seq<DrawEvent>)
    ensures b + e + r + m + d + a == b + (e + (r + m + d + a))
  {
  }

  /** Whether the per-frame advance moves the playhead at all. */
  predicate Moves(stopped: bool, total: int) {
    !stopped && total > 1
  }

  /** The frame after one advance. */
  function Advance(stopped: bool, total: int, current: int, ratio: int): (r: int)
    requires 1 <= current <= total <= Int32.MAX
    ensures 1 <= r <= total
    ensures r == current <==> !Moves(stopped, total) || (current == total && ratio != 0)
    ensures r != current ==> r == current + 1 || (r == 1 && current == total)
  {
    if Moves(stopped, total) then
      if current == total then (if ratio == 0 then 1 else current)
      else Int32.ToInt32(current + 1)
    else current
  }

  /** `n` advances in a row of a playing clip whose ratio is 0. */
  function AdvanceTimes(n: nat, total: int, current: int): (r: int)
    requires 1 <= current <= total <= Int32.MAX
    ensures 1 <= r <= total
  {
    if n == 0 then current else AdvanceTimes(n - 1, total, Advance(false, total, current, 0))
  }

  /** Below the last frame, `k` advances move exactly `k` frames on. */
  lemma {:induction false} AdvanceTimesCounts(k: nat, total: int, current: int)
    requires 1 <= current && current + k <= total <= Int32.MAX
    ensures AdvanceTimes(k, total, current) == current + k
  {
    if k > 0 {
      AdvanceTimesCounts(k - 1, total, current + 1);
    }
  }

  lemma {:induction false} AdvanceTimesAdd(a: nat, b: nat, total: int, current: int)
    requires 1 <= current <= total <= Int32.MAX
    ensures AdvanceTimes(a + b, total, current) == AdvanceTimes(b, total, AdvanceTimes(a, total, current))
  {
    if a > 0 {
      AdvanceTimesAdd(a - 1, b, total, Advance(false, total, current, 0));
    }
  }

  /** A playing clip with ratio 0 loops: after `total` advances it is back on its frame. */
  lemma {:induction false} AdvanceLoops(total: int, current: int)
    requires 1 <= current <= total <= Int32.MAX
    ensures AdvanceTimes(total, total, current) == current
  {
    if total == 1 {
      assert AdvanceTimes(0, total, current) == current;
    } else {
      var toLast := total - current;
      AdvanceTimesCounts(toLast, total, current);
      AdvanceTimesAdd(toLast, current, total, current);
      assert AdvanceTimes(current, total, total) == AdvanceTimes(current - 1, total, 1);
      AdvanceTimesCounts(current - 1, total, 1);
    }
  }

  // ---------------------------------------------------------------------------
  // The clip

  class MovieClip {
    const player: Player

    var currentFrame: int
    var totalFrames: int
    var stopFlag: bool
    var canAction: bool
    var isPlaying: bool
    var ratio: int

    var frameLabels: seq<FrameLabel>
    /** The per-frame action lists, keyed by `frame|0`. */
    var actions: map<int, seq<Action>>
    /** The array length of the action lists: one past the largest non-negative key, or 0. */
    var actionsLength: nat
    var scenes: seq<Scene>
    var instances: seq<Child>

    var id: int
    var name: string
    var clipDepth: int
    var endFrame: int
    var isMainTimeline: bool

    /** The ids passed to `_$createInstance`, in call order. */
    var requests: seq<Request>

    ghost predicate Valid()
      reads this
    {
      && 1 <= currentFrame <= totalFrames <= Int32.MAX
      && forall k :: k in actions && k >= 0 ==> k < actionsLength
    }

    /** A fresh clip: frame 1 of 1, playing order not stopped, actions enabled, nothing attached. */
    constructor (player: Player)
      ensures Valid() && this.player == player
      ensures currentFrame == 1 && totalFrames == 1
      ensures !stopFlag && canAction && !isPlaying
      ensures frameLabels == [] && actions == map[] && actionsLength == 0 && scenes == []
      ensures instances == [] && requests == [] && ratio == 0
      ensures id == 0 && name == "" && clipDepth == 0 && endFrame == 0 && !isMainTimeline
    {
      this.player := player;
      currentFrame := 1;
      totalFrames := 1;
      stopFlag := false;
      canAction := true;
      isPlaying := false;
      ratio := 0;
      frameLabels := [];
      actions := map[];
      actionsLength := 0;
      scenes := [];
      instances := [];
      id := 0;
      name := "";
      clipDepth := 0;
      endFrame := 0;
      isMainTimeline := false;
      requests := [];
    }

    /** The action list at `frame`, or None when there is none. */
    function ActionsAt(frame: int): Option<seq<Action>>
      reads this`actions
    {
      if frame in actions then Some(actions[frame]) else None
    }

    predicate HasActions(frame: int)
      reads this`actions
    {
      frame in actions && |actions[frame]| > 0
    }

    // -------------------------------------------------------------------------
    // Labels and scenes

    /** `currentLabel`: the name of the lowest-index label on the current frame. */
    method CurrentLabel() returns (r: Option<string>)
      ensures r.None? <==> forall i :: 0 <= i < |frameLabels| ==> frameLabels[i].frame != currentFrame
      ensures r.Some? ==> exists i :: 0 <= i < |frameLabels| && frameLabels[i].frame == currentFrame
                                      && frameLabels[i].name == r.value
                                      && forall j :: 0 <= j < i ==> frameLabels[j].frame != currentFrame
    {
      var idx := 0;
      while idx < |frameLabels|
        invariant idx <= |frameLabels|
        invariant forall j :: 0 <= j < idx ==> frameLabels[j].frame != currentFrame
      {
        if frameLabels[idx].frame == currentFrame {
          return Some(frameLabels[idx].name);
        }
        idx := idx + 1;
      }
      return None;
    }

    /**
     * `currentFrameLabel`: the name of the highest-index label on the
     * current frame, among the labels after the first one.
     */
    method CurrentFrameLabel() returns (r: Option<string>)
      ensures r.None? <==> forall i :: 1 <= i < |frameLabels| ==> frameLabels[i].frame != currentFrame
      ensures r.Some? ==> exists i :: 1 <= i < |frameLabels| && frameLabels[i].frame == currentFrame
                                      && frameLabels[i].name == r.value
                                      && forall j :: i < j < |frameLabels| ==> frameLabels[j].frame != currentFrame
    {
      var idx := |frameLabels| - 1;
      while idx > 0
        invariant idx <= |frameLabels| - 1
        invariant forall j :: idx < j < |frameLabels| && j >= 1 ==> frameLabels[j].frame != currentFrame
      {
        if frameLabels[idx].frame == currentFrame {
          return Some(frameLabels[idx].name);
        }
        idx := idx - 1;
      }
      return None;
    }

    /** `_$addFrameLabel`: the label goes at the end. */
    method AddFrameLabel(l: FrameLabel)
      modifies this`frameLabels
      ensures frameLabels == old(frameLabels) + [l]
    {
      frameLabels := frameLabels + [l];
    }

    /** `_$getFrameLabel`: the first label named exactly as the lower-cased query. */
    method GetFrameLabel(query: string) returns (r: Option<FrameLabel>)
      ensures r == LabelNamed(frameLabels, Lower(query))
    {
      var q := Lower(query);
      var idx := 0;
      while idx < |frameLabels|
        invariant idx <= |frameLabels|
        invariant forall j :: 0 <= j < idx ==> frameLabels[j].name != q
      {
        if frameLabels[idx].name == q {
          return Some(frameLabels[idx]);
        }
        idx := idx + 1;
      }
      return None;
    }

    /** `_$getScene`: the first scene named exactly `query`. */
    method GetScene(query: string) returns (r: Option<Scene>)
      ensures r == SceneNamed(scenes, query)
    {
      var idx := 0;
      while idx < |scenes|
        invariant idx <= |scenes|
        invariant forall j :: 0 <= j < idx ==> scenes[j].name != query
      {
        if scenes[idx].name == query {
          return Some(scenes[idx]);
        }
        idx := idx + 1;
      }
      return None;
    }

    // -------------------------------------------------------------------------
    // Actions

    /** `_$addAction`: one more action at `frame|0`, the list created when absent. */
    method AddAction(frame: int, action: Action)
      requires Valid()
      modifies this`actions, this`actionsLength
      ensures Valid()
      ensures var f := Int32.ToInt32(frame);
              && actions == old(actions)[f := (if f in old(actions) then old(actions)[f] else []) + [action]]
              && actionsLength == if 0 <= f && old(actionsLength) <= f then f + 1 else old(actionsLength)
    {
      var f := Int32.ToInt32(frame);
      if f !in actions {
        actions := actions[f := []];
        if 0 <= f && actionsLength <= f {
          actionsLength := f + 1;
        }
      }
      actions := actions[f := actions[f] + [action]];
    }

    /**
     * `_$prepareActions`: while the latch is open and the frame (the current
     * one when none is given) has actions, queue the actions of the current
     * frame; the latch closes in every case.
     */
    method PrepareActions(frame: Option<int>)
      modifies this`canAction, player`actions
      ensures !canAction
      ensures var f := if frame.Some? then frame.value else currentFrame;
              player.actions == old(player.actions)
                + (if old(canAction) && HasActions(f) then [QueueEntry(ActionsAt(currentFrame), this)] else [])
    {
      if canAction {
        var f := if frame.Some? then frame.value else currentFrame;
        if f in actions && |actions[f]| > 0 {
          player.actions := player.actions + [QueueEntry(ActionsAt(currentFrame), this)];
        }
      }
      canAction := false;
    }

    // -------------------------------------------------------------------------
    // The per-frame advance

    /** The effect of one `_$putFrame` since the two-state `old` state. */
    twostate predicate FrameAdvanced()
      reads this`currentFrame, this`totalFrames, this`stopFlag, this`canAction, this`ratio
      reads this`actions, this`requests, this`id, player`actions
    {
      && 1 <= old(currentFrame) <= totalFrames <= Int32.MAX
      && currentFrame == Advance(stopFlag, totalFrames, old(currentFrame), ratio)
      && !canAction
      && requests == old(requests)
           + (if Moves(stopFlag, totalFrames) && old(currentFrame) == totalFrames && ratio != 0
              then [ParentRebuild(id)] else [])
      && player.actions == old(player.actions)
           + (if (old(canAction) || Moves(stopFlag, totalFrames)) && HasActions(currentFrame)
              then [QueueEntry(ActionsAt(currentFrame), this)] else [])
    }

    /**
     * `_$putFrame`: a playing clip with more than one frame steps on, wraps
     * to frame 1 at the end when its ratio is 0 and otherwise asks its parent
     * for a rebuild; the frame's actions are then prepared.
     */
    method PutFrame()
      requires Valid()
      modifies this`currentFrame, this`canAction, this`requests, player`actions
      ensures Valid()
      ensures FrameAdvanced()
    {
      if !stopFlag && totalFrames > 1 {
        if totalFrames == currentFrame {
          if ratio == 0 {
            currentFrame := 1;
          } else {
            requests := requests + [ParentRebuild(id)];
          }
        } else {
          currentFrame := Int32.ToInt32(currentFrame + 1);
        }
        canAction := true;
      }
      PrepareActions(Some(currentFrame));
    }

    // -------------------------------------------------------------------------
    // Playback control

    method Play()
      modifies this`stopFlag
      ensures !stopFlag
    {
      stopFlag := false;
    }

    method Stop()
      modifies this`stopFlag
      ensures stopFlag
    {
      stopFlag := true;
    }

    /** The effect of one `_$goToFrame(target)` since the two-state `old` state. */
    twostate predicate WentTo(target: FrameRef)
      reads this
    {
      && 1 <= totalFrames
      && match GotoDestination(ResolvedFrame(frameLabels, target), old(currentFrame), totalFrames)
         case None =>
           currentFrame == old(currentFrame) && canAction == old(canAction) && requests == old(requests)
         case Some(d) =>
           currentFrame == d && canAction && requests == old(requests) + RebuildRequests(PruneIds(instances, d))
    }

    /** The first step of `_$goToFrame`: a label becomes its frame, and the number is taken `|0`. */
    method ResolveFrame(target: FrameRef) returns (frame: int)
      ensures frame == ResolvedFrame(frameLabels, target)
    {
      match target {
        case Frame(n) =>
          frame := n;
        case Label(s) =>
          var found := GetFrameLabel(s);
          frame := if found.Some? then Int32.ToInt32(found.value.frame) else 0;
      }
      frame := Int32.ToInt32(frame);
    }

    /**
     * `_$goToFrame`: resolve the argument, and unless it is not positive or
     * is the current frame, clamp it to 1 past the end, reopen the action
     * latch, request a rebuild of every MovieClip child the frame leaves,
     * and move there.
     */
    method GoToFrame(target: FrameRef)
      requires Valid()
      modifies this`currentFrame, this`canAction, this`requests
      ensures Valid()
      ensures WentTo(target)
    {
      var frame := ResolveFrame(target);
      if frame > 0 && frame != currentFrame {
        if frame > totalFrames {
          frame := 1;
        }
        canAction := true;
        RequestPruned(frame);
        currentFrame := frame;
      }
    }

    /** The reset scan of `_$goToFrame`: a rebuild request for each MovieClip child that `frame` prunes. */
    method RequestPruned(frame: int)
      modifies this`requests
      ensures requests == old(requests) + RebuildRequests(PruneIds(instances, frame))
    {
      var idx := 0;
      ghost var ids: seq<int> := [];
      while idx < |instances|
        invariant idx <= |instances|
        invariant ids == PruneIds(instances[..idx], frame)
        invariant requests == old(requests) + RebuildRequests(ids)
      {
        RequestIfPruned(instances[idx], frame);
        PruneStep(instances, idx + 1, frame);
        if Pruned(instances[idx], frame) {
          RebuildRequestsSnoc(ids, instances[idx].id);
          ids := ids + [instances[idx].id];
        }
        idx := idx + 1;
      }
      assert instances[..idx] == instances;
    }

    /** One pass of that scan: the sentinel (1, 0) is skipped, any other MovieClip outside its window is requested. */
    method RequestIfPruned(instance: Child, frame: int)
      modifies this`requests
      ensures requests == old(requests) + (if Pruned(instance, frame) then [ChildRebuild(instance.id)] else [])
    {
      if instance.isMovieClip {
        if instance.startFrame == 1 && instance.endFrame == 0 {
          return;
        }
        if instance.startFrame > frame || instance.endFrame < frame {
          requests := requests + [ChildRebuild(instance.id)];
        }
      }
    }

    /** The scene named by the optional scene argument, when there is one and it is found. */
    function SceneOf(scene: Option<string>): Option<Scene>
      reads this
    {
      if scene.Some? then SceneNamed(scenes, scene.value) else None
    }

    method GotoAndPlay(target: FrameRef, scene: Option<string>)
      requires Valid()
      modifies this`currentFrame, this`canAction, this`requests, this`stopFlag
      ensures Valid() && !stopFlag
      ensures WentTo(SceneTarget(target, SceneOf(scene)))
    {
      var t := target;
      if scene.Some? {
        var found := GetScene(scene.value);
        t := SceneTarget(target, found);
      }
      GoToFrame(t);
      Play();
    }

    method GotoAndStop(target: FrameRef, scene: Option<string>)
      requires Valid()
      modifies this`currentFrame, this`canAction, this`requests, this`stopFlag
      ensures Valid() && stopFlag
      ensures WentTo(SceneTarget(target, SceneOf(scene)))
    {
      var t := target;
      if scene.Some? {
        var found := GetScene(scene.value);
        t := SceneTarget(target, found);
      }
      GoToFrame(t);
      Stop();
    }

    /**
     * `nextFrame`: one frame on; from the last frame a goto past the end,
     * which lands on frame 1 (unless `+1` wraps to a negative 32-bit value).
     */
    method NextFrame()
      requires Valid()
      modifies this`currentFrame, this`canAction, this`requests
      ensures Valid()
      ensures WentTo(Frame(old(currentFrame) + 1))
      ensures old(currentFrame) < totalFrames ==> currentFrame == old(currentFrame) + 1
      ensures old(currentFrame) == totalFrames < Int32.MAX ==> currentFrame == 1 && canAction
      ensures old(currentFrame) == Int32.MAX ==> currentFrame == old(currentFrame) && requests == old(requests)
    {
      GoToFrame(Frame(currentFrame + 1));
    }

    /** `prevFrame`: one frame back; on frame 1 the goto to frame 0 changes nothing. */
    method PrevFrame()
      requires Valid()
      modifies this`currentFrame, this`canAction, this`requests
      ensures Valid()
      ensures WentTo(Frame(old(currentFrame) - 1))
      ensures old(currentFrame) > 1 ==> currentFrame == old(currentFrame) - 1 && canAction
      ensures old(currentFrame) == 1 ==>
                currentFrame == 1 && canAction == old(canAction) && requests == old(requests)
    {
      GoToFrame(Frame(currentFrame - 1));
    }

    // -------------------------------------------------------------------------
    // Build of a placed copy

    /**
     * `_$build`: a fresh clip sharing this clip's frame count and its actions
     * from frame 1 on, with the placement record's name, ratio and clip depth
     * where their flags are 1; it queues its frame-1 actions when the parent
     * asks for actions, the ratio is 0 and the parent's controller holds the
     * placement index.
     */
    method Build(parent: MovieClip, index: int, tag: PlaceTag, shouldAction: bool, controller: Option<seq<int>>)
      returns (mc: MovieClip)
      requires Valid()
      modifies parent.player`actions
      ensures fresh(mc) && mc.Valid() && mc.player == parent.player
      ensures mc.id == Int32.ToInt32(index) && mc.totalFrames == totalFrames && mc.currentFrame == 1
      ensures mc.name == (if tag.placeFlagHasName == 1 then tag.name else "")
      ensures mc.ratio == (if tag.placeFlagHasRatio == 1 then tag.ratio else 0)
      ensures mc.clipDepth == (if tag.placeFlagHasClipDepth == 1 then tag.clipDepth else 0)
      ensures mc.actions == (map k | k in actions && 1 <= k < actionsLength :: actions[k])
      ensures mc.actionsLength == if actionsLength > 1 then actionsLength else 0
      ensures mc.scenes == [Scene("", 0)] && mc.frameLabels == [] && !mc.stopFlag
      ensures mc.instances == [] && mc.requests == [] && !mc.isPlaying
      ensures mc.endFrame == 0 && !mc.isMainTimeline
      ensures var scheduled := shouldAction && mc.ratio == 0 && controller.Some? && index in controller.value;
              && mc.canAction == !scheduled
              && parent.player.actions == old(parent.player.actions)
                   + (if scheduled && mc.HasActions(1) then [QueueEntry(mc.ActionsAt(1), mc)] else [])
    {
      mc := new MovieClip(parent.player);
      mc.Initialize(this, index, tag);

      if shouldAction && mc.ratio == 0 {
        if controller.Some? && index in controller.value {
          mc.PrepareActions(Some(1));
        }
      }
    }

    /** The fields `_$build` sets on the new clip: id, frame count, place data, actions and scene. */
    method Initialize(source: MovieClip, index: int, tag: PlaceTag)
      requires source != this
      modifies this`id, this`totalFrames, this`name, this`ratio, this`clipDepth
      modifies this`actions, this`actionsLength, this`scenes
      ensures id == Int32.ToInt32(index) && totalFrames == source.totalFrames
      ensures name == if tag.placeFlagHasName == 1 then tag.name else old(name)
      ensures ratio == if tag.placeFlagHasRatio == 1 then tag.ratio else old(ratio)
      ensures clipDepth == if tag.placeFlagHasClipDepth == 1 then tag.clipDepth else old(clipDepth)
      ensures actions == (map k | k in source.actions && 1 <= k < source.actionsLength :: source.actions[k])
      ensures actionsLength == if source.actionsLength > 1 then source.actionsLength else 0
      ensures forall k :: k in actions ==> 1 <= k < actionsLength
      ensures scenes == [Scene("", 0)]
    {
      id := Int32.ToInt32(index);
      totalFrames := source.totalFrames;
      Place(tag);
      CopyActions(source);
      scenes := [Scene("", 0)];
    }

    /** The place data of `_$build`: name, ratio and clip depth, each where its flag is 1. */
    method Place(tag: PlaceTag)
      modifies this`name, this`ratio, this`clipDepth
      ensures name == if tag.placeFlagHasName == 1 then tag.name else old(name)
      ensures ratio == if tag.placeFlagHasRatio == 1 then tag.ratio else old(ratio)
      ensures clipDepth == if tag.placeFlagHasClipDepth == 1 then tag.clipDepth else old(clipDepth)
    {
      if tag.placeFlagHasName == 1 {
        name := tag.name;
      }
      if tag.placeFlagHasRatio == 1 {
        ratio := tag.ratio;
      }
      if tag.placeFlagHasClipDepth == 1 {
        clipDepth := tag.clipDepth;
      }
    }

    /**
     * The action clone of `_$build`: the lists of `source` from frame 1 up
     * to its array length (a frame without a list stays without one here).
     */
    method CopyActions(source: MovieClip)
      requires source != this
      modifies this`actions, this`actionsLength
      ensures actions == (map k | k in source.actions && 1 <= k < source.actionsLength :: source.actions[k])
      ensures actionsLength == if source.actionsLength > 1 then source.actionsLength else 0
      ensures forall k :: k in actions ==> 1 <= k < actionsLength
    {
      actions := map[];
      var frame := 1;
      while frame < source.actionsLength
        invariant 1 <= frame && (frame <= source.actionsLength || frame == 1)
        invariant actions == (map k | k in source.actions && 1 <= k < frame :: source.actions[k])
      {
        if frame in source.actions {
          actions := actions[frame := source.actions[frame]];
        }
        frame := frame + 1;
      }
      actionsLength := if source.actionsLength > 1 then source.actionsLength else 0;
    }

    // -------------------------------------------------------------------------
    // Draw pass

    /** The controller of a draw pass at `frame`: the live children by depth, and its array length. */
    method Controller(frame: int) returns (ctrl: map<nat, Child>, length: nat)
      ensures ctrl == DepthMapOf(instances, frame) && length == LiveLength(instances, frame)
    {
      ctrl := map[];
      length := 0;
      var idx := 0;
      while idx < |instances|
        invariant idx <= |instances|
        invariant ctrl == DepthMapOf(instances[..idx], frame)
        invariant length == LiveLength(instances[..idx], frame)
      {
        var instance := instances[idx];
        assert instances[..idx + 1][..idx] == instances[..idx];
        if instance.startFrame <= frame && (instance.endFrame == 0 || instance.endFrame >= frame) {
          ctrl := ctrl[instance.index := instance];
          if instance.index + 1 > length {
            length := instance.index + 1;
          }
        }
        idx := idx + 1;
      }
      assert instances[..idx] == instances;
    }

    /** The loop over the controller's depths, then the restore for the scopes left open. */
    method RenderChildren(ctrl: map<nat, Child>, length: nat, frame: int, version: int, isClipIn: bool)
      modifies player`trace
      ensures player.trace == old(player.trace) + ChildPass(ctrl, length, frame, version, isClipIn)
    {
      var clips: seq<int> := [];
      var isClip := isClipIn;
      var depth: nat := 0;
      ghost var p := PassState([], isClipIn, []);
      while depth < length
        invariant depth <= length
        invariant p == Visit(depth, ctrl, frame, version, isClipIn)
        invariant player.trace == old(player.trace) + p.events
        invariant clips == p.clips && isClip == p.isClip
      {
        if depth in ctrl {
          clips, isClip := VisitChild(old(player.trace), p, clips, isClip, depth, ctrl[depth], frame, version);
          p := Step(p, depth, ctrl[depth], frame, version);
          assert p == Visit(depth + 1, ctrl, frame, version, isClipIn);
        } else {
          assert p == Visit(depth + 1, ctrl, frame, version, isClipIn);
        }
        depth := depth + 1;
      }
      if |clips| > 0 {
        player.trace := player.trace + [Restore];
      }
    }

    /**
     * One pass of the loop over depths: close at most one scope, open the
     * child's own when it masks, draw it, set the clip of a MovieClip mask,
     * advance it under ActionScript 2, and request a rebuild when its window
     * ends at this frame.
     */
    method VisitChild(ghost base: seq<DrawEvent>, ghost p: PassState, clips: seq<int>, isClip: bool,
                      depth: nat, instance: Child, frame: int, version: int)
      returns (clips': seq<int>, isClip': bool)
      requires p.clips == clips && p.isClip == isClip && player.trace == base + p.events
      modifies player`trace
      ensures var q := Step(p, depth, instance, frame, version);
              clips' == q.clips && isClip' == q.isClip && player.trace == base + q.events
    {
      ghost var closes := FirstClosable(clips, depth).Some?;
      ghost var r: seq<DrawEvent> := if closes then [Restore] else [];
      ghost var m: seq<DrawEvent> := if instance.clipDepth != 0 then [Save, BeginPath] else [];
      ghost var d := [DrawChild(depth, instance.id, ClipFlag(isClip, instance))];
      ghost var a := After(instance, frame, version);
      CloseOneScope(clips, depth);
      clips' := CloseScope(clips, depth);
      clips', isClip' := MaskStart(clips', isClip, instance);
      isClip' := DrawOne(isClip', depth, instance, frame, version);
      assert player.trace == base + p.events + r + m + d + a;
      assert StepEvents(p, depth, instance, frame, version) == r + m + d + a;
      ConcatRegroup(base, p.events, r, m, d, a);
    }

    /** The child's draw with the clipping flag, then the clip of a MovieClip mask and what follows the draw. */
    method DrawOne(isClip: bool, depth: nat, instance: Child, frame: int, version: int) returns (isClip': bool)
      modifies player`trace
      ensures isClip' == if instance.clipDepth != 0 && instance.isMovieClip then false else isClip
      ensures player.trace == old(player.trace) + [DrawChild(depth, instance.id, isClip)] + After(instance, frame, version)
    {
      isClip' := isClip;
      player.trace := player.trace + [DrawChild(depth, instance.id, isClip)];
      ghost var t1 := player.trace;
      if instance.clipDepth != 0 && instance.isMovieClip {
        player.trace := player.trace + [Clip];
        isClip' := false;
      }
      AfterDraw(instance, frame, version);
      assert player.trace == t1 + After(instance, frame, version);
    }

    /** The mask start: a child with a clip depth saves the context, begins a path and opens its scope. */
    method MaskStart(clips: seq<int>, isClip: bool, instance: Child) returns (clips': seq<int>, isClip': bool)
      modifies player`trace
      ensures clips' == if instance.clipDepth != 0 then clips + [Int32.ToInt32(instance.clipDepth)] else clips
      ensures isClip' == ClipFlag(isClip, instance)
      ensures player.trace == old(player.trace) + (if instance.clipDepth != 0 then [Save, BeginPath] else [])
    {
      clips', isClip' := clips, isClip;
      if instance.clipDepth != 0 {
        player.trace := player.trace + [Save, BeginPath];
        clips' := clips' + [Int32.ToInt32(instance.clipDepth)];
        if instance.isMovieClip {
          isClip' := true;
        }
      }
    }

    /** What follows a child's draw: its advance under ActionScript 2, and its rebuild when its window ends. */
    method AfterDraw(instance: Child, frame: int, version: int)
      modifies player`trace
      ensures player.trace == old(player.trace)
                + (if AdvancesChild(instance, frame, version) then [AdvanceChild(instance.id)] else [])
                + (if RebuildsChild(instance, frame) then [Rebuild(instance.id)] else [])
    {
      if instance.isMovieClip && version == ACTIONSCRIPT2 && (instance.endFrame == 0 || instance.endFrame != frame) {
        player.trace := player.trace + [AdvanceChild(instance.id)];
      }
      if instance.endFrame > 0 && instance.endFrame == frame && instance.isMovieClip {
        player.trace := player.trace + [Rebuild(instance.id)];
      }
    }

    /** The mask-end scan: close the first open scope below `depth`, restoring once. */
    method CloseOneScope(clips: seq<int>, depth: int)
      modifies player`trace
      ensures player.trace == old(player.trace) + (if FirstClosable(clips, depth).Some? then [Restore] else [])
    {
      var idx := 0;
      while idx < |clips|
        invariant idx <= |clips|
        invariant player.trace == old(player.trace)
        invariant forall j :: 0 <= j < idx ==> clips[j] >= depth
      {
        if depth > clips[idx] {
          player.trace := player.trace + [Restore];
          return;
        }
        idx := idx + 1;
      }
    }

    predicate SelfAdvances(parentFrame: int)
      reads this
    {
      endFrame == 0 || endFrame != parentFrame
    }

    /** Under ActionScript 3 a clip advances itself before drawing its children. */
    predicate AdvancesFirst(version: int, parentFrame: int)
      reads this
    {
      version == ACTIONSCRIPT3 && SelfAdvances(parentFrame)
    }

    /** Under ActionScript 2 only the main timeline advances itself, after its children. */
    predicate AdvancesLast(version: int, parentFrame: int)
      reads this
    {
      isMainTimeline && version == ACTIONSCRIPT2 && SelfAdvances(parentFrame)
    }

    /**
     * `_$draw`, with rendering abstracted to the trace: mark the clip
     * playing, build the controller for the current frame, advance first
     * under ActionScript 3, draw the children, and advance last when this is
     * the main timeline under ActionScript 2.
     */
    method Draw(version: int, parentFrame: int, isClip: bool)
      requires Valid()
      modifies this`isPlaying, this`currentFrame, this`canAction, this`requests, player`actions, player`trace
      ensures Valid() && isPlaying
      ensures var frame := old(currentFrame);
              player.trace == old(player.trace)
                + (if AdvancesFirst(version, parentFrame) then [AdvanceSelf] else [])
                + ChildPass(DepthMapOf(instances, frame), LiveLength(instances, frame), frame, version, isClip)
                + (if AdvancesLast(version, parentFrame) then [AdvanceSelf] else [])
      ensures if AdvancesFirst(version, parentFrame) || AdvancesLast(version, parentFrame) then FrameAdvanced()
              else currentFrame == old(currentFrame) && canAction == old(canAction)
                   && requests == old(requests) && player.actions == old(player.actions)
    {
      isPlaying := true;
      var frame := currentFrame;
      var ctrl, length := Controller(frame);
      DrawPass(ctrl, length, version, parentFrame, isClip);
    }

    /** The part of `_$draw` after the controller is built: the self-advances around the children's pass. */
    method DrawPass(ctrl: map<nat, Child>, length: nat, version: int, parentFrame: int, isClip: bool)
      requires Valid()
      modifies this`currentFrame, this`canAction, this`requests, player`actions, player`trace
      ensures Valid()
      ensures player.trace == old(player.trace)
                + (if AdvancesFirst(version, parentFrame) then [AdvanceSelf] else [])
                + ChildPass(ctrl, length, old(currentFrame), version, isClip)
                + (if AdvancesLast(version, parentFrame) then [AdvanceSelf] else [])
      ensures if AdvancesFirst(version, parentFrame) || AdvancesLast(version, parentFrame) then FrameAdvanced()
              else currentFrame == old(currentFrame) && canAction == old(canAction)
                   && requests == old(requests) && player.actions == old(player.actions)
    {
      var frame := currentFrame;
      ghost var t0 := player.trace;
      AdvanceSelfWhen(AdvancesFirst(version, parentFrame));
      ghost var t1 := player.trace;
      RenderChildren(ctrl, length, frame, version, isClip);
      assert player.trace == t1 + ChildPass(ctrl, length, frame, version, isClip);
      AdvanceSelfWhen(AdvancesLast(version, parentFrame));
    }

    /** The clip's own advance inside a draw pass, when `cond` holds: recorded in the trace, then `_$putFrame`. */
    method AdvanceSelfWhen(cond: bool)
      requires Valid()
      modifies this`currentFrame, this`canAction, this`requests, player`actions, player`trace
      ensures Valid()
      ensures player.trace == old(player.trace) + (if cond then [AdvanceSelf] else [])
      ensures if cond then FrameAdvanced()
              else currentFrame == old(currentFrame) && canAction == old(canAction)
                   && requests == old(requests) && player.actions == old(player.actions)
    {
      if cond {
        player.trace := player.trace + [AdvanceSelf];
        PutFrame();
      }
    }
  }
}
