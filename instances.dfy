/**
 * The child instances placed on a timeline, the pruning test of a goto
 * and the depth map that a draw pass builds from them.
 */
module Instances {

  /**
   * A child display object: its instance id, its placement window
   * (`endFrame` 0 standing for "no end"), its depth `index`, whether it is
   * itself a MovieClip, and its clip depth (0 when it masks nothing).
   */
  datatype Child = Child(id: int, startFrame: int, endFrame: int, index: nat, isMovieClip: bool, clipDepth: int)

  /** The placement window of `c` covers `frame`, as the draw pass tests it. */
  predicate Covers(c: Child, frame: int) {
    c.startFrame <= frame && (c.endFrame == 0 || c.endFrame >= frame)
  }

  /** The window (1, 0): placed on the first frame and never removed. */
  predicate IsSentinel(c: Child) {
    c.startFrame == 1 && c.endFrame == 0
  }

  /** A goto to `frame` asks for `c` to be rebuilt. */
  predicate Pruned(c: Child, frame: int) {
    c.isMovieClip && !IsSentinel(c) && (c.startFrame > frame || c.endFrame < frame)
  }

  /** Ids of the pruned children, in placement order. */
  function PruneIds(cs: seq<Child>, frame: int): seq<int>
  {
    if cs == [] then []
    else
      var c := cs[|cs| - 1];
      PruneIds(cs[..|cs| - 1], frame) + (if Pruned(c, frame) then [c.id] else [])
  }

  /** `PruneIds` lists the id of every pruned child and nothing else. */
  lemma {:induction false} PruneIdsExactly(cs: seq<Child>, frame: int)
    ensures |PruneIds(cs, frame)| <= |cs|
    ensures forall i :: 0 <= i < |cs| && Pruned(cs[i], frame) ==> cs[i].id in PruneIds(cs, frame)
    ensures forall x :: x in PruneIds(cs, frame) ==>
              exists i :: 0 <= i < |cs| && Pruned(cs[i], frame) && cs[i].id == x
  {
    if cs != [] {
      var init := cs[..|cs| - 1];
      PruneIdsExactly(init, frame);
      assert forall i :: 0 <= i < |init| ==> init[i] == cs[i];
    }
  }

  /** Nothing is pruned exactly when no child passes the pruning test. */
  lemma PruneIdsEmpty(cs: seq<Child>, frame: int)
    ensures PruneIds(cs, frame) == [] <==> forall i :: 0 <= i < |cs| ==> !Pruned(cs[i], frame)
  {
    PruneIdsExactly(cs, frame);
    if exists i :: 0 <= i < |cs| && Pruned(cs[i], frame) {
      var i :| 0 <= i < |cs| && Pruned(cs[i], frame);
      assert cs[i].id in PruneIds(cs, frame);
    }
  }

  /**
   * A MovieClip child without an end frame that was not placed on frame 1
   * is pruned by every goto, even to a frame its window covers in a draw.
   */
  lemma UnboundedChildAlwaysPruned(cs: seq<Child>, i: nat, frame: int)
    requires i < |cs| && frame >= 1
    requires cs[i].isMovieClip && cs[i].endFrame == 0 && cs[i].startFrame != 1
    ensures cs[i].id in PruneIds(cs, frame)
  {
    PruneIdsExactly(cs, frame);
  }

  /** The sentinel child survives every goto: no pruned entry comes from it. */
  lemma SentinelNeverPruned(cs: seq<Child>, frame: int)
    requires forall i :: 0 <= i < |cs| ==> IsSentinel(cs[i]) || !cs[i].isMovieClip
    ensures PruneIds(cs, frame) == []
  {
    PruneIdsEmpty(cs, frame);
  }

  /**
   * The controller of a draw pass: live children keyed by depth, a later
   * child overwriting an earlier one at the same depth.
   */
  function DepthMapOf(cs: seq<Child>, frame: int): map<nat, Child>
  {
    if cs == [] then map[]
    else
      var m := DepthMapOf(cs[..|cs| - 1], frame);
      var c := cs[|cs| - 1];
      if Covers(c, frame) then m[c.index := c] else m
  }

  /** The array length of that controller: one past its largest depth, or 0. */
  function LiveLength(cs: seq<Child>, frame: int): nat
  {
    if cs == [] then 0
    else
      var n := LiveLength(cs[..|cs| - 1], frame);
      var c := cs[|cs| - 1];
      if Covers(c, frame) && c.index + 1 > n then c.index + 1 else n
  }

  /** The latest child at depth `k` that is live at `frame` is `cs[i]`. */
  ghost predicate LastLiveAt(cs: seq<Child>, frame: int, k: nat, i: nat)
  {
    && i < |cs| && Covers(cs[i], frame) && cs[i].index == k
    && forall j :: i < j < |cs| ==> !(Covers(cs[j], frame) && cs[j].index == k)
  }

  /**
   * The controller has a depth exactly for each live child's index, holds
   * there the last live child placed at that depth, and all its depths lie
   * below its array length.
   */
  lemma {:induction false} DepthMapSpec(cs: seq<Child>, frame: int)
    ensures forall k :: k in DepthMapOf(cs, frame) <==>
              exists i :: 0 <= i < |cs| && Covers(cs[i], frame) && cs[i].index == k
    ensures forall k :: k in DepthMapOf(cs, frame) ==>
              exists i: nat :: LastLiveAt(cs, frame, k, i) && DepthMapOf(cs, frame)[k] == cs[i]
    ensures forall k :: k in DepthMapOf(cs, frame) ==> k < LiveLength(cs, frame)
  {
    if cs != [] {
      var init := cs[..|cs| - 1];
      var c := cs[|cs| - 1];
      DepthMapSpec(init, frame);
      assert forall i :: 0 <= i < |init| ==> init[i] == cs[i];
      var m := DepthMapOf(cs, frame);
      forall k | k in m
        ensures exists i: nat :: LastLiveAt(cs, frame, k, i) && m[k] == cs[i]
      {
        if Covers(c, frame) && c.index == k {
          assert LastLiveAt(cs, frame, k, |cs| - 1);
        } else {
          assert k in DepthMapOf(init, frame) && m[k] == DepthMapOf(init, frame)[k];
          var i: nat :| LastLiveAt(init, frame, k, i) && DepthMapOf(init, frame)[k] == init[i];
          assert LastLiveAt(cs, frame, k, i);
        }
      }
    }
  }
}
