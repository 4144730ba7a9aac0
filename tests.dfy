/**
 * The scenarios of the MovieClip test file, and a few more on the latch,
 * the advance and the goto pruning, stated as methods whose assertions the
 * verifier checks against the model's contracts.
 */
module MovieClipTests {

  import opened Wrappers
  import Int32
  import opened Labels
  import opened Instances
  import opened Timeline

  method FreshClip() {
    var player := new Player();
    var mc := new MovieClip(player);
    assert mc.currentFrame == 1 && mc.totalFrames == 1;
    assert !mc.stopFlag && mc.canAction && mc.frameLabels == [] && mc.scenes == [];
    var frameLabel := mc.CurrentFrameLabel();
    var found := mc.CurrentLabel();
    assert frameLabel == None && found == None;
  }

  /** Two labels on frame 1: `currentLabel` gives the first, `currentFrameLabel` the last. */
  method TwoLabelsOnFrameOne() {
    var player := new Player();
    var mc := new MovieClip(player);
    mc.AddFrameLabel(FrameLabel("aaa", 1));
    mc.AddFrameLabel(FrameLabel("bbb", 1));
    assert mc.frameLabels == [FrameLabel("aaa", 1), FrameLabel("bbb", 1)];
    assert mc.frameLabels[0].frame == mc.currentFrame && mc.frameLabels[1].frame == mc.currentFrame;
    var found := mc.CurrentLabel();
    var frameLabel := mc.CurrentFrameLabel();
    assert found == Some("aaa");
    assert frameLabel == Some("bbb");
  }

  /** The backward scan stops before index 0, so a lone label there is not found. */
  method LoneLabelAtIndexZero() {
    var player := new Player();
    var mc := new MovieClip(player);
    mc.AddFrameLabel(FrameLabel("aaa", 1));
    assert mc.frameLabels == [FrameLabel("aaa", 1)] && mc.frameLabels[0].frame == mc.currentFrame;
    var found := mc.CurrentLabel();
    var frameLabel := mc.CurrentFrameLabel();
    assert found == Some("aaa");
    assert frameLabel == None;
  }

  /** An action added at frame 1 lands there; one added under a non-numeric key lands at frame 0. */
  method AddActions() {
    var player := new Player();
    var mc := new MovieClip(player);
    assert Int32.ToInt32(1) == 1 && Int32.ToInt32(0) == 0;
    mc.AddAction(1, Action(0));
    assert mc.actions[1] == [Action(0)] && mc.actions.Keys == {1};
    assert mc.actions == map[1 := [Action(0)]];
    var other := new MovieClip(player);
    other.AddAction(0, Action(1));
    assert 1 !in other.actions && other.actions[0] == [Action(1)];
  }

  method PlayAndStop() {
    var player := new Player();
    var mc := new MovieClip(player);
    mc.stopFlag := true;
    mc.Play();
    assert !mc.stopFlag;
    mc.Stop();
    assert mc.stopFlag;
  }

  method GotoNumber() {
    var player := new Player();
    var mc := new MovieClip(player);
    mc.totalFrames := 3;
    mc.GotoAndPlay(Frame(2), None);
    assert mc.currentFrame == 2 && !mc.stopFlag;
  }

  method GotoLabel() {
    var player := new Player();
    var mc := new MovieClip(player);
    mc.totalFrames := 3;
    mc.AddFrameLabel(FrameLabel("f1", 1));
    mc.AddFrameLabel(FrameLabel("f2", 2));
    mc.AddFrameLabel(FrameLabel("f3", 3));
    assert Lower("f2") == "f2";
    assert LabelNamed(mc.frameLabels, "f2") == Some(FrameLabel("f2", 2));
    mc.GotoAndPlay(Label("f2"), None);
    assert mc.currentFrame == 2;
  }

  /** The query is lower-cased, so "F2" finds the label stored as "f2". */
  method LabelQueryIgnoresCase() {
    var player := new Player();
    var mc := new MovieClip(player);
    mc.AddFrameLabel(FrameLabel("f1", 1));
    mc.AddFrameLabel(FrameLabel("f2", 2));
    assert Lower("F2") == "f2";
    assert LabelNamed(mc.frameLabels, "f2") == Some(FrameLabel("f2", 2));
    var found := mc.GetFrameLabel("F2");
    assert found == Some(FrameLabel("f2", 2));
  }

  /** Frame 0 is ignored; a frame past the end lands on frame 1. */
  method GotoOutOfRange() {
    var player := new Player();
    var mc := new MovieClip(player);
    mc.totalFrames := 3;
    mc.GotoAndPlay(Frame(0), None);
    assert mc.currentFrame == 1;
    mc.GotoAndPlay(Frame(4), None);
    assert mc.currentFrame == 1 && mc.canAction;
  }

  /** Preparing twice with no frame change queues the frame's actions once. */
  method LatchDispatchesOnce() {
    var player := new Player();
    var mc := new MovieClip(player);
    assert Int32.ToInt32(1) == 1;
    mc.AddAction(1, Action(7));
    assert mc.actions[1] == [Action(7)] && mc.actions.Keys == {1};
    assert mc.actions == map[1 := [Action(7)]];
    mc.PrepareActions(None);
    assert player.actions == [QueueEntry(Some([Action(7)]), mc)];
    mc.PrepareActions(None);
    assert |player.actions| == 1;
  }

  /** On its last frame a playing clip with ratio 0 loops to frame 1 and queues frame 1's actions. */
  method AdvanceWraps() {
    var player := new Player();
    var mc := new MovieClip(player);
    mc.totalFrames := 3;
    assert Int32.ToInt32(1) == 1;
    mc.AddAction(1, Action(3));
    assert mc.actions[1] == [Action(3)] && mc.actions.Keys == {1};
    assert mc.actions == map[1 := [Action(3)]];
    mc.GotoAndPlay(Frame(3), None);
    assert mc.currentFrame == 3;
    mc.PutFrame();
    assert mc.currentFrame == 1 && !mc.canAction;
    assert player.actions == [QueueEntry(Some([Action(3)]), mc)];
  }

  /** With a nonzero ratio the last frame holds and the parent is asked for a rebuild. */
  method AdvanceResets() {
    var player := new Player();
    var mc := new MovieClip(player);
    mc.totalFrames := 2;
    mc.ratio := 5;
    mc.id := 9;
    mc.NextFrame();
    assert mc.currentFrame == 2;
    mc.PutFrame();
    assert mc.currentFrame == 2 && mc.requests == [ParentRebuild(9)];
  }

  method NextAndPrevAtTheEnds() {
    var player := new Player();
    var mc := new MovieClip(player);
    mc.totalFrames := 2;
    mc.PrevFrame();
    assert mc.currentFrame == 1;
    mc.NextFrame();
    assert mc.currentFrame == 2;
    mc.NextFrame();
    assert mc.currentFrame == 1;
  }

  /**
   * A goto past the end from frame 1 still prunes: the clamp to 1 follows
   * the test against the current frame, and the rebuild test uses frame 1.
   */
  method GotoPastTheEndPrunes() {
    var player := new Player();
    var mc := new MovieClip(player);
    mc.totalFrames := 3;
    mc.instances := [Child(5, 2, 0, 0, true, 0), Child(6, 1, 0, 1, true, 0), Child(7, 3, 3, 2, false, 0)];
    var cs := mc.instances;
    assert cs[..2][..1] == cs[..1] && cs[..1][..0] == [] && cs[..3] == cs;
    assert PruneIds(cs[..1], 1) == [5];
    assert PruneIds(cs[..2], 1) == [5];
    assert PruneIds(cs, 1) == [5];
    mc.GotoAndStop(Frame(10), None);
    assert mc.currentFrame == 1 && mc.stopFlag;
    assert mc.requests == [ChildRebuild(5)];
  }
}
