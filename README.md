# MovieClip timeline of swf2js, modelled in Dafny

swf2js plays Flash (SWF) movies in a browser. Every timeline in a movie is a
`MovieClip` (src/flash/display/MovieClip.js). This project models the state
machine of that class and proves properties of it. The model covers:

- the frame counters (`currentFrame`, `totalFrames`), the stop flag, and the
  one-shot action latch `canAction`;
- the frame labels and scenes, and the lookups over them;
- the per-frame action lists, and the player's action queue they feed;
- the goto family (`gotoAndPlay`, `gotoAndStop`, `nextFrame`, `prevFrame`,
  `_$goToFrame`), including its eager rebuild requests for children that a
  jump leaves;
- the per-frame advance `_$putFrame`;
- the placement-field part of `_$build` (the fields of a PlaceObject2 record,
  chapter 3 "The Display List" of the SWF File Format Specification v19);
- the depth and mask bookkeeping of `_$draw`, with rendering abstracted to a
  trace of events.

Modules:

- `Int32`: the `x|0` coercion, written out as a reduction modulo 2^32 into the
  signed 32-bit range.
- `Labels`: `FrameLabel` and `Scene`, ASCII lower-casing, and the first-match
  lookups.
- `Instances`: the child records a timeline holds, the pruning test of a goto,
  and the depth map (the "controller") a draw pass builds.
- `Compositing`: the loop of a draw pass over depths, as a fold that emits
  `Save`, `BeginPath`, `Clip`, `Restore`, `DrawChild`, `AdvanceChild`,
  `AdvanceSelf` and `Rebuild` events. It also holds the lemmas about that
  trace.
- `Timeline`: the `Player` class (action queue and draw trace) and the
  `MovieClip` class, whose methods update its fields in place. Each method is
  proved against the specification functions of the modules above.
- `MovieClipTests`: the scenarios of test/flash/display/MovieClipTest.js and a
  few more, as methods whose assertions are checked by the verifier.

Values of JavaScript that the model represents differently:

- `null` and `undefined` results are `Option.None`.
- A call to `_$createInstance` appears in the clip's `requests` log. A goto
  logs `ChildRebuild(id)` for each child it prunes. `_$putFrame` logs
  `ParentRebuild(id)` when it asks its parent for a rebuild.
- A draw pass's end-of-window request is the `Rebuild(id)` event, at its
  place in the trace.
- The `for (var depth in controller)` loop over the sparse controller array
  visits the integer depths 0 up to the array length minus one, in ascending
  order, and skips the holes.

## Behaviours of the code worth knowing

- **Label lookup.** `_$getFrameLabel` lower-cases only the query
  (MovieClip.js:264) and compares names exactly. Two queries that differ
  only in letter case find the same label (`Labels.SameUpToCaseSameLabel`).
  A stored name with an upper-case letter is never found
  (`Labels.UpperCaseLabelNeverFound`).
- **`currentFrameLabel`.** The backward scan runs `while (idx > 0)`
  (MovieClip.js:64), so the label at index 0 is never examined. A lone match
  there gives `null`.
- **Closing mask scopes.** For each child, the mask-end scan closes at most
  one open scope: it breaks after the first one it closes (MovieClip.js:583).
- **Restores after the loop.** After the loop, a single `restore` is issued
  however many scopes are left open (MovieClip.js:650-652). Saves and
  restores balance exactly when at most one scope is left open
  (`Compositing.BalancedIffAtMostOneLeftOpen`). With `k >= 1` scopes left
  open, a pass issues `k - 1` fewer restores than saves, and with none left
  open the counts are equal (`Compositing.UnrestoredSaves`). Two nested masks
  that no later depth closes give two saves and one restore
  (`Compositing.TwoOpenScopesOneRestore`).
- **Scene not found.** An unknown scene only skips adding the scene's
  offset, and the goto still runs (MovieClip.js:731-740).
- **Frame labels of a built clip.** `_$build` clones `_$labels`
  (MovieClip.js:465), not `_$frameLabels`, so the lines of `_$build` set no
  frame labels on the built clip. They also give it a single new scene
  rather than copies.
- **The queued action list.** `_$prepareActions` tests `actions[frame]` but
  queues `actions[currentFrame]` (MovieClip.js:312-317). The model keeps both
  terms.

## Model

| member | source | states |
|---|---|---|
| `Int32.ToInt32` | src/flash/display/MovieClip.js:287 | `x|0` lands in the signed 32-bit range, is congruent to `x` modulo 2^32, and leaves an in-range value unchanged |
| `Labels.LowerChar` | src/flash/display/MovieClip.js:264 | an ASCII upper-case letter becomes the lower-case letter at the same place in the alphabet; every other character is kept |
| `Labels.LowerIdempotent` | src/flash/display/MovieClip.js:264 | lower-casing an already lower-cased query changes nothing |
| `Labels.LowerNeverMatchesUpper` | src/flash/display/MovieClip.js:264-268 | a lower-cased query never equals a name holding an upper-case letter |
| `Labels.LabelNamed` | src/flash/display/MovieClip.js:265-275 | None exactly when no label has the name; otherwise the label at the first index with that name |
| `Labels.SceneNamed` | src/flash/display/MovieClip.js:791-803 | None exactly when no scene has the name; otherwise the scene at the first index with that name, compared case-sensitively |
| `Labels.SameUpToCaseSameLabel` | src/flash/display/MovieClip.js:253-276 | two queries that differ only in the case of ASCII letters are lower-cased alike and find the same label |
| `Labels.UpperCaseLabelNeverFound` | src/flash/display/MovieClip.js:253-276 | a label that `_$getFrameLabel` finds never has an upper-case letter in its stored name |
| `Instances.PruneIdsExactly` | src/flash/display/MovieClip.js:833-860 | the ids a goto requests are exactly those of the MovieClip children, other than the (1, 0) sentinel, whose start lies after the frame or whose end lies before it |
| `Instances.PruneIdsEmpty` | src/flash/display/MovieClip.js:833-860 | a goto requests nothing exactly when no child passes the pruning test |
| `Instances.UnboundedChildAlwaysPruned` | src/flash/display/MovieClip.js:846-852 | a MovieClip child with end 0 and a start other than 1 is requested by every goto |
| `Instances.SentinelNeverPruned` | src/flash/display/MovieClip.js:846-848 | children that are all sentinels or not MovieClips are never requested |
| `Instances.DepthMapSpec` | src/flash/display/MovieClip.js:530-546 | the controller has a depth exactly for each live child's index and holds the last live child placed there; every depth lies below its array length |
| `Compositing.FirstClosable` | src/flash/display/MovieClip.js:574-587 | the first open scope, in push order, whose clip depth is below the depth; None exactly when there is none |
| `Compositing.LiveDepthsSpec` | src/flash/display/MovieClip.js:565-569 | the depths the loop visits are strictly ascending and are exactly the controller's depths below the length |
| `Compositing.VisitDrawsLiveDepths` | src/flash/display/MovieClip.js:565-646 | the children drawn by the loop are the live depths, in order, each once |
| `Compositing.VisitDrawsOneMore` | src/flash/display/MovieClip.js:565-569 | one more turn of the loop draws depth n - 1 exactly when the controller holds it |
| `Compositing.DrawsEveryDepthAscending` | src/flash/display/MovieClip.js:530-652 | a pass draws every depth of the controller exactly once, in ascending order |
| `Compositing.CloseScopeLength` | src/flash/display/MovieClip.js:578-583 | closing a scope removes exactly one entry from the stack, and only when one is closable |
| `Compositing.StepDrawn` | src/flash/display/MovieClip.js:571-644 | one child's visit draws that child and no other |
| `Compositing.StepScopes` | src/flash/display/MovieClip.js:574-600 | one child's visit adds one save and one begin-path when it masks, one restore when it closes a scope, and changes the stack by the same amounts |
| `Compositing.ScopeAccounting` | src/flash/display/MovieClip.js:565-646 | in the loop, saves equal begin-paths, and saves equal restores plus the scopes still open |
| `Compositing.BalancedIffAtMostOneLeftOpen` | src/flash/display/MovieClip.js:565-652 | over a whole pass, saves equal begin-paths, and restores equal saves exactly when at most one scope is left open by the loop |
| `Compositing.UnrestoredSaves` | src/flash/display/MovieClip.js:565-652 | over any pass, with k scopes left open by the loop, restores equal saves when k is 0 and fall short of them by k - 1 otherwise, so two or more open scopes always leave a save unrestored |
| `Compositing.TwoOpenScopesOneRestore` | src/flash/display/MovieClip.js:589-652 | an example: masks at depths 1 and 2, both with clip depth 10, in a controller of length 3, give two saves and a single restore |
| `Compositing.AdvancedChildren` | src/flash/display/MovieClip.js:623-631 | a child's advance is recorded exactly for the live MovieClip children whose end is 0 or not the frame, under ActionScript 2 |
| `Compositing.RebuiltChildren` | src/flash/display/MovieClip.js:634-644 | a rebuild is requested exactly for the live MovieClip children whose end frame is the frame |
| `Compositing.StepMembers` | src/flash/display/MovieClip.js:623-644 | one child's visit adds exactly its own advance and rebuild events, and no others |
| `Compositing.AdvanceRightAfterDraw` | src/flash/display/MovieClip.js:606-631 | every child advance comes right after that child's draw, or right after its clip for a MovieClip mask |
| `Compositing.StepKeepsAdvanceAfterDraw` | src/flash/display/MovieClip.js:606-631 | one child's visit keeps that ordering |
| `Timeline.GotoDestination` | src/flash/display/MovieClip.js:824-830 | a goto changes nothing exactly when the frame is not positive or is the current frame; otherwise it lands on the frame itself when the frame is not past the end, and on frame 1 when it is |
| `Timeline.Advance` | src/flash/display/MovieClip.js:671-692 | an advance stays within 1..totalFrames; it keeps the frame exactly when stopped, single-frame, or on the last frame with a nonzero ratio; otherwise it steps one on or wraps from the last frame to 1 |
| `Timeline.AdvanceTimes` | src/flash/display/MovieClip.js:669-702 | n advances of a playing clip whose ratio is 0 stay within 1..totalFrames |
| `Timeline.AdvanceTimesCounts` | src/flash/display/MovieClip.js:689-692 | below the last frame, k advances move exactly k frames on |
| `Timeline.AdvanceLoops` | src/flash/display/MovieClip.js:673-680 | a playing clip with ratio 0 is back on its frame after totalFrames advances |
| `Timeline.MovieClip.constructor` | src/flash/display/MovieClip.js:4-27 | a fresh clip is on frame 1 of 1, not stopped, with the latch open and no labels, actions or scenes |
| `Timeline.MovieClip.CurrentLabel` | src/flash/display/MovieClip.js:86-112 | None exactly when no label is on the current frame; otherwise the name of the lowest-index such label |
| `Timeline.MovieClip.CurrentFrameLabel` | src/flash/display/MovieClip.js:54-80 | None exactly when no label at index 1 or later is on the current frame; otherwise the name of the highest-index such label |
| `Timeline.MovieClip.AddFrameLabel` | src/flash/display/MovieClip.js:242-247 | the label is appended at the end and the earlier labels keep their order |
| `Timeline.MovieClip.GetFrameLabel` | src/flash/display/MovieClip.js:253-276 | the result is the first label named exactly as the lower-cased query |
| `Timeline.MovieClip.GetScene` | src/flash/display/MovieClip.js:783-804 | the result is the first scene named exactly as the query |
| `Timeline.MovieClip.AddAction` | src/flash/display/MovieClip.js:283-298 | exactly one action is appended to the list at `frame|0`, which is created when absent; every other frame's list is unchanged; the array length grows past a new non-negative key |
| `Timeline.MovieClip.PrepareActions` | src/flash/display/MovieClip.js:304-326 | the latch is always closed afterwards; one entry, holding the current frame's actions and the clip, is queued exactly when the latch was open and the frame has actions |
| `Timeline.MovieClip.PutFrame` | src/flash/display/MovieClip.js:669-702 | the frame becomes `Advance` of the old one; a playing clip on its last frame with a nonzero ratio requests its parent's rebuild instead of moving; a playing clip of more than one frame reopens the latch; the new frame's actions are then prepared through that latch |
| `Timeline.MovieClip.Play` | src/flash/display/MovieClip.js:711-714 | the stop flag is cleared and nothing else changes |
| `Timeline.MovieClip.Stop` | src/flash/display/MovieClip.js:719-722 | the stop flag is set and nothing else changes |
| `Timeline.MovieClip.ResolveFrame` | src/flash/display/MovieClip.js:813-823 | a label gives its frame `|0` and an unmatched label gives 0; a number is taken `|0` |
| `Timeline.MovieClip.GoToFrame` | src/flash/display/MovieClip.js:810-862 | a no-op changes nothing; otherwise the latch opens, a rebuild is requested for each pruned child in placement order, and the clip moves to the clamped frame |
| `Timeline.MovieClip.RequestPruned` | src/flash/display/MovieClip.js:833-858 | the requests logged are the pruned ids, in placement order |
| `Timeline.MovieClip.RequestIfPruned` | src/flash/display/MovieClip.js:836-857 | one child's rebuild is requested exactly when it passes the pruning test |
| `Timeline.MovieClip.GotoAndPlay` | src/flash/display/MovieClip.js:729-741 | after the goto to the frame shifted by a found scene's offset, the stop flag is cleared whether or not the frame moved |
| `Timeline.MovieClip.GotoAndStop` | src/flash/display/MovieClip.js:748-760 | after the same goto, the stop flag is set whether or not the frame moved |
| `Timeline.MovieClip.NextFrame` | src/flash/display/MovieClip.js:765-768 | one frame on below the last frame; frame 1, with the latch open, from the last frame; nothing when `+1` wraps past the 32-bit range |
| `Timeline.MovieClip.PrevFrame` | src/flash/display/MovieClip.js:773-776 | one frame back above frame 1; nothing changes on frame 1 |
| `Timeline.MovieClip.Build` | src/flash/display/MovieClip.js:369-510 | a fresh clip with id `index|0` and this clip's frame count, on frame 1; name, ratio and clip depth taken where their flag is 1; this clip's action lists from frame 1 on, with that array length; one new scene; no labels, children, requests or end frame, neither playing nor stopped; frame-1 actions queued exactly when the caller asks, the ratio is 0, the controller holds the index, and frame 1 has actions |
| `Timeline.MovieClip.Initialize` | src/flash/display/MovieClip.js:375-482 | the new clip takes `index|0` as id, the source's frame count, the place data where flagged, the source's action lists from frame 1 up to its array length and that length, and one new scene |
| `Timeline.MovieClip.Place` | src/flash/display/MovieClip.js:388-401 | name, ratio and clip depth are replaced exactly where their flag is 1 |
| `Timeline.MovieClip.CopyActions` | src/flash/display/MovieClip.js:453-459 | the copy holds the source's lists at the keys from 1 up to the source's array length |
| `Timeline.MovieClip.Controller` | src/flash/display/MovieClip.js:530-546 | the controller and its length are those of the depth map of the live children |
| `Timeline.MovieClip.DrawPass` | src/flash/display/MovieClip.js:549-663 | the trace is the ActionScript 3 self-advance, the children's pass, then the main timeline's ActionScript 2 self-advance; the clip's state is one `_$putFrame` on when either applies and unchanged otherwise |
| `Timeline.MovieClip.AdvanceSelfWhen` | src/flash/display/MovieClip.js:549-557 | when the condition holds, one self-advance is recorded and the state is one `_$putFrame` on; otherwise nothing changes |
| `Timeline.MovieClip.RenderChildren` | src/flash/display/MovieClip.js:561-652 | the trace grows by the pass's events: each depth's visit, then one restore if scopes remain |
| `Timeline.MovieClip.VisitChild` | src/flash/display/MovieClip.js:571-644 | one depth's visit updates the mask stack and clipping flag, and emits that child's events in order |
| `Timeline.MovieClip.CloseOneScope` | src/flash/display/MovieClip.js:574-587 | one restore is emitted exactly when some open scope lies below the depth |
| `Timeline.MovieClip.DrawOne` | src/flash/display/MovieClip.js:602-644 | the child's draw with the current clipping flag, then its clip, advance and rebuild events; a MovieClip mask clears the flag |
| `Timeline.MovieClip.MaskStart` | src/flash/display/MovieClip.js:589-600 | a child with a clip depth emits save and begin-path and pushes its clip depth `|0`; the clipping flag is set for a MovieClip mask |
| `Timeline.MovieClip.AfterDraw` | src/flash/display/MovieClip.js:623-644 | the child's advance under ActionScript 2, then its rebuild when its window ends at the frame |
| `Timeline.MovieClip.Draw` | src/flash/display/MovieClip.js:518-664 | the clip is marked playing; the trace grows by the self-advance (first under ActionScript 3), the children's pass over the controller of the frame the draw started on, and the main timeline's self-advance (last under ActionScript 2); the clip's state is one `_$putFrame` on when it advanced and unchanged otherwise |

## Left out

- Rendering. The canvas context, matrix and colour-transform products, and
  `visible` are left out. They are floating-point work done by helpers that
  are not part of this model. A child's own draw is the `DrawChild` event,
  with the clipping flag passed to it.
- A child's `_$putFrame` inside a draw pass is the `AdvanceChild` event. The
  children in `_$instances` are records, not clips, so their own state is not
  modelled.
- The ActionScript interpreter and `_$createActionScript`: an action is an
  opaque token. The clip-action event binding of `_$build`
  (MovieClip.js:404-433) and `addEventListener` are left out.
- `_$commonBuild`, `_$characterBuild`, `_$getController`, `$cloneArray`,
  `_$createInstance` and the parent and stage objects are not part of this
  model. `Timeline.MovieClip.Build` states the new clip as the lines of
  `_$build` leave it: `_$commonBuild` (MovieClip.js:383) and
  `_$characterBuild` (MovieClip.js:506) may set further state on it, such as
  labels or children, and that state is not modelled. The controller of the parent is a parameter of `Build`, and so are
  the script version and the parent's current frame for `Draw`. A rebuild
  request is a logged id.
- The cloning of `_$placeObjects`, `_$placeController`, `_$labels` and
  `_$dictionary` in `_$build` is left out. Neither the copies nor the clone
  helper are part of this model.
- `Timeline.MovieClip.CopyActions` copies only the frames that have a list.
  `$cloneArray` of a missing list is not part of this model, so a hole stays a
  hole.
- Base-class fields are set by display-object constructors that are not part
  of this model: `ratio`, `id`, `name`, clip depth, end frame, the instance
  list and the main-timeline flag. A fresh clip starts them at 0, empty or
  false.
- `Scene` is not part of this model. The scene a build creates is taken to
  have an empty name and offset 0.
- `Labels.LowerChar` maps ASCII letters only, so `Labels.Lower` and
  `Timeline.MovieClip.GetFrameLabel` lower-case ASCII letters only:
  JavaScript's full Unicode `toLowerCase` is left out.
- A non-string label or scene query converted with `name + ""` is left out.
  So is the `instanceof` rejection of a non-label or non-script argument: the
  Dafny types exclude those inputs.
- `Timeline.MovieClip.ResolveFrame` resolves an unmatched label to frame 0:
  the numeric-string fallback of `frame|0` on a string such as "3" is left
  out. In the source, a label combined with a found scene is string
  concatenation, `(frame + offset)|0` (MovieClip.js:735 and :754).
  `Timeline.SceneTarget` sends it to frame 0. That differs from the source
  when the label is all digits ("3" with offset 5 is frame 35 there), and it
  is part of the numeric-string fallback left out.
- JavaScript numbers are taken as integers: `Timeline.FrameRef.Frame` and
  `Timeline.MovieClip.AddAction` take a Dafny `int`. A fractional frame
  argument, which `|0` truncates (MovieClip.js:287, :735, :823), is not
  modelled.
- `Timeline.MovieClip.PrepareActions` queues a copy of the current frame's
  action list as it is when queued. The source queues a reference to the
  live array `this._$actions[this.currentFrame]` (MovieClip.js:317). An
  `_$addAction` on that frame before the player drains the queue is seen by
  the drain in the source, not in the model. The aliasing between the queue
  and the clip's action lists is not modelled.
- `Timeline.MovieClip.CurrentFrameLabel` starts its scan at the last index
  without the `|0` of `length - 1`. The two differ only past 2^31 labels.
- `Timeline.MovieClip.Valid` bounds `totalFrames` by 2^31-1 so that frame
  numbers stay 32-bit values. Frame counts are 16-bit in a SWF file.
- Read-only property setters (`currentFrame`, `currentLabels` and the others)
  are empty in the source and have no counterpart here. The `enabled` and
  `trackAsMenu` type guards, `toString`, `currentScene`, `framesLoaded`, the
  sound stub and `_$addSound` are left out as stubs or unfinished code.
- Sprite.js (drawing, bounds, hit testing, drag) is not part of this model.
