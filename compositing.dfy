/**
 * The bookkeeping of a MovieClip draw pass, with rendering abstracted to a
 * trace of events: the live children are visited in ascending depth order,
 * a stack of open mask scopes (clip depths, in push order) decides when a
 * canvas state is restored, and frame advances and rebuild requests are
 * recorded where the pass issues them.
 */
module Compositing {

  import opened Wrappers
  import opened Instances
  import Int32

  /** The values of `ActionScriptVersion` that the pass tests for. */
  const ACTIONSCRIPT2: int := 2
  const ACTIONSCRIPT3: int := 3

  datatype DrawEvent =
    | Save                                      // ctx.save()
    | BeginPath                                 // ctx.beginPath()
    | Clip                                      // ctx.clip()
    | Restore                                   // ctx.restore()
    | DrawChild(depth: nat, id: int, isClip: bool)  // the child's own draw, with the clipping flag passed to it
    | AdvanceChild(id: int)                     // the child's frame advance
    | AdvanceSelf                               // the drawing clip's own frame advance
    | Rebuild(id: int)                          // a rebuild request for a child whose window ends

  /** The state the loop over depths carries: open mask scopes, clipping flag, events so far. */
  datatype PassState = PassState(clips: seq<int>, isClip: bool, events: seq<DrawEvent>)

  /** The first open scope, in push order, whose clip depth lies below `depth`. */
  function FirstClosable(clips: seq<int>, depth: int): (r: Option<nat>)
    ensures r.None? <==> forall i :: 0 <= i < |clips| ==> clips[i] >= depth
    ensures r.Some? ==> r.value < |clips| && depth > clips[r.value]
                        && forall j :: 0 <= j < r.value ==> clips[j] >= depth
  {
    if clips == [] then None
    else if depth > clips[0] then Some(0)
    else
      match FirstClosable(clips[1..], depth)
      case None => None
      case Some(i) => Some(i + 1)
  }

  /** The stack left after closing that one scope (when there is one). */
  function CloseScope(clips: seq<int>, depth: int): seq<int>
  {
    match FirstClosable(clips, depth)
    case None => clips
    case Some(i) => clips[..i] + clips[i + 1..]
  }

  predicate AdvancesChild(c: Child, frame: int, version: int) {
    c.isMovieClip && version == ACTIONSCRIPT2 && (c.endFrame == 0 || c.endFrame != frame)
  }

  predicate RebuildsChild(c: Child, frame: int) {
    c.endFrame > 0 && c.endFrame == frame && c.isMovieClip
  }

  /** The clipping flag passed to child `c`: set while a MovieClip mask is drawn. */
  function ClipFlag(isClip: bool, c: Child): bool {
    if c.clipDepth != 0 && c.isMovieClip then true else isClip
  }

  /** Events before a child's draw: the scope it closes, then the scope it opens. */
  function Before(closes: bool, masks: bool): seq<DrawEvent> {
    (if closes then [Restore] else []) + (if masks then [Save, BeginPath] else [])
  }

  /** Events after a child's draw: the clip of a MovieClip mask, its advance, its rebuild. */
  function After(c: Child, frame: int, version: int): seq<DrawEvent> {
    (if c.clipDepth != 0 && c.isMovieClip then [Clip] else [])
    + (if AdvancesChild(c, frame, version) then [AdvanceChild(c.id)] else [])
    + (if RebuildsChild(c, frame) then [Rebuild(c.id)] else [])
  }

  /** The mask stack after visiting child `c` at `depth`: one scope closed, its own opened. */
  function NextClips(clips: seq<int>, depth: nat, c: Child): seq<int>
  {
    var rest := CloseScope(clips, depth);
    if c.clipDepth != 0 then rest + [Int32.ToInt32(c.clipDepth)] else rest
  }

  /** The flag carried past child `c`: a MovieClip mask clears it once its clip is set. */
  function NextIsClip(isClip: bool, c: Child): bool
  {
    if c.clipDepth != 0 && c.isMovieClip then false else isClip
  }

  /** The events of visiting child `c` at `depth`. */
  function StepEvents(p: PassState, depth: nat, c: Child, frame: int, version: int): seq<DrawEvent>
  {
    Before(FirstClosable(p.clips, depth).Some?, c.clipDepth != 0)
    + [DrawChild(depth, c.id, ClipFlag(p.isClip, c))] + After(c, frame, version)
  }

  /** The state change of visiting child `c` at `depth`. */
  function Step(p: PassState, depth: nat, c: Child, frame: int, version: int): PassState
  {
    PassState(NextClips(p.clips, depth, c), NextIsClip(p.isClip, c), p.events + StepEvents(p, depth, c, frame, version))
  }

  /** The state after visiting depths 0 .. n-1, skipping depths the controller lacks. */
  function Visit(n: nat, ctrl: map<nat, Child>, frame: int, version: int, isClip: bool): PassState
  {
    if n == 0 then PassState([], isClip, [])
    else
      var p := Visit(n - 1, ctrl, frame, version, isClip);
      if n - 1 in ctrl then Step(p, n - 1, ctrl[n - 1], frame, version) else p
  }

  /** The events of the loop over the controller, then the single restore for any scopes left open. */
  function ChildPass(ctrl: map<nat, Child>, length: nat, frame: int, version: int, isClip: bool): seq<DrawEvent>
  {
    var p := Visit(length, ctrl, frame, version, isClip);
    p.events + (if |p.clips| > 0 then [Restore] else [])
  }

  // ---------------------------------------------------------------------------
  // Projections of a trace

  /** How often `e` occurs in the trace. */
  function Count(evs: seq<DrawEvent>, e: DrawEvent): nat
  {
    if evs == [] then 0 else Count(evs[..|evs| - 1], e) + (if evs[|evs| - 1] == e then 1 else 0)
  }

  /** The depths of the children drawn, in trace order. */
  function DrawnOf(evs: seq<DrawEvent>): seq<nat>
  {
    if evs == [] then []
    else (if evs[0].DrawChild? then [evs[0].depth] else []) + DrawnOf(evs[1..])
  }

  /** The controller's depths below `n`, ascending. */
  function LiveDepths(n: nat, ctrl: map<nat, Child>): seq<nat>
  {
    if n == 0 then [] else LiveDepths(n - 1, ctrl) + (if n - 1 in ctrl then [n - 1] else [])
  }

  lemma {:induction false} DrawnConcat(a: seq<DrawEvent>, b: seq<DrawEvent>)
    ensures DrawnOf(a + b) == DrawnOf(a) + DrawnOf(b)
  {
    if a != [] {
      assert (a + b)[0] == a[0];
      assert (a + b)[1..] == a[1..] + b;
      DrawnConcat(a[1..], b);
    } else {
      assert a + b == b;
    }
  }

  lemma DrawnSingle(e: DrawEvent)
    ensures DrawnOf([e]) == if e.DrawChild? then [e.depth] else []
  {
    assert [e][1..] == [];
  }

  // ---------------------------------------------------------------------------
  // Depth order

  /** `LiveDepths` is strictly ascending and holds exactly the controller's depths below `n`. */
  lemma {:induction false} LiveDepthsSpec(n: nat, ctrl: map<nat, Child>)
    ensures forall i, j :: 0 <= i < j < |LiveDepths(n, ctrl)| ==> LiveDepths(n, ctrl)[i] < LiveDepths(n, ctrl)[j]
    ensures forall d :: d in LiveDepths(n, ctrl) <==> d < n && d in ctrl
  {
    if n > 0 {
      LiveDepthsSpec(n - 1, ctrl);
      var ds := LiveDepths(n - 1, ctrl);
      assert forall i :: 0 <= i < |ds| ==> ds[i] in ds;
    }
  }

  /** The children drawn in the first `n` depths are the live depths, each once, ascending. */
  lemma {:induction false} VisitDrawsLiveDepths(n: nat, ctrl: map<nat, Child>, frame: int, version: int, isClip: bool)
    ensures DrawnOf(Visit(n, ctrl, frame, version, isClip).events) == LiveDepths(n, ctrl)
  {
    if n > 0 {
      VisitDrawsLiveDepths(n - 1, ctrl, frame, version, isClip);
      VisitDrawsOneMore(n, ctrl, frame, version, isClip);
    }
  }

  /** Depth `n - 1` adds itself to the drawn depths exactly when it is in the controller. */
  lemma VisitDrawsOneMore(n: nat, ctrl: map<nat, Child>, frame: int, version: int, isClip: bool)
    requires n > 0
    ensures DrawnOf(Visit(n, ctrl, frame, version, isClip).events)
            == DrawnOf(Visit(n - 1, ctrl, frame, version, isClip).events) + (if n - 1 in ctrl then [n - 1] else [])
  {
    var p := Visit(n - 1, ctrl, frame, version, isClip);
    if n - 1 in ctrl {
      StepDrawn(p, n - 1, ctrl[n - 1], frame, version);
    } else {
      assert DrawnOf(p.events) + [] == DrawnOf(p.events);
    }
  }

  /** One child's visit draws exactly that child. */
  lemma StepDrawn(p: PassState, depth: nat, c: Child, frame: int, version: int)
    ensures DrawnOf(Step(p, depth, c, frame, version).events) == DrawnOf(p.events) + [depth]
  {
    var pre := Before(FirstClosable(p.clips, depth).Some?, c.clipDepth != 0);
    var mid := [DrawChild(depth, c.id, ClipFlag(p.isClip, c))];
    var post := After(c, frame, version);
    StepEventsSplit(p, depth, c, frame, version);
    DrawnConcat(p.events + pre + mid, post);
    DrawnConcat(p.events + pre, mid);
    DrawnConcat(p.events, pre);
    DrawnSingle(mid[0]);
    AroundDrawHasNoDraw(FirstClosable(p.clips, depth).Some?, c, frame, version);
    assert DrawnOf(p.events) + [] + [depth] + [] == DrawnOf(p.events) + [depth];
  }

  lemma AroundDrawHasNoDraw(closes: bool, c: Child, frame: int, version: int)
    ensures DrawnOf(Before(closes, c.clipDepth != 0)) == []
    ensures DrawnOf(After(c, frame, version)) == []
  {
    DrawnSingle(Restore);
    DrawnSingle(Save);
    DrawnSingle(BeginPath);
    DrawnSingle(Clip);
    DrawnSingle(AdvanceChild(c.id));
    DrawnSingle(Rebuild(c.id));
    DrawnConcat([Save], [BeginPath]);
    var a := if closes then [Restore] else [];
    var b := if c.clipDepth != 0 then [Save, BeginPath] else [];
    assert [Save, BeginPath] == [Save] + [BeginPath];
    DrawnConcat(a, b);
    var p1 := if c.clipDepth != 0 && c.isMovieClip then [Clip] else [];
    var p2 := if AdvancesChild(c, frame, version) then [AdvanceChild(c.id)] else [];
    var p3 := if RebuildsChild(c, frame) then [Rebuild(c.id)] else [];
    DrawnConcat(p1 + p2, p3);
    DrawnConcat(p1, p2);
  }

  /**
   * When the length covers every depth of the controller, the pass draws
   * each live child exactly once, in strictly ascending order of depth.
   */
  lemma DrawsEveryDepthAscending(ctrl: map<nat, Child>, length: nat, frame: int, version: int, isClip: bool)
    requires forall k :: k in ctrl ==> k < length
    ensures var ds := DrawnOf(ChildPass(ctrl, length, frame, version, isClip));
            && (forall i, j :: 0 <= i < j < |ds| ==> ds[i] < ds[j])
            && (forall d :: d in ds <==> d in ctrl)
  {
    var p := Visit(length, ctrl, frame, version, isClip);
    var tail := if |p.clips| > 0 then [Restore] else [];
    DrawnConcat(p.events, tail);
    assert DrawnOf(tail) == [];
    VisitDrawsLiveDepths(length, ctrl, frame, version, isClip);
    LiveDepthsSpec(length, ctrl);
  }

  // ---------------------------------------------------------------------------
  // Mask scopes

  lemma CloseScopeLength(clips: seq<int>, depth: int)
    ensures |CloseScope(clips, depth)| == |clips| - (if FirstClosable(clips, depth).Some? then 1 else 0)
  {
  }

  /**
   * Every scope opened by the loop is a save and a begin-path; each one is
   * either restored in the loop or still on the stack.
   */
  lemma {:induction false} ScopeAccounting(n: nat, ctrl: map<nat, Child>, frame: int, version: int, isClip: bool)
    ensures ScopesBalanced(Visit(n, ctrl, frame, version, isClip))
  {
    if n > 0 {
      var p := Visit(n - 1, ctrl, frame, version, isClip);
      ScopeAccounting(n - 1, ctrl, frame, version, isClip);
      if n - 1 in ctrl {
        StepKeepsScopesBalanced(p, n - 1, ctrl[n - 1], frame, version);
        assert Visit(n, ctrl, frame, version, isClip) == Step(p, n - 1, ctrl[n - 1], frame, version);
      } else {
        assert Visit(n, ctrl, frame, version, isClip) == p;
      }
    }
  }

  /** Saves equal begin-paths, and saves equal restores plus the scopes still open. */
  predicate ScopesBalanced(p: PassState) {
    && Count(p.events, Save) == Count(p.events, BeginPath)
    && Count(p.events, Save) == Count(p.events, Restore) + |p.clips|
  }

  lemma StepKeepsScopesBalanced(p: PassState, depth: nat, c: Child, frame: int, version: int)
    requires ScopesBalanced(p)
    ensures ScopesBalanced(Step(p, depth, c, frame, version))
  {
    StepScopes(p, depth, c, frame, version);
  }

  /** One child's visit opens at most one scope and closes at most one. */
  lemma StepScopes(p: PassState, depth: nat, c: Child, frame: int, version: int)
    ensures var q := Step(p, depth, c, frame, version);
            var m := if c.clipDepth != 0 then 1 else 0;
            var r := if FirstClosable(p.clips, depth).Some? then 1 else 0;
            && Count(q.events, Save) == Count(p.events, Save) + m
            && Count(q.events, BeginPath) == Count(p.events, BeginPath) + m
            && Count(q.events, Restore) == Count(p.events, Restore) + r
            && |q.clips| == |p.clips| - r + m
  {
    StepCount(p, depth, c, frame, version, Save);
    StepCount(p, depth, c, frame, version, BeginPath);
    StepCount(p, depth, c, frame, version, Restore);
    CloseScopeLength(p.clips, depth);
  }

  /** The trace of one child's visit, in its four parts. */
  lemma StepEventsSplit(p: PassState, depth: nat, c: Child, frame: int, version: int)
    ensures Step(p, depth, c, frame, version).events
            == p.events + Before(FirstClosable(p.clips, depth).Some?, c.clipDepth != 0)
               + [DrawChild(depth, c.id, ClipFlag(p.isClip, c))] + After(c, frame, version)
  {
    Regroup(p.events, Before(FirstClosable(p.clips, depth).Some?, c.clipDepth != 0),
            [DrawChild(depth, c.id, ClipFlag(p.isClip, c))], After(c, frame, version));
  }

  lemma Regroup(a: seq<DrawEvent>, b: seq<DrawEvent>, c: seq<DrawEvent>, d: seq<DrawEvent>)
    ensures a + (b + c + d) == a + b + c + d
  {
  }

  /** How one child's visit changes the count of a scope event. */
  lemma StepCount(p: PassState, depth: nat, c: Child, frame: int, version: int, e: DrawEvent)
    requires e == Save || e == BeginPath || e == Restore
    ensures Count(Step(p, depth, c, frame, version).events, e)
            == Count(p.events, e) + (if FirstClosable(p.clips, depth).Some? && e == Restore then 1 else 0)
               + (if c.clipDepth != 0 && e != Restore then 1 else 0)
  {
    var closes := FirstClosable(p.clips, depth).Some?;
    var pre := Before(closes, c.clipDepth != 0);
    var mid := [DrawChild(depth, c.id, ClipFlag(p.isClip, c))];
    var post := After(c, frame, version);
    StepEventsSplit(p, depth, c, frame, version);
    CountSplit(p.events, pre, mid, post, e);
    BeforeCount(closes, c.clipDepth != 0, e);
    AfterCount(c, frame, version, e);
    CountSingle(mid[0], e);
  }

  lemma CountSplit(a: seq<DrawEvent>, pre: seq<DrawEvent>, mid: seq<DrawEvent>, post: seq<DrawEvent>, e: DrawEvent)
    ensures Count(a + pre + mid + post, e) == Count(a, e) + Count(pre, e) + Count(mid, e) + Count(post, e)
  {
    CountConcat(a + pre + mid, post, e);
    CountConcat(a + pre, mid, e);
    CountConcat(a, pre, e);
  }

  lemma {:induction false} CountConcat(a: seq<DrawEvent>, b: seq<DrawEvent>, e: DrawEvent)
    ensures Count(a + b, e) == Count(a, e) + Count(b, e)
  {
    if b == [] {
      assert a + b == a;
    } else {
      assert (a + b)[..|a + b| - 1] == a + b[..|b| - 1];
      CountConcat(a, b[..|b| - 1], e);
    }
  }

  lemma BeforeCount(closes: bool, masks: bool, e: DrawEvent)
    requires e == Save || e == BeginPath || e == Restore
    ensures Count(Before(closes, masks), e)
            == (if closes && e == Restore then 1 else 0) + (if masks && e != Restore then 1 else 0)
  {
    var a: seq<DrawEvent> := if closes then [Restore] else [];
    var b: seq<DrawEvent> := if masks then [Save, BeginPath] else [];
    CountConcat(a, b, e);
    CountSingle(Restore, e);
    CountSingle(Save, e);
    CountSingle(BeginPath, e);
    assert [Save, BeginPath] == [Save] + [BeginPath];
    CountConcat([Save], [BeginPath], e);
  }

  lemma AfterCount(c: Child, frame: int, version: int, e: DrawEvent)
    requires e == Save || e == BeginPath || e == Restore
    ensures Count(After(c, frame, version), e) == 0
  {
    var p1: seq<DrawEvent> := if c.clipDepth != 0 && c.isMovieClip then [Clip] else [];
    var p2: seq<DrawEvent> := if AdvancesChild(c, frame, version) then [AdvanceChild(c.id)] else [];
    var p3: seq<DrawEvent> := if RebuildsChild(c, frame) then [Rebuild(c.id)] else [];
    assert After(c, frame, version) == p1 + p2 + p3;
    CountConcat(p1 + p2, p3, e);
    CountConcat(p1, p2, e);
    CountSingle(Clip, e);
    CountSingle(AdvanceChild(c.id), e);
    CountSingle(Rebuild(c.id), e);
  }

  lemma {:induction false} CountIsMultiplicity(evs: seq<DrawEvent>, e: DrawEvent)
    ensures Count(evs, e) == multiset(evs)[e]
  {
    if evs != [] {
      var init := evs[..|evs| - 1];
      CountIsMultiplicity(init, e);
      assert evs == init + [evs[|evs| - 1]];
    }
  }

  lemma CountSingle(x: DrawEvent, e: DrawEvent)
    ensures Count([x], e) == if x == e then 1 else 0
  {
    assert [x][..0] == [];
  }

  /**
   * The restores of the whole pass match its saves exactly when at most one
   * scope is left open by the loop: the closing restore is issued once,
   * however many scopes remain.
   */
  lemma BalancedIffAtMostOneLeftOpen(ctrl: map<nat, Child>, length: nat, frame: int, version: int, isClip: bool)
    ensures var evs := ChildPass(ctrl, length, frame, version, isClip);
            var p := Visit(length, ctrl, frame, version, isClip);
            && Count(evs, Save) == Count(evs, BeginPath)
            && (Count(evs, Restore) == Count(evs, Save) <==> |p.clips| <= 1)
  {
    var p := Visit(length, ctrl, frame, version, isClip);
    var tail: seq<DrawEvent> := if |p.clips| > 0 then [Restore] else [];
    ScopeAccounting(length, ctrl, frame, version, isClip);
    CountConcat(p.events, tail, Save);
    CountConcat(p.events, tail, BeginPath);
    CountConcat(p.events, tail, Restore);
    CountSingle(Restore, Save);
    CountSingle(Restore, BeginPath);
    CountSingle(Restore, Restore);
  }

  /**
   * With `k` scopes left open by the loop, a pass issues `k - 1` fewer
   * restores than saves; so two or more open scopes always leave a save
   * without its restore.
   */
  lemma UnrestoredSaves(ctrl: map<nat, Child>, length: nat, frame: int, version: int, isClip: bool)
    ensures var evs := ChildPass(ctrl, length, frame, version, isClip);
            var k := |Visit(length, ctrl, frame, version, isClip).clips|;
            && (k == 0 ==> Count(evs, Restore) == Count(evs, Save))
            && (k > 0 ==> Count(evs, Restore) + k - 1 == Count(evs, Save))
            && (k >= 2 ==> Count(evs, Restore) < Count(evs, Save))
  {
    var p := Visit(length, ctrl, frame, version, isClip);
    var tail: seq<DrawEvent> := if |p.clips| > 0 then [Restore] else [];
    ScopeAccounting(length, ctrl, frame, version, isClip);
    CountConcat(p.events, tail, Save);
    CountConcat(p.events, tail, Restore);
    CountSingle(Restore, Save);
    CountSingle(Restore, Restore);
  }

  /**
   * An instance of that: two nested masks whose clip depth reaches past
   * every later depth give two saves, but the pass restores only once.
   */
  lemma TwoOpenScopesOneRestore()
    ensures var ctrl := map[1 := Child(7, 1, 0, 1, false, 10), 2 := Child(8, 1, 0, 2, false, 10)];
            var evs := ChildPass(ctrl, 3, 1, ACTIONSCRIPT3, false);
            Count(evs, Save) == 2 && Count(evs, Restore) == 1
  {
    var c1, c2 := Child(7, 1, 0, 1, false, 10), Child(8, 1, 0, 2, false, 10);
    var ctrl := map[1 := c1, 2 := c2];
    var p1 := Visit(1, ctrl, 1, ACTIONSCRIPT3, false);
    assert p1 == PassState([], false, []) by {
      assert Visit(0, ctrl, 1, ACTIONSCRIPT3, false) == PassState([], false, []);
      assert 0 !in ctrl;
    }
    var p2 := Visit(2, ctrl, 1, ACTIONSCRIPT3, false);
    assert p2 == PassState([10], false, [Save, BeginPath, DrawChild(1, 7, false)]) by {
      assert After(c1, 1, ACTIONSCRIPT3) == [];
      assert p2 == Step(p1, 1, c1, 1, ACTIONSCRIPT3);
    }
    var p3 := Visit(3, ctrl, 1, ACTIONSCRIPT3, false);
    assert p3.clips == [10, 10] && p3.events == p2.events + [Save, BeginPath, DrawChild(2, 8, false)] by {
      assert After(c2, 1, ACTIONSCRIPT3) == [];
      assert FirstClosable([10], 2) == None;
      assert p3 == Step(p2, 2, c2, 1, ACTIONSCRIPT3);
    }
    var evs := ChildPass(ctrl, 3, 1, ACTIONSCRIPT3, false);
    assert evs == [Save, BeginPath, DrawChild(1, 7, false), Save, BeginPath, DrawChild(2, 8, false), Restore];
    SevenEventCounts(evs);
  }

  lemma SevenEventCounts(evs: seq<DrawEvent>)
    requires evs == [Save, BeginPath, DrawChild(1, 7, false), Save, BeginPath, DrawChild(2, 8, false), Restore]
    ensures Count(evs, Save) == 2 && Count(evs, Restore) == 1
  {
    assert multiset(evs)[Save] == 2 && multiset(evs)[Restore] == 1;
    CountIsMultiplicity(evs, Save);
    CountIsMultiplicity(evs, Restore);
  }

  // ---------------------------------------------------------------------------
  // Advances and rebuilds

  /**
   * A child's frame advance is recorded exactly for the live MovieClip
   * children whose window does not end at the frame, and only under
   * the legacy script version.
   */
  lemma {:induction false} AdvancedChildren(n: nat, ctrl: map<nat, Child>, frame: int, version: int, isClip: bool)
    ensures forall id :: AdvanceChild(id) in Visit(n, ctrl, frame, version, isClip).events <==>
              exists d :: d < n && d in ctrl && ctrl[d].id == id && AdvancesChild(ctrl[d], frame, version)
  {
    if n > 0 {
      AdvancedChildren(n - 1, ctrl, frame, version, isClip);
      if n - 1 in ctrl {
        var p := Visit(n - 1, ctrl, frame, version, isClip);
        StepMembers(p, n - 1, ctrl[n - 1], frame, version);
      }
    }
  }

  /** A rebuild is requested exactly for the live MovieClip children whose window ends at the frame. */
  lemma {:induction false} RebuiltChildren(n: nat, ctrl: map<nat, Child>, frame: int, version: int, isClip: bool)
    ensures forall id :: Rebuild(id) in Visit(n, ctrl, frame, version, isClip).events <==>
              exists d :: d < n && d in ctrl && ctrl[d].id == id && RebuildsChild(ctrl[d], frame)
  {
    if n > 0 {
      RebuiltChildren(n - 1, ctrl, frame, version, isClip);
      if n - 1 in ctrl {
        var p := Visit(n - 1, ctrl, frame, version, isClip);
        StepMembers(p, n - 1, ctrl[n - 1], frame, version);
      }
    }
  }

  /** The advance and rebuild events that one child's visit adds. */
  lemma StepMembers(p: PassState, depth: nat, c: Child, frame: int, version: int)
    ensures forall id :: AdvanceChild(id) in Step(p, depth, c, frame, version).events <==>
              AdvanceChild(id) in p.events || (AdvancesChild(c, frame, version) && id == c.id)
    ensures forall id :: Rebuild(id) in Step(p, depth, c, frame, version).events <==>
              Rebuild(id) in p.events || (RebuildsChild(c, frame) && id == c.id)
  {
    forall id
      ensures AdvanceChild(id) in Step(p, depth, c, frame, version).events <==>
                AdvanceChild(id) in p.events || (AdvancesChild(c, frame, version) && id == c.id)
      ensures Rebuild(id) in Step(p, depth, c, frame, version).events <==>
                Rebuild(id) in p.events || (RebuildsChild(c, frame) && id == c.id)
    {
      StepMember(p, depth, c, frame, version, AdvanceChild(id));
      StepMember(p, depth, c, frame, version, Rebuild(id));
      AfterMembers(c, frame, version, id);
    }
  }

  /** An advance or rebuild event is in the visit's trace exactly when it was before or follows the draw. */
  lemma StepMember(p: PassState, depth: nat, c: Child, frame: int, version: int, x: DrawEvent)
    requires x.AdvanceChild? || x.Rebuild?
    ensures x in Step(p, depth, c, frame, version).events <==> x in p.events || x in After(c, frame, version)
  {
    StepEventsSplit(p, depth, c, frame, version);
    BeforeHasScopeEventsOnly(FirstClosable(p.clips, depth).Some?, c.clipDepth != 0);
  }

  lemma AfterMembers(c: Child, frame: int, version: int, id: int)
    ensures AdvanceChild(id) in After(c, frame, version) <==> AdvancesChild(c, frame, version) && id == c.id
    ensures Rebuild(id) in After(c, frame, version) <==> RebuildsChild(c, frame) && id == c.id
  {
    var e4: seq<DrawEvent> := if c.clipDepth != 0 && c.isMovieClip then [Clip] else [];
    var e5: seq<DrawEvent> := if AdvancesChild(c, frame, version) then [AdvanceChild(c.id)] else [];
    var e6: seq<DrawEvent> := if RebuildsChild(c, frame) then [Rebuild(c.id)] else [];
    assert After(c, frame, version) == e4 + e5 + e6;
  }

  /** The event at `q`, when it is an advance, comes right after that child's draw (after its clip, for a MovieClip mask). */
  predicate AdvanceAfterDrawAt(evs: seq<DrawEvent>, q: nat)
    requires q < |evs|
  {
    evs[q].AdvanceChild? ==>
      || (q >= 1 && evs[q - 1].DrawChild? && evs[q - 1].id == evs[q].id)
      || (q >= 2 && evs[q - 1] == Clip && evs[q - 2].DrawChild? && evs[q - 2].id == evs[q].id)
  }

  /** Each child's advance comes right after that child's draw. */
  predicate AdvanceFollowsDraw(evs: seq<DrawEvent>)
  {
    forall q :: 0 <= q < |evs| ==> AdvanceAfterDrawAt(evs, q)
  }

  lemma {:induction false} AdvanceRightAfterDraw(n: nat, ctrl: map<nat, Child>, frame: int, version: int, isClip: bool)
    ensures AdvanceFollowsDraw(Visit(n, ctrl, frame, version, isClip).events)
  {
    if n > 0 {
      AdvanceRightAfterDraw(n - 1, ctrl, frame, version, isClip);
      if n - 1 in ctrl {
        StepKeepsAdvanceAfterDraw(Visit(n - 1, ctrl, frame, version, isClip), n - 1, ctrl[n - 1], frame, version);
      }
    }
  }

  lemma StepKeepsAdvanceAfterDraw(p: PassState, depth: nat, c: Child, frame: int, version: int)
    requires AdvanceFollowsDraw(p.events)
    ensures AdvanceFollowsDraw(Step(p, depth, c, frame, version).events)
  {
    var draw := DrawChild(depth, c.id, ClipFlag(p.isClip, c));
    var before := Before(FirstClosable(p.clips, depth).Some?, c.clipDepth != 0);
    var e4: seq<DrawEvent> := if c.clipDepth != 0 && c.isMovieClip then [Clip] else [];
    var e5: seq<DrawEvent> := if AdvancesChild(c, frame, version) then [AdvanceChild(c.id)] else [];
    var e6: seq<DrawEvent> := if RebuildsChild(c, frame) then [Rebuild(c.id)] else [];
    var tail := before + [draw] + e4 + e5 + e6;
    assert StepEvents(p, depth, c, frame, version) == tail;
    BeforeHasScopeEventsOnly(FirstClosable(p.clips, depth).Some?, c.clipDepth != 0);
    SegmentAdvanceAfterDraw(before, draw, e4, e5, e6, c.id);
    LiftAdvanceAfterDraw(p.events, tail);
  }

  lemma SegmentAdvanceAfterDraw(before: seq<DrawEvent>, draw: DrawEvent, e4: seq<DrawEvent>, e5: seq<DrawEvent>, e6: seq<DrawEvent>, id: int)
    requires forall x :: x in before ==> x in [Restore, Save, BeginPath]
    requires draw.DrawChild? && draw.id == id
    requires e4 == [] || e4 == [Clip]
    requires e5 == [] || e5 == [AdvanceChild(id)]
    requires e6 == [] || e6 == [Rebuild(id)]
    ensures var tail := before + [draw] + e4 + e5 + e6;
            AdvanceFollowsDraw(tail) && !tail[0].AdvanceChild?
  {
    var tail := before + [draw] + e4 + e5 + e6;
    assert [] + before + [draw] + (e4 + e5 + e6) == tail;
    forall k | 0 <= k < |tail|
      ensures AdvanceAfterDrawAt(tail, k)
    {
      if k < |before| + 1 {
        NoAdvanceInBefore([], before, draw, e4 + e5 + e6, k);
      } else {
        AdvanceAfterOwnDraw(before + [draw], draw, e4, e5, e6, id, k);
      }
    }
    NoAdvanceInBefore([], before, draw, e4 + e5 + e6, 0);
  }

  /** Appending a trace that does not start with an advance keeps the ordering. */
  lemma LiftAdvanceAfterDraw(a: seq<DrawEvent>, t: seq<DrawEvent>)
    requires AdvanceFollowsDraw(a) && AdvanceFollowsDraw(t)
    requires t != [] ==> !t[0].AdvanceChild?
    ensures AdvanceFollowsDraw(a + t)
  {
    var evs := a + t;
    forall q | 0 <= q < |evs|
      ensures AdvanceAfterDrawAt(evs, q)
    {
      if q < |a| {
        assert evs[q] == a[q];
        if q >= 1 { assert evs[q - 1] == a[q - 1]; }
        if q >= 2 { assert evs[q - 2] == a[q - 2]; }
        assert AdvanceAfterDrawAt(a, q);
      } else {
        var k := q - |a|;
        assert evs[q] == t[k];
        assert AdvanceAfterDrawAt(t, k);
        if k >= 1 { assert evs[q - 1] == t[k - 1]; }
        if k >= 2 { assert evs[q - 2] == t[k - 2]; }
      }
    }
  }

  lemma BeforeHasScopeEventsOnly(closes: bool, masks: bool)
    ensures forall x :: x in Before(closes, masks) ==> x in [Restore, Save, BeginPath]
  {
  }

  lemma NoAdvanceInBefore(a: seq<DrawEvent>, before: seq<DrawEvent>, draw: DrawEvent, rest: seq<DrawEvent>, q: nat)
    requires forall x :: x in before ==> x in [Restore, Save, BeginPath]
    requires draw.DrawChild?
    requires |a| <= q < |a| + |before| + 1
    ensures q < |a + before + [draw] + rest| && !(a + before + [draw] + rest)[q].AdvanceChild?
  {
    var evs := a + before + [draw] + rest;
    if q < |a| + |before| {
      assert evs[q] == before[q - |a|];
      assert before[q - |a|] in before;
    } else {
      assert evs[q] == draw;
    }
  }

  lemma AdvanceAfterOwnDraw(pre: seq<DrawEvent>, draw: DrawEvent, e4: seq<DrawEvent>, e5: seq<DrawEvent>, e6: seq<DrawEvent>, id: int, q: nat)
    requires |pre| >= 1 && pre[|pre| - 1] == draw && draw.DrawChild? && draw.id == id
    requires e4 == [] || e4 == [Clip]
    requires e5 == [] || e5 == [AdvanceChild(id)]
    requires e6 == [] || e6 == [Rebuild(id)]
    requires |pre| <= q < |pre + e4 + e5 + e6|
    ensures AdvanceAfterDrawAt(pre + e4 + e5 + e6, q)
  {
    var evs := pre + e4 + e5 + e6;
    if q < |pre| + |e4| {
      assert evs[q] == Clip;
    } else if q > |pre| + |e4| {
      assert evs[q] == e6[q - |pre| - |e4| - |e5|];
    } else if e5 != [] {
      assert evs[q] == AdvanceChild(id);
      if e4 != [] {
        assert evs[q - 1] == Clip;
        assert evs[q - 2] == draw;
      } else {
        assert evs[q - 1] == draw;
      }
    } else {
      assert evs[q] == e6[0];
    }
  }
}
