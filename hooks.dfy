/**
 * The per-frame dispatcher of the client (meteor.callback.Hooks).
 *
 * The event bus, the deferred event bus, the scheduler, the client thread, the
 * info-box manager and the chat-message manager are collaborators whose code is
 * not part of this model: every call the dispatcher makes on them is appended to
 * an ordered trace of `Call`s, and nothing is assumed about what they do.  The
 * monotonic clock (System.nanoTime) is the parameter `now`, and an exception
 * thrown by a maintenance step is the parameter `failing`.
 */
module Callback {
  import opened Wrappers
  import opened GameStates

  /** Minimum time between two maintenance passes, in nanoseconds: one game tick (600 ms). */
  const Check: int := 600_000_000

  datatype Event =
    | GameTick
    | BeforeRender
    | FakeXpDrop(statId: int, xp: int)
    | Posted(id: int)   // any other event handed to post/postDeferred

  /** The steps of the rate-limited maintenance pass. */
  datatype Maintenance = SchedulerTick | CullInfoBoxes | ProcessChatMessages | CheckWorldMap

  /** One call made by the dispatcher on a collaborator. */
  datatype Call =
    | Register              // eventBus.register(this)
    | Publish(event: Event) // eventBus.post
    | Defer(event: Event)   // deferredEventBus.post
    | Replay                // deferredEventBus.replay
    | InvokeClientThread    // clientThread.invoke
    | Maintain(step: Maintenance)

  /** The order of the maintenance pass, all inside one try block. */
  const MaintenancePass: seq<Maintenance> := [SchedulerTick, CullInfoBoxes, ProcessChatMessages, CheckWorldMap]

  /** The dispatcher's fields, plus the client's tick counter that it increments. */
  datatype State = State(shouldProcessGameTick: bool, ignoreNextNpcUpdate: bool, lastCheck: int, tickCount: int)

  /** The state after a hook and the calls the hook made, in order. */
  datatype Step = Step(next: State, calls: seq<Call>)

  function PassIndex(m: Maintenance): (k: nat)
    ensures k < |MaintenancePass| && MaintenancePass[k] == m
  {
    match m
    case SchedulerTick => 0
    case CullInfoBoxes => 1
    case ProcessChatMessages => 2
    case CheckWorldMap => 3
  }

  /**
   * The maintenance steps that are entered: all of them, or, when `failing`
   * throws, the steps up to and including it (the exception skips the rest).
   */
  function Attempted(failing: Option<Maintenance>): (r: seq<Maintenance>)
    ensures r <= MaintenancePass
    ensures failing.None? ==> r == MaintenancePass
    ensures failing.Some? ==> |r| > 0 && r[|r| - 1] == failing.value && failing.value !in r[..|r| - 1]
  {
    match failing
    case None => MaintenancePass
    case Some(m) => MaintenancePass[..PassIndex(m) + 1]
  }

  /** The calls of the maintenance pass: one per step entered. */
  function PassCalls(failing: Option<Maintenance>): (r: seq<Call>)
    ensures forall i :: 0 <= i < |r| ==> r[i].Maintain?
  {
    match failing
    case Some(SchedulerTick) => [Maintain(SchedulerTick)]
    case Some(CullInfoBoxes) => [Maintain(SchedulerTick), Maintain(CullInfoBoxes)]
    case Some(ProcessChatMessages) => [Maintain(SchedulerTick), Maintain(CullInfoBoxes), Maintain(ProcessChatMessages)]
    case _ => [Maintain(SchedulerTick), Maintain(CullInfoBoxes), Maintain(ProcessChatMessages), Maintain(CheckWorldMap)]
  }

  /** clientMainLoop, one frame. */
  function MainLoop(s: State, now: int, failing: Option<Maintenance>): (r: Step)
    ensures r.next.tickCount == s.tickCount + (if s.shouldProcessGameTick then 1 else 0)
    ensures !r.next.shouldProcessGameTick && r.next.ignoreNextNpcUpdate == s.ignoreNextNpcUpdate
    ensures r.next.lastCheck == if now - s.lastCheck < Check then s.lastCheck else now
  {
    var ticked := if s.shouldProcessGameTick then s.(shouldProcessGameTick := false, tickCount := s.tickCount + 1) else s;
    var tickCalls := if s.shouldProcessGameTick then [Replay, Publish(GameTick)] else [];
    var frameCalls := tickCalls + [Publish(BeforeRender), InvokeClientThread];
    if now - s.lastCheck < Check then Step(ticked, frameCalls)
    else Step(ticked.(lastCheck := now), frameCalls + PassCalls(failing))
  }

  /** updateNpcs: arm the tick flag unless the update is to be ignored; replay in both cases. */
  function NpcUpdateStep(s: State): (r: Step)
    ensures r.calls == [Replay]
    ensures s.ignoreNextNpcUpdate ==> r.next == s.(ignoreNextNpcUpdate := false)
    ensures !s.ignoreNextNpcUpdate ==> r.next == s.(shouldProcessGameTick := true)
  {
    if s.ignoreNextNpcUpdate then Step(s.(ignoreNextNpcUpdate := false), [Replay])
    else Step(s.(shouldProcessGameTick := true), [Replay])
  }

  /** onGameStateChanged: logging in and hopping make the next NPC update be ignored. */
  function GameStateChanged(s: State, gs: GameState): (r: State)
    ensures r.ignoreNextNpcUpdate <==> (gs == LoggingIn || gs == Hopping || s.ignoreNextNpcUpdate)
    ensures r.(ignoreNextNpcUpdate := s.ignoreNextNpcUpdate) == s
  {
    match gs
    case LoggingIn => s.(ignoreNextNpcUpdate := true)
    case Hopping => s.(ignoreNextNpcUpdate := true)
    case _ => s
  }

  /** onScriptCallbackEvent: a "fakeXpDrop" script callback publishes the two top int-stack values. */
  function ScriptCallback(eventName: string, intStack: seq<int>, intStackSize: int): (r: seq<Call>)
    requires eventName == "fakeXpDrop" ==> 2 <= intStackSize <= |intStack|
    ensures eventName != "fakeXpDrop" ==> r == []
    ensures eventName == "fakeXpDrop" ==>
      r == [Publish(FakeXpDrop(intStack[intStackSize - 2], intStack[intStackSize - 1]))]
  {
    if eventName != "fakeXpDrop" then []
    else [Publish(FakeXpDrop(intStack[intStackSize - 2], intStack[intStackSize - 1]))]
  }

  // ---------------------------------------------------------------------------
  // Reading a trace

  /** `c` occurs in `cs` exactly once, at index `k`. */
  predicate OnlyAt(c: Call, cs: seq<Call>, k: int)
  {
    0 <= k < |cs| && cs[k] == c && forall i :: 0 <= i < |cs| && cs[i] == c ==> i == k
  }

  /** The maintenance steps a trace entered, in order. */
  function MaintenanceOf(cs: seq<Call>): (r: seq<Maintenance>)
    ensures |r| <= |cs|
  {
    if cs == [] then []
    else if cs[0].Maintain? then [cs[0].step] + MaintenanceOf(cs[1..])
    else MaintenanceOf(cs[1..])
  }

  lemma {:induction false} MaintenanceOfAppend(a: seq<Call>, b: seq<Call>)
    ensures MaintenanceOf(a + b) == MaintenanceOf(a) + MaintenanceOf(b)
  {
    if a == [] {
      assert a + b == b;
    } else {
      assert (a + b)[1..] == a[1..] + b;
      MaintenanceOfAppend(a[1..], b);
    }
  }

  lemma {:induction false} MaintenanceOfNone(cs: seq<Call>)
    requires forall i :: 0 <= i < |cs| ==> !cs[i].Maintain?
    ensures MaintenanceOf(cs) == []
  {
    if cs != [] {
      MaintenanceOfNone(cs[1..]);
    }
  }

  lemma MaintenanceOfCons(m: Maintenance, cs: seq<Call>)
    ensures MaintenanceOf([Maintain(m)] + cs) == [m] + MaintenanceOf(cs)
  {
    assert ([Maintain(m)] + cs)[1..] == cs;
  }

  lemma MaintenanceOfPass(failing: Option<Maintenance>)
    ensures MaintenanceOf(PassCalls(failing)) == Attempted(failing)
  {
    var w := [Maintain(CheckWorldMap)];
    var p := [Maintain(ProcessChatMessages)];
    var c := [Maintain(CullInfoBoxes)];
    MaintenanceOfCons(CheckWorldMap, []);
    MaintenanceOfCons(ProcessChatMessages, []);
    MaintenanceOfCons(CullInfoBoxes, []);
    MaintenanceOfCons(SchedulerTick, []);
    MaintenanceOfCons(ProcessChatMessages, w);
    MaintenanceOfCons(CullInfoBoxes, p);
    MaintenanceOfCons(SchedulerTick, c);
    MaintenanceOfCons(CullInfoBoxes, p + w);
    assert c + p + w == [Maintain(CullInfoBoxes)] + (p + w);
    MaintenanceOfCons(SchedulerTick, c + p);
    MaintenanceOfCons(SchedulerTick, c + p + w);
    match failing
    case Some(SchedulerTick) =>
      assert PassCalls(failing) == [Maintain(SchedulerTick)] + [];
    case Some(CullInfoBoxes) =>
      assert PassCalls(failing) == [Maintain(SchedulerTick)] + c;
    case Some(ProcessChatMessages) =>
      assert PassCalls(failing) == [Maintain(SchedulerTick)] + (c + p);
    case _ =>
      assert PassCalls(failing) == [Maintain(SchedulerTick)] + (c + p + w);
  }

  // ---------------------------------------------------------------------------
  // Properties of one frame

  /** The calls of one frame before its maintenance pass. */
  function FrameCalls(armed: bool): seq<Call>
  {
    (if armed then [Replay, Publish(GameTick)] else []) + [Publish(BeforeRender), InvokeClientThread]
  }

  lemma MainLoopCalls(s: State, now: int, failing: Option<Maintenance>)
    ensures MainLoop(s, now, failing).calls
      == FrameCalls(s.shouldProcessGameTick) + (if now - s.lastCheck < Check then [] else PassCalls(failing))
  {
  }

  /** The frame calls followed by calls that are all maintenance steps. */
  predicate FrameThenMaintenance(armed: bool, calls: seq<Call>)
  {
    var frame := FrameCalls(armed);
    |frame| <= |calls| && calls[..|frame|] == frame
      && forall i :: |frame| <= i < |calls| ==> calls[i].Maintain?
  }

  lemma MainLoopShape(s: State, now: int, failing: Option<Maintenance>)
    ensures FrameThenMaintenance(s.shouldProcessGameTick, MainLoop(s, now, failing).calls)
  {
    MainLoopCalls(s, now, failing);
  }

  /**
   * Game-tick processing happens exactly when the flag was armed: the deferred
   * events are replayed first, then GAME_TICK is published, each once; an
   * unarmed frame does neither.
   */
  lemma GameTickOnlyWhenArmed(s: State, now: int, failing: Option<Maintenance>)
    ensures var calls := MainLoop(s, now, failing).calls;
      if s.shouldProcessGameTick then OnlyAt(Replay, calls, 0) && OnlyAt(Publish(GameTick), calls, 1)
      else Replay !in calls && Publish(GameTick) !in calls
  {
    var calls := MainLoop(s, now, failing).calls;
    var frame := FrameCalls(s.shouldProcessGameTick);
    MainLoopShape(s, now, failing);
    forall i | 0 <= i < |frame|
      ensures calls[i] == frame[i]
    {
      assert calls[..|frame|][i] == calls[i];
    }
  }

  /** Where BEFORE_RENDER sits in any frame followed by maintenance steps. */
  lemma RenderSlot(armed: bool, calls: seq<Call>)
    requires FrameThenMaintenance(armed, calls)
    ensures var k := if armed then 2 else 0;
      && OnlyAt(Publish(BeforeRender), calls, k)
      && k + 1 < |calls| && calls[k + 1] == InvokeClientThread
      && Replay !in calls[k..] && Publish(GameTick) !in calls[k..]
  {
    var frame := FrameCalls(armed);
    var k := if armed then 2 else 0;
    forall i | 0 <= i < |frame|
      ensures calls[i] == frame[i]
    {
      assert calls[..|frame|][i] == calls[i];
    }
    forall x | x in calls[k..]
      ensures x != Replay && x != Publish(GameTick)
    {
      var i :| 0 <= i < |calls[k..]| && calls[k..][i] == x;
      assert calls[k + i] == x;
    }
  }

  /**
   * BEFORE_RENDER is published exactly once per frame, after any tick
   * processing, and is immediately followed by clientThread.invoke().
   */
  lemma BeforeRenderOncePerFrame(s: State, now: int, failing: Option<Maintenance>)
    ensures var calls := MainLoop(s, now, failing).calls;
      var k := if s.shouldProcessGameTick then 2 else 0;
      && OnlyAt(Publish(BeforeRender), calls, k)
      && k + 1 < |calls| && calls[k + 1] == InvokeClientThread
      && Replay !in calls[k..] && Publish(GameTick) !in calls[k..]
  {
    MainLoopShape(s, now, failing);
    RenderSlot(s.shouldProcessGameTick, MainLoop(s, now, failing).calls);
  }

  /**
   * Maintenance runs at most once per Check interval: a frame within Check of
   * the last pass enters no maintenance step; otherwise the steps entered are
   * the fixed pass order, cut short after the step that throws.
   */
  lemma MaintenanceRateLimited(s: State, now: int, failing: Option<Maintenance>)
    ensures var r := MainLoop(s, now, failing);
      MaintenanceOf(r.calls) == if now - s.lastCheck < Check then [] else Attempted(failing)
  {
    var frame := FrameCalls(s.shouldProcessGameTick);
    MainLoopCalls(s, now, failing);
    MaintenanceOfNone(frame);
    if now - s.lastCheck >= Check {
      MaintenanceOfAppend(frame, PassCalls(failing));
      MaintenanceOfPass(failing);
    } else {
      assert frame + [] == frame;
    }
  }

  // ---------------------------------------------------------------------------
  // Properties of a sequence of hook calls

  datatype Input =
    | Frame(now: int, failing: Option<Maintenance>)
    | NpcUpdate
    | StateChanged(gameState: GameState)
    | PostEvent(event: Event)
    | PostDeferredEvent(event: Event)

  function Apply(s: State, input: Input): State
  {
    match input
    case Frame(now, failing) => MainLoop(s, now, failing).next
    case NpcUpdate => NpcUpdateStep(s).next
    case StateChanged(gs) => GameStateChanged(s, gs)
    case PostEvent(_) => s
    case PostDeferredEvent(_) => s
  }

  function Run(s: State, inputs: seq<Input>): State
    decreases |inputs|
  {
    if inputs == [] then s else Run(Apply(s, inputs[0]), inputs[1..])
  }

  /** Number of clientMainLoop calls. */
  function Frames(inputs: seq<Input>): nat
  {
    if inputs == [] then 0 else (if inputs[0].Frame? then 1 else 0) + Frames(inputs[1..])
  }

  /** Number of updateNpcs calls that armed the tick flag (were not ignored). */
  function Armings(s: State, inputs: seq<Input>): nat
    decreases |inputs|
  {
    if inputs == [] then 0
    else (if inputs[0].NpcUpdate? && !s.ignoreNextNpcUpdate then 1 else 0) + Armings(Apply(s, inputs[0]), inputs[1..])
  }

  function Bit(b: bool): nat { if b then 1 else 0 }

  /**
   * Over any sequence of hook calls the tick counter never goes down, rises by
   * at most one per frame, and rises no more often than updateNpcs armed the
   * flag (an armed flag still pending at the end counts as an unspent arming).
   */
  lemma {:induction false} TicksBounded(s: State, inputs: seq<Input>)
    ensures var e := Run(s, inputs);
      && s.tickCount <= e.tickCount <= s.tickCount + Frames(inputs)
      && (e.tickCount - s.tickCount) + Bit(e.shouldProcessGameTick) <= Armings(s, inputs) + Bit(s.shouldProcessGameTick)
    decreases |inputs|
  {
    if inputs != [] {
      var s' := Apply(s, inputs[0]);
      TicksBounded(s', inputs[1..]);
      match inputs[0]
      case Frame(now, failing) =>
        assert s'.tickCount == s.tickCount + Bit(s.shouldProcessGameTick);
      case NpcUpdate =>
      case StateChanged(gs) =>
      case PostEvent(_) =>
      case PostDeferredEvent(_) =>
    }
  }

  /**
   * The maintenance pass, one try block: the step that throws is entered,
   * the later ones are not.
   */
  method RunMaintenance(failing: Option<Maintenance>) returns (calls: seq<Call>)
    ensures calls == PassCalls(failing)
    ensures MaintenanceOf(calls) == Attempted(failing)
  {
    MaintenanceOfPass(failing);
    calls := [Maintain(SchedulerTick)];
    if failing == Some(SchedulerTick) {
      return;
    }
    calls := calls + [Maintain(CullInfoBoxes)];
    if failing == Some(CullInfoBoxes) {
      return;
    }
    calls := calls + [Maintain(ProcessChatMessages)];
    if failing == Some(ProcessChatMessages) {
      return;
    }
    calls := calls + [Maintain(CheckWorldMap)];
  }

  // ---------------------------------------------------------------------------
  // The dispatcher object

  class Hooks {
    var shouldProcessGameTick: bool
    var ignoreNextNpcUpdate: bool
    var lastCheck: int
    /** The client's tick counter (Client.getTickCount / setTickCount). */
    var tickCount: int
    /** Every call made on a collaborator, oldest first. */
    var trace: seq<Call>

    function Snapshot(): State
      reads this
    {
      State(shouldProcessGameTick, ignoreNextNpcUpdate, lastCheck, tickCount)
    }

    constructor (clientTickCount: int)
      ensures Snapshot() == State(false, false, 0, clientTickCount)
      ensures trace == [Register]
    {
      shouldProcessGameTick := false;
      ignoreNextNpcUpdate := false;
      lastCheck := 0;
      tickCount := clientTickCount;
      trace := [Register];
    }

    method Post(event: Event)
      modifies this`trace
      ensures trace == old(trace) + [Publish(event)]
    {
      trace := trace + [Publish(event)];
    }

    method PostDeferred(event: Event)
      modifies this`trace
      ensures trace == old(trace) + [Defer(event)]
    {
      trace := trace + [Defer(event)];
    }

    method ClientMainLoop(now: int, failing: Option<Maintenance>)
      modifies this
      ensures Snapshot() == MainLoop(old(Snapshot()), now, failing).next
      ensures trace == old(trace) + MainLoop(old(Snapshot()), now, failing).calls
    {
      ghost var armed := shouldProcessGameTick;
      ghost var before := trace;
      MainLoopCalls(Snapshot(), now, failing);
      if shouldProcessGameTick {
        shouldProcessGameTick := false;
        trace := trace + [Replay];
        trace := trace + [Publish(GameTick)];
        var tick := tickCount;
        tickCount := tick + 1;
      }
      trace := trace + [Publish(BeforeRender)];
      trace := trace + [InvokeClientThread];
      assert trace == before + FrameCalls(armed);

      if now - lastCheck < Check {
        return;
      }
      lastCheck := now;

      var pass := RunMaintenance(failing);
      trace := trace + pass;
    }

    method OnGameStateChanged(gameState: GameState)
      modifies this`ignoreNextNpcUpdate
      ensures Snapshot() == GameStateChanged(old(Snapshot()), gameState)
    {
      match gameState {
        case LoggingIn => ignoreNextNpcUpdate := true;
        case Hopping => ignoreNextNpcUpdate := true;
        case _ =>
      }
    }

    method UpdateNpcs()
      modifies this`ignoreNextNpcUpdate, this`shouldProcessGameTick, this`trace
      ensures Snapshot() == NpcUpdateStep(old(Snapshot())).next
      ensures trace == old(trace) + NpcUpdateStep(old(Snapshot())).calls
    {
      if ignoreNextNpcUpdate {
        ignoreNextNpcUpdate := false;
      } else {
        shouldProcessGameTick := true;
      }
      trace := trace + [Replay];
    }

    method OnScriptCallbackEvent(eventName: string, intStack: seq<int>, intStackSize: int)
      requires eventName == "fakeXpDrop" ==> 2 <= intStackSize <= |intStack|
      modifies this`trace
      ensures trace == old(trace) + ScriptCallback(eventName, intStack, intStackSize)
    {
      if eventName != "fakeXpDrop" {
        return;
      }
      var statId := intStack[intStackSize - 2];
      var xp := intStack[intStackSize - 1];
      trace := trace + [Publish(FakeXpDrop(statId, xp))];
    }
  }

  // ---------------------------------------------------------------------------
  // clearColorBuffer

  /** Index of column `col` of row `row` in a flat pixel array `canvasWidth` wide. */
  function Pos(canvasWidth: int, row: int, col: int): int
  {
    row * canvasWidth + col
  }

  /** Index `i` lies in one of the first `rows` rows of the rectangle. */
  ghost predicate Cleared(i: int, canvasWidth: int, x: int, y: int, width: int, rows: int)
  {
    exists cy, cx :: y <= cy < y + rows && x <= cx < x + width && i == Pos(canvasWidth, cy, cx)
  }

  /** Index `i` lies in one of the first `cols` columns of row `row` of the rectangle. */
  ghost predicate RowCleared(i: int, canvasWidth: int, row: int, x: int, cols: int)
  {
    exists cx :: x <= cx < x + cols && i == Pos(canvasWidth, row, cx)
  }

  lemma ClearedNextRow(i: int, canvasWidth: int, x: int, y: int, width: int, rows: int, cols: int)
    requires 0 <= rows && cols <= width
    requires Cleared(i, canvasWidth, x, y, width, rows) || RowCleared(i, canvasWidth, y + rows, x, cols)
    ensures Cleared(i, canvasWidth, x, y, width, rows + 1)
  {
    if Cleared(i, canvasWidth, x, y, width, rows) {
      var r, c :| y <= r < y + rows && x <= c < x + width && i == Pos(canvasWidth, r, c);
      assert y <= r < y + rows + 1;
    } else {
      var c :| x <= c < x + cols && i == Pos(canvasWidth, y + rows, c);
      assert y <= y + rows < y + rows + 1 && x <= c < x + width;
    }
  }

  /**
   * clearColorBuffer: zero the rectangle [x, x+width) x [y, y+height) of the
   * pixel buffer; every other pixel is left alone and `color` is not used.
   */
  method ClearColorBuffer(pixels: array<int>, canvasWidth: int, x: int, y: int, width: int, height: int, color: int)
    requires forall cy, cx :: y <= cy < y + height && x <= cx < x + width ==> 0 <= Pos(canvasWidth, cy, cx) < pixels.Length
    modifies pixels
    ensures forall cy, cx :: y <= cy < y + height && x <= cx < x + width ==> pixels[Pos(canvasWidth, cy, cx)] == 0
    ensures forall i :: 0 <= i < pixels.Length && !Cleared(i, canvasWidth, x, y, width, height) ==> pixels[i] == old(pixels[i])
  {
    var pixelPos := y * canvasWidth + x;
    var pixelJump := canvasWidth - width;

    var cy := y;
    while cy < y + height
      invariant y <= cy && (cy <= y + height || cy == y)
      invariant width > 0 ==> pixelPos == Pos(canvasWidth, cy, x)
      invariant forall r, c :: y <= r < cy && x <= c < x + width ==> pixels[Pos(canvasWidth, r, c)] == 0
      invariant forall i :: 0 <= i < pixels.Length && pixels[i] != old(pixels[i]) ==> Cleared(i, canvasWidth, x, y, width, cy - y)
    {
      var cx := x;
      while cx < x + width
        invariant x <= cx && (cx <= x + width || cx == x)
        invariant width > 0 ==> pixelPos == Pos(canvasWidth, cy, cx)
        invariant forall r, c :: y <= r < cy && x <= c < x + width ==> pixels[Pos(canvasWidth, r, c)] == 0
        invariant forall c :: x <= c < cx ==> pixels[Pos(canvasWidth, cy, c)] == 0
        invariant forall i :: 0 <= i < pixels.Length && pixels[i] != old(pixels[i]) ==>
          Cleared(i, canvasWidth, x, y, width, cy - y) || RowCleared(i, canvasWidth, cy, x, cx - x)
      {
        pixels[pixelPos] := 0;
        pixelPos := pixelPos + 1;
        cx := cx + 1;
      }
      pixelPos := pixelPos + pixelJump;
      if width > 0 {
        assert (cy + 1) * canvasWidth == cy * canvasWidth + canvasWidth;
      }
      forall i | 0 <= i < pixels.Length && pixels[i] != old(pixels[i])
        ensures Cleared(i, canvasWidth, x, y, width, cy + 1 - y)
      {
        ClearedNextRow(i, canvasWidth, x, y, width, cy - y, cx - x);
      }
      cy := cy + 1;
    }
  }
}
