/**
 * The input state of the raymarching demo (js/marcher.js): pointer
 * position, the [buttons, touch] pair handed to the shader, the per-button
 * pressed flags, and the 'p' key that pauses the renderer's clock.
 *
 * Each event handler runs to completion as one atomic step of the event
 * loop. The pure functions state what a handler does to the input state;
 * the Marcher class holds that state as fields and its handler methods are
 * proved to follow those functions.
 */
module Marcher {
  import WebGL2

  datatype Point = Point(x: real, y: real)

  /** The `touches` of a touchstart or touchmove: the browser always lists at least one active touch there. */
  type TouchList = s: seq<Point> | |s| > 0 witness [Point(0.0, 0.0)]

  /** The DOM events the demo listens to, with the fields its handlers read. */
  datatype Event =
    | MouseDown(button: nat, client: Point)
    | MouseUp(button: nat)
    | MouseMove(client: Point)
    | TouchStart(touches: TouchList)
    | TouchMove(touches: TouchList)
    | TouchEnd
    | KeyDown(key: string)

  /** One element of the JavaScript array mouseDown: an index never written is a hole. */
  datatype Slot = Hole | Flag(down: bool)

  /** mouseInfo, the pair [some mouse button is down, a touch is active] as the numbers 0 and 1. */
  datatype Info = Info(buttons: nat, touch: nat)

  /** The fields the handlers write: mousePosition, mouseInfo and mouseDown. */
  datatype InputState = InputState(position: Point, info: Info, mouseDown: seq<Slot>)

  /** The whole state the listeners change: the input fields and the renderer's pauseTime flag. */
  datatype Demo = Demo(input: InputState, paused: bool)

  /** The identity under which the demo's draw routine is registered as a render hook. */
  const DrawHook: WebGL2.HookId := 0

  /** Position and info start at [0, 0] and the three standard buttons are tracked and up. */
  function InitialInput(): (s: InputState)
    ensures s.position == Point(0.0, 0.0) && s.info == Info(0, 0)
    ensures |s.mouseDown| == 3 && forall i :: 0 <= i < 3 ==> s.mouseDown[i] == Flag(false)
  {
    InputState(Point(0.0, 0.0), Info(0, 0), [Flag(false), Flag(false), Flag(false)])
  }

  /** `after` is `before` with `after[b] = v` done JavaScript-style: an index past the end grows the array with holes. */
  predicate Written(before: seq<Slot>, after: seq<Slot>, b: nat, v: bool)
  {
    |after| == (if b < |before| then |before| else b + 1) &&
    after[b] == Flag(v) &&
    forall i :: 0 <= i < |after| && i != b ==> after[i] == (if i < |before| then before[i] else Hole)
  }

  /** The assignment `mouseDown[b] = v`. */
  function SetButton(slots: seq<Slot>, b: nat, v: bool): (r: seq<Slot>)
    ensures Written(slots, r, b, v)
  {
    if b < |slots| then slots[b := Flag(v)]
    else slots + seq(b - |slots|, _ => Hole) + [Flag(v)]
  }

  /** The reduce over mouseDown that ORs the entries together: a left fold that skips holes, giving 1 exactly when some tracked button is down. */
  function OrReduce(slots: seq<Slot>): (acc: nat)
    ensures acc <= 1
    ensures acc == 1 <==> exists i :: 0 <= i < |slots| && slots[i] == Flag(true)
    decreases |slots|
  {
    if |slots| == 0 then 0
    else
      var front := slots[..|slots| - 1];
      var acc := OrReduce(front);
      assert forall i :: 0 <= i < |front| ==> front[i] == slots[i];
      match slots[|slots| - 1]
      case Hole => acc
      case Flag(cur) => if acc == 1 || cur then 1 else 0
  }

  /** The events that carry a position, the ones getCoordinates is applied to. */
  predicate HasPosition(e: Event)
  {
    e.MouseDown? || e.MouseMove? || e.TouchStart? || e.TouchMove?
  }

  /** getCoordinates: the first touch point of a touch event, the event's own client coordinates otherwise. */
  function Coordinates(e: Event): (p: Point)
    requires HasPosition(e)
    ensures e.TouchStart? || e.TouchMove? ==> p == e.touches[0]
    ensures e.MouseDown? || e.MouseMove? ==> p == e.client
  {
    match e
    case TouchStart(touches) => touches[0]
    case TouchMove(touches) => touches[0]
    case MouseDown(_, client) => client
    case MouseMove(client) => client
  }

  /**
   * pressHandler. A mouse press marks its button down, so the buttons entry
   * of mouseInfo is always 1 and the touch entry 0; a touch press leaves
   * mouseDown alone and sets [1, 1]. Both move the pointer.
   */
  function Press(s: InputState, e: Event): (r: InputState)
    requires e.MouseDown? || e.TouchStart?
    ensures e.MouseDown? ==>
      Written(s.mouseDown, r.mouseDown, e.button, true) && r.info == Info(1, 0) && r.position == e.client
    ensures e.TouchStart? ==>
      r.mouseDown == s.mouseDown && r.info == Info(1, 1) && r.position == e.touches[0]
  {
    var s' :=
      if e.MouseDown? then
        var down := SetButton(s.mouseDown, e.button, true);
        s.(mouseDown := down, info := Info(OrReduce(down), 0))
      else
        s.(info := Info(1, 1));
    s'.(position := Coordinates(e))
  }

  /**
   * liftHandler. A mouse release marks its button up and leaves the buttons
   * entry at 1 exactly when some other tracked button is still down; a touch
   * end sets [0, 0] without looking at mouseDown. The pointer stays put.
   */
  function Lift(s: InputState, e: Event): (r: InputState)
    requires e.MouseUp? || e.TouchEnd?
    ensures r.position == s.position && r.info.touch == 0 && r.info.buttons <= 1
    ensures e.MouseUp? ==> Written(s.mouseDown, r.mouseDown, e.button, false)
    ensures e.MouseUp? ==> (r.info.buttons == 1 <==>
      exists i :: 0 <= i < |s.mouseDown| && i != e.button && s.mouseDown[i] == Flag(true))
    ensures e.TouchEnd? ==> r.mouseDown == s.mouseDown && r.info == Info(0, 0)
  {
    if e.MouseUp? then
      var down := SetButton(s.mouseDown, e.button, false);
      assert forall i :: 0 <= i < |s.mouseDown| && i != e.button ==> down[i] == s.mouseDown[i];
      s.(mouseDown := down, info := Info(OrReduce(down), 0))
    else
      s.(info := Info(0, 0))
  }

  /** moveHandler: only the pointer position changes. */
  function Move(s: InputState, e: Event): (r: InputState)
    requires e.MouseMove? || e.TouchMove?
    ensures r.info == s.info && r.mouseDown == s.mouseDown
    ensures r.position == if e.TouchMove? then e.touches[0] else e.client
  {
    s.(position := Coordinates(e))
  }

  /** The keydown listener: 'p' flips the pause flag, any other key leaves it. */
  function TogglePause(paused: bool, key: string): (r: bool)
    ensures r != paused <==> key == "p"
  {
    if key == "p" then !paused else paused
  }

  /** One event as the listeners route it: mousedown and touchstart to Press, mouseup and touchend to Lift, the moves to Move, keydown to the pause toggle. */
  function Step(d: Demo, e: Event): (r: Demo)
    ensures !e.KeyDown? ==> r.paused == d.paused
    ensures e.KeyDown? ==> r.input == d.input
  {
    match e
    case MouseDown(_, _) => d.(input := Press(d.input, e))
    case TouchStart(_) => d.(input := Press(d.input, e))
    case MouseUp(_) => d.(input := Lift(d.input, e))
    case TouchEnd => d.(input := Lift(d.input, e))
    case MouseMove(_) => d.(input := Move(d.input, e))
    case TouchMove(_) => d.(input := Move(d.input, e))
    case KeyDown(key) => d.(paused := TogglePause(d.paused, key))
  }

  /** The state after a sequence of events, oldest first. */
  function Replay(d: Demo, es: seq<Event>): Demo
    decreases |es|
  {
    if es == [] then d else Replay(Step(d, es[0]), es[1..])
  }

  /** The number of presses of the 'p' key in a sequence of events. */
  function PauseKeys(es: seq<Event>): nat
    decreases |es|
  {
    if es == [] then 0 else (if es[0] == KeyDown("p") then 1 else 0) + PauseKeys(es[1..])
  }

  /** The buttons entry of mouseInfo reports whether a tracked button is down, and no touch is flagged. */
  predicate ButtonsReflected(s: InputState)
  {
    s.info == Info(OrReduce(s.mouseDown), 0)
  }

  /** The three standard buttons stay tracked, so the reduce over mouseDown always has entries to fold. */
  predicate StandardButtonsTracked(s: InputState)
  {
    |s.mouseDown| >= 3 && forall i :: 0 <= i < 3 ==> s.mouseDown[i] != Hole
  }

  // ---------------------------------------------------------------------
  // Properties of event sequences

  /** The pause flag ends flipped exactly when 'p' was pressed an odd number of times; two presses restore it. */
  lemma {:induction false} PauseFollowsKeyParity(d: Demo, es: seq<Event>)
    ensures Replay(d, es).paused == (d.paused != (PauseKeys(es) % 2 == 1))
    decreases |es|
  {
    if es != [] {
      PauseFollowsKeyParity(Step(d, es[0]), es[1..]);
    }
  }

  /** Without touch presses or touch ends, mouseInfo keeps reporting the state of the mouse buttons. */
  lemma {:induction false} MouseEventsKeepButtonsReflected(d: Demo, es: seq<Event>)
    requires ButtonsReflected(d.input)
    requires forall i :: 0 <= i < |es| ==> !es[i].TouchStart? && !es[i].TouchEnd?
    ensures ButtonsReflected(Replay(d, es).input)
    decreases |es|
  {
    if es != [] {
      MouseEventsKeepButtonsReflected(Step(d, es[0]), es[1..]);
    }
  }

  /** One event only ever writes a flag into mouseDown, so the standard buttons stay tracked. */
  lemma StepKeepsStandardButtons(d: Demo, e: Event)
    requires StandardButtonsTracked(d.input)
    ensures StandardButtonsTracked(Step(d, e).input)
    ensures |Step(d, e).input.mouseDown| >= |d.input.mouseDown|
  {
    if e.MouseDown? || e.MouseUp? {
      assert forall i :: 0 <= i < 3 ==> Step(d, e).input.mouseDown[i] != Hole;
    }
  }

  /** Events only ever add entries to mouseDown, so the standard buttons stay tracked from the initial state on. */
  lemma {:induction false} StandardButtonsStayTracked(d: Demo, es: seq<Event>)
    requires StandardButtonsTracked(d.input)
    ensures StandardButtonsTracked(Replay(d, es).input)
    ensures |Replay(d, es).input.mouseDown| >= |d.input.mouseDown|
    decreases |es|
  {
    if es != [] {
      StepKeepsStandardButtons(d, es[0]);
      StandardButtonsStayTracked(Step(d, es[0]), es[1..]);
    }
  }

  /** Right after initialisation and after any mouse-only sequence, mouseInfo matches the buttons. */
  lemma InitialInputReflectsButtons(es: seq<Event>, paused: bool)
    requires forall i :: 0 <= i < |es| ==> !es[i].TouchStart? && !es[i].TouchEnd?
    ensures ButtonsReflected(Replay(Demo(InitialInput(), paused), es).input)
    ensures StandardButtonsTracked(Replay(Demo(InitialInput(), paused), es).input)
  {
    assert OrReduce(InitialInput().mouseDown) == 0;
    MouseEventsKeepButtonsReflected(Demo(InitialInput(), paused), es);
    StandardButtonsStayTracked(Demo(InitialInput(), paused), es);
  }

  // ---------------------------------------------------------------------
  // The demo object

  class Marcher {
    const renderer: WebGL2.WebGL2Renderer
    var mousePosition: Point
    var mouseInfo: Info
    var mouseDown: seq<Slot>

    function Input(): InputState
      reads this
    {
      InputState(mousePosition, mouseInfo, mouseDown)
    }

    function State(): Demo
      reads this, renderer
    {
      Demo(Input(), renderer.pauseTime)
    }

    /** The object invariant: the three standard buttons are always tracked. */
    ghost predicate Valid()
      reads this
    {
      StandardButtonsTracked(Input())
    }

    /**
     * The constructor given its freshly built renderer: registers the draw
     * routine as a render hook, initialises the input state and runs the
     * first poll of the render loop at `now`.
     */
    constructor (renderer: WebGL2.WebGL2Renderer, now: real)
      requires renderer.Valid()
      modifies renderer
      ensures this.renderer == renderer && Input() == InitialInput() && Valid()
      ensures renderer.Valid() && renderer.renderHooks == old(renderer.renderHooks) + [DrawHook]
      ensures renderer.State() == WebGL2.Tick(old(renderer.State()), now)
      ensures renderer.trace == old(renderer.trace) + WebGL2.PollOutput(old(renderer.State()), renderer.renderHooks, now)
    {
      this.renderer := renderer;
      mouseDown := [Flag(false), Flag(false), Flag(false)];
      mousePosition := Point(0.0, 0.0);
      mouseInfo := Info(0, 0);
      new;
      var registered := renderer.AddRenderHook(WebGL2.Function(DrawHook));
      renderer.Render(now);
    }

    method PressHandler(e: Event)
      requires Valid() && (e.MouseDown? || e.TouchStart?)
      modifies this`mousePosition, this`mouseInfo, this`mouseDown
      ensures Input() == Press(old(Input()), e) && Valid()
    {
      StepKeepsStandardButtons(Demo(Input(), false), e);
      if e.MouseDown? {
        mouseDown := SetButton(mouseDown, e.button, true);
        mouseInfo := Info(OrReduce(mouseDown), 0);
      } else {
        mouseInfo := Info(1, 1);
      }
      mousePosition := Coordinates(e);
    }

    method LiftHandler(e: Event)
      requires Valid() && (e.MouseUp? || e.TouchEnd?)
      modifies this`mouseInfo, this`mouseDown
      ensures Input() == Lift(old(Input()), e) && Valid()
    {
      StepKeepsStandardButtons(Demo(Input(), false), e);
      if e.MouseUp? {
        mouseDown := SetButton(mouseDown, e.button, false);
        mouseInfo := Info(OrReduce(mouseDown), 0);
      } else {
        mouseInfo := Info(0, 0);
      }
    }

    method MoveHandler(e: Event)
      requires Valid() && (e.MouseMove? || e.TouchMove?)
      modifies this`mousePosition
      ensures Input() == Move(old(Input()), e) && Valid()
    {
      mousePosition := Coordinates(e);
    }

    /** The keydown listener; it changes nothing of the renderer but the pause flag. */
    method KeyHandler(key: string)
      modifies renderer`pauseTime
      ensures renderer.pauseTime == TogglePause(old(renderer.pauseTime), key)
      ensures old(renderer.Valid()) ==> renderer.Valid()
    {
      if key == "p" {
        renderer.pauseTime := !renderer.pauseTime;
      }
    }

    /** Delivers one event to the listener registered for its type. */
    method Handle(e: Event)
      requires Valid()
      modifies this`mousePosition, this`mouseInfo, this`mouseDown, renderer`pauseTime
      ensures State() == Step(old(State()), e) && Valid()
    {
      match e
      case MouseDown(_, _) => PressHandler(e);
      case TouchStart(_) => PressHandler(e);
      case MouseUp(_) => LiftHandler(e);
      case TouchEnd => LiftHandler(e);
      case MouseMove(_) => MoveHandler(e);
      case TouchMove(_) => MoveHandler(e);
      case KeyDown(key) => KeyHandler(key);
    }
  }

  /**
   * `new Marcher()`: fails as the renderer does when WebGL2 is unavailable,
   * and fails as building the shader program does in setup, before the first
   * render; otherwise the renderer targets 60 frames per second, has the draw
   * routine as its one hook and has run its first poll at `now`.
   */
  method NewMarcher(contextSupported: bool, program: WebGL2.ProgramBuild, created: real, now: real)
    returns (r: WebGL2.Result<Marcher>)
    ensures !contextSupported ==> r == WebGL2.Err(WebGL2.UnsupportedContext)
    ensures contextSupported && program == WebGL2.CompileFails ==> r == WebGL2.Err(WebGL2.ShaderCompileFailed)
    ensures contextSupported && program == WebGL2.LinkFails ==> r == WebGL2.Err(WebGL2.ProgramLinkFailed)
    ensures r.Ok? <==> contextSupported && program == WebGL2.Built
    ensures r.Ok? ==> fresh(r.value) && fresh(r.value.renderer)
    ensures r.Ok? ==> r.value.Input() == InitialInput() && r.value.renderer.Valid()
    ensures r.Ok? ==> r.value.renderer.renderHooks == [DrawHook]
    ensures r.Ok? ==> r.value.renderer.State() == WebGL2.Tick(WebGL2.InitialClock(60.0, created), now)
    ensures r.Ok? ==> r.value.renderer.trace == WebGL2.PollOutput(WebGL2.InitialClock(60.0, created), [DrawHook], now)
  {
    var made := WebGL2.NewRenderer(contextSupported, 60.0, created);
    if made.Err? {
      return WebGL2.Err(made.error);
    }
    match program
    case CompileFails => return WebGL2.Err(WebGL2.ShaderCompileFailed);
    case LinkFails => return WebGL2.Err(WebGL2.ProgramLinkFailed);
    case Built =>
      var marcher := new Marcher(made.value, now);
      r := WebGL2.Ok(marcher);
  }
}
