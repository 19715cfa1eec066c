# Frame clock, render-hook dispatcher and demo input state

This project models the two sequential state machines of a small WebGL2
rendering engine and its raymarching demo, and proves their properties in
Dafny.

- **`WebGL2` (webgl2.dfy)** models `WebGL2Renderer`. It covers:
  - the clock fields the constructor sets up;
  - the append-only render-hook registry behind `addRenderHook`;
  - one poll of the `render` loop, which either skips or admits a frame.
    An admitted frame clears the framebuffer, calls every hook in
    registration order, advances `time` unless paused, increments
    `frameCount` and records the frame time.

  A value-level specification comes first: the `Clock` record, the poll
  step `Tick`, and the observable output `PollOutput`, which is a trace of
  `Clear` and `Call(hook, frameCount, time)` actions. Runs of polls are
  defined on top of it. The `WebGL2Renderer` class then keeps the same
  fields as the source, and its methods are proved to follow that
  specification. The class invariant says two things:
  - simulation time equals the wall-clock time since construction, minus
    the stretches admitted while paused (kept in the ghost field
    `frozenMs`);
  - the trace holds exactly one clear per counted frame.

- **`Marcher` (marcher.dfy)** models the demo's input state: `mousePosition`,
  `mouseInfo` and the `mouseDown` button array. It also models the event
  handlers that update this state, and the `'p'` key that flips the
  renderer's `pauseTime`. `mouseDown` is a JavaScript array, so it is
  modelled as a sequence of slots where an index never written is a hole:
  writing a button past the end grows the array, and the `reduce` OR skips
  the holes. The pure functions `Press`, `Lift`, `Move` and `TogglePause`
  specify the handlers, and the `Marcher` class's handler methods are
  proved against them.

Times are exact: milliseconds as `real` and simulation time in seconds as
`real`. The clock reading that `performance.now()` supplies in the source
is the `now` parameter of `Render`. Render hooks are opaque identities.
Whether the renderer gets a WebGL2 context is the `contextSupported`
parameter. Whether the demo's shader program compiles and links is the
`program` parameter of `NewMarcher`.

## Model

| member | source | states |
|---|---|---|
| `WebGL2.InitialClock` | js/WebGL2.js:9-14 | The constructor's clock: frameTime * targetFPS == 1000, frameCount 0, time 0, not paused, startTime == lastFrameTime == construction time |
| `WebGL2.Tick` | js/WebGL2.js:90-110 | One poll: a skip changes no clock field. An admit increments frameCount by 1, sets lastFrameTime to now (at least frameTime after the previous one), advances time by exactly the wall delta when unpaused and freezes it when paused. frameTime, startTime and the pause flag never change |
| `WebGL2.DispatchCallsInOrder` | js/WebGL2.js:100-101 | The i-th hook call of a frame invokes the i-th registered hook with the frame's frameCount and time |
| `WebGL2.Register` | js/WebGL2.js:83-88 | addRenderHook succeeds exactly for functions, appending the hook at the end and keeping the earlier entries; anything else is refused with the invalid-hook error |
| `WebGL2.DispatchCallsEachHook` | js/WebGL2.js:100-101 | A frame calls exactly the registered hooks, once per registration, in registration order, and issues no clear |
| `WebGL2.SkippedPollChangesNothing` | js/WebGL2.js:91-95 | A poll less than frameTime after the last admitted frame changes no clock field and produces no clear and no hook call |
| `WebGL2.AdmittedPollClearsThenCallsHooks` | js/WebGL2.js:97-107 | An admitted poll clears first, exactly once, then calls every hook once in order; each hook sees the frameCount and time from before the clock advances |
| `WebGL2.ClearsOfPoll` | js/WebGL2.js:94-98 | A poll clears once if admitted and not at all if skipped |
| `WebGL2.AdmittedTrace` | js/WebGL2.js:97-101 | After an admitted poll the trace is the old trace, one clear and the frame's hook calls, and holds one more clear than before |
| `WebGL2.FirstFrameSeesZero` | js/WebGL2.js:9-11 | On a fresh renderer, every hook call of the first poll sees frameCount 0 and time 0 |
| `WebGL2.DuplicateHookRunsTwice` | js/WebGL2.js:84-87 | Registering a hook twice is accepted (no duplicate check) and makes the hook run twice per frame, after the earlier hooks |
| `WebGL2.RunCountsAdmittedFrames` | js/WebGL2.js:94-107 | Over any run of polls, frameCount grows by exactly the number of admitted polls, whatever the skips; frameTime, startTime and the pause flag are unchanged |
| `WebGL2.ClearsMatchFrameCount` | js/WebGL2.js:97-106 | Over any run, the number of framebuffer clears equals the number of frames counted |
| `WebGL2.PausedRunFreezesTime` | js/WebGL2.js:103-104 | While paused, time is unchanged across any run of polls, however many frames are admitted |
| `WebGL2.UnpausedRunTracksWallClock` | js/WebGL2.js:103-107 | An unpaused clock with time * 1000 == lastFrameTime - startTime keeps that equality across any run |
| `WebGL2.NeverPausedTimeIsWallTime` | js/WebGL2.js:11-13 | A renderer never paused since construction has time * 1000 == lastFrameTime - startTime after every poll |
| `WebGL2.AdmittedFramesSpaced` | js/WebGL2.js:92-107 | The admitted times of a run are each at least frameTime after the previous admitted frame |
| `WebGL2.RunEndsOnLastAdmitted` | js/WebGL2.js:107 | After a run, lastFrameTime is the time of the last admitted poll, or unchanged if none was admitted |
| `WebGL2.FastHostAdmitsEveryPoll` | js/WebGL2.js:90-110 | With host callbacks every period >= frameTime, every poll is admitted |
| `WebGL2.SlowTargetAdmitsEveryOtherPoll` | js/WebGL2.js:90-110 | With period < frameTime <= 2 * period, exactly every other callback is admitted, so the frame rate is quantised down |
| `WebGL2.AdmittedTimesAppend` | js/WebGL2.js:90-110 | A run split in two admits the first part's frames, then the second part's frames counted from the clock the first part leaves |
| `WebGL2.GroupTail` | js/WebGL2.js:92-107 | When only the k-th callback after the last admitted frame is at least frameTime after it, the rest of that group admits exactly one frame and leaves lastFrameTime k periods on |
| `WebGL2.GroupsAdmitOneEach` | js/WebGL2.js:92-107 | Under the same condition, n groups of k regular callbacks admit exactly n frames |
| `WebGL2.EveryKthPollAdmitted` | js/WebGL2.js:90-110 | With host callbacks every period and (k - 1) * period < frameTime <= k * period, k * n callbacks admit exactly n frames: the frame rate is quantised to every k-th callback |
| `WebGL2.SixtyOnSixtyHertzAdmitsSixty` | js/WebGL2.js:9 | Targeting 60 fps on a 60 Hz host admits all 60 callbacks of a second (EveryKthPollAdmitted with k = 1) |
| `WebGL2.FortyOnSixtyHertzAdmitsThirty` | js/WebGL2.js:9 | Targeting 40 fps on a 60 Hz host admits 30 of a second's 60 callbacks, not 40 (EveryKthPollAdmitted with k = 2) |
| `WebGL2.WebGL2Renderer.constructor` | js/WebGL2.js:9-19 | The new renderer's fields form the initial clock, the registry and trace are empty, and the class invariant holds |
| `WebGL2.WebGL2Renderer.AddRenderHook` | js/WebGL2.js:83-88 | The registry becomes what Register gives; a non-function is refused with the registry unchanged |
| `WebGL2.WebGL2Renderer.InvokeHooks` | js/WebGL2.js:100-101 | The hook loop appends one call per registered hook, in order, to the trace |
| `WebGL2.WebGL2Renderer.Render` | js/WebGL2.js:90-110 | The clock fields move as Tick says, the trace grows by exactly PollOutput, the registry is unchanged, and the class invariant (time vs wall clock minus paused stretches; one clear per frame) is kept |
| `WebGL2.NewRenderer` | js/WebGL2.js:8-19 | Construction fails with the unsupported-context error when no WebGL2 context is available, and otherwise yields a fresh renderer in its initial state |
| `Marcher.InitialInput` | js/marcher.js:10-51 | Position and mouseInfo start at [0, 0] (lines 10-11); mouseDown holds three false entries (line 51) |
| `Marcher.SetButton` | js/marcher.js:63 | `mouseDown[b] = v` with JavaScript array semantics: entry b becomes v, other entries are unchanged, and an index past the end grows the array with holes |
| `Marcher.OrReduce` | js/marcher.js:64 | The reduce OR over mouseDown is 0 or 1, and 1 exactly when some entry is a pressed button |
| `Marcher.Coordinates` | js/marcher.js:53-57 | A touch event's position is its first touch point; a mouse event's is its own client coordinates |
| `Marcher.Press` | js/marcher.js:70-79 | mousedown marks its button down with the others unchanged, sets mouseInfo to [1, 0] and moves to the event's coordinates. touchstart leaves mouseDown alone, sets [1, 1] and moves to the first touch |
| `Marcher.Lift` | js/marcher.js:61-68 | mouseup marks its button up with the others unchanged, and sets mouseInfo to [1, 0] exactly when another tracked button is still down, else [0, 0]. touchend sets [0, 0] without touching mouseDown. Neither moves the pointer |
| `Marcher.Move` | js/marcher.js:59 | A move changes only the position, to the mouse or first-touch coordinates |
| `Marcher.TogglePause` | js/marcher.js:93-96 | The pause flag changes exactly when the key is 'p' |
| `Marcher.Step` | js/marcher.js:83-89 | Only keydown changes the pause flag, and keydown changes no input field |
| `Marcher.PauseFollowsKeyParity` | js/marcher.js:92-96 | After any event sequence the pause flag is flipped exactly when 'p' was pressed an odd number of times; two presses restore it |
| `Marcher.MouseEventsKeepButtonsReflected` | js/marcher.js:59-79 | Without touchstart or touchend, mouseInfo keeps equalling [OR of mouseDown, 0] across any event sequence |
| `Marcher.StepKeepsStandardButtons` | js/marcher.js:59-79 | No single event removes a mouseDown entry or turns buttons 0-2 into holes |
| `Marcher.StandardButtonsStayTracked` | js/marcher.js:50-79 | Events never remove mouseDown entries, so buttons 0-2 stay tracked and the array never shrinks |
| `Marcher.InitialInputReflectsButtons` | js/marcher.js:10-51 | From the initial state (lines 10-11 and 51), any mouse-only event sequence leaves mouseInfo reflecting the buttons and buttons 0-2 tracked |
| `Marcher.Marcher.constructor` | js/marcher.js:4-13 | Registers the draw routine as the last render hook, sets the initial input state (so the object invariant, buttons 0-2 tracked, holds) and runs one poll of the renderer |
| `Marcher.Marcher.PressHandler` | js/marcher.js:70-79 | The input fields become what Press gives, and buttons 0-2 stay tracked |
| `Marcher.Marcher.LiftHandler` | js/marcher.js:61-68 | The input fields become what Lift gives, and buttons 0-2 stay tracked |
| `Marcher.Marcher.MoveHandler` | js/marcher.js:59 | The input fields become what Move gives, and buttons 0-2 stay tracked |
| `Marcher.Marcher.KeyHandler` | js/marcher.js:93-96 | The renderer's pause flag becomes what TogglePause gives, and nothing else of the renderer changes |
| `Marcher.Marcher.Handle` | js/marcher.js:81-89 | Each event reaches the handler its listener names, so the demo state moves as Step says and buttons 0-2 stay tracked |
| `Marcher.NewMarcher` | js/marcher.js:4-22 | With no WebGL2 context the demo fails as the renderer does. When setup's shader program fails to compile or to link, construction fails with that error. Otherwise it succeeds, owning a fresh 60 fps renderer whose only hook is the draw routine, whose clock has taken one poll, and whose trace is exactly that poll's output (a clear and one draw call at frame 0, time 0, if admitted) |

## Left out

- GPU resource creation (`createBuffer`, `createVertexArray`, `transformFeedback`, `createShader`, `createProgram`, js/WebGL2.js:22-81) is not modelled. These are thin wrappers over WebGL2 calls whose effects live in the driver. Only the compile and link failures of `createProgram` appear, as errors of `NewMarcher`. In particular the model makes no claim about the link-failure message: js/WebGL2.js:78 reads a variable that is out of scope there.
- The canvas lookup by id, `getContext` and its options (js/WebGL2.js:3-8) are reduced to the `contextSupported` parameter. The JavaScript constructor assigns the clock fields before it throws, but no renderer is returned, so the model yields an error and nothing else.
- `performance.now()` and `requestAnimationFrame` rescheduling (js/WebGL2.js:12, 91, 95, 109) are host I/O. Each poll is one `Render(now)` call, and a run of polls is a sequence of `now` values. The regular host callback times in the quantisation lemmas are an idealisation.
- Floating-point rounding of `1000 / targetFPS` and `delta / 1000` is not modelled: times are exact reals.
- WebGL2.InitialClock: a `targetFPS` of 0, which makes frameTime Infinity so every poll is skipped, is excluded by `targetFPS != 0`.
- What a render hook does is opaque. Hooks cannot change the renderer or the registry, and a hook that throws, which would end the loop, is not modelled.
- `Marcher.setup` (js/marcher.js:16-48) is modelled only by its outcome. Its `createProgram` call throws when a shader fails to compile or the program fails to link (js/WebGL2.js:60-61, 77-78). `NewMarcher` takes that outcome as its `program` parameter and fails with the matching error. The rest of setup (uniform lookups, the vertex buffer and array, blending, listener registration) only issues GL calls or registers listeners, and is not modelled.
- The draw routine `Marcher.render` (js/marcher.js:99-110) only issues GL uniform and draw calls. It is modelled only as the hook `DrawHook` that the constructor registers.
- Event-listener registration (js/marcher.js:81-89, 93) is reduced to the routing in `Step` and `Handle`. The `contextmenu` listener only suppresses the browser menu and is left out.
- Marcher.Coordinates: touchstart and touchmove events are taken to list at least one touch, as browsers deliver them. The source would throw a TypeError on an empty list.
- Marcher.OrReduce: the JavaScript `reduce` with no initial value throws on an array with no entries and returns the bare boolean when only one entry is present. Buttons 0-2 are always present (`StandardButtonsStayTracked`), so neither case arises, and the model gives the number 0 or 1.
- Marcher.TogglePause: `pauseTime ^= true` turns the flag into the number 1 or 0 in JavaScript. The model keeps a boolean, which has the same truthiness in the `if (!this.pauseTime)` test.
- Races between input handlers and render hooks do not arise in the model, because every handler and every poll is one atomic step of a single-threaded event loop.
