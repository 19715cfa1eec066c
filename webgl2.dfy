/**
 * The frame clock and render-hook dispatcher of WebGL2Renderer (js/WebGL2.js).
 *
 * The first half of the module is a value-level specification: a `Clock`
 * record, the effect of one poll of `render` on it (`Tick`), what that poll
 * makes observable (`PollOutput`), and the same over a whole run of polls.
 * The second half is the renderer object itself, whose methods are proved
 * to follow that specification.
 *
 * Times are exact reals in milliseconds (the simulation `time` is in
 * seconds), and the current wall-clock reading is a parameter of `Render`.
 */
module WebGL2 {

  /** Identity of a render hook; what a hook draws is opaque to the renderer. */
  type HookId = nat

  /** The value handed to addRenderHook, as far as `typeof` tells it apart. */
  datatype Value = Function(id: HookId) | NonFunction

  /**
   * The errors the renderer throws: no WebGL2 context, a render hook that is
   * not a function, and a shader that does not compile or a program that
   * does not link while a program is built.
   */
  datatype Error = UnsupportedContext | InvalidHook | ShaderCompileFailed | ProgramLinkFailed

  /** How building a program turns out: its first failing step, if any. */
  datatype ProgramBuild = Built | CompileFails | LinkFails

  datatype Result<T> = Ok(value: T) | Err(error: Error)

  /**
   * What one admitted frame makes observable: the clear of the colour and
   * depth buffers to transparent black, and each hook invocation together
   * with the frameCount and time the hook can read while it runs.
   */
  datatype Action = Clear | Call(hook: HookId, frame: nat, time: real)

  /** The clock fields of a renderer. */
  datatype Clock = Clock(
    frameTime: real,      // target interval between admitted frames, in ms
    frameCount: nat,      // admitted frames so far
    time: real,           // simulation time, in seconds
    lastFrameTime: real,  // wall-clock time of the last admitted frame, in ms
    startTime: real,      // wall-clock time at construction, in ms
    paused: bool)         // the pauseTime flag

  /** The clock as the constructor leaves it. */
  function InitialClock(targetFPS: real, now: real): (c: Clock)
    requires targetFPS != 0.0
    ensures c.frameTime * targetFPS == 1000.0
    ensures c.frameCount == 0 && c.time == 0.0 && !c.paused
    ensures c.lastFrameTime == now && c.startTime == now
  {
    Clock(1000.0 / targetFPS, 0, 0.0, now, now, false)
  }

  /** A poll at `now` is admitted unless less than frameTime has passed since the last admitted frame. */
  predicate Admits(c: Clock, now: real)
  {
    !(now - c.lastFrameTime < c.frameTime)
  }

  /** Simulation time agrees with the wall-clock time elapsed up to the last admitted frame. */
  predicate TracksWallClock(c: Clock)
  {
    c.time * 1000.0 == c.lastFrameTime - c.startTime
  }

  /** The effect of one poll of `render` on the clock. */
  function Tick(c: Clock, now: real): (r: Clock)
    ensures r.frameTime == c.frameTime && r.startTime == c.startTime && r.paused == c.paused
    ensures !Admits(c, now) ==> r == c
    ensures Admits(c, now) ==> r.frameCount == c.frameCount + 1 && r.lastFrameTime == now
    ensures Admits(c, now) ==> r.lastFrameTime >= c.lastFrameTime + c.frameTime
    ensures c.paused ==> r.time == c.time
    ensures !c.paused ==> r.time * 1000.0 - c.time * 1000.0 == r.lastFrameTime - c.lastFrameTime
  {
    var delta := now - c.lastFrameTime;
    if delta < c.frameTime then c
    else c.(time := if c.paused then c.time else c.time + delta / 1000.0,
            frameCount := c.frameCount + 1,
            lastFrameTime := now)
  }

  /** The hook invocations of one frame, in registration order. */
  function Dispatch(hooks: seq<HookId>, frame: nat, time: real): (calls: seq<Action>)
    ensures |calls| == |hooks|
    decreases |hooks|
  {
    if |hooks| == 0 then []
    else Dispatch(hooks[..|hooks| - 1], frame, time) + [Call(hooks[|hooks| - 1], frame, time)]
  }

  /** What one poll makes observable: nothing when skipped; a clear and every hook call when admitted. */
  function PollOutput(c: Clock, hooks: seq<HookId>, now: real): seq<Action>
  {
    if Admits(c, now) then [Clear] + Dispatch(hooks, c.frameCount, c.time) else []
  }

  /** The hooks invoked in a stretch of output, in invocation order. */
  function CalledHooks(out: seq<Action>): seq<HookId>
    decreases |out|
  {
    if out == [] then []
    else (if out[0].Call? then [out[0].hook] else []) + CalledHooks(out[1..])
  }

  /** The number of framebuffer clears in a stretch of output. */
  function Clears(out: seq<Action>): nat
    decreases |out|
  {
    if out == [] then 0 else (if out[0] == Clear then 1 else 0) + Clears(out[1..])
  }

  /** The clock after a run of polls at the given wall-clock times. */
  function Run(c: Clock, nows: seq<real>): Clock
    decreases |nows|
  {
    if nows == [] then c else Run(Tick(c, nows[0]), nows[1..])
  }

  /** The wall-clock times of the polls of a run that were admitted. */
  function AdmittedTimes(c: Clock, nows: seq<real>): seq<real>
    decreases |nows|
  {
    if nows == [] then []
    else (if Admits(c, nows[0]) then [nows[0]] else []) + AdmittedTimes(Tick(c, nows[0]), nows[1..])
  }

  /** Everything a run of polls makes observable, in order. */
  function RunOutput(c: Clock, hooks: seq<HookId>, nows: seq<real>): seq<Action>
    decreases |nows|
  {
    if nows == [] then []
    else PollOutput(c, hooks, nows[0]) + RunOutput(Tick(c, nows[0]), hooks, nows[1..])
  }

  /** Host callbacks arriving every `period` ms after `start`: start + period, ..., start + n * period. */
  function PollTimes(start: real, period: real, n: nat): seq<real>
    decreases n
  {
    if n == 0 then [] else [start + period] + PollTimes(start + period, period, n - 1)
  }

  /** The registry after addRenderHook: a function is appended, anything else is refused. */
  function Register(hooks: seq<HookId>, callback: Value): (r: Result<seq<HookId>>)
    ensures r.Ok? <==> callback.Function?
    ensures r.Err? ==> r.error == InvalidHook
    ensures r.Ok? ==> |r.value| == |hooks| + 1 && r.value[..|hooks|] == hooks && r.value[|hooks|] == callback.id
  {
    match callback
    case Function(id) => Ok(hooks + [id])
    case NonFunction => Err(InvalidHook)
  }

  // ---------------------------------------------------------------------
  // Properties of a single poll

  lemma {:induction false} CalledHooksAppend(a: seq<Action>, b: seq<Action>)
    ensures CalledHooks(a + b) == CalledHooks(a) + CalledHooks(b)
    decreases |a|
  {
    if a == [] {
      assert a + b == b;
    } else {
      assert (a + b)[0] == a[0] && (a + b)[1..] == a[1..] + b;
      CalledHooksAppend(a[1..], b);
    }
  }

  lemma {:induction false} ClearsAppend(a: seq<Action>, b: seq<Action>)
    ensures Clears(a + b) == Clears(a) + Clears(b)
    decreases |a|
  {
    if a == [] {
      assert a + b == b;
    } else {
      assert (a + b)[0] == a[0] && (a + b)[1..] == a[1..] + b;
      ClearsAppend(a[1..], b);
    }
  }

  /** The i-th call of a frame invokes the i-th registered hook with the frame's frameCount and time. */
  lemma {:induction false} DispatchCallsInOrder(hooks: seq<HookId>, frame: nat, time: real)
    ensures forall i :: 0 <= i < |hooks| ==> Dispatch(hooks, frame, time)[i] == Call(hooks[i], frame, time)
    decreases |hooks|
  {
    if |hooks| > 0 {
      var front := hooks[..|hooks| - 1];
      DispatchCallsInOrder(front, frame, time);
      assert forall i :: 0 <= i < |front| ==> front[i] == hooks[i];
    }
  }

  /** A frame's dispatch calls exactly the registered hooks, each once per registration, in order, and clears nothing. */
  lemma {:induction false} DispatchCallsEachHook(hooks: seq<HookId>, frame: nat, time: real)
    ensures CalledHooks(Dispatch(hooks, frame, time)) == hooks
    ensures Clears(Dispatch(hooks, frame, time)) == 0
    decreases |hooks|
  {
    if |hooks| > 0 {
      var front, last := hooks[..|hooks| - 1], Call(hooks[|hooks| - 1], frame, time);
      DispatchCallsEachHook(front, frame, time);
      CalledHooksAppend(Dispatch(front, frame, time), [last]);
      ClearsAppend(Dispatch(front, frame, time), [last]);
      assert [last][1..] == [];
      assert hooks == front + [hooks[|hooks| - 1]];
    }
  }

  /** A skipped poll changes no clock field and makes nothing observable. */
  lemma SkippedPollChangesNothing(c: Clock, hooks: seq<HookId>, now: real)
    requires now - c.lastFrameTime < c.frameTime
    ensures Tick(c, now) == c
    ensures PollOutput(c, hooks, now) == []
  {
  }

  /**
   * An admitted poll clears first, then calls every registered hook exactly
   * once in registration order; each hook sees the frameCount and time from
   * before the clock advances.
   */
  lemma AdmittedPollClearsThenCallsHooks(c: Clock, hooks: seq<HookId>, now: real)
    requires Admits(c, now)
    ensures var out := PollOutput(c, hooks, now);
      |out| == |hooks| + 1 && out[0] == Clear && Clears(out) == 1 &&
      CalledHooks(out) == hooks &&
      forall i :: 1 <= i < |out| ==> out[i] == Call(hooks[i - 1], c.frameCount, c.time)
  {
    var calls := Dispatch(hooks, c.frameCount, c.time);
    DispatchCallsEachHook(hooks, c.frameCount, c.time);
    DispatchCallsInOrder(hooks, c.frameCount, c.time);
    CalledHooksAppend([Clear], calls);
    ClearsAppend([Clear], calls);
    assert [Clear][1..] == [];
  }

  /** A poll clears the framebuffer once if admitted and not at all if skipped. */
  lemma ClearsOfPoll(c: Clock, hooks: seq<HookId>, now: real)
    ensures Clears(PollOutput(c, hooks, now)) == if Admits(c, now) then 1 else 0
  {
    if Admits(c, now) {
      AdmittedPollClearsThenCallsHooks(c, hooks, now);
    }
  }

  /** The trace after an admitted poll: the earlier trace, a clear and the frame's hook calls; one more clear than before. */
  lemma AdmittedTrace(before: seq<Action>, c: Clock, hooks: seq<HookId>, now: real)
    requires Admits(c, now)
    ensures before + [Clear] + Dispatch(hooks, c.frameCount, c.time) == before + PollOutput(c, hooks, now)
    ensures Clears(before + PollOutput(c, hooks, now)) == Clears(before) + 1
  {
    var calls := Dispatch(hooks, c.frameCount, c.time);
    assert PollOutput(c, hooks, now) == [Clear] + calls;
    assert before + [Clear] + calls == before + ([Clear] + calls);
    DispatchCallsEachHook(hooks, c.frameCount, c.time);
    ClearsAppend([Clear], calls);
    assert [Clear][1..] == [];
    ClearsAppend(before, [Clear] + calls);
  }

  /** On a fresh renderer the first admitted frame shows every hook frame 0 at time 0. */
  lemma FirstFrameSeesZero(targetFPS: real, start: real, hooks: seq<HookId>, now: real)
    requires targetFPS != 0.0
    ensures forall a :: a in PollOutput(InitialClock(targetFPS, start), hooks, now) && a.Call? ==>
      a.frame == 0 && a.time == 0.0
  {
    var c := InitialClock(targetFPS, start);
    if Admits(c, now) {
      AdmittedPollClearsThenCallsHooks(c, hooks, now);
    }
  }

  /** Registering the same hook twice makes it run twice per frame, at the end of the frame. */
  lemma {:induction false} DuplicateHookRunsTwice(hooks: seq<HookId>, h: HookId, c: Clock, now: real)
    requires Admits(c, now)
    ensures Register(hooks, Function(h)).Ok?
    ensures var twice := Register(Register(hooks, Function(h)).value, Function(h));
      twice.Ok? && twice.value == hooks + [h, h] &&
      CalledHooks(PollOutput(c, twice.value, now)) == hooks + [h, h]
  {
    var once := Register(hooks, Function(h)).value;
    assert once == hooks + [h];
    assert Register(once, Function(h)).value == hooks + [h, h];
    AdmittedPollClearsThenCallsHooks(c, hooks + [h, h], now);
  }

  // ---------------------------------------------------------------------
  // Properties of a run of polls

  /** frameCount moves by exactly the number of admitted polls; the configuration and the pause flag do not move. */
  lemma {:induction false} RunCountsAdmittedFrames(c: Clock, nows: seq<real>)
    ensures Run(c, nows).frameCount == c.frameCount + |AdmittedTimes(c, nows)|
    ensures Run(c, nows).frameTime == c.frameTime && Run(c, nows).startTime == c.startTime
    ensures Run(c, nows).paused == c.paused
    decreases |nows|
  {
    if nows != [] {
      RunCountsAdmittedFrames(Tick(c, nows[0]), nows[1..]);
    }
  }

  /** Every admitted frame is cleared exactly once, and only admitted frames are. */
  lemma {:induction false} ClearsMatchFrameCount(c: Clock, hooks: seq<HookId>, nows: seq<real>)
    ensures Clears(RunOutput(c, hooks, nows)) == Run(c, nows).frameCount - c.frameCount
    decreases |nows|
  {
    RunCountsAdmittedFrames(c, nows);
    if nows != [] {
      var c' := Tick(c, nows[0]);
      ClearsMatchFrameCount(c', hooks, nows[1..]);
      RunCountsAdmittedFrames(c', nows[1..]);
      ClearsAppend(PollOutput(c, hooks, nows[0]), RunOutput(c', hooks, nows[1..]));
      if Admits(c, nows[0]) {
        AdmittedPollClearsThenCallsHooks(c, hooks, nows[0]);
      }
    }
  }

  /** A paused clock keeps its simulation time across any run, however many frames are admitted. */
  lemma {:induction false} PausedRunFreezesTime(c: Clock, nows: seq<real>)
    requires c.paused
    ensures Run(c, nows).time == c.time
    decreases |nows|
  {
    if nows != [] {
      PausedRunFreezesTime(Tick(c, nows[0]), nows[1..]);
    }
  }

  /** An unpaused clock that tracks the wall clock keeps tracking it across any run. */
  lemma {:induction false} UnpausedRunTracksWallClock(c: Clock, nows: seq<real>)
    requires !c.paused && TracksWallClock(c)
    ensures TracksWallClock(Run(c, nows))
    decreases |nows|
  {
    if nows != [] {
      UnpausedRunTracksWallClock(Tick(c, nows[0]), nows[1..]);
    }
  }

  /** A renderer never paused since construction has time * 1000 == lastFrameTime - startTime after every poll. */
  lemma NeverPausedTimeIsWallTime(targetFPS: real, start: real, nows: seq<real>)
    requires targetFPS != 0.0
    ensures var r := Run(InitialClock(targetFPS, start), nows);
      r.time * 1000.0 == r.lastFrameTime - start
  {
    UnpausedRunTracksWallClock(InitialClock(targetFPS, start), nows);
    RunCountsAdmittedFrames(InitialClock(targetFPS, start), nows);
  }

  /** Each time is at least `gap` after the one before it, the first at least `gap` after `from`. */
  predicate Spaced(ts: seq<real>, from: real, gap: real)
  {
    (|ts| > 0 ==> ts[0] >= from + gap) &&
    forall i :: 0 <= i < |ts| - 1 ==> ts[i + 1] >= ts[i] + gap
  }

  lemma SpacedCons(t: real, rest: seq<real>, from: real, gap: real)
    requires t >= from + gap && Spaced(rest, t, gap)
    ensures Spaced([t] + rest, from, gap)
  {
    var ts := [t] + rest;
    forall i | 0 <= i < |ts| - 1
      ensures ts[i + 1] >= ts[i] + gap
    {
      if i > 0 {
        assert ts[i] == rest[i - 1] && ts[i + 1] == rest[i];
      }
    }
  }

  /**
   * Admitted frames are at least frameTime apart: the first one after the
   * last admitted frame before the run, and each one after its predecessor.
   */
  lemma {:induction false} AdmittedFramesSpaced(c: Clock, nows: seq<real>)
    ensures Spaced(AdmittedTimes(c, nows), c.lastFrameTime, c.frameTime)
    decreases |nows|
  {
    if nows != [] {
      var c' := Tick(c, nows[0]);
      AdmittedFramesSpaced(c', nows[1..]);
      var rest := AdmittedTimes(c', nows[1..]);
      if Admits(c, nows[0]) {
        assert AdmittedTimes(c, nows) == [nows[0]] + rest;
        SpacedCons(nows[0], rest, c.lastFrameTime, c.frameTime);
      } else {
        assert AdmittedTimes(c, nows) == rest;
      }
    }
  }

  /** After a run the clock holds the time of the last admitted poll, or its old value if none was admitted. */
  lemma {:induction false} RunEndsOnLastAdmitted(c: Clock, nows: seq<real>)
    ensures var ts := AdmittedTimes(c, nows);
      Run(c, nows).lastFrameTime == if ts == [] then c.lastFrameTime else ts[|ts| - 1]
    decreases |nows|
  {
    if nows != [] {
      var c' := Tick(c, nows[0]);
      RunEndsOnLastAdmitted(c', nows[1..]);
      var rest := AdmittedTimes(c', nows[1..]);
      if Admits(c, nows[0]) {
        assert AdmittedTimes(c, nows) == [nows[0]] + rest;
      } else {
        assert AdmittedTimes(c, nows) == rest;
      }
    }
  }

  /** When the host calls back at least every frameTime, every poll is admitted. */
  lemma {:induction false} FastHostAdmitsEveryPoll(c: Clock, period: real, n: nat)
    requires c.frameTime <= period
    ensures |AdmittedTimes(c, PollTimes(c.lastFrameTime, period, n))| == n
    decreases n
  {
    if n > 0 {
      var c' := Tick(c, c.lastFrameTime + period);
      FastHostAdmitsEveryPoll(c', period, n - 1);
    }
  }

  /**
   * When frameTime lies between one and two host periods, exactly every
   * other poll is admitted: the rate is quantised down, not matched.
   */
  lemma {:induction false} SlowTargetAdmitsEveryOtherPoll(c: Clock, period: real, n: nat)
    requires period < c.frameTime <= 2.0 * period
    ensures |AdmittedTimes(c, PollTimes(c.lastFrameTime, period, 2 * n))| == n
    decreases n
  {
    if n > 0 {
      var s := c.lastFrameTime;
      var polls := PollTimes(s, period, 2 * n);
      assert polls == [s + period] + ([s + period + period] + PollTimes(s + period + period, period, 2 * n - 2));
      assert !Admits(c, s + period);
      var c2 := Tick(c, s + period + period);
      assert c2.lastFrameTime == s + period + period;
      SlowTargetAdmitsEveryOtherPoll(c2, period, n - 1);
    }
  }

  /** m host periods after some instant, summed one period at a time. */
  function Steps(m: nat, period: real): real
    decreases m
  {
    if m == 0 then 0.0 else Steps(m - 1, period) + period
  }

  lemma {:induction false} StepsIsScale(m: nat, period: real)
    ensures Steps(m, period) == m as real * period
    decreases m
  {
    if m > 0 {
      StepsIsScale(m - 1, period);
      assert m as real * period == (m - 1) as real * period + period;
    }
  }

  lemma {:induction false} StepsMonotone(a: nat, b: nat, period: real)
    requires a <= b && 0.0 < period
    ensures Steps(a, period) <= Steps(b, period)
    decreases b
  {
    if a < b {
      StepsMonotone(a, b - 1, period);
    }
  }

  lemma PollCons(c: Clock, t: real, rest: seq<real>)
    ensures AdmittedTimes(c, [t] + rest) == (if Admits(c, t) then [t] else []) + AdmittedTimes(Tick(c, t), rest)
    ensures Run(c, [t] + rest) == Run(Tick(c, t), rest)
  {
    assert ([t] + rest)[1..] == rest;
  }

  lemma {:induction false} PollTimesSplit(start: real, period: real, a: nat, b: nat)
    ensures PollTimes(start, period, a + b)
         == PollTimes(start, period, a) + PollTimes(start + Steps(a, period), period, b)
    decreases a
  {
    if a > 0 {
      PollTimesSplit(start + period, period, a - 1, b);
      assert start + period + Steps(a - 1, period) == start + Steps(a, period);
    }
  }

  lemma {:induction false} AdmittedTimesAppend(c: Clock, xs: seq<real>, ys: seq<real>)
    ensures AdmittedTimes(c, xs + ys) == AdmittedTimes(c, xs) + AdmittedTimes(Run(c, xs), ys)
    decreases |xs|
  {
    if xs == [] {
      assert xs + ys == ys;
    } else {
      assert (xs + ys)[0] == xs[0] && (xs + ys)[1..] == xs[1..] + ys;
      AdmittedTimesAppend(Tick(c, xs[0]), xs[1..], ys);
      var head := if Admits(c, xs[0]) then [xs[0]] else [];
      var tail := AdmittedTimes(Tick(c, xs[0]), xs[1..]);
      assert head + (tail + AdmittedTimes(Run(c, xs), ys)) == (head + tail) + AdmittedTimes(Run(c, xs), ys);
    }
  }

  /**
   * j host callbacks after the last admitted frame, when only the k-th one
   * is far enough from it: the rest of the group admits exactly one frame,
   * and the clock then stands k periods on.
   */
  lemma {:induction false} GroupTail(c: Clock, period: real, k: nat, j: nat)
    requires 0.0 < period && j < k
    requires Steps(k - 1, period) < c.frameTime <= Steps(k, period)
    ensures |AdmittedTimes(c, PollTimes(c.lastFrameTime + Steps(j, period), period, k - j))| == 1
    ensures Run(c, PollTimes(c.lastFrameTime + Steps(j, period), period, k - j)).lastFrameTime
         == c.lastFrameTime + Steps(k, period)
    ensures Run(c, PollTimes(c.lastFrameTime + Steps(j, period), period, k - j)).frameTime == c.frameTime
    decreases k - j
  {
    var s := c.lastFrameTime + Steps(j, period);
    var t := s + period;
    assert t == c.lastFrameTime + Steps(j + 1, period);
    var rest := PollTimes(t, period, k - j - 1);
    assert PollTimes(s, period, k - j) == [t] + rest;
    PollCons(c, t, rest);
    if j + 1 < k {
      StepsMonotone(j + 1, k - 1, period);
      assert !Admits(c, t);
      assert Tick(c, t) == c;
      assert rest == PollTimes(c.lastFrameTime + Steps(j + 1, period), period, k - (j + 1));
      GroupTail(c, period, k, j + 1);
    } else {
      assert Admits(c, t);
      assert rest == [];
      var c' := Tick(c, t);
      assert t == c.lastFrameTime + Steps(k, period);
      assert c'.lastFrameTime == t && c'.frameTime == c.frameTime;
      assert Run(c', rest) == c' && AdmittedTimes(c', rest) == [];
    }
  }

  /** The number of host callbacks in n groups of k, counted group by group. */
  function Groups(k: nat, n: nat): nat
    decreases n
  {
    if n == 0 then 0 else k + Groups(k, n - 1)
  }

  lemma {:induction false} GroupsIsProduct(k: nat, n: nat)
    ensures Groups(k, n) == k * n
    decreases n
  {
    if n > 0 {
      GroupsIsProduct(k, n - 1);
      assert k * n == k + k * (n - 1);
    }
  }

  /** With the k-th callback of each group admitted, n groups of k callbacks admit n frames. */
  lemma {:induction false} GroupsAdmitOneEach(c: Clock, period: real, k: nat, n: nat)
    requires 0.0 < period && 1 <= k
    requires Steps(k - 1, period) < c.frameTime <= Steps(k, period)
    ensures |AdmittedTimes(c, PollTimes(c.lastFrameTime, period, Groups(k, n)))| == n
    decreases n
  {
    if n > 0 {
      PollTimesSplit(c.lastFrameTime, period, k, Groups(k, n - 1));
      var first := PollTimes(c.lastFrameTime, period, k);
      var second := PollTimes(c.lastFrameTime + Steps(k, period), period, Groups(k, n - 1));
      assert PollTimes(c.lastFrameTime, period, Groups(k, n)) == first + second;
      assert c.lastFrameTime + Steps(0, period) == c.lastFrameTime;
      assert first == PollTimes(c.lastFrameTime + Steps(0, period), period, k - 0);
      GroupTail(c, period, k, 0);
      AdmittedTimesAppend(c, first, second);
      var c' := Run(c, first);
      assert c'.lastFrameTime == c.lastFrameTime + Steps(k, period) && c'.frameTime == c.frameTime;
      assert |AdmittedTimes(c, first)| == 1;
      GroupsAdmitOneEach(c', period, k, n - 1);
      assert |AdmittedTimes(c, first + second)| == 1 + (n - 1);
    }
  }

  /**
   * When the target frame time lies in ((k - 1) * period, k * period], the
   * frame rate is quantised: exactly every k-th host callback renders.
   */
  lemma EveryKthPollAdmitted(c: Clock, period: real, k: nat, n: nat)
    requires 0.0 < period && 1 <= k
    requires (k - 1) as real * period < c.frameTime <= k as real * period
    ensures |AdmittedTimes(c, PollTimes(c.lastFrameTime, period, k * n))| == n
  {
    StepsIsScale(k - 1, period);
    StepsIsScale(k, period);
    GroupsIsProduct(k, n);
    GroupsAdmitOneEach(c, period, k, n);
  }

  lemma SixtyOnSixtyHertzAdmitsSixty(start: real)
    ensures |AdmittedTimes(InitialClock(60.0, start), PollTimes(start, 1000.0 / 60.0, 60))| == 60
  {
    EveryKthPollAdmitted(InitialClock(60.0, start), 1000.0 / 60.0, 1, 60);
  }

  /** Targeting 40 frames per second on a 60 Hz host admits 30 of a second's 60 callbacks, never 40. */
  lemma FortyOnSixtyHertzAdmitsThirty(start: real)
    ensures |AdmittedTimes(InitialClock(40.0, start), PollTimes(start, 1000.0 / 60.0, 60))| == 30
  {
    EveryKthPollAdmitted(InitialClock(40.0, start), 1000.0 / 60.0, 2, 30);
  }

  // ---------------------------------------------------------------------
  // The renderer object

  class WebGL2Renderer {
    var frameTime: real
    var frameCount: nat
    var time: real
    var lastFrameTime: real
    var startTime: real
    var pauseTime: bool
    var renderHooks: seq<HookId>
    /** The clears and hook calls issued so far, oldest first. */
    var trace: seq<Action>
    /** Wall-clock milliseconds admitted while paused, which `time` did not absorb. */
    ghost var frozenMs: real

    /** Simulation time is wall time since construction minus the paused stretches; one clear per frame. */
    ghost predicate Valid()
      reads this
    {
      time * 1000.0 + frozenMs == lastFrameTime - startTime &&
      Clears(trace) == frameCount
    }

    function State(): Clock
      reads this
    {
      Clock(frameTime, frameCount, time, lastFrameTime, startTime, pauseTime)
    }

    /** The constructor once a WebGL2 context has been obtained; `now` is the construction time. */
    constructor (targetFPS: real, now: real)
      requires targetFPS != 0.0
      ensures Valid() && frozenMs == 0.0
      ensures State() == InitialClock(targetFPS, now)
      ensures renderHooks == [] && trace == []
    {
      frameTime := 1000.0 / targetFPS;
      frameCount := 0;
      time := 0.0;
      lastFrameTime := now;
      startTime := lastFrameTime;
      pauseTime := false;
      renderHooks := [];
      trace := [];
      frozenMs := 0.0;
    }

    /** Appends a function to the hook registry; refuses anything else and leaves the registry as it was. */
    method AddRenderHook(callback: Value) returns (r: Result<()>)
      modifies this`renderHooks
      ensures match Register(old(renderHooks), callback)
        case Ok(hooks) => r.Ok? && renderHooks == hooks
        case Err(e) => r == Err(e) && renderHooks == old(renderHooks)
    {
      if !callback.Function? {
        return Err(InvalidHook);
      }
      renderHooks := renderHooks + [callback.id];
      r := Ok(());
    }

    /** The loop of an admitted frame that invokes each registered hook in turn. */
    method InvokeHooks()
      modifies this`trace
      ensures trace == old(trace) + Dispatch(renderHooks, frameCount, time)
    {
      var i := 0;
      while i < |renderHooks|
        invariant 0 <= i <= |renderHooks|
        invariant trace == old(trace) + Dispatch(renderHooks[..i], frameCount, time)
      {
        assert renderHooks[..i + 1][..i] == renderHooks[..i];
        trace := trace + [Call(renderHooks[i], frameCount, time)];
        i := i + 1;
      }
      assert renderHooks[..i] == renderHooks;
    }

    /** One poll of the render loop at wall-clock time `now`. */
    method Render(now: real)
      requires Valid()
      modifies this
      ensures Valid()
      ensures State() == Tick(old(State()), now)
      ensures renderHooks == old(renderHooks)
      ensures trace == old(trace) + PollOutput(old(State()), renderHooks, now)
      ensures frozenMs == if Admits(old(State()), now) && old(pauseTime) then old(frozenMs) + (now - old(lastFrameTime)) else old(frozenMs)
    {
      var delta := now - lastFrameTime;
      if delta < frameTime {
        return;
      }
      ghost var c, before := State(), trace;
      trace := trace + [Clear];
      InvokeHooks();
      AdmittedTrace(before, c, renderHooks, now);
      if !pauseTime {
        time := time + delta / 1000.0;
      } else {
        frozenMs := frozenMs + delta;
      }
      frameCount := frameCount + 1;
      lastFrameTime := now;
    }
  }

  /** `new WebGL2Renderer(...)`: throws when no WebGL2 context is available, so no renderer is usable. */
  method NewRenderer(contextSupported: bool, targetFPS: real, now: real) returns (r: Result<WebGL2Renderer>)
    requires targetFPS != 0.0
    ensures !contextSupported ==> r == Err(UnsupportedContext)
    ensures contextSupported ==> r.Ok? && fresh(r.value)
    ensures contextSupported ==> r.value.Valid() && r.value.State() == InitialClock(targetFPS, now)
    ensures contextSupported ==> r.value.renderHooks == [] && r.value.trace == []
  {
    var renderer := new WebGL2Renderer(targetFPS, now);
    if !contextSupported {
      return Err(UnsupportedContext);
    }
    r := Ok(renderer);
  }
}
