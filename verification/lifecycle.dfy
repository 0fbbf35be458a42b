/** The subsystem and script-host lifecycle of src/game.cpp: `init` and
    `cleanup`, `init_script`, `safe_call` and the main loop of `run`. Window,
    driver and interpreter calls are recorded as events; whether a script
    hook or the script setup throws is a parameter. */
module Lifecycle {
  datatype Subsystem = Window | Graphics | Sound | Controls | Script

  datatype Event =
    | Started(sys: Subsystem)
    | Stopped(sys: Subsystem)
    /** A call of the named script hook and whether it returned normally. */
    | Hook(name: string, ok: bool)
    /** The script host is deleted (or given up) and set to null. */
    | Discard
    | ToggleFullscreen
    | FrameBegin
    | FrameEnd

  /** The order of `Game::init`. */
  const InitOrder: seq<Subsystem> := [Window, Graphics, Sound, Controls, Script]

  function Reverse<T>(s: seq<T>): (r: seq<T>)
    ensures |r| == |s| && forall k :: 0 <= k < |s| ==> r[k] == s[|s| - 1 - k]
  {
    if s == [] then [] else Reverse(s[1..]) + [s[0]]
  }

  function StartAll(order: seq<Subsystem>): (r: seq<Event>)
    ensures |r| == |order| && forall k :: 0 <= k < |order| ==> r[k] == Started(order[k])
  {
    seq(|order|, k requires 0 <= k < |order| => Started(order[k]))
  }

  function StopAll(order: seq<Subsystem>): (r: seq<Event>)
    ensures |r| == |order| && forall k :: 0 <= k < |order| ==> r[k] == Stopped(order[k])
  {
    seq(|order|, k requires 0 <= k < |order| => Stopped(order[k]))
  }

  /** `Game::init`. */
  const InitEvents: seq<Event> := StartAll(InitOrder)

  /** `Game::cleanup`: script, input, sound, graphics, window. */
  const CleanupEvents: seq<Event> := StopAll([Script, Controls, Sound, Graphics, Window])

  /** Cleanup stops the subsystems in exactly the reverse order of init:
      the k-th subsystem stopped is the k-th last one started. */
  lemma {:induction false} CleanupMirrorsInit()
    ensures |CleanupEvents| == |InitEvents|
    ensures forall k :: 0 <= k < |InitEvents| ==>
      CleanupEvents[k] == Stopped(InitEvents[|InitEvents| - 1 - k].sys)
  {
  }

  /** The F1 reload of `run`: every subsystem but the window is stopped as
      in cleanup and then started again as in init, the script last. */
  const ReloadStops: seq<Event> := StopAll([Script, Controls, Sound, Graphics])
  const ReloadStarts: seq<Event> := StartAll([Graphics, Sound, Controls])

  lemma {:induction false} ReloadMirrorsInit()
    ensures ReloadStarts + [Started(Script)] == InitEvents[1..]
    ensures ReloadStops == CleanupEvents[..4]
    ensures Reverse(ReloadStops[1..]) == StopAll([Graphics, Sound, Controls])
  {
  }

  /** Whether a script host exists after an event. */
  function Effect(live: bool, e: Event): bool {
    match e
    case Started(s) => if s == Script then true else live
    case Stopped(s) => if s == Script then false else live
    case Discard => false
    case _ => live
  }

  /** Whether a script host exists after the events `es`, from `start`. */
  function Live(start: bool, es: seq<Event>): bool
    decreases |es|
  {
    if es == [] then start else Effect(Live(start, es[..|es| - 1]), es[|es| - 1])
  }

  /** No hook is called while there is no script host. */
  predicate HooksOnlyWhenLive(start: bool, es: seq<Event>) {
    forall k :: 0 <= k < |es| && es[k].Hook? ==> Live(start, es[..k])
  }

  /** Every hook that throws is followed at once by the host's disposal. */
  predicate FailuresDiscard(es: seq<Event>) {
    forall k :: 0 <= k < |es| && es[k].Hook? && !es[k].ok ==> k + 1 < |es| && es[k + 1] == Discard
  }

  lemma {:induction false} LiveAppend(start: bool, a: seq<Event>, b: seq<Event>)
    ensures Live(start, a + b) == Live(Live(start, a), b)
    decreases |b|
  {
    if b == [] {
      assert a + b == a;
    } else {
      assert (a + b)[..|a + b| - 1] == a + b[..|b| - 1];
      LiveAppend(start, a, b[..|b| - 1]);
    }
  }

  lemma {:induction false} SafeAppend(start: bool, a: seq<Event>, b: seq<Event>)
    requires HooksOnlyWhenLive(start, a) && HooksOnlyWhenLive(Live(start, a), b)
    requires FailuresDiscard(a) && FailuresDiscard(b)
    ensures HooksOnlyWhenLive(start, a + b) && FailuresDiscard(a + b)
  {
    forall k | 0 <= k < |a + b| && (a + b)[k].Hook?
      ensures Live(start, (a + b)[..k])
    {
      if k < |a| {
        assert (a + b)[..k] == a[..k];
      } else {
        assert (a + b)[..k] == a + b[..k - |a|];
        LiveAppend(start, a, b[..k - |a|]);
      }
    }
  }

  /** `safe_call` of a hook with the host alive: the call is recorded with
      its outcome (false exactly when the hook threw), and a failed call
      makes `run` delete the host and set it to null. */
  function CallHook(name: string, ok: bool): seq<Event> {
    if ok then [Hook(name, ok)] else [Hook(name, ok), Discard]
  }

  lemma {:induction false} CallHookSafe(name: string, ok: bool)
    ensures var r := CallHook(name, ok);
      HooksOnlyWhenLive(true, r) && FailuresDiscard(r) && Live(true, r) == ok && r[0] == Hook(name, ok)
  {
    var r := CallHook(name, ok);
    assert r[..0] == [];
    assert !ok ==> r[..1] == [Hook(name, ok)];
  }

  /** A hook is only attempted when there is a host. */
  function GuardedHook(live: bool, name: string, ok: bool): (r: seq<Event>)
    ensures HooksOnlyWhenLive(live, r) && FailuresDiscard(r)
    ensures Live(live, r) == (live && ok)
    ensures !live ==> r == []
  {
    CallHookSafe(name, ok);
    if live then CallHook(name, ok) else []
  }

  /** `init_script`: the host is created and set up; when setup throws the
      host is given up and left null. */
  function InitScript(setupOk: bool): seq<Event> {
    if setupOk then [Started(Script)] else [Started(Script), Discard]
  }

  lemma {:induction false} InitScriptSafe(setupOk: bool, live: bool)
    ensures var r := InitScript(setupOk);
      HooksOnlyWhenLive(live, r) && FailuresDiscard(r) && Live(live, r) == setupOk && r[0] == Started(Script)
  {
    var r := InitScript(setupOk);
    assert !setupOk ==> r[..1] == [Started(Script)];
  }

  /** Events that neither call a hook nor create or drop the host. */
  predicate Inert(es: seq<Event>) {
    forall k :: 0 <= k < |es| ==>
      !es[k].Hook? && !es[k].Discard? && es[k] != Started(Script) && es[k] != Stopped(Script)
  }

  lemma {:induction false} InertKeepsLive(start: bool, es: seq<Event>)
    requires Inert(es)
    ensures HooksOnlyWhenLive(start, es) && FailuresDiscard(es) && Live(start, es) == start
    decreases |es|
  {
    if es != [] {
      InertKeepsLive(start, es[..|es| - 1]);
    }
  }

  /** What happens in one pass of the main loop: whether F4 and F1 were
      pressed, whether the reloaded script's setup succeeds and whether
      `on_frame` returns normally. */
  datatype Frame = Frame(toggleKey: bool, reloadKey: bool, setupOk: bool, frameOk: bool)

  /** The F1 reload: the script is stopped first and started last. */
  function Reload(setupOk: bool): seq<Event> {
    [Stopped(Script)] + StopAll([Controls, Sound, Graphics]) + ReloadStarts + InitScript(setupOk)
  }

  lemma {:induction false} ReloadSafe(setupOk: bool, live: bool)
    ensures var r := Reload(setupOk);
      HooksOnlyWhenLive(live, r) && FailuresDiscard(r) && Live(live, r) == setupOk
    ensures Reload(setupOk)[..4] == ReloadStops
  {
    var stopScript := [Stopped(Script)];
    var rest := StopAll([Controls, Sound, Graphics]) + ReloadStarts;
    assert Reload(setupOk) == stopScript + rest + InitScript(setupOk);
    assert stopScript[..0] == [];
    assert HooksOnlyWhenLive(live, stopScript) && FailuresDiscard(stopScript);
    assert Live(live, stopScript) == false;
    InertKeepsLive(false, rest);
    SafeAppend(live, stopScript, rest);
    LiveAppend(live, stopScript, rest);
    InitScriptSafe(setupOk, false);
    SafeAppend(live, stopScript + rest, InitScript(setupOk));
    LiveAppend(live, stopScript + rest, InitScript(setupOk));
  }

  /** One pass of the main loop of `run`. */
  function RunFrame(live: bool, f: Frame): seq<Event> {
    var toggle := if f.toggleKey then [ToggleFullscreen] else [];
    var reload := if f.reloadKey then Reload(f.setupOk) else [];
    var live1 := if f.reloadKey then f.setupOk else live;
    toggle + reload + [FrameBegin] + GuardedHook(live1, "on_frame", f.frameOk) + [FrameEnd]
  }

  /** A frame calls `on_frame` only with a host, and leaves a host exactly
      when (after a reload, if F1 was pressed) there was one and `on_frame`
      succeeded. */
  lemma {:induction false} RunFrameSafe(live: bool, f: Frame)
    ensures var r := RunFrame(live, f);
      && HooksOnlyWhenLive(live, r) && FailuresDiscard(r)
      && Live(live, r) == ((if f.reloadKey then f.setupOk else live) && f.frameOk)
  {
    var toggle := if f.toggleKey then [ToggleFullscreen] else [];
    var reload := if f.reloadKey then Reload(f.setupOk) else [];
    var live1 := if f.reloadKey then f.setupOk else live;
    var hook := GuardedHook(live1, "on_frame", f.frameOk);
    InertKeepsLive(live, toggle);
    if f.reloadKey { ReloadSafe(f.setupOk, live); } else { InertKeepsLive(live, reload); }
    InertKeepsLive(live1, [FrameBegin]);
    InertKeepsLive(live1 && f.frameOk, [FrameEnd]);
    SafeAppend(live, toggle, reload);
    LiveAppend(live, toggle, reload);
    SafeAppend(live, toggle + reload, [FrameBegin]);
    LiveAppend(live, toggle + reload, [FrameBegin]);
    SafeAppend(live, toggle + reload + [FrameBegin], hook);
    LiveAppend(live, toggle + reload + [FrameBegin], hook);
    SafeAppend(live, toggle + reload + [FrameBegin] + hook, [FrameEnd]);
    LiveAppend(live, toggle + reload + [FrameBegin] + hook, [FrameEnd]);
  }

  /** `run`: `on_init`, one loop pass per frame until the window closes, then
      `on_exit`. No hook runs without a host, every failing hook discards
      the host, and the host survives exactly when the last hook that ran
      succeeded and no later reload failed. */
  method Run(live0: bool, initOk: bool, frames: seq<Frame>, exitOk: bool) returns (trace: seq<Event>, live: bool)
    ensures HooksOnlyWhenLive(live0, trace) && FailuresDiscard(trace)
    ensures live == Live(live0, trace)
    ensures live0 && !initOk && (forall k :: 0 <= k < |frames| ==> !frames[k].reloadKey) ==> !live
  {
    trace := GuardedHook(live0, "on_init", initOk);
    live := live0 && initOk;
    var i := 0;
    while i < |frames|
      invariant 0 <= i <= |frames|
      invariant HooksOnlyWhenLive(live0, trace) && FailuresDiscard(trace)
      invariant live == Live(live0, trace)
      invariant live0 && !initOk && (forall k :: 0 <= k < i ==> !frames[k].reloadKey) ==> !live
    {
      var piece := RunFrame(live, frames[i]);
      RunFrameSafe(live, frames[i]);
      SafeAppend(live0, trace, piece);
      LiveAppend(live0, trace, piece);
      trace := trace + piece;
      live := Live(live, piece);
      i := i + 1;
    }
    var last := GuardedHook(live, "on_exit", exitOk);
    SafeAppend(live0, trace, last);
    LiveAppend(live0, trace, last);
    trace := trace + last;
    live := live && exitOk;
  }

  /** `run_game`: construction runs `init` (whose script setup may fail),
      then `run`, then destruction runs `cleanup`. */
  method RunGame(setupOk: bool, initOk: bool, frames: seq<Frame>, exitOk: bool) returns (trace: seq<Event>)
    ensures |trace| >= 10
    ensures trace[..4] == InitEvents[..4] && trace[4] == Started(Script)
    ensures trace[|trace| - 5..] == CleanupEvents
    ensures HooksOnlyWhenLive(false, trace) && FailuresDiscard(trace)
  {
    var start := StartAll([Window, Graphics, Sound, Controls]);
    InertKeepsLive(false, start);
    var init := start + InitScript(setupOk);
    InitScriptSafe(setupOk, false);
    SafeAppend(false, start, InitScript(setupOk));
    LiveAppend(false, start, InitScript(setupOk));
    var body, live := Run(setupOk, initOk, frames, exitOk);
    SafeAppend(false, init, body);
    LiveAppend(false, init, body);
    var cleanup := CleanupEvents;
    assert cleanup[..0] == [];
    assert forall k :: 0 <= k < |cleanup| ==> !cleanup[k].Hook?;
    assert HooksOnlyWhenLive(Live(false, init + body), cleanup) && FailuresDiscard(cleanup);
    SafeAppend(false, init + body, cleanup);
    trace := init + body + cleanup;
    assert trace[..4] == start;
    assert trace[4] == InitScript(setupOk)[0];
    assert trace[|trace| - 5..] == cleanup;
  }
}
