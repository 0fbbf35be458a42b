/** `Game::setState`, `exit` and `run` of src/game.h. A game state is known
    by an id; the calls the game makes on it and on the window are events. */
module GameLoop {
  datatype Event =
    /** `state->game = this`. */
    | Attach(id: nat)
    | Init(id: nat)
    | Update(id: nat)
    | Render(id: nat)
    | Close(id: nat)
    | Delete(id: nat)
    /** `input.update()`, which polls the window. */
    | Poll
    /** `glfwSwapBuffers`. */
    | Present

  predicate Mentions(e: Event, id: nat) {
    !e.Poll? && !e.Present? && e.id == id
  }

  /** Where a state object is in its life. */
  datatype Phase = Unborn | Attached | Live | Closed | Deleted

  function PhaseOf(trace: seq<Event>, id: nat): Phase {
    if trace == [] then Unborn
    else
      var p := PhaseOf(trace[..|trace| - 1], id);
      var e := trace[|trace| - 1];
      if !Mentions(e, id) then p
      else match e
        case Attach(_) => Attached
        case Init(_) => Live
        case Close(_) => Closed
        case Delete(_) => Deleted
        case _ => p
  }

  /** The call `e` is allowed on a state in phase `p`: a state is attached
      once, initialised after that, updated and rendered only while live,
      closed while live, and deleted once closed. */
  predicate Allowed(p: Phase, e: Event) {
    match e
    case Attach(_) => p == Unborn
    case Init(_) => p == Attached
    case Update(_) => p == Live
    case Render(_) => p == Live
    case Close(_) => p == Live
    case Delete(_) => p == Closed
    case _ => true
  }

  predicate Legal(trace: seq<Event>) {
    trace == []
    || (Legal(trace[..|trace| - 1])
        && (trace[|trace| - 1].Poll? || trace[|trace| - 1].Present?
            || Allowed(PhaseOf(trace[..|trace| - 1], trace[|trace| - 1].id), trace[|trace| - 1])))
  }

  /** The game's own fields that the loop reads and writes. */
  datatype Game = Game(current: nat, shouldExit: bool, trace: seq<Event>)

  /** Exactly one state is live and the trace so far is legal. */
  ghost predicate Sound(g: Game) {
    Legal(g.trace) && PhaseOf(g.trace, g.current) == Live
    && forall id: nat :: id != g.current ==> PhaseOf(g.trace, id) == Unborn || PhaseOf(g.trace, id) == Deleted
  }

  /** `setState`: close and delete the current state, then attach and
      initialise the new one. */
  function SetState(g: Game, next: nat): (r: Game)
    ensures r.current == next && r.shouldExit == g.shouldExit
    ensures |r.trace| == |g.trace| + 4 && r.trace[..|g.trace|] == g.trace
  {
    g.(current := next, trace := g.trace + [Close(g.current), Delete(g.current), Attach(next), Init(next)])
  }

  /** `exit` and `exitGame`: only the flag changes. */
  function Exit(g: Game): (r: Game)
    ensures r.shouldExit && r.current == g.current && r.trace == g.trace
  {
    g.(shouldExit := true)
  }

  lemma {:induction false} PhaseSnoc(t: seq<Event>, e: Event, id: nat)
    ensures !Mentions(e, id) ==> PhaseOf(t + [e], id) == PhaseOf(t, id)
    ensures Legal(t + [e]) <==> Legal(t) && (e.Poll? || e.Present? || Allowed(PhaseOf(t, e.id), e))
  {
    assert (t + [e])[..|t|] == t;
  }

  /** Appending events to a sound trace, one at a time. */
  lemma {:induction false} Extend(t: seq<Event>, e: Event) returns (t': seq<Event>)
    requires Legal(t) && (e.Poll? || e.Present? || Allowed(PhaseOf(t, e.id), e))
    ensures t' == t + [e] && Legal(t')
    ensures forall id: nat :: !Mentions(e, id) ==> PhaseOf(t', id) == PhaseOf(t, id)
    ensures e.Attach? ==> PhaseOf(t', e.id) == Attached
    ensures e.Init? ==> PhaseOf(t', e.id) == Live
    ensures e.Close? ==> PhaseOf(t', e.id) == Closed
    ensures e.Delete? ==> PhaseOf(t', e.id) == Deleted
    ensures e.Update? || e.Render? ==> PhaseOf(t', e.id) == PhaseOf(t, e.id)
  {
    t' := t + [e];
    assert t'[..|t|] == t;
    forall id: nat | !Mentions(e, id) ensures PhaseOf(t', id) == PhaseOf(t, id) {
      PhaseSnoc(t, e, id);
    }
  }

  /** Switching to a state that has never been used keeps exactly one
      state live: the old one ends deleted, the new one live. */
  lemma {:induction false} SetStateSound(g: Game, next: nat)
    requires Sound(g) && PhaseOf(g.trace, next) == Unborn
    ensures Sound(SetState(g, next))
    ensures PhaseOf(SetState(g, next).trace, g.current) == Deleted
    ensures forall id: nat :: id != g.current && id != next ==> PhaseOf(SetState(g, next).trace, id) == PhaseOf(g.trace, id)
  {
    var t1 := Extend(g.trace, Close(g.current));
    var t2 := Extend(t1, Delete(g.current));
    var t3 := Extend(t2, Attach(next));
    var t4 := Extend(t3, Init(next));
    assert t4 == SetState(g, next).trace;
  }

  /** One pass of the loop: `update` (poll, then the state's own update,
      during which it may switch state or ask to exit), then `render`. */
  datatype Action = Stay | Switch(next: nat) | Quit

  /** What the state's update asks of the game. */
  function Act(g: Game, a: Action): Game {
    match a
    case Stay => g
    case Switch(next) => SetState(g, next)
    case Quit => Exit(g)
  }

  function Frame(g: Game, a: Action): Game {
    var acted := Act(g.(trace := g.trace + [Poll, Update(g.current)]), a);
    acted.(trace := acted.trace + [Render(acted.current), Present])
  }

  /** Polling, presenting, and updating or rendering the live state keep
      a sound game sound and change no state's phase. */
  lemma {:induction false} QuietStep(g: Game, e: Event)
    requires Sound(g) && e in {Poll, Present, Update(g.current), Render(g.current)}
    ensures Sound(g.(trace := g.trace + [e]))
    ensures forall id: nat :: PhaseOf(g.trace + [e], id) == PhaseOf(g.trace, id)
  {
    var t := Extend(g.trace, e);
  }

  lemma {:induction false} ActSound(g: Game, a: Action)
    requires Sound(g) && (a.Switch? ==> PhaseOf(g.trace, a.next) == Unborn)
    ensures var acted := Act(g, a);
      Sound(acted) && acted.shouldExit == (g.shouldExit || a.Quit?)
      && acted.current == (if a.Switch? then a.next else g.current)
      && forall id: nat :: id != g.current && (a.Switch? ==> id != a.next) ==> PhaseOf(acted.trace, id) == PhaseOf(g.trace, id)
  {
    if a.Switch? {
      SetStateSound(g, a.next);
    }
  }

  lemma {:induction false} FrameSound(g: Game, a: Action)
    requires Sound(g) && (a.Switch? ==> PhaseOf(g.trace, a.next) == Unborn)
    ensures Sound(Frame(g, a))
    ensures Frame(g, a).shouldExit == (g.shouldExit || a.Quit?)
    ensures Frame(g, a).current == (if a.Switch? then a.next else g.current)
    ensures forall id: nat :: id != g.current && (a.Switch? ==> id != a.next) ==> PhaseOf(Frame(g, a).trace, id) == PhaseOf(g.trace, id)
  {
    var g2 := g.(trace := g.trace + [Poll, Update(g.current)]);
    UpdateQuiet(g);
    ActSound(g2, a);
    var g3 := Act(g2, a);
    RenderQuiet(g3);
  }

  /** The poll and the update call of a pass change no phase. */
  lemma {:induction false} UpdateQuiet(g: Game)
    requires Sound(g)
    ensures var g2 := g.(trace := g.trace + [Poll, Update(g.current)]);
      Sound(g2) && forall id: nat :: PhaseOf(g2.trace, id) == PhaseOf(g.trace, id)
  {
    var g1 := g.(trace := g.trace + [Poll]);
    QuietStep(g, Poll);
    QuietStep(g1, Update(g.current));
    assert g1.trace + [Update(g.current)] == g.trace + [Poll, Update(g.current)];
  }

  /** The render call and the buffer swap of a pass change no phase. */
  lemma {:induction false} RenderQuiet(g: Game)
    requires Sound(g)
    ensures var g4 := g.(trace := g.trace + [Render(g.current), Present]);
      Sound(g4) && forall id: nat :: PhaseOf(g4.trace, id) == PhaseOf(g.trace, id)
  {
    var g1 := g.(trace := g.trace + [Render(g.current)]);
    QuietStep(g, Render(g.current));
    QuietStep(g1, Present);
    assert g1.trace + [Present] == g.trace + [Render(g.current), Present];
  }

  /** What the window reports before a pass, and what the state does in it. */
  datatype Tick = Tick(closing: bool, action: Action)

  /** Targets of `Switch` are states never used before: each differs from
      the first state and from every other target. */
  predicate FreshTargets(first: nat, ticks: seq<Tick>) {
    (forall i :: 0 <= i < |ticks| && ticks[i].action.Switch? ==> ticks[i].action.next != first)
    && forall i, j :: 0 <= i < j < |ticks| && ticks[i].action.Switch? && ticks[j].action.Switch? ==>
         ticks[i].action.next != ticks[j].action.next
  }

  /** How many passes the loop makes: it stops when the window reports
      closing (or there are no more ticks) and after a pass that asked to exit. */
  function Passes(ticks: seq<Tick>): (n: nat)
    ensures n <= |ticks|
  {
    if ticks == [] || ticks[0].closing then 0
    else if ticks[0].action.Quit? then 1
    else 1 + Passes(ticks[1..])
  }

  /** Attaching and initialising the first state leaves it the one live state. */
  lemma {:induction false} StartSound(first: nat)
    ensures Sound(Game(first, false, [Attach(first), Init(first)]))
    ensures forall id: nat :: id != first ==> PhaseOf([Attach(first), Init(first)], id) == Unborn
  {
    var t0 := Extend([], Attach(first));
    var t1 := Extend(t0, Init(first));
    assert t1 == [Attach(first), Init(first)];
  }

  /** Closing and deleting the live state leaves no state but unborn and
      deleted ones. */
  lemma {:induction false} CloseSound(g: Game)
    requires Sound(g)
    ensures var t := g.trace + [Close(g.current), Delete(g.current)];
      Legal(t) && forall id: nat :: PhaseOf(t, id) == Unborn || PhaseOf(t, id) == Deleted
  {
    var t2 := Extend(g.trace, Close(g.current));
    var t3 := Extend(t2, Delete(g.current));
    assert t3 == g.trace + [Close(g.current), Delete(g.current)];
  }

  /** `Game::run`. `initResult` is what `init` hands back once the window,
      graphics and input are up and the state's `init` has run; the failure
      returns of `init` are not modelled (see README). A zero result makes
      `run` return 1 at once; otherwise the loop runs and `close` closes and
      deletes the state that is current at the end. */
  method Run(first: nat, initResult: int, ticks: seq<Tick>) returns (code: int, g: Game, passes: nat)
    requires FreshTargets(first, ticks)
    ensures initResult == 0 ==> code == 1 && passes == 0 && g.trace == [Attach(first), Init(first)]
    ensures initResult != 0 ==> code == 0 && passes == Passes(ticks)
    ensures initResult != 0 ==> Legal(g.trace)
    ensures initResult != 0 ==> forall id: nat :: PhaseOf(g.trace, id) == Unborn || PhaseOf(g.trace, id) == Deleted
    ensures initResult != 0 ==> |g.trace| >= 4 && g.trace[|g.trace| - 2..] == [Close(g.current), Delete(g.current)]
  {
    g := Game(first, false, [Attach(first), Init(first)]);
    StartSound(first);
    passes := 0;
    if initResult == 0 {
      code := 1;
      return;
    }
    var i := 0;
    while i < |ticks| && !ticks[i].closing && !g.shouldExit
      invariant 0 <= i <= |ticks| && passes == i
      invariant Sound(g) && |g.trace| >= 2
      invariant forall j :: i <= j < |ticks| && ticks[j].action.Switch? ==> PhaseOf(g.trace, ticks[j].action.next) == Unborn
      invariant g.shouldExit ==> i > 0 && ticks[i - 1].action.Quit?
      invariant !g.shouldExit ==> Passes(ticks) == i + Passes(ticks[i..])
      invariant g.shouldExit ==> Passes(ticks) == i
      decreases |ticks| - i
    {
      var a := ticks[i].action;
      FrameSound(g, a);
      assert ticks[i..][1..] == ticks[i + 1..];
      g := Frame(g, a);
      i := i + 1;
      passes := passes + 1;
    }
    if !g.shouldExit {
      assert Passes(ticks[i..]) == 0;
    }
    CloseSound(g);
    g := g.(trace := g.trace + [Close(g.current), Delete(g.current)]);
    code := 0;
  }
}
