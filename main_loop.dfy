/** The game loop of main.cpp.

    One iteration of the window loop is a frame: announce graduation when both
    players stand on their last tile, then tick both players. Between frames
    the loop drains the window's event queue; every polled event runs the major
    prompts, the wheel (on a released Space key) and the two event checks.

    GameState is the value the loop variables and the two players hold; the
    functions FrameStep and InputStep specify one frame and one polled event,
    and the Game class runs them on the real objects. The popups' answers and
    the random draws are the fields of Choices; the clocks are the `elapsed`
    flags of a frame. */
module MainLoop {
  import opened Board
  import opened WheelSpin
  import opened PlayerModel
  import opened EventCatalog
  import opened Graduation

  /** The kinds of polled window event the loop tells apart. The A and B keys
      only open the resource display, which changes nothing. */
  datatype Input = Closed | KeyA | KeyB | SpaceReleased | OtherInput

  /** What stands in for the popups and for `std::rand` while one event is
      handled: the wheel's draw, the answers to the two major prompts and the
      draws that pick a catalog record for each player. */
  datatype Choices = Choices(spinDraw: nat, major1: int, major2: int, eventDraw1: nat, eventDraw2: nat)

  /** The loop variables of `main` and the two players. */
  datatype GameState = GameState(
    turn: int,
    majorChosen1: int,
    majorChosen2: int,
    p1: PlayerState,
    p2: PlayerState,
    windowOpen: bool)

  /** What one polled event put on screen: the two major prompts, and the
      record each event popup showed, if it opened. */
  datatype Shown = Shown(prompt1: bool, prompt2: bool, popup1: Option<Event>, popup2: Option<Event>)

  /** `majorEvent` answers 1 for Ivey and 0 for Western (also 0, as `false`,
      when its window closes). */
  predicate Answer(a: int) { a == 0 || a == 1 }

  predicate ChoicesOk(c: Choices, catalogSize: nat) {
    Answer(c.major1) && Answer(c.major2) && c.eventDraw1 < catalogSize && c.eventDraw2 < catalogSize
  }

  /** The path starts on the start tile and has more than one tile, as both
      board paths do (Board.PathShape). */
  predicate FromStart(path: seq<Pos>) { |path| > 1 && path[0] == Start }

  /** What holds of a player throughout the game: the index invariant, a path
      of the board, the marker on the current tile, a resting player on its
      target, and no move before its major is chosen. */
  predicate PlayerOk(s: PlayerState, chosen: int) {
    Inv(s) && FromStart(s.path) && s.marker == s.path[s.current] &&
    (AtRest(s) ==> s.current == s.target) &&
    (chosen == 0 || chosen == 1) &&
    (chosen == 0 ==> s.current == 0 && s.target == 0)
  }

  predicate GameInv(g: GameState) {
    (g.turn == 1 || g.turn == 2) && PlayerOk(g.p1, g.majorChosen1) && PlayerOk(g.p2, g.majorChosen2)
  }

  /** The state after the setup of `main`: player 1 on the Ivey path, player 2
      on the Western path, resources zero, player 1 to spin first, no major
      chosen. `major` is never initialised by the source, so it is a parameter. */
  function InitialGame(major1: int, major2: int): (g: GameState)
    ensures GameInv(g) && g.turn == 1 && g.windowOpen
    ensures g.majorChosen1 == 0 && g.majorChosen2 == 0
    ensures g.p1.path == IveyPath && g.p2.path == WesternPath
    ensures g.p1.marker == Start && g.p2.marker == Start
    ensures ResourcesOf(g.p1) == Resources(0, 0, 0) && ResourcesOf(g.p2) == Resources(0, 0, 0)
  {
    GameState(1, 0, 0, Spawned(IveyPath, major1), Spawned(WesternPath, major2), true)
  }

  // ---------------------------------------------------------------------------
  // One polled event, as written.

  /** The major prompt for one player: it opens while the marker is on the
      start tile and no major has been chosen; 0 selects the Western path, 1
      the Ivey path, and either marks the major as chosen. Returns the player,
      the new flag, and whether the prompt opened. */
  function SelectMajor(s: PlayerState, chosen: int, answer: int): (r: (PlayerState, int, bool))
    requires PlayerOk(s, chosen) && Answer(answer)
    ensures PlayerOk(r.0, r.1) && r.1 == 1
    ensures r.2 <==> chosen == 0
    ensures r.2 ==> r.0 == s.(path := if answer == 0 then WesternPath else IveyPath)
    ensures !r.2 ==> r.0 == s
  {
    if s.marker == Start && chosen == 0 then
      if answer == 0 then (s.(path := WesternPath), 1, true)
      else if answer == 1 && chosen == 0 then (s.(path := IveyPath), 1, true)
      else (s, chosen, true)
    else
      (s, chosen, false)
  }

  /** The face the constructed wheel shows for a draw. */
  function SpinValue(draw: nat): (v: int)
    ensures v == draw % 5 + 1 && 1 <= v <= 5
  {
    Faces[draw % |Faces|]
  }

  /** The spin rule: the player whose turn it is moves unless `finished()`
      holds for it; the turn passes to the other player unless that one has
      finished. A spin on a finished player's turn is discarded. */
  function SpinTurn(g: GameState, v: int): (r: GameState)
    requires Inv(g.p1) && Inv(g.p2) && v >= 0
    ensures r == g.(turn := r.turn, p1 := r.p1, p2 := r.p2)
    ensures g.turn == 1 && !AtEnd(g.p1) ==>
              r.p1 == Moved(g.p1, v) && r.p2 == g.p2 && (r.turn == 2 <==> !AtEnd(g.p2)) && (r.turn == 1 || r.turn == 2)
    ensures g.turn == 2 && !AtEnd(g.p2) ==>
              r.p2 == Moved(g.p2, v) && r.p1 == g.p1 && (r.turn == 1 <==> !AtEnd(g.p1)) && (r.turn == 1 || r.turn == 2)
    ensures !(g.turn == 1 && !AtEnd(g.p1)) && !(g.turn == 2 && !AtEnd(g.p2)) ==> r == g
  {
    if g.turn == 1 && !AtEnd(g.p1) then
      g.(p1 := Moved(g.p1, v), turn := if !AtEnd(g.p2) then 2 else g.turn)
    else if g.turn == 2 && !AtEnd(g.p2) then
      g.(p2 := Moved(g.p2, v), turn := if !AtEnd(g.p1) then 1 else g.turn)
    else
      g
  }

  /** The event check as written: `onEvent` runs first and sets the flag
      whenever the current tile is an event space, moving or not; the popup
      opens only when the player is also at rest, and then applies the record
      drawn from the catalog with the doubling setters. */
  function EventCheck(s: PlayerState, catalog: seq<Event>, draw: nat): (r: (PlayerState, Option<Event>))
    requires Inv(s) && draw < |catalog|
    ensures r.1.Some? <==> TriggersEvent(s, EventSpaces) && AtRest(s)
    ensures r.1.Some? ==> r.1.value == catalog[draw] &&
                          r.0 == AppliedAsWritten(AfterOnEvent(s, EventSpaces), catalog[draw])
    ensures r.1.None? ==> r.0 == AfterOnEvent(s, EventSpaces)
    ensures r.0.eventTriggered == (s.eventTriggered || TriggersEvent(s, EventSpaces))
  {
    var t := AfterOnEvent(s, EventSpaces);
    if TriggersEvent(s, EventSpaces) && AtRest(t) then
      (AppliedAsWritten(t, catalog[draw]), Some(catalog[draw]))
    else
      (t, None)
  }

  /** The close request and the two major prompts. */
  function Selected(g: GameState, input: Input, c: Choices): (r: (GameState, bool, bool))
    requires GameInv(g) && Answer(c.major1) && Answer(c.major2)
    ensures GameInv(r.0) && r.0.majorChosen1 == 1 && r.0.majorChosen2 == 1
    ensures r.0.turn == g.turn && r.0.windowOpen == (g.windowOpen && input != Closed)
    ensures r.1 <==> g.majorChosen1 == 0
    ensures r.2 <==> g.majorChosen2 == 0
    ensures r.0.p1 == SelectMajor(g.p1, g.majorChosen1, c.major1).0
    ensures r.0.p2 == SelectMajor(g.p2, g.majorChosen2, c.major2).0
  {
    var (s1, m1, prompt1) := SelectMajor(g.p1, g.majorChosen1, c.major1);
    var (s2, m2, prompt2) := SelectMajor(g.p2, g.majorChosen2, c.major2);
    (g.(windowOpen := g.windowOpen && input != Closed,
        p1 := s1, majorChosen1 := m1, p2 := s2, majorChosen2 := m2), prompt1, prompt2)
  }

  /** The wheel, spun only on a released Space key. */
  function Spun(g: GameState, input: Input, draw: nat): (r: GameState)
    requires GameInv(g) && g.majorChosen1 == 1 && g.majorChosen2 == 1
    ensures GameInv(r) && r.majorChosen1 == 1 && r.majorChosen2 == 1
    // Stated so that `Game.Spin` can be proved equal to this function.
    ensures r == if input == SpaceReleased then SpinTurn(g, SpinValue(draw)) else g
  {
    if input == SpaceReleased then SpinTurn(g, SpinValue(draw)) else g
  }

  /** The event checks for player 1, then player 2. */
  function Checked(g: GameState, c: Choices, catalog: seq<Event>): (r: (GameState, Option<Event>, Option<Event>))
    requires GameInv(g) && c.eventDraw1 < |catalog| && c.eventDraw2 < |catalog|
    ensures GameInv(r.0)
    // Stated so that `Game.CheckEvents` can be proved equal to this function.
    ensures r.0 == g.(p1 := EventCheck(g.p1, catalog, c.eventDraw1).0, p2 := EventCheck(g.p2, catalog, c.eventDraw2).0)
    ensures r.1 == EventCheck(g.p1, catalog, c.eventDraw1).1
    ensures r.2 == EventCheck(g.p2, catalog, c.eventDraw2).1
  {
    var (t1, popup1) := EventCheck(g.p1, catalog, c.eventDraw1);
    var (t2, popup2) := EventCheck(g.p2, catalog, c.eventDraw2);
    (g.(p1 := t1, p2 := t2), popup1, popup2)
  }

  /** One polled event: a close request, the two major prompts, the wheel on
      a released Space key, then the event checks for player 1 and player 2. */
  function InputStep(g: GameState, input: Input, c: Choices, catalog: seq<Event>): (r: (GameState, Shown))
    requires GameInv(g) && ChoicesOk(c, |catalog|)
    ensures GameInv(r.0)
    ensures r.0.windowOpen == (g.windowOpen && input != Closed)
    ensures r.0.majorChosen1 == 1 && r.0.majorChosen2 == 1
  {
    var (g1, prompt1, prompt2) := Selected(g, input, c);
    var g2 := Spun(g1, input, c.spinDraw);
    var (g3, popup1, popup2) := Checked(g2, c, catalog);
    (g3, Shown(prompt1, prompt2, popup1, popup2))
  }

  /** One frame: graduation is announced, with its winner, exactly when both
      players are on their last tile; then both players tick. */
  function FrameStep(g: GameState, elapsed1: bool, elapsed2: bool): (r: (GameState, Option<string>))
    requires GameInv(g)
    ensures GameInv(r.0)
    ensures r.1.Some? <==> AtEnd(g.p1) && AtEnd(g.p2)
    ensures r.1.Some? ==> r.1.value == GraduationWinner(g.p1, g.p2)
    ensures r.0 == g.(p1 := Ticked(g.p1, elapsed1), p2 := Ticked(g.p2, elapsed2))
  {
    var winner := if AtEnd(g.p1) && AtEnd(g.p2) then Some(GraduationWinner(g.p1, g.p2)) else None;
    (g.(p1 := Ticked(g.p1, elapsed1), p2 := Ticked(g.p2, elapsed2)), winner)
  }

  // ---------------------------------------------------------------------------
  // Runs of the loop.

  /** Either a polled event or a frame. */
  datatype Step = Poll(input: Input, choices: Choices) | Frame(elapsed1: bool, elapsed2: bool)

  predicate StepsOk(steps: seq<Step>, catalogSize: nat) {
    forall i :: 0 <= i < |steps| ==> (steps[i].Poll? ==> ChoicesOk(steps[i].choices, catalogSize))
  }

  /** A polled close request: the window closes, and the loop ends after the
      rest of that event's handling. */
  predicate ClosesWindow(st: Step) { st.Poll? && st.input == Closed }

  function Apply(g: GameState, st: Step, catalog: seq<Event>): (r: (GameState, bool))
    requires GameInv(g) && (st.Poll? ==> ChoicesOk(st.choices, |catalog|))
    ensures GameInv(r.0)
    ensures r.0.windowOpen == (g.windowOpen && !ClosesWindow(st))
  {
    match st
    case Poll(input, c) => (InputStep(g, input, c, catalog).0, false)
    case Frame(e1, e2) => var (h, w) := FrameStep(g, e1, e2); (h, w.Some?)
  }

  /** Runs the steps in order while the window is open (`while (window.isOpen())`);
      returns the final state and how many frames announced graduation. */
  function Run(g: GameState, steps: seq<Step>, catalog: seq<Event>): (r: (GameState, nat))
    requires GameInv(g) && StepsOk(steps, |catalog|)
    ensures GameInv(r.0)
    ensures r.0.windowOpen == (g.windowOpen && forall i :: 0 <= i < |steps| ==> !ClosesWindow(steps[i]))
    decreases |steps|
  {
    if steps == [] || !g.windowOpen then (g, 0)
    else
      var (h, graduated) := Apply(g, steps[0], catalog);
      var (last, n) := Run(h, steps[1..], catalog);
      (last, n + if graduated then 1 else 0)
  }

  /** `k` frames whose delays have all elapsed. */
  function Frames(g: GameState, k: nat): (r: GameState)
    requires GameInv(g)
    ensures GameInv(r)
    decreases k
  {
    if k == 0 then g else FrameStep(Frames(g, k - 1), true, true).0
  }

  lemma {:induction false} FramesTickBoth(g: GameState, k: nat)
    requires GameInv(g)
    ensures Frames(g, k) == g.(p1 := Ticks(g.p1, k), p2 := Ticks(g.p2, k))
    decreases k
  {
    if k > 0 {
      FramesTickBoth(g, k - 1);
    }
  }

  // ---------------------------------------------------------------------------
  // Properties of the loop as written.

  /** Both prompts open on the first polled event and never again; once a
      major is chosen the player's path is never replaced. */
  lemma MajorsChosenOnce(g: GameState, input: Input, c: Choices, catalog: seq<Event>)
    requires GameInv(g) && ChoicesOk(c, |catalog|)
    ensures var (h, shown) := InputStep(g, input, c, catalog);
            (shown.prompt1 <==> g.majorChosen1 == 0) && (shown.prompt2 <==> g.majorChosen2 == 0) &&
            (g.majorChosen1 == 0 ==> h.p1.path == (if c.major1 == 0 then WesternPath else IveyPath)) &&
            (g.majorChosen2 == 0 ==> h.p2.path == (if c.major2 == 0 then WesternPath else IveyPath)) &&
            (g.majorChosen1 == 1 ==> h.p1.path == g.p1.path) &&
            (g.majorChosen2 == 1 ==> h.p2.path == g.p2.path)
  {
  }

  /** Only a released Space key moves anyone or changes the turn; the spin
      moves the player whose turn it is unless that player has finished. */
  lemma SpinRule(g: GameState, input: Input, c: Choices, catalog: seq<Event>)
    requires GameInv(g) && ChoicesOk(c, |catalog|)
    requires g.majorChosen1 == 1 && g.majorChosen2 == 1
    ensures var h := InputStep(g, input, c, catalog).0;
            var v := c.spinDraw % 5 + 1;
            if input == SpaceReleased && g.turn == 1 && !AtEnd(g.p1) then
              h.p1.target == Min(g.p1.current + v, Last(g.p1)) && h.p1.isMoving &&
              h.p2.target == g.p2.target && (h.turn == 2 <==> !AtEnd(g.p2))
            else if input == SpaceReleased && g.turn == 2 && !AtEnd(g.p2) then
              h.p2.target == Min(g.p2.current + v, Last(g.p2)) && h.p2.isMoving &&
              h.p1.target == g.p1.target && (h.turn == 1 <==> !AtEnd(g.p1))
            else
              h.turn == g.turn && h.p1.target == g.p1.target && h.p2.target == g.p2.target &&
              h.p1.isMoving == g.p1.isMoving && h.p2.isMoving == g.p2.isMoving
  {
  }

  /** An event popup opens for a player only at rest on an event space whose
      flag was still clear, and shows the record the draw picked; no polled
      event moves a marker. */
  lemma PopupGating(g: GameState, input: Input, c: Choices, catalog: seq<Event>)
    requires GameInv(g) && ChoicesOk(c, |catalog|)
    ensures var (h, shown) := InputStep(g, input, c, catalog);
            (shown.popup1.Some? ==>
               AtRest(h.p1) && h.p1.path[h.p1.current] in EventSpaces &&
               !g.p1.eventTriggered && shown.popup1.value == catalog[c.eventDraw1]) &&
            (shown.popup2.Some? ==>
               AtRest(h.p2) && h.p2.path[h.p2.current] in EventSpaces &&
               !g.p2.eventTriggered && shown.popup2.value == catalog[c.eventDraw2]) &&
            h.p1.current == g.p1.current && h.p2.current == g.p2.current
  {
  }

  /** The steps the loop gets to run from an open window: all of them up to
      and including the first close request. */
  function UntilClosed(steps: seq<Step>): (r: seq<Step>)
    ensures |r| <= |steps| && r == steps[..|r|]
    ensures forall i :: 0 <= i < |r| - 1 ==> !ClosesWindow(r[i])
    ensures r == steps || (r != [] && ClosesWindow(r[|r| - 1]))
    decreases |steps|
  {
    if steps == [] then []
    else if ClosesWindow(steps[0]) then [steps[0]]
    else [steps[0]] + UntilClosed(steps[1..])
  }

  /** How many of the steps are frames. */
  function FrameCount(steps: seq<Step>): (n: nat)
    ensures n <= |steps|
  {
    if steps == [] then 0 else FrameCount(steps[1..]) + if steps[0].Frame? then 1 else 0
  }

  /** One step keeps two finished players finished; a frame then announces
      graduation and a polled event does not. */
  lemma EndIsKept(g: GameState, st: Step, catalog: seq<Event>)
    requires GameInv(g) && (st.Poll? ==> ChoicesOk(st.choices, |catalog|))
    requires AtEnd(g.p1) && AtEnd(g.p2)
    ensures AtEnd(Apply(g, st, catalog).0.p1) && AtEnd(Apply(g, st, catalog).0.p2)
    ensures Apply(g, st, catalog).1 == st.Frame?
  {
    if st.Poll? {
      var g1 := Selected(g, st.input, st.choices).0;
      assert g1.p1 == g.p1 && g1.p2 == g.p2;
    }
  }

  /** A player on the last tile stays there, so once both have arrived every
      later frame announces graduation again, up to the close request that
      ends the loop; with the window closed nothing more runs. */
  lemma {:induction false} GraduationPersists(g: GameState, steps: seq<Step>, catalog: seq<Event>)
    requires GameInv(g) && StepsOk(steps, |catalog|)
    requires AtEnd(g.p1) && AtEnd(g.p2)
    ensures AtEnd(Run(g, steps, catalog).0.p1) && AtEnd(Run(g, steps, catalog).0.p2)
    ensures Run(g, steps, catalog).1 == if g.windowOpen then FrameCount(UntilClosed(steps)) else 0
    decreases |steps|
  {
    if steps != [] && g.windowOpen {
      var h := Apply(g, steps[0], catalog).0;
      EndIsKept(g, steps[0], catalog);
      assert StepsOk(steps[1..], |catalog|);
      GraduationPersists(h, steps[1..], catalog);
      if !ClosesWindow(steps[0]) {
        var u := UntilClosed(steps);
        assert u[0] == steps[0] && u[1..] == UntilClosed(steps[1..]);
      }
    }
  }

  // ---------------------------------------------------------------------------
  // The turn rule reads `finished()`, which looks at the current index, not
  // the target. A second spin before the first move has been animated hands
  // the turn to a player who is still on its way to the last tile; once it
  // arrives, every later spin is discarded and graduation never comes.

  /** The turn belongs to a player on its last tile while the other player's
      target is short of its own last tile. */
  predicate Stalled(g: GameState) {
    Inv(g.p1) && Inv(g.p2) &&
    ((g.turn == 2 && AtEnd(g.p2) && g.p1.target < Last(g.p1)) ||
     (g.turn == 1 && AtEnd(g.p1) && g.p2.target < Last(g.p2)))
  }

  /** With both majors chosen, a polled event leaves the paths, indices and
      turn exactly as the spin rule alone leaves them. */
  lemma PollActsLikeSpin(g: GameState, input: Input, c: Choices, catalog: seq<Event>)
    requires GameInv(g) && ChoicesOk(c, |catalog|)
    requires g.majorChosen1 == 1 && g.majorChosen2 == 1
    ensures var h := InputStep(g, input, c, catalog).0;
            var r := if input == SpaceReleased then SpinTurn(g, SpinValue(c.spinDraw)) else g;
            h.turn == r.turn &&
            h.p1.path == r.p1.path && h.p1.current == r.p1.current && h.p1.target == r.p1.target &&
            h.p1.isMoving == r.p1.isMoving &&
            h.p2.path == r.p2.path && h.p2.current == r.p2.current && h.p2.target == r.p2.target &&
            h.p2.isMoving == r.p2.isMoving
  {
    var g1 := Selected(g, input, c).0;
    assert g1 == g.(windowOpen := g1.windowOpen);
  }

  /** The major prompts keep a game stalled. */
  lemma SelectedKeepsStall(g: GameState, input: Input, c: Choices)
    requires GameInv(g) && Answer(c.major1) && Answer(c.major2) && Stalled(g)
    ensures Stalled(Selected(g, input, c).0)
  {
    var g1 := Selected(g, input, c).0;
    assert g1.p1.target == g.p1.target && g1.p1.current == g.p1.current;
    assert g1.p2.target == g.p2.target && g1.p2.current == g.p2.current;
    assert g.majorChosen1 == 0 ==> g1.p1.target == 0 < Last(g1.p1);
    assert g.majorChosen2 == 0 ==> g1.p2.target == 0 < Last(g1.p2);
    assert g.majorChosen1 == 1 ==> g1.p1 == g.p1;
    assert g.majorChosen2 == 1 ==> g1.p2 == g.p2;
  }

  /** A polled event keeps a game stalled. */
  lemma StalledPoll(g: GameState, input: Input, c: Choices, catalog: seq<Event>)
    requires GameInv(g) && ChoicesOk(c, |catalog|) && Stalled(g)
    ensures Stalled(InputStep(g, input, c, catalog).0)
  {
    var g1 := Selected(g, input, c).0;
    SelectedKeepsStall(g, input, c);
    var g2 := Spun(g1, input, c.spinDraw);
    assert g2 == g1;
    var g3 := Checked(g2, c, catalog).0;
    assert g3.turn == g2.turn;
    assert g3.p1.path == g2.p1.path && g3.p1.current == g2.p1.current && g3.p1.target == g2.p1.target;
    assert g3.p2.path == g2.p2.path && g3.p2.current == g2.p2.current && g3.p2.target == g2.p2.target;
  }

  /** A frame keeps a game stalled and announces nothing. */
  lemma StalledFrame(g: GameState, e1: bool, e2: bool)
    requires GameInv(g) && Stalled(g)
    ensures Stalled(FrameStep(g, e1, e2).0) && FrameStep(g, e1, e2).1 == None
  {
    var h := FrameStep(g, e1, e2).0;
    assert h.p1.target == g.p1.target && h.p2.target == g.p2.target;
    assert AtEnd(g.p1) ==> h.p1.current == g.p1.current;
    assert AtEnd(g.p2) ==> h.p2.current == g.p2.current;
  }

  /** No step leaves a stalled game, and no frame of one announces graduation. */
  lemma StalledStep(g: GameState, st: Step, catalog: seq<Event>)
    requires GameInv(g) && (st.Poll? ==> ChoicesOk(st.choices, |catalog|))
    requires Stalled(g)
    ensures Stalled(Apply(g, st, catalog).0) && !Apply(g, st, catalog).1
  {
    if st.Poll? {
      StalledPoll(g, st.input, st.choices, catalog);
    } else {
      StalledFrame(g, st.elapsed1, st.elapsed2);
    }
  }

  /** A stalled game stays stalled whatever happens, and never graduates. */
  lemma {:induction false} StalledForever(g: GameState, steps: seq<Step>, catalog: seq<Event>)
    requires GameInv(g) && StepsOk(steps, |catalog|)
    requires Stalled(g)
    ensures Stalled(Run(g, steps, catalog).0) && Run(g, steps, catalog).1 == 0
    decreases |steps|
  {
    if steps != [] {
      StalledStep(g, steps[0], catalog);
      assert StepsOk(steps[1..], |catalog|);
      StalledForever(Apply(g, steps[0], catalog).0, steps[1..], catalog);
    }
  }

  /** Player 2 on its way to the last tile with the turn, player 1 short of
      its own: once player 2's marker arrives, the game is stalled. */
  lemma ArrivalStalls(h: GameState, k: nat)
    requires GameInv(h) && h.turn == 2 && h.p2.isMoving && Committed(h.p2)
    requires h.p1.target < Last(h.p1) && k == Last(h.p2) - h.p2.current
    ensures Stalled(Frames(h, k))
  {
    FramesTickBoth(h, k);
    HopPerTick(h.p2, k);
    var f := Frames(h, k);
    assert f.p2.current == Last(h.p2) && f.p2.path == h.p2.path;
    assert f.p1.target == h.p1.target && f.p1.path == h.p1.path;
  }

  /** Two Space releases in a row, the first sending player 2 to its last tile
      and the second moving player 1 short of its own: the turn goes back to
      player 2, and once player 2's marker arrives the game is stalled. */
  lemma DoubleSpinStalls(g: GameState, c1: Choices, c2: Choices, catalog: seq<Event>)
    requires GameInv(g) && ChoicesOk(c1, |catalog|) && ChoicesOk(c2, |catalog|)
    requires g.majorChosen1 == 1 && g.majorChosen2 == 1 && g.turn == 2
    requires g.p2.current < Last(g.p2) <= g.p2.current + SpinValue(c1.spinDraw)
    requires g.p1.current + SpinValue(c2.spinDraw) < Last(g.p1)
    ensures var h1 := InputStep(g, SpaceReleased, c1, catalog).0;
            var h2 := InputStep(h1, SpaceReleased, c2, catalog).0;
            h1.turn == 1 && h2.turn == 2 && Stalled(Frames(h2, Last(g.p2) - g.p2.current))
  {
    var v1, v2 := SpinValue(c1.spinDraw), SpinValue(c2.spinDraw);
    var h1 := InputStep(g, SpaceReleased, c1, catalog).0;
    SpinMovesHolder(g, c1, catalog);
    assert !AtEnd(g.p1);
    assert h1.turn == 1 && h1.p2.target == Last(g.p2) && h1.p2.isMoving;
    assert h1.p1.current == g.p1.current && h1.p1.path == g.p1.path && !AtEnd(h1.p1);
    var h2 := InputStep(h1, SpaceReleased, c2, catalog).0;
    SpinMovesHolder(h1, c2, catalog);
    assert h2.p1.target < Last(h2.p1);
    assert h2.turn == 2;
    assert h2.p2.isMoving && Committed(h2.p2) && h2.p2.current == g.p2.current;
    ArrivalStalls(h2, Last(g.p2) - g.p2.current);
  }

  /** A Space release with both majors chosen moves the holder of the turn,
      if it has not finished, from its current index by the face shown. */
  lemma SpinMovesHolder(g: GameState, c: Choices, catalog: seq<Event>)
    requires GameInv(g) && ChoicesOk(c, |catalog|)
    requires g.majorChosen1 == 1 && g.majorChosen2 == 1
    ensures var h := InputStep(g, SpaceReleased, c, catalog).0;
            var v := SpinValue(c.spinDraw);
            h.p1.path == g.p1.path && h.p2.path == g.p2.path &&
            h.p1.current == g.p1.current && h.p2.current == g.p2.current &&
            (g.turn == 1 && !AtEnd(g.p1) ==>
               h.p1.target == Min(g.p1.current + v, Last(g.p1)) && h.p1.isMoving &&
               h.p2.target == g.p2.target && h.p2.isMoving == g.p2.isMoving &&
               h.turn == (if AtEnd(g.p2) then 1 else 2)) &&
            (g.turn == 2 && !AtEnd(g.p2) ==>
               h.p2.target == Min(g.p2.current + v, Last(g.p2)) && h.p2.isMoving &&
               h.p1.target == g.p1.target && h.p1.isMoving == g.p1.isMoving &&
               h.turn == (if AtEnd(g.p1) then 2 else 1))
  {
    PollActsLikeSpin(g, SpaceReleased, c, catalog);
  }

  /** Player 1 at rest on Ivey tile 10 and player 2 at rest on Western tile
      23, five tiles from its end, with player 2 to spin. Play reaches these
      positions and this turn when the players, starting with player 1, spin
      1, 5, 1, 5, 2, 5, 2, 5, 2, 3, 2 and every move is played out. */
  const StallStart: GameState :=
    GameState(2, 1, 1,
              PlayerState(IveyPath, 10, 10, false, false, IveyPath[10], 1, 0, 0, 0),
              PlayerState(WesternPath, 23, 23, false, false, WesternPath[23], 0, 0, 0, 0), true)

  /** A concrete stall from `StallStart`: draws 4 and 0 show 5 and 1, and four
      frames later the game is stalled. */
  lemma StallExample(catalog: seq<Event>)
    requires |catalog| > 0
    ensures var c1, c2 := Choices(4, 0, 0, 0, 0), Choices(0, 0, 0, 0, 0);
            GameInv(StallStart) &&
            Stalled(Frames(InputStep(InputStep(StallStart, SpaceReleased, c1, catalog).0, SpaceReleased, c2, catalog).0, 4))
  {
    DoubleSpinStalls(StallStart, Choices(4, 0, 0, 0, 0), Choices(0, 0, 0, 0, 0), catalog);
  }

  /** A player is committed once its target is the last tile. */
  predicate Committed(s: PlayerState) { s.target == Last(s) }

  /** The turn rule with `finished()` read as intended, on the committed
      target: the spin goes to the player whose turn it is unless that player
      is already bound for the last tile, and the turn passes unless the other
      one is. */
  function SpinTurnIntended(g: GameState, v: int): (r: GameState)
    requires Inv(g.p1) && Inv(g.p2) && v >= 0
    ensures r == g.(turn := r.turn, p1 := r.p1, p2 := r.p2)
    ensures g.turn == 1 && !Committed(g.p1) ==>
              r.p1 == Moved(g.p1, v) && r.p2 == g.p2 && (r.turn == 2 <==> !Committed(g.p2))
    ensures g.turn == 2 && !Committed(g.p2) ==>
              r.p2 == Moved(g.p2, v) && r.p1 == g.p1 && (r.turn == 1 <==> !Committed(g.p1))
  {
    if g.turn == 1 && !Committed(g.p1) then
      g.(p1 := Moved(g.p1, v), turn := if !Committed(g.p2) then 2 else g.turn)
    else if g.turn == 2 && !Committed(g.p2) then
      g.(p2 := Moved(g.p2, v), turn := if !Committed(g.p1) then 1 else g.turn)
    else
      g
  }

  /** The turn never rests with a committed player while the other is not. */
  predicate NoStall(g: GameState) {
    (g.turn == 1 && Committed(g.p1) ==> Committed(g.p2)) &&
    (g.turn == 2 && Committed(g.p2) ==> Committed(g.p1))
  }

  /** Under the intended rule no spin is lost while a player still has tiles
      to go: the holder of the turn moves, and the rule keeps NoStall. */
  lemma IntendedSpinIsNeverLost(g: GameState, v: int)
    requires GameInv(g) && NoStall(g) && v >= 0
    requires !(Committed(g.p1) && Committed(g.p2))
    ensures var r := SpinTurnIntended(g, v);
            NoStall(r) && (r.turn == 1 || r.turn == 2) &&
            (g.turn == 1 ==> r.p1 == Moved(g.p1, v)) &&
            (g.turn == 2 ==> r.p2 == Moved(g.p2, v))
  {
  }

  /** NoStall rules a stalled game out. */
  lemma NoStallIsNotStalled(g: GameState)
    requires GameInv(g) && NoStall(g)
    ensures !Stalled(g)
  {
  }

  /** Once both players are committed, enough elapsed frames bring both
      markers to the end, and the next frame announces graduation. */
  lemma CommittedPlayersGraduate(g: GameState, e1: bool, e2: bool)
    requires GameInv(g) && Committed(g.p1) && Committed(g.p2)
    ensures var k := Last(g.p1) + Last(g.p2);
            FrameStep(Frames(g, k), e1, e2).1 == Some(GraduationWinner(Frames(g, k).p1, Frames(g, k).p2))
  {
    var k := Last(g.p1) + Last(g.p2);
    var f := Frames(g, k);
    FramesTickBoth(g, k);
    ReachesEnd(g.p1, k);
    ReachesEnd(g.p2, k);
  }

  /** A committed player that rests only on its target stands on its last
      tile after as many elapsed ticks as the path is long, or more. */
  lemma ReachesEnd(s: PlayerState, k: nat)
    requires Inv(s) && Committed(s) && (AtRest(s) ==> s.current == s.target) && k >= Last(s)
    ensures AtEnd(Ticks(s, k))
  {
    TicksApproach(s, k);
  }

  // ---------------------------------------------------------------------------
  // The event check calls `onEvent` before asking `justMoved`, so a check
  // while the marker passes an event space (or leaves one: the check right
  // after a spin runs before the first hop) sets the flag without a popup,
  // and the flag then silences the tile the move ends on.

  /** A spin that starts on an event space uses up that move's event at once:
      the flag is set, no popup opens, and the player is on its way. */
  lemma SpinFromEventSpaceSpendsFlag(g: GameState, c: Choices, catalog: seq<Event>)
    requires GameInv(g) && ChoicesOk(c, |catalog|)
    requires g.majorChosen1 == 1 && g.majorChosen2 == 1 && g.turn == 1 && !AtEnd(g.p1)
    requires g.p1.path[g.p1.current] in EventSpaces
    ensures var (h, shown) := InputStep(g, SpaceReleased, c, catalog);
            h.p1.isMoving && h.p1.eventTriggered && shown.popup1 == None
  {
    var s1 := Selected(g, SpaceReleased, c).0;
    assert s1.p1 == g.p1;
  }

  /** A move of v >= 1 that starts on an event space and is checked once
      before its first hop comes to rest v tiles on with the flag set, so the
      check on the tile it lands on opens no popup, whatever that tile is. */
  lemma SilencedLanding(s: PlayerState, v: nat, catalog: seq<Event>)
    requires Inv(s) && AtRest(s) && 0 < v <= Last(s) - s.current && |catalog| > 0
    requires s.path[s.current] in EventSpaces
    ensures var (m, popup) := EventCheck(Moved(s, v), catalog, 0);
            var e := Ticks(m, v + 1);
            popup == None && AtRest(e) && e.current == s.current + v &&
            e.path[e.current] == s.path[s.current + v] &&
            EventCheck(e, catalog, 0).1 == None
  {
    var m0 := Moved(s, v);
    var m := EventCheck(m0, catalog, 0).0;
    assert m.eventTriggered && m.target == s.current + v;
    MoveDuration(m, v);
  }

  /** A player at rest on Ivey tile 4 whose flag is still set from the
      event it had there. Tiles 4 and 7 of the Ivey path are event spaces. */
  const FlaggedOnIvey4: PlayerState := PlayerState(IveyPath, 4, 4, false, true, IveyPath[4], 0, 0, 0, 0)

  /** A move of three from Ivey tile 4, checked once before its first hop,
      comes to rest on tile 7 with the flag already set, so the check there
      opens no popup. */
  lemma ArrivalSilenced(catalog: seq<Event>)
    requires |catalog| > 0
    ensures EventCheck(Moved(FlaggedOnIvey4, 3), catalog, 0).1 == None
    ensures var e := Ticks(EventCheck(Moved(FlaggedOnIvey4, 3), catalog, 0).0, 4);
            AtRest(e) && e.path[e.current] in EventSpaces && EventCheck(e, catalog, 0).1 == None
  {
    assert IveyPath[4] == EventSpaces[1] && IveyPath[7] == EventSpaces[2];
    SilencedLanding(FlaggedOnIvey4, 3, catalog);
  }

  /** A moving player's flag is clear. */
  predicate Armed(s: PlayerState) { s.isMoving ==> !s.eventTriggered }

  /** The event check as intended: the popup opens, and the flag is set, only
      for a player at rest on an event space; the record is added once. */
  function EventCheckIntended(s: PlayerState, catalog: seq<Event>, draw: nat): (r: (PlayerState, Option<Event>))
    requires Inv(s) && draw < |catalog|
    ensures r.1.Some? <==> AtRest(s) && TriggersEvent(s, EventSpaces)
    ensures r.1.Some? ==> r.1.value == catalog[draw] &&
                          r.0 == Applied(AfterOnEvent(s, EventSpaces), catalog[draw])
    ensures r.1.None? ==> r.0 == s
  {
    if AtRest(s) && TriggersEvent(s, EventSpaces) then
      (Applied(s.(eventTriggered := true), catalog[draw]), Some(catalog[draw]))
    else
      (s, None)
  }

  /** Moves arm a player, and ticks and intended checks keep it armed. */
  lemma ArmedKept(s: PlayerState, v: int, elapsed: bool, catalog: seq<Event>, draw: nat)
    requires Inv(s) && v >= 0 && draw < |catalog|
    ensures Armed(Moved(s, v))
    ensures Armed(s) ==> Armed(Ticked(s, elapsed))
    ensures Armed(s) ==> Armed(EventCheckIntended(s, catalog, draw).0)
  {
  }

  /** For an armed player, the tick that ends a move on an event space is
      followed by a popup, whatever checks ran on the way. */
  lemma IntendedPopupOnArrival(s: PlayerState, catalog: seq<Event>, draw: nat)
    requires Inv(s) && Armed(s) && draw < |catalog|
    requires s.isMoving && s.current == s.target && s.path[s.target] in EventSpaces
    ensures EventCheckIntended(Ticked(s, true), catalog, draw).1 == Some(catalog[draw])
  {
  }

  /** Under the intended check, a move of v >= 1 that lands on an event space
      opens its popup there, whatever tile it started from. */
  lemma HeardLanding(s: PlayerState, v: nat, catalog: seq<Event>)
    requires Inv(s) && AtRest(s) && 0 < v <= Last(s) - s.current && |catalog| > 0
    requires s.path[s.current + v] in EventSpaces
    ensures var (m, popup) := EventCheckIntended(Moved(s, v), catalog, 0);
            popup == None && EventCheckIntended(Ticks(m, v + 1), catalog, 0).1 == Some(catalog[0])
  {
    var m := EventCheckIntended(Moved(s, v), catalog, 0).0;
    assert m == Moved(s, v) && !m.eventTriggered;
    MoveDuration(m, v);
  }

  /** The same move from Ivey tile 4 under the intended check: the check
      before the first hop does nothing, and tile 7 opens its popup. */
  lemma ArrivalHeard(catalog: seq<Event>)
    requires |catalog| > 0
    ensures EventCheckIntended(Moved(FlaggedOnIvey4, 3), catalog, 0).1 == None
    ensures var m := EventCheckIntended(Moved(FlaggedOnIvey4, 3), catalog, 0).0;
            EventCheckIntended(Ticks(m, 4), catalog, 0).1 == Some(catalog[0])
  {
    assert IveyPath[7] == EventSpaces[2];
    HeardLanding(FlaggedOnIvey4, 3, catalog);
  }

  // ---------------------------------------------------------------------------
  // One polled event with the three corrections: the committed turn rule,
  // the check that asks `justMoved` first, and events added once.

  predicate IntendedInv(g: GameState) {
    GameInv(g) && NoStall(g) && Armed(g.p1) && Armed(g.p2)
  }

  function SpunIntended(g: GameState, input: Input, draw: nat): (r: GameState)
    requires IntendedInv(g) && g.majorChosen1 == 1 && g.majorChosen2 == 1
    ensures IntendedInv(r) && r.majorChosen1 == 1 && r.majorChosen2 == 1
    // The effect, stated for the lemmas about the corrected poll.
    ensures r == if input == SpaceReleased then SpinTurnIntended(g, SpinValue(draw)) else g
  {
    if input == SpaceReleased then SpinTurnIntended(g, SpinValue(draw)) else g
  }

  function CheckedIntended(g: GameState, c: Choices, catalog: seq<Event>): (r: (GameState, Option<Event>, Option<Event>))
    requires IntendedInv(g) && c.eventDraw1 < |catalog| && c.eventDraw2 < |catalog|
    ensures IntendedInv(r.0)
    // The effect, stated for the lemmas about the corrected poll.
    ensures r.0 == g.(p1 := EventCheckIntended(g.p1, catalog, c.eventDraw1).0,
                      p2 := EventCheckIntended(g.p2, catalog, c.eventDraw2).0)
    ensures r.1 == EventCheckIntended(g.p1, catalog, c.eventDraw1).1
    ensures r.2 == EventCheckIntended(g.p2, catalog, c.eventDraw2).1
  {
    var (t1, popup1) := EventCheckIntended(g.p1, catalog, c.eventDraw1);
    var (t2, popup2) := EventCheckIntended(g.p2, catalog, c.eventDraw2);
    (g.(p1 := t1, p2 := t2), popup1, popup2)
  }

  /** The corrected polled event keeps the corrected invariant. */
  function InputStepIntended(g: GameState, input: Input, c: Choices, catalog: seq<Event>): (r: (GameState, Shown))
    requires IntendedInv(g) && ChoicesOk(c, |catalog|)
    ensures IntendedInv(r.0)
    ensures r.0.majorChosen1 == 1 && r.0.majorChosen2 == 1
  {
    var (g1, prompt1, prompt2) := Selected(g, input, c);
    assert g1.p1.target == g.p1.target && g1.p2.target == g.p2.target;
    assert Last(g1.p1) == Last(g.p1) || g.majorChosen1 == 0;
    assert Last(g1.p2) == Last(g.p2) || g.majorChosen2 == 0;
    var g2 := SpunIntended(g1, input, c.spinDraw);
    var (g3, popup1, popup2) := CheckedIntended(g2, c, catalog);
    (g3, Shown(prompt1, prompt2, popup1, popup2))
  }

  /** The corrected invariant holds at the start and across every frame. */
  lemma IntendedInvHolds(major1: int, major2: int, g: GameState, e1: bool, e2: bool)
    requires IntendedInv(g)
    ensures IntendedInv(InitialGame(major1, major2))
    ensures IntendedInv(FrameStep(g, e1, e2).0)
  {
  }

  /** The major-selection block of the polling loop, which `main` writes
      out once per player: returns the player's new flag and whether the
      prompt opened. */
  method PromptMajor(player: Player, chosen: int, answer: int) returns (majorChosen: int, prompted: bool)
    requires PlayerOk(player.State(), chosen) && Answer(answer)
    modifies player
    ensures (player.State(), majorChosen, prompted) == SelectMajor(old(player.State()), chosen, answer)
  {
    majorChosen, prompted := chosen, false;
    if player.GetPosition() == Start && majorChosen == 0 {
      prompted := true;
      var majorClicked := answer;
      if majorClicked == 0 {
        player.SetPath(WesternPath);
        majorChosen := 1;
      } else if majorClicked == 1 && majorChosen == 0 {
        player.SetPath(IveyPath);
        majorChosen := 1;
      }
    }
  }

  /** The resource setup `main` runs for each player: happiness, GPA and
      debt each set to 0 through the adding setters, which leaves the player
      as it was. */
  method SetUpResources(player: Player)
    modifies player
    ensures player.State() == old(player.State())
  {
    player.SetHappiness(0);
    player.SetGPA(0);
    player.SetDebt(0);
  }

  /** The event block of the polling loop, which `main` writes out once per
      player: `onEvent`, then `justMoved`, then `playerEvent`. Returns the
      record the popup showed, if it opened. */
  method EventBlock(player: Player, eventsText: string, draw: nat) returns (popup: Option<Event>)
    requires player.Valid() && CatalogOk(eventsText) && draw < |ParseCatalog(eventsText).value|
    modifies player
    ensures (player.State(), popup) == EventCheck(old(player.State()), ParseCatalog(eventsText).value, draw)
  {
    popup := None;
    var hit := player.OnEvent(EventSpaces);
    if hit && player.JustMoved() {
      var selected := PlayerEvent(player, eventsText, draw);
      popup := Some(selected);
    }
  }

  /** The graduation check at the top of the window loop: once both players
      have finished, the scores are worked out and the winner announced. */
  method GraduationCheck(player1: Player, player2: Player) returns (winner: Option<string>)
    ensures winner.Some? <==> AtEnd(player1.State()) && AtEnd(player2.State())
    ensures winner.Some? ==> winner.value == GraduationWinner(player1.State(), player2.State())
  {
    winner := None;
    if player1.Finished() && player2.Finished() {
      var p1Score, p2Score, w := GraduationEvent(player1, player2);
      winner := Some(w);
    }
  }

  // ---------------------------------------------------------------------------
  // The loop on the objects themselves.

  predicate CatalogOk(text: string) {
    ParseCatalog(text).Some? && |ParseCatalog(text).value| > 0
  }

  /** The locals of `main`: the turn, the two major flags, the window, the
      wheel, the two players, and the text of the event file. */
  class Game {
    var turn: int
    var majorChosen1: int
    var majorChosen2: int
    var windowOpen: bool
    const wheel: Wheel
    const player1: Player
    const player2: Player
    const eventsText: string

    function State(): GameState
      reads this, player1, player2
    {
      GameState(turn, majorChosen1, majorChosen2, player1.State(), player2.State(), windowOpen)
    }

    function Catalog(): seq<Event>
      requires CatalogOk(eventsText)
    {
      ParseCatalog(eventsText).value
    }

    predicate Valid()
      reads this, player1, player2
    {
      player1 != player2 && GameInv(State()) && wheel.numbers == Faces && CatalogOk(eventsText)
    }

    /** The setup of `main` up to the loop: the players on their default
        paths, each resource set through its (adding) setter to 0, no major
        chosen. */
    constructor (eventsText: string)
      requires CatalogOk(eventsText)
      ensures Valid()
      ensures State() == InitialGame(player1.major, player2.major)
    {
      turn := 1;
      wheel := new Wheel();
      player1 := new Player(IveyPath);
      player2 := new Player(WesternPath);
      this.eventsText := eventsText;
      windowOpen := true;
      new;
      SetUpResources(player1);
      SetUpResources(player2);
      majorChosen1 := 0;
      majorChosen2 := 0;
    }

    /** The body of the event-polling loop for one polled event. */
    method HandleInput(input: Input, c: Choices) returns (shown: Shown)
      requires Valid() && ChoicesOk(c, |Catalog()|)
      modifies this, player1, player2
      ensures Valid()
      ensures (State(), shown) == InputStep(old(State()), input, c, Catalog())
    {
      var prompt1, prompt2 := ChooseMajors(input, c);
      Spin(input, c.spinDraw);
      var popup1, popup2 := CheckEvents(c);
      shown := Shown(prompt1, prompt2, popup1, popup2);
    }

    /** The close request and the two major prompts. */
    method ChooseMajors(input: Input, c: Choices) returns (prompt1: bool, prompt2: bool)
      requires Valid() && Answer(c.major1) && Answer(c.major2)
      modifies this, player1, player2
      ensures Valid()
      ensures (State(), prompt1, prompt2) == Selected(old(State()), input, c)
    {
      if input == Closed {
        windowOpen := false;
      }
      majorChosen1, prompt1 := PromptMajor(player1, majorChosen1, c.major1);
      majorChosen2, prompt2 := PromptMajor(player2, majorChosen2, c.major2);
    }

    /** On a released Space key: spin, move the player whose turn it is unless
        it has finished, and hand the turn over unless the other has finished. */
    method Spin(input: Input, draw: nat)
      requires Valid() && majorChosen1 == 1 && majorChosen2 == 1
      modifies this, player1, player2
      ensures Valid()
      ensures State() == Spun(old(State()), input, draw)
    {
      ghost var g := State();
      if input == SpaceReleased {
        var result := wheel.SpinWheel(draw);
        var spinResult := result.result;
        assert spinResult == SpinValue(draw);
        if turn == 1 && !player1.Finished() {
          player1.Move(spinResult);
          if !player2.Finished() {
            turn := 2;
          }
          assert State() == g.(p1 := Moved(g.p1, spinResult), turn := turn);
        } else if turn == 2 && !player2.Finished() {
          player2.Move(spinResult);
          if !player1.Finished() {
            turn := 1;
          }
          assert State() == g.(p2 := Moved(g.p2, spinResult), turn := turn);
        }
      }
    }

    /** The event checks: `onEvent` first, the popup only when the player is
        also at rest. */
    method CheckEvents(c: Choices) returns (popup1: Option<Event>, popup2: Option<Event>)
      requires Valid() && c.eventDraw1 < |Catalog()| && c.eventDraw2 < |Catalog()|
      modifies player1, player2
      ensures Valid()
      ensures (State(), popup1, popup2) == Checked(old(State()), c, Catalog())
    {
      popup1 := EventBlock(player1, eventsText, c.eventDraw1);
      popup2 := EventBlock(player2, eventsText, c.eventDraw2);
    }

    /** The top of the window loop: the graduation check with its scores,
        then both players' `update`. */
    method Frame(elapsed1: bool, elapsed2: bool) returns (winner: Option<string>)
      requires Valid()
      modifies player1, player2
      ensures Valid()
      ensures (State(), winner) == FrameStep(old(State()), elapsed1, elapsed2)
    {
      ghost var g := State();
      winner := GraduationCheck(player1, player2);
      player1.Update(elapsed1);
      assert player1.State() == Ticked(g.p1, elapsed1) && player2.State() == g.p2;
      player2.Update(elapsed2);
      assert State() == FrameStep(g, elapsed1, elapsed2).0;
    }
  }
}
