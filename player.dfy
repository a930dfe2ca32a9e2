/** The Player class of player.cpp (fields declared in Player.h).

    A player walks along its path one tile per animation tick: `Move` sets a
    target index, and each `Update` tick whose delay has elapsed advances the
    current index by one. `OnEvent` is a one-shot edge trigger that fires when
    the current tile is an event space, re-armed by every `Move`.

    The value type PlayerState is the whole observable state of one player; the
    functions on it specify the class's methods, and the lemmas about them are
    the properties of the movement state machine. The `sf::Clock` and the 0.3 s
    delay become the boolean `elapsed` passed to `Update`. */
module PlayerModel {
  import opened Board

  datatype PlayerState = PlayerState(
    path: seq<Pos>,
    current: int,          // currentSpaceIndex
    target: int,           // targetSpaceIndex
    isMoving: bool,
    eventTriggered: bool,
    marker: Pos,           // where the marker is drawn; what getPosition returns
    major: int,
    debt: int,
    happiness: int,
    gpa: int)

  function Last(s: PlayerState): int { |s.path| - 1 }

  function Min(a: int, b: int): int { if a <= b then a else b }

  /** The index invariant: 0 <= current <= target <= last index of the path. */
  predicate Inv(s: PlayerState) {
    |s.path| > 0 && 0 <= s.current <= s.target <= |s.path| - 1
  }

  /** `finished()`: the current index (not the target) is the last one. */
  predicate AtEnd(s: PlayerState) { s.current == |s.path| - 1 }

  /** `justMoved()`: true exactly when no move is in progress. */
  predicate AtRest(s: PlayerState) { !s.isMoving }

  /** The state the constructor leaves: first tile, not moving, resources zero.
      `major` is left uninitialised by the source, so it is a parameter. */
  function Spawned(spaces: seq<Pos>, major: int): (s: PlayerState)
    requires |spaces| > 0
    ensures Inv(s) && s.current == 0 && s.target == 0 && AtRest(s) && !s.eventTriggered
    ensures s.marker == spaces[0] && s.debt == 0 && s.happiness == 0 && s.gpa == 0
    ensures AtEnd(s) <==> |spaces| == 1
  {
    PlayerState(spaces, 0, 0, false, false, spaces[0], major, 0, 0, 0)
  }

  /** `move(spaces)`: target becomes current + spaces, clamped to the last
      index; the move starts and the event flag is re-armed. */
  function Moved(s: PlayerState, spaces: int): (r: PlayerState)
    requires Inv(s) && spaces >= 0
    ensures Inv(r)
    ensures r.target == Min(s.current + spaces, Last(s))
    ensures r.isMoving && !r.eventTriggered
    ensures r == s.(target := r.target, isMoving := true, eventTriggered := false)
  {
    s.(target := if s.current + spaces <= |s.path| - 1 then s.current + spaces else |s.path| - 1,
       isMoving := true,
       eventTriggered := false)
  }

  /** `update()`: with the delay elapsed and a move in progress, hop one tile
      towards the target; once on the target, the next such tick ends the move. */
  function Ticked(s: PlayerState, elapsed: bool): (r: PlayerState)
    requires Inv(s)
    ensures Inv(r) && r.path == s.path && r.target == s.target
    ensures !(elapsed && s.isMoving) ==> r == s
    ensures elapsed && s.isMoving && s.current != s.target ==>
              r == s.(current := s.current + 1, marker := s.path[s.current + 1])
    ensures elapsed && s.isMoving && s.current == s.target ==> r == s.(isMoving := false)
  {
    if s.isMoving && elapsed then
      if s.current != s.target then
        s.(current := s.current + 1, marker := s.path[s.current + 1])
      else
        s.(isMoving := false)
    else
      s
  }

  /** Whether `onEvent` returns true: the flag is clear and the current tile is
      one of the event spaces. */
  predicate TriggersEvent(s: PlayerState, eventSpaces: seq<Pos>)
    requires Inv(s)
  {
    !s.eventTriggered && s.path[s.current] in eventSpaces
  }

  /** The state after `onEvent`: the flag is set exactly when it fired. */
  function AfterOnEvent(s: PlayerState, eventSpaces: seq<Pos>): (r: PlayerState)
    requires Inv(s)
    ensures Inv(r) && r.eventTriggered == (s.eventTriggered || TriggersEvent(s, eventSpaces))
    ensures r == s.(eventTriggered := r.eventTriggered)
  {
    if TriggersEvent(s, eventSpaces) then s.(eventTriggered := true) else s
  }

  /** `k` consecutive ticks whose delay has elapsed. */
  function Ticks(s: PlayerState, k: nat): (r: PlayerState)
    requires Inv(s)
    ensures Inv(r) && r.path == s.path && r.target == s.target
    ensures s.current <= r.current
    ensures r == s.(current := r.current, marker := r.marker, isMoving := r.isMoving)
    decreases k
  {
    if k == 0 then s else Ticked(Ticks(s, k - 1), true)
  }

  /** During a move of k hops, the j-th elapsed tick (j <= k) has advanced the
      player by exactly j tiles and the move is still in progress. */
  lemma {:induction false} HopPerTick(s: PlayerState, j: nat)
    requires Inv(s) && s.isMoving && j <= s.target - s.current
    ensures Ticks(s, j).current == s.current + j
    ensures Ticks(s, j).isMoving
    ensures Ticks(s, j).marker == if j == 0 then s.marker else s.path[s.current + j]
  {
    if j > 0 {
      HopPerTick(s, j - 1);
    }
  }

  /** Elapsed ticks close in on the target one tile at a time, for a player
      that rests only on its target. */
  lemma {:induction false} TicksApproach(s: PlayerState, k: nat)
    requires Inv(s) && (AtRest(s) ==> s.current == s.target)
    ensures Ticks(s, k).current == Min(s.current + k, s.target)
    ensures AtRest(Ticks(s, k)) ==> Ticks(s, k).current == s.target
    decreases k
  {
    if k > 0 {
      TicksApproach(s, k - 1);
    }
  }

  /** A move of k hops takes k + 1 elapsed ticks: after k the player stands on
      the target but is still moving; the next tick ends the move there. */
  lemma MoveDuration(s: PlayerState, k: nat)
    requires Inv(s) && s.isMoving && k == s.target - s.current
    ensures Ticks(s, k).current == s.target && !AtRest(Ticks(s, k))
    ensures Ticks(s, k + 1).current == s.target && AtRest(Ticks(s, k + 1))
  {
    HopPerTick(s, k);
  }

  /** Moving by a wheel value from a fresh move: k hops, then rest on the target. */
  lemma MoveThenTicks(s: PlayerState, spaces: int)
    requires Inv(s) && spaces >= 0
    ensures var m := Moved(s, spaces);
            var k := m.target - m.current;
            k == Min(spaces, Last(s) - s.current) &&
            Ticks(m, k + 1).current == Min(s.current + spaces, Last(s)) &&
            AtRest(Ticks(m, k + 1))
  {
    var m := Moved(s, spaces);
    MoveDuration(m, m.target - m.current);
  }

  /** A player who has finished stays where it is: a move targets its own tile
      and no tick changes its index. */
  lemma FinishedIsFinal(s: PlayerState, spaces: int, elapsed: bool)
    requires Inv(s) && AtEnd(s) && spaces >= 0
    ensures Moved(s, spaces).target == s.current
    ensures Ticked(s, elapsed).current == s.current && AtEnd(Ticked(s, elapsed))
  {
  }

  /** The things that can happen to one player between two moves. */
  datatype Poll = Tick(elapsed: bool) | Check | Adjust(happiness: int, debt: int, gpa: int)

  /** Runs polls with no move in between; returns the final state and how many
      `onEvent` checks returned true. */
  function RunPolls(s: PlayerState, polls: seq<Poll>, eventSpaces: seq<Pos>): (r: (PlayerState, nat))
    requires Inv(s)
    ensures Inv(r.0)
    ensures s.eventTriggered ==> r.0.eventTriggered
    decreases |polls|
  {
    if polls == [] then (s, 0)
    else
      var (t, hit) := match polls[0]
        case Tick(e) => (Ticked(s, e), false)
        case Check => (AfterOnEvent(s, eventSpaces), TriggersEvent(s, eventSpaces))
        case Adjust(h, d, g) => (s.(happiness := h, debt := d, gpa := g), false);
      var (u, n) := RunPolls(t, polls[1..], eventSpaces);
      (u, n + if hit then 1 else 0)
  }

  /** Between two moves `onEvent` returns true at most once, and never once the
      flag is already set. */
  lemma {:induction false} OneEventPerStop(s: PlayerState, polls: seq<Poll>, eventSpaces: seq<Pos>)
    requires Inv(s)
    ensures RunPolls(s, polls, eventSpaces).1 <= if s.eventTriggered then 0 else 1
    decreases |polls|
  {
    if polls != [] {
      var t := match polls[0]
        case Tick(e) => Ticked(s, e)
        case Check => AfterOnEvent(s, eventSpaces)
        case Adjust(h, d, g) => s.(happiness := h, debt := d, gpa := g);
      OneEventPerStop(t, polls[1..], eventSpaces);
    }
  }

  /** What `getMajor` returns as written: the GPA field. */
  function MajorAsWritten(s: PlayerState): int { s.gpa }

  /** What `getMajor` is meant to return: the stored major. */
  function MajorIntended(s: PlayerState): int { s.major }

  /** `setMajor(1)` on a new player is not read back by `getMajor` as written. */
  lemma MajorReadsGpa()
    ensures var s := Spawned(IveyPath, 0).(major := 1);
            MajorAsWritten(s) == 0 && MajorIntended(s) == 1
  {
  }

  /** The intended getter reads back whatever `setMajor` stored, and nothing
      else the player does changes it. */
  lemma {:induction false} MajorIntendedRoundTrip(s: PlayerState, v: int, spaces: int, elapsed: bool)
    requires Inv(s) && spaces >= 0
    ensures MajorIntended(s.(major := v)) == v
    ensures MajorIntended(Moved(s, spaces)) == s.major
    ensures MajorIntended(Ticked(s, elapsed)) == s.major
  {
  }

  class Player {
    var marker: Pos
    var isMoving: bool
    var major: int
    var currentSpace: int
    var targetSpace: int
    var debt: int
    var happiness: int
    var gpa: int
    var path: seq<Pos>
    var eventTriggered: bool

    function State(): PlayerState
      reads this
    {
      PlayerState(path, currentSpace, targetSpace, isMoving, eventTriggered, marker,
                  major, debt, happiness, gpa)
    }

    predicate Valid()
      reads this
    {
      Inv(State())
    }

    constructor (spaces: seq<Pos>)
      requires |spaces| > 0
      ensures State() == Spawned(spaces, major)
    {
      path := spaces;
      currentSpace := 0;
      targetSpace := 0;
      isMoving := false;
      eventTriggered := false;
      marker := spaces[0];
      gpa := 0;
      happiness := 0;
      debt := 0;
    }

    method Move(spaces: int)
      requires Valid() && spaces >= 0
      modifies this
      ensures State() == Moved(old(State()), spaces)
    {
      if currentSpace + spaces <= |path| - 1 {
        targetSpace := currentSpace + spaces;
      } else {
        targetSpace := |path| - 1;
      }
      isMoving := true;
      eventTriggered := false;
    }

    function JustMoved(): (r: bool)
      reads this
      ensures r <==> AtRest(State())
    {
      !isMoving
    }

    method Update(elapsed: bool)
      requires Valid()
      modifies this
      ensures State() == Ticked(old(State()), elapsed)
    {
      if isMoving && elapsed {
        if currentSpace != targetSpace {
          currentSpace := currentSpace + 1;
          marker := path[currentSpace];
        } else {
          isMoving := false;
        }
      }
    }

    /** Scans the event spaces in order for the current tile. */
    method OnEvent(eventSpaces: seq<Pos>) returns (hit: bool)
      requires Valid()
      modifies this
      ensures hit == TriggersEvent(old(State()), eventSpaces)
      ensures State() == AfterOnEvent(old(State()), eventSpaces)
    {
      if !eventTriggered {
        for i := 0 to |eventSpaces|
          invariant State() == old(State())
          invariant path[currentSpace] !in eventSpaces[..i]
        {
          if path[currentSpace] == eventSpaces[i] {
            eventTriggered := true;
            return true;
          }
        }
      }
      return false;
    }

    function GetPosition(): Pos
      reads this
    {
      marker
    }

    method SetMajor(value: int)
      modifies this
      ensures State() == old(State()).(major := value)
    {
      major := value;
    }

    function GetMajor(): (r: int)
      reads this
      ensures r == MajorAsWritten(State())
    {
      gpa
    }

    /** Replaces the path; the indices and the marker are left as they were. */
    method SetPath(spaces: seq<Pos>)
      modifies this
      ensures State() == old(State()).(path := spaces)
    {
      path := spaces;
    }

    /** Adds to the debt (despite its name). */
    method SetDebt(amount: int)
      modifies this
      ensures State() == old(State()).(debt := old(debt) + amount)
    {
      debt := debt + amount;
    }

    /** Adds to the happiness (despite its name). */
    method SetHappiness(amount: int)
      modifies this
      ensures State() == old(State()).(happiness := old(happiness) + amount)
    {
      happiness := happiness + amount;
    }

    /** Adds to the GPA; nothing clamps it. */
    method SetGPA(amount: int)
      modifies this
      ensures State() == old(State()).(gpa := old(gpa) + amount)
    {
      gpa := gpa + amount;
    }

    function GetDebt(): int
      reads this
    {
      debt
    }

    function GetHappiness(): int
      reads this
    {
      happiness
    }

    function GetGPA(): int
      reads this
    {
      gpa
    }

    function Finished(): (r: bool)
      reads this
      ensures r <==> AtEnd(State())
    {
      currentSpace == |path| - 1
    }
  }
}
