/** The outcome calculator of graduation.cpp: the category scoring at the top
    of `graduationEvent` and `Winner`. The popup that shows them, its fonts and
    its fifteen-second timer are not modelled. */
module Graduation {
  import opened PlayerModel

  /** The three resources graduation compares. */
  datatype Resources = Resources(gpa: int, debt: int, happiness: int)

  datatype Category = Gpa | Debt | Happiness

  /** Who takes a category: the first player, the second, or nobody. */
  datatype Side = First | Second | Neither

  function ResourcesOf(s: PlayerState): Resources {
    Resources(s.gpa, s.debt, s.happiness)
  }

  /** The larger value takes the category; equal values give it to nobody. */
  function Larger(x: int, y: int): Side {
    if x > y then First else if x < y then Second else Neither
  }

  /** The reference rule per category: higher GPA, lower debt, higher happiness. */
  function Verdict(c: Category, a: Resources, b: Resources): Side {
    match c
    case Gpa => Larger(a.gpa, b.gpa)
    case Debt => Larger(b.debt, a.debt)
    case Happiness => Larger(a.happiness, b.happiness)
  }

  function Verdicts(a: Resources, b: Resources): seq<Side> {
    [Verdict(Gpa, a, b), Verdict(Debt, a, b), Verdict(Happiness, a, b)]
  }

  /** How many of the verdicts went to `side`. */
  function Tally(side: Side, vs: seq<Side>): nat
    decreases |vs|
  {
    if vs == [] then 0 else (if vs[0] == side then 1 else 0) + Tally(side, vs[1..])
  }

  function Point(side: Side, v: Side): nat { if v == side then 1 else 0 }

  lemma TallyOfThree(side: Side, vs: seq<Side>)
    requires |vs| == 3
    ensures Tally(side, vs) == Point(side, vs[0]) + Point(side, vs[1]) + Point(side, vs[2])
  {
    var t := vs[1..];
    var u := t[1..];
    assert u[1..] == [];
    assert Tally(side, u) == Point(side, u[0]) + Tally(side, u[1..]);
    assert Tally(side, t) == Point(side, t[0]) + Tally(side, u);
  }

  /** The six comparisons of `graduationEvent`, in source order, each adding one
      point to `P1score` or `P2score`. */
  function Scores(a: Resources, b: Resources): (s: (nat, nat))
    ensures s.0 == Tally(First, Verdicts(a, b)) && s.1 == Tally(Second, Verdicts(a, b))
    ensures s.0 <= 3 && s.1 <= 3
    ensures s.0 + s.1 == 3 - Tally(Neither, Verdicts(a, b))
  {
    var p1 := if a.gpa > b.gpa then 1 else 0;
    var p2 := if a.gpa < b.gpa then 1 else 0;
    var p2' := if a.debt > b.debt then p2 + 1 else p2;
    var p1' := if a.debt < b.debt then p1 + 1 else p1;
    var p1'' := if a.happiness > b.happiness then p1' + 1 else p1';
    var p2'' := if a.happiness < b.happiness then p2' + 1 else p2';
    TallyOfThree(First, Verdicts(a, b));
    TallyOfThree(Second, Verdicts(a, b));
    TallyOfThree(Neither, Verdicts(a, b));
    (p1'', p2'')
  }

  /** Swapping the players swaps their scores. */
  lemma ScoresSwap(a: Resources, b: Resources)
    ensures Scores(b, a) == (Scores(a, b).1, Scores(a, b).0)
  {
  }

  /** `Winner`: the higher score wins; equal scores name both players. */
  function Winner(p1Score: int, p2Score: int): (w: string)
    ensures w == "Player 1" <==> p1Score > p2Score
    ensures w == "Player 2" <==> p1Score < p2Score
    ensures w == "Player 1 and Player 2" <==> p1Score == p2Score
  {
    if p1Score > p2Score then "Player 1"
    else if p1Score < p2Score then "Player 2"
    else "Player 1 and Player 2"
  }

  /** The winner announced for two players' final states. */
  function GraduationWinner(s1: PlayerState, s2: PlayerState): string {
    var (p1Score, p2Score) := Scores(ResourcesOf(s1), ResourcesOf(s2));
    Winner(p1Score, p2Score)
  }

  /** The scoring part of `graduationEvent`: two counters, six comparisons
      through the getters, and the winner line. */
  method GraduationEvent(player1: Player, player2: Player) returns (p1Score: nat, p2Score: nat, winner: string)
    ensures (p1Score, p2Score) == Scores(ResourcesOf(player1.State()), ResourcesOf(player2.State()))
    ensures winner == GraduationWinner(player1.State(), player2.State())
  {
    p1Score, p2Score := 0, 0;
    if player1.GetGPA() > player2.GetGPA() {
      p1Score := p1Score + 1;
    }
    if player1.GetGPA() < player2.GetGPA() {
      p2Score := p2Score + 1;
    }
    if player1.GetDebt() > player2.GetDebt() {
      p2Score := p2Score + 1;
    }
    if player1.GetDebt() < player2.GetDebt() {
      p1Score := p1Score + 1;
    }
    if player1.GetHappiness() > player2.GetHappiness() {
      p1Score := p1Score + 1;
    }
    if player1.GetHappiness() < player2.GetHappiness() {
      p2Score := p2Score + 1;
    }
    winner := Winner(p1Score, p2Score);
  }

  /** Identical resources score 0 to 0 and announce a tie. */
  lemma IdenticalResourcesTie(a: Resources)
    ensures Scores(a, a) == (0, 0)
    ensures Winner(0, 0) == "Player 1 and Player 2"
  {
  }

  /** Swapping the players swaps the announced winner; a tie stays a tie. */
  lemma WinnerSwap(a: Resources, b: Resources)
    ensures var (x, y) := Scores(a, b);
            var w, w' := Winner(x, y), Winner(y, x);
            (w == "Player 1" <==> w' == "Player 2") &&
            (w == "Player 1 and Player 2" <==> w' == "Player 1 and Player 2")
  {
  }

  /** Higher GPA, higher debt, lower happiness for the first player: one
      category to two, so the second player wins. */
  lemma MixedOutcome()
    ensures Scores(Resources(4, 100, 10), Resources(3, 50, 20)) == (1, 2)
    ensures Winner(1, 2) == "Player 2"
  {
  }
}
