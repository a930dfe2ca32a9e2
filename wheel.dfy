/** The spinning wheel of Wheel.cpp. The source draws `std::rand()`; here that
    draw is a parameter. The animation, the sleep between frames and the arrow
    angle (a float computed from the rotation count) are not modelled. */
module WheelSpin {

  /** The faces the constructor pushes, in order. */
  const Faces: seq<int> := [1, 2, 3, 4, 5]

  /** What one spin produces: the face under the arrow and the number of
      segment steps the arrow turned through. */
  datatype Spin = Spin(result: int, rotations: int)

  class Wheel {
    /** `numbers`, filled once by the constructor and only read afterwards. */
    const numbers: seq<int>

    /** Pushes 1 to 5 onto `numbers`, one per loop iteration. */
    constructor ()
      ensures numbers == Faces
    {
      var ns: seq<int> := [];
      var i := 1;
      while i <= 5
        invariant 1 <= i <= 6
        invariant |ns| == i - 1
        invariant forall k :: 0 <= k < |ns| ==> ns[k] == k + 1
      {
        ns := ns + [i];
        i := i + 1;
      }
      numbers := ns;
    }

    /** The face at one segment of the wheel. */
    function GetSpinResult(index: int): (r: int)
      requires 0 <= index < |numbers|
      ensures r in numbers
    {
      numbers[index]
    }

    /** One spin for the random draw `draw`: five full turns plus `draw mod n`
        more segments, then the face under the arrow. */
    function SpinWheel(draw: nat): (s: Spin)
      requires |numbers| > 0
      ensures 5 * |numbers| <= s.rotations < 6 * |numbers|
      ensures s.result == numbers[draw % |numbers|]
    {
      var n := |numbers|;
      var totalRotations := 5 * n + draw % n;
      FullTurnsVanish(n, draw % n);
      Spin(GetSpinResult(totalRotations % n), totalRotations)
    }
  }

  /** Adding five full turns does not change the segment the arrow stops on. */
  lemma FullTurnsVanish(n: nat, k: nat)
    requires k < n
    ensures (5 * n + k) % n == k
  {
    assert (n * 5 + k) / n == 5 by {
      assert n * 5 <= n * 5 + k < n * 6;
    }
  }

  /** For the wheel the constructor builds, a spin turns through 25 to 29
      segments, stops on segment `draw mod 5` and shows `draw mod 5 + 1`. */
  lemma StandardSpin(w: Wheel, draw: nat)
    requires w.numbers == Faces
    ensures 25 <= w.SpinWheel(draw).rotations <= 29
    ensures w.SpinWheel(draw).rotations % 5 == draw % 5
    ensures w.SpinWheel(draw).result == draw % 5 + 1
    ensures 1 <= w.SpinWheel(draw).result <= 5
  {
    var s := w.SpinWheel(draw);
    FullTurnsVanish(5, draw % 5);
    assert s.rotations == 25 + draw % 5;
  }
}
