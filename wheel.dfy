/**
 * The American double-zero wheel of main.go:26-45: 38 pockets holding
 * 1 to 36 and then two pockets that both hold the number 0 (the Go
 * literal `00` at main.go:38 is the integer 0).
 */
module Wheel {

  /** Number of pockets on the wheel; `Spin` draws an index below it. */
  const PocketCount: nat := 38

  /** main.go:27-29: the pocket numbers in wheel order. */
  datatype RouletteWheel = RouletteWheel(numbers: seq<int>)

  /** The wheel `NewRouletteWheel` builds, as a value. */
  function StandardWheel(): RouletteWheel {
    RouletteWheel(seq(36, i => i + 1) + [0, 0])
  }

  /** main.go:32-40: fills a 38-pocket slice with 1..36, then the two zero pockets. */
  method NewRouletteWheel() returns (wheel: RouletteWheel)
    ensures |wheel.numbers| == PocketCount
    ensures forall i :: 0 <= i < 36 ==> wheel.numbers[i] == i + 1
    ensures wheel.numbers[36] == 0 && wheel.numbers[37] == 0
    ensures wheel == StandardWheel()
  {
    var numbers := new int[PocketCount](_ => 0);
    for i := 0 to 36
      invariant forall k :: 0 <= k < i ==> numbers[k] == k + 1
    {
      numbers[i] := i + 1;
    }
    numbers[36] := 0;
    numbers[37] := 0;
    wheel := RouletteWheel(numbers[..]);
    assert wheel.numbers == StandardWheel().numbers;
  }

  /**
   * main.go:43-45: the pocket at index `r`, where `r` stands for the
   * value `rand.Intn(len(rw.Numbers))` returned; the random draw itself
   * is the caller's.
   */
  function Spin(wheel: RouletteWheel, r: nat): (pocket: int)
    requires r < |wheel.numbers|
    ensures pocket in wheel.numbers
  {
    wheel.numbers[r]
  }

  /** Every spin of the standard wheel lands on 0..36, and on 0 exactly for the last two indices. */
  lemma SpinRange(r: nat)
    requires r < PocketCount
    ensures 0 <= Spin(StandardWheel(), r) <= 36
    ensures Spin(StandardWheel(), r) == 0 <==> r >= 36
    ensures r < 36 ==> Spin(StandardWheel(), r) == r + 1
  {
  }

  /** Every number 1..36 sits in one pocket and 0 in two, so a bet on 0 is hit twice as often. */
  lemma PocketMultiplicity(n: int)
    ensures multiset(StandardWheel().numbers)[n] == if n == 0 then 2 else if 1 <= n <= 36 then 1 else 0
  {
    var numbers := StandardWheel().numbers;
    var ones := seq(36, i => i + 1);
    assert numbers == ones + [0, 0];
    assert multiset(numbers) == multiset(ones) + multiset([0, 0]);
    OnesMultiplicity(36, n);
    assert ones == seq(36, i => i + 1);
  }

  /** In `[1, 2, ..., m]` every number of 1..m occurs once and no other number occurs. */
  lemma {:induction false} OnesMultiplicity(m: nat, n: int)
    ensures multiset(seq(m, i => i + 1))[n] == if 1 <= n <= m then 1 else 0
  {
    if m > 0 {
      OnesMultiplicity(m - 1, n);
      assert seq(m, i => i + 1) == seq(m - 1, i => i + 1) + [m];
    }
  }
}
