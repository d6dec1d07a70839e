/**
 * The simulator of main.go:83-136: every game spins the wheel once and then
 * settles each bet of the strategy in turn against the running bankroll.
 * A bet is skipped when the bankroll cannot cover its amount; otherwise the
 * amount is staked and a winning bet returns 36 times it (a number) or
 * twice it (even, odd, red, black).  A bet of any other type loses its stake.
 */
module Simulation {
  import opened Wheel
  import opened Strategies

  /** main.go:112: the red numbers of the wheel. */
  const RedNumbers: seq<int> := [1, 3, 5, 7, 9, 12, 14, 16, 18, 19, 21, 23, 25, 27, 30, 32, 34, 36]

  /** main.go:117: the black numbers of the wheel. */
  const BlackNumbers: seq<int> := [2, 4, 6, 8, 10, 11, 13, 15, 17, 20, 22, 24, 26, 28, 29, 31, 33, 35]

  /** main.go:129-136: a linear search that stops at the first match. */
  method Contains(slice: seq<int>, val: int) returns (found: bool)
    ensures found <==> val in slice
  {
    for k := 0 to |slice|
      invariant val !in slice[..k]
    {
      if slice[k] == val {
        return true;
      }
    }
    assert slice[..|slice|] == slice;
    return false;
  }

  /** The cases of the switch at main.go:98-121 under which a bet wins on `pocket`. */
  predicate Wins(bet: Bet, pocket: int)
    ensures Wins(bet, pocket) ==> bet.betType in {"number", "even", "odd", "red", "black"}
    ensures Wins(bet, pocket) && bet.betType != "number" ==> pocket != 0
  {
    match bet.betType
    case "number" => bet.value == pocket
    case "even" => pocket % 2 == 0 && pocket != 0
    case "odd" => pocket % 2 != 0 && pocket != 0
    case "red" => pocket in RedNumbers
    case "black" => pocket in BlackNumbers
    case _ => false
  }

  /**
   * How many times its amount a winning bet returns, the stake included
   * (main.go:101, 105, 109, 114, 119).  Only the five types of the switch
   * can win, so the 2.0 applies to `even`, `odd`, `red` and `black` alone:
   * `Settle` consults it only for a bet that `Wins`.
   */
  function Multiplier(betType: string): real {
    if betType == "number" then 36.0 else 2.0
  }

  /** main.go:92-121: the bankroll after settling one bet on one spin. */
  function Settle(bankroll: real, bet: Bet, pocket: int): (after: real)
    ensures bankroll < bet.amount ==> after == bankroll
    ensures bankroll >= bet.amount && Wins(bet, pocket) && bet.betType == "number" ==> after == bankroll + 35.0 * bet.amount
    ensures bankroll >= bet.amount && Wins(bet, pocket) && bet.betType != "number" ==> after == bankroll + bet.amount
    ensures bankroll >= bet.amount && !Wins(bet, pocket) ==> after == bankroll - bet.amount
    ensures bankroll >= 0.0 && bet.amount >= 0.0 ==> after >= 0.0
  {
    if bankroll < bet.amount then bankroll
    else if Wins(bet, pocket) then bankroll - bet.amount + bet.amount * Multiplier(bet.betType)
    else bankroll - bet.amount
  }

  /** No bet stakes a negative amount. */
  predicate AllAmountsNonNegative(bets: seq<Bet>) {
    forall k :: 0 <= k < |bets| ==> bets[k].amount >= 0.0
  }

  /** main.go:91-122: the bankroll after settling the bets in order on one spin. */
  function PlayRound(bankroll: real, bets: seq<Bet>, pocket: int): (after: real)
    ensures bankroll >= 0.0 && AllAmountsNonNegative(bets) ==> after >= 0.0
  {
    if |bets| == 0 then bankroll
    else Settle(PlayRound(bankroll, bets[..|bets| - 1], pocket), bets[|bets| - 1], pocket)
  }

  /** main.go:88-123: the bankroll after one round per pocket, in order. */
  function PlayGames(bankroll: real, bets: seq<Bet>, pockets: seq<int>): (after: real)
    ensures |pockets| == 0 || |bets| == 0 ==> after == bankroll
    ensures bankroll >= 0.0 && AllAmountsNonNegative(bets) ==> after >= 0.0
  {
    if |pockets| == 0 then bankroll
    else PlayRound(PlayGames(bankroll, bets, pockets[..|pockets| - 1]), bets, pockets[|pockets| - 1])
  }

  /** The pockets a run of draws lands on. */
  function Outcomes(wheel: RouletteWheel, draws: seq<nat>): (pockets: seq<int>)
    requires forall k :: 0 <= k < |draws| ==> draws[k] < |wheel.numbers|
    ensures |pockets| == |draws|
  {
    seq(|draws|, k requires 0 <= k < |draws| => Spin(wheel, draws[k]))
  }

  /** The number of games the loop at main.go:88 plays: none for a negative count. */
  function Rounds(numGames: int): nat {
    if numGames < 0 then 0 else numGames
  }

  /**
   * main.go:84-126: `SimulateRoulette`.  `draws[i]` stands for the pocket
   * index `rand.Intn(38)` returns in game `i`.
   */
  method SimulateRoulette(strategy: Strategy, numGames: int, draws: seq<nat>) returns (bankroll: real)
    requires Rounds(numGames) <= |draws|
    requires forall k :: 0 <= k < |draws| ==> draws[k] < PocketCount
    ensures bankroll == PlayGames(strategy.initialBankroll, strategy.bets, Outcomes(StandardWheel(), draws[..Rounds(numGames)]))
    ensures numGames <= 0 || |strategy.bets| == 0 ==> bankroll == strategy.initialBankroll
    ensures strategy.initialBankroll >= 0.0 && AllAmountsNonNegative(strategy.bets) ==> bankroll >= 0.0
  {
    var wheel := NewRouletteWheel();
    ghost var pockets := Outcomes(StandardWheel(), draws[..Rounds(numGames)]);
    bankroll := strategy.initialBankroll;
    var i := 0;
    while i < numGames
      invariant 0 <= i <= Rounds(numGames)
      invariant bankroll == PlayGames(strategy.initialBankroll, strategy.bets, pockets[..i])
    {
      var winningNumber := Spin(wheel, draws[i]);
      ghost var start := bankroll;
      for j := 0 to |strategy.bets|
        invariant bankroll == PlayRound(start, strategy.bets[..j], winningNumber)
      {
        var bet := strategy.bets[j];
        PlayRoundStep(start, strategy.bets, j, winningNumber);
        ghost var before := bankroll;
        if bankroll < bet.amount {
          continue;
        }
        bankroll := bankroll - bet.amount;
        match bet.betType {
          case "number" =>
            if bet.value == winningNumber {
              bankroll := bankroll + bet.amount * 36.0;
            }
          case "even" =>
            if winningNumber % 2 == 0 && winningNumber != 0 {
              bankroll := bankroll + bet.amount * 2.0;
            }
          case "odd" =>
            if winningNumber % 2 != 0 && winningNumber != 0 {
              bankroll := bankroll + bet.amount * 2.0;
            }
          case "red" =>
            var isRed := Contains(RedNumbers, winningNumber);
            if isRed {
              bankroll := bankroll + bet.amount * 2.0;
            }
          case "black" =>
            var isBlack := Contains(BlackNumbers, winningNumber);
            if isBlack {
              bankroll := bankroll + bet.amount * 2.0;
            }
          case _ =>
        }
        assert bankroll == Settle(before, bet, winningNumber);
      }
      assert strategy.bets[..|strategy.bets|] == strategy.bets;
      assert pockets[..i + 1][..i] == pockets[..i];
      i := i + 1;
    }
    assert pockets[..Rounds(numGames)] == pockets;
  }

  /** Settling one more bet of the list extends the round by that bet. */
  lemma PlayRoundStep(bankroll: real, bets: seq<Bet>, j: nat, pocket: int)
    requires j < |bets|
    ensures PlayRound(bankroll, bets[..j + 1], pocket) == Settle(PlayRound(bankroll, bets[..j], pocket), bets[j], pocket)
  {
    assert bets[..j + 1][..j] == bets[..j];
  }

  /** A type other than the five the switch names never wins. */
  lemma UnrecognisedTypeLoses(bet: Bet, pocket: int)
    requires bet.betType !in {"number", "even", "odd", "red", "black"}
    ensures !Wins(bet, pocket)
  {
  }

  /** A spin of 0 pays only bets on the number 0. */
  lemma ZeroPocketPaysOnlyNumberZero(bet: Bet)
    ensures Wins(bet, 0) <==> bet.betType == "number" && bet.value == 0
  {
  }

  /** Red and black split 1..36 between them, and neither holds 0. */
  lemma RedBlackPartition(n: int)
    ensures !(n in RedNumbers && n in BlackNumbers)
    ensures n in RedNumbers || n in BlackNumbers <==> 1 <= n <= 36
  {
  }

  /** On any pocket but 0 exactly one of an even and an odd bet wins; on 0 neither does. */
  lemma EvenOddExclusive(even: Bet, odd: Bet, pocket: int)
    requires even.betType == "even" && odd.betType == "odd"
    ensures pocket == 0 ==> !Wins(even, pocket) && !Wins(odd, pocket)
    ensures pocket != 0 ==> (Wins(even, pocket) <==> !Wins(odd, pocket))
  {
  }

  /** Playing two runs of games one after the other is playing their concatenation. */
  lemma {:induction false} PlayGamesAppend(bankroll: real, bets: seq<Bet>, first: seq<int>, second: seq<int>)
    ensures PlayGames(bankroll, bets, first + second) == PlayGames(PlayGames(bankroll, bets, first), bets, second)
    decreases |second|
  {
    if |second| == 0 {
      assert first + second == first;
    } else {
      assert (first + second)[..|first + second| - 1] == first + second[..|second| - 1];
      PlayGamesAppend(bankroll, bets, first, second[..|second| - 1]);
    }
  }
}
