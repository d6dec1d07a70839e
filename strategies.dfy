/**
 * The strategy text format and its parser (main.go:13-24,
 * main.go:47-81).  A strategy text is read line by line; each line is
 * trimmed, `bankroll: <number>` sets the starting bankroll (the last such
 * line wins), `bet: <type>, <int>, <number>` appends a bet, and every other
 * line is ignored.  The first malformed line aborts the whole parse.
 */
module Strategies {
  import opened Wrappers
  import opened Text
  import opened Numbers

  /** main.go:14-18.  The type string is kept as written; only the simulator interprets it. */
  datatype Bet = Bet(betType: string, value: int, amount: real)

  /** main.go:21-24: the starting bankroll and the bets in declaration order. */
  datatype Strategy = Strategy(initialBankroll: real, bets: seq<Bet>)

  /** The parse failures of main.go:58, 65, 70 and 74 (their messages are not modelled). */
  datatype ParseError = InvalidBankroll | InvalidBetFormat | InvalidBetValue | InvalidBetAmount

  /** What one trimmed line contributes to the strategy. */
  datatype LineEffect = Ignored | SetBankroll(bankroll: real) | AppendBet(bet: Bet) | Rejected(error: ParseError)

  const BankrollKey: string := "bankroll:"
  const BetKey: string := "bet:"

  /** The body of the loop at main.go:53-77, for one line already trimmed. */
  function ParseLine(line: string): (effect: LineEffect)
    ensures effect == Ignored <==> !HasPrefix(line, BankrollKey) && !HasPrefix(line, BetKey)
    ensures effect.SetBankroll? || effect == Rejected(InvalidBankroll) ==> HasPrefix(line, BankrollKey)
    ensures effect.AppendBet? || (effect.Rejected? && effect.error != InvalidBankroll) ==>
      HasPrefix(line, BetKey) && !HasPrefix(line, BankrollKey)
    ensures effect.AppendBet? ==> |Split(TrimPrefix(line, BetKey), ',')| == 3 && IsTrimmed(effect.bet.betType)
  {
    assert HasPrefix(line, BetKey) ==> line[1] == 'e';
    if HasPrefix(line, BankrollKey) then
      match ParseDecimal(TrimSpace(TrimPrefix(line, BankrollKey)))
      case None => Rejected(InvalidBankroll)
      case Some(bankroll) => SetBankroll(bankroll)
    else if HasPrefix(line, BetKey) then
      var parts := Split(TrimPrefix(line, BetKey), ',');
      if |parts| != 3 then Rejected(InvalidBetFormat)
      else
        match ParseInt(TrimSpace(parts[1]))
        case None => Rejected(InvalidBetValue)
        case Some(value) =>
          match ParseDecimal(TrimSpace(parts[2]))
          case None => Rejected(InvalidBetAmount)
          case Some(amount) => AppendBet(Bet(TrimSpace(parts[0]), value, amount))
    else
      Ignored
  }

  /** The effect of a raw line of the input. */
  function Effect(line: string): (effect: LineEffect)
    ensures effect == Ignored <==> !HasPrefix(TrimSpace(line), BankrollKey) && !HasPrefix(TrimSpace(line), BetKey)
    ensures effect.AppendBet? ==> IsTrimmed(effect.bet.betType)
  {
    ParseLine(TrimSpace(line))
  }

  /** The effect of every line, in input order. */
  function Effects(lines: seq<string>): (effects: seq<LineEffect>)
    ensures |effects| == |lines|
  {
    seq(|lines|, i requires 0 <= i < |lines| => Effect(lines[i]))
  }

  function Apply(strategy: Strategy, effect: LineEffect): Result<Strategy, ParseError> {
    match effect
    case Ignored => Ok(strategy)
    case SetBankroll(bankroll) => Ok(strategy.(initialBankroll := bankroll))
    case AppendBet(bet) => Ok(strategy.(bets := strategy.bets + [bet]))
    case Rejected(error) => Err(error)
  }

  /** One more line on top of an outcome so far: an error stays, a strategy takes the line's effect. */
  function Step(outcome: Result<Strategy, ParseError>, effect: LineEffect): Result<Strategy, ParseError> {
    match outcome
    case Err(error) => Err(error)
    case Ok(strategy) => Apply(strategy, effect)
  }

  /**
   * The outcome of a run of line effects in order, from the empty strategy
   * (bankroll 0, no bets): the first rejection's error, or the strategy the
   * effects build.
   */
  function Build(effects: seq<LineEffect>): (outcome: Result<Strategy, ParseError>)
    ensures outcome.Ok? ==> |outcome.value.bets| <= |effects|
  {
    if |effects| == 0 then Ok(Strategy(0.0, []))
    else Step(Build(effects[..|effects| - 1]), effects[|effects| - 1])
  }

  /** What parsing the lines of a strategy text yields. */
  function ParseLines(lines: seq<string>): (outcome: Result<Strategy, ParseError>)
    ensures outcome.Ok? ==> |outcome.value.bets| <= |lines|
  {
    Build(Effects(lines))
  }

  /**
   * main.go:48-81: `ParseStrategy`.  The loop trims each line, overwrites
   * the bankroll or appends a bet as the line says, and returns at the
   * first rejected line without a strategy.
   */
  method ParseStrategy(input: string) returns (result: Result<Strategy, ParseError>)
    ensures result == ParseLines(Split(input, '\n'))
  {
    var lines := Split(input, '\n');
    ghost var effects := Effects(lines);
    var bankroll := 0.0;
    var bets: seq<Bet> := [];
    for i := 0 to |lines|
      invariant Build(effects[..i]) == Ok(Strategy(bankroll, bets))
    {
      BuildStep(effects, i);
      var line := TrimSpace(lines[i]);
      var effect := ParseLine(line);
      assert effect == effects[i];
      match effect
      case Rejected(error) =>
        BuildAbort(effects, i + 1);
        return Err(error);
      case SetBankroll(amount) =>
        bankroll := amount;
      case AppendBet(bet) =>
        bets := bets + [bet];
      case Ignored =>
    }
    assert effects[..|lines|] == effects;
    return Ok(Strategy(bankroll, bets));
  }

  /** Taking one more effect applies it to what the earlier ones built. */
  lemma BuildStep(effects: seq<LineEffect>, i: nat)
    requires i < |effects|
    ensures Build(effects[..i + 1]) == Step(Build(effects[..i]), effects[i])
  {
    assert effects[..i + 1][..i] == effects[..i];
  }

  lemma BuildSnoc(effects: seq<LineEffect>, effect: LineEffect)
    ensures Build(effects + [effect]) == Step(Build(effects), effect)
  {
    assert (effects + [effect])[..|effects|] == effects;
  }

  /** Once a prefix is rejected, the whole run is rejected with the same error. */
  lemma {:induction false} BuildAbort(effects: seq<LineEffect>, n: nat)
    requires n <= |effects|
    requires Build(effects[..n]).Err?
    ensures Build(effects) == Build(effects[..n])
    decreases |effects| - n
  {
    if n < |effects| {
      assert effects[..n + 1][..n] == effects[..n];
      BuildAbort(effects, n + 1);
    } else {
      assert effects[..n] == effects;
    }
  }
}
