/**
 * What `ParseStrategy` promises about the strategy it builds, stated
 * against independent definitions over the input's lines: which lines
 * count, in what order, and which error wins.
 */
module StrategyLaws {
  import opened Wrappers
  import opened Text
  import opened Numbers
  import opened Strategies

  /** The bet an effect contributes, if any. */
  function BetsOf(effect: LineEffect): seq<Bet> {
    if effect.AppendBet? then [effect.bet] else []
  }

  /** The bets of the `bet:` lines, read front to back. */
  function RecognisedBets(effects: seq<LineEffect>): seq<Bet> {
    if |effects| == 0 then [] else BetsOf(effects[0]) + RecognisedBets(effects[1..])
  }

  /** The amount of the last `bankroll:` line, or 0 when there is none. */
  function LastBankroll(effects: seq<LineEffect>): real {
    if |effects| == 0 then 0.0
    else if effects[|effects| - 1].SetBankroll? then effects[|effects| - 1].bankroll
    else LastBankroll(effects[..|effects| - 1])
  }

  lemma {:induction false} RecognisedBetsSnoc(effects: seq<LineEffect>, effect: LineEffect)
    ensures RecognisedBets(effects + [effect]) == RecognisedBets(effects) + BetsOf(effect)
  {
    if |effects| > 0 {
      assert (effects + [effect])[0] == effects[0];
      assert (effects + [effect])[1..] == effects[1..] + [effect];
      RecognisedBetsSnoc(effects[1..], effect);
    } else {
      assert [] + [effect] == [effect];
      assert [effect][1..] == [];
    }
  }

  /** A run of effects builds a strategy exactly when none of them is a rejection. */
  lemma {:induction false} BuildSucceedsIffNoRejection(effects: seq<LineEffect>)
    ensures Build(effects).Ok? <==> forall i :: 0 <= i < |effects| ==> !effects[i].Rejected?
  {
    if |effects| > 0 {
      var prefix := effects[..|effects| - 1];
      BuildSucceedsIffNoRejection(prefix);
      assert forall i :: 0 <= i < |prefix| ==> prefix[i] == effects[i];
    }
  }

  /** The built strategy holds the bets in order and the last bankroll. */
  lemma {:induction false} BuiltContents(effects: seq<LineEffect>)
    requires Build(effects).Ok?
    ensures Build(effects).value.bets == RecognisedBets(effects)
    ensures Build(effects).value.initialBankroll == LastBankroll(effects)
  {
    if |effects| > 0 {
      var prefix := effects[..|effects| - 1];
      var effect := effects[|effects| - 1];
      assert effects == prefix + [effect];
      assert Build(prefix).Ok?;
      BuiltContents(prefix);
      RecognisedBetsSnoc(prefix, effect);
    }
  }

  /** An ignored line changes nothing, wherever it stands. */
  lemma {:induction false} IgnoredDropsOut(before: seq<LineEffect>, after: seq<LineEffect>)
    ensures Build(before + [Ignored] + after) == Build(before + after)
    decreases |after|
  {
    if |after| == 0 {
      assert before + [Ignored] + after == before + [Ignored];
      assert before + after == before;
      BuildSnoc(before, Ignored);
    } else {
      var rest := after[..|after| - 1];
      var last := after[|after| - 1];
      assert before + [Ignored] + after == (before + [Ignored] + rest) + [last];
      assert before + after == (before + rest) + [last];
      BuildSnoc(before + [Ignored] + rest, last);
      BuildSnoc(before + rest, last);
      IgnoredDropsOut(before, rest);
    }
  }

  /** The effects of two runs of lines, one after the other. */
  lemma EffectsAppend(a: seq<string>, b: seq<string>)
    ensures Effects(a + b) == Effects(a) + Effects(b)
  {
    var left, right := Effects(a + b), Effects(a) + Effects(b);
    forall k | 0 <= k < |a + b|
      ensures left[k] == right[k]
    {
      if k < |a| {
        assert (a + b)[k] == a[k];
        assert right[k] == Effects(a)[k];
      } else {
        assert (a + b)[k] == b[k - |a|];
        assert right[k] == Effects(b)[k - |a|];
      }
    }
  }

  /** One more line takes effect on top of what the lines before it built. */
  lemma ParseLinesSnoc(lines: seq<string>, line: string)
    ensures ParseLines(lines + [line]) == Step(ParseLines(lines), Effect(line))
  {
    EffectsAppend(lines, [line]);
    assert Effects([line]) == [Effect(line)];
    BuildSnoc(Effects(lines), Effect(line));
  }

  /** The parse succeeds exactly when no line is rejected. */
  lemma ParseSucceedsIffNoLineRejected(lines: seq<string>)
    ensures ParseLines(lines).Ok? <==> forall i :: 0 <= i < |lines| ==> !Effect(lines[i]).Rejected?
  {
    var effects := Effects(lines);
    BuildSucceedsIffNoRejection(effects);
    assert forall i :: 0 <= i < |lines| ==> effects[i] == Effect(lines[i]);
  }

  /** The error of a failed parse is that of the first rejected line. */
  lemma FirstRejectedLineDecides(lines: seq<string>, i: nat, error: ParseError)
    requires i < |lines| && Effect(lines[i]) == Rejected(error)
    requires forall j :: 0 <= j < i ==> !Effect(lines[j]).Rejected?
    ensures ParseLines(lines) == Err(error)
  {
    var effects := Effects(lines);
    var prefix := effects[..i];
    forall j | 0 <= j < |prefix|
      ensures !prefix[j].Rejected?
    {
      assert prefix[j] == Effect(lines[j]);
    }
    BuildSucceedsIffNoRejection(prefix);
    BuildStep(effects, i);
    assert effects[i] == Rejected(error);
    BuildAbort(effects, i + 1);
  }

  /**
   * A successful parse keeps the `bet:` lines' bets in declaration order
   * and takes the bankroll from the last `bankroll:` line (0 without one).
   */
  lemma ParsedStrategyContents(lines: seq<string>)
    requires ParseLines(lines).Ok?
    ensures ParseLines(lines).value.bets == RecognisedBets(Effects(lines))
    ensures ParseLines(lines).value.initialBankroll == LastBankroll(Effects(lines))
  {
    BuiltContents(Effects(lines));
  }

  /** A line that is neither a `bankroll:` nor a `bet:` line changes nothing, wherever it stands. */
  lemma IgnoredLineDropsOut(before: seq<string>, line: string, after: seq<string>)
    requires Effect(line) == Ignored
    ensures ParseLines(before + [line] + after) == ParseLines(before + after)
  {
    EffectsAppend(before, [line]);
    EffectsAppend(before + [line], after);
    EffectsAppend(before, after);
    assert Effects([line]) == [Ignored];
    IgnoredDropsOut(Effects(before), Effects(after));
  }

  /** A `bet:` line is malformed exactly when it does not hold two commas. */
  lemma BetFieldCount(line: string)
    requires HasPrefix(line, BetKey)
    ensures ParseLine(line) == Rejected(InvalidBetFormat) <==> multiset(line)[','] != 2
  {
    var rest := TrimPrefix(line, BetKey);
    BetLineFields(line);
    SplitCount(rest, ',');
    KeyAddsNoComma(rest);
  }

  /** The key `bet:` holds no comma, so a `bet:` line has as many commas as its remainder. */
  lemma KeyAddsNoComma(rest: string)
    ensures multiset(BetKey + rest)[','] == multiset(rest)[',']
  {
    assert multiset(BetKey + rest) == multiset(BetKey) + multiset(rest);
    assert multiset(BetKey)[','] == 0;
  }

  /** A `bet:` line is malformed exactly when its text after the key does not split into three fields. */
  lemma BetLineFields(line: string)
    requires HasPrefix(line, BetKey)
    ensures ParseLine(line) == Rejected(InvalidBetFormat) <==> |Split(TrimPrefix(line, BetKey), ',')| != 3
  {
    assert !HasPrefix(line, BankrollKey) by { assert line[1] == 'e'; }
  }

  /**
   * A `bankroll:` line sets the bankroll exactly when the rest of the line,
   * trimmed, is a decimal numeral, and is rejected otherwise.
   */
  lemma BankrollLineOutcome(line: string)
    requires HasPrefix(line, BankrollKey)
    ensures var amount := TrimSpace(TrimPrefix(line, BankrollKey));
      && (ParseLine(line) == Rejected(InvalidBankroll) <==> !IsDecimalText(amount))
      && (ParseLine(line).SetBankroll? <==> IsDecimalText(amount))
      && (ParseLine(line).SetBankroll? ==> ParseDecimal(amount) == Some(ParseLine(line).bankroll))
  {
    ParseDecimalAccepts(TrimSpace(TrimPrefix(line, BankrollKey)));
  }

  /**
   * A `bet:` line with three fields is rejected for its value when the
   * second field is not an integer, for its amount when the second is one
   * but the third is not a decimal numeral, and otherwise appends the bet
   * whose type is the first field trimmed, case and all.
   */
  lemma BetLineOutcome(line: string, fields: seq<string>)
    requires HasPrefix(line, BetKey)
    requires fields == Split(TrimPrefix(line, BetKey), ',') && |fields| == 3
    ensures ParseLine(line) == Rejected(InvalidBetValue) <==> ParseInt(TrimSpace(fields[1])).None?
    ensures ParseLine(line) == Rejected(InvalidBetAmount) <==>
      ParseInt(TrimSpace(fields[1])).Some? && !IsDecimalText(TrimSpace(fields[2]))
    ensures ParseLine(line).AppendBet? <==>
      ParseInt(TrimSpace(fields[1])).Some? && IsDecimalText(TrimSpace(fields[2]))
    ensures ParseLine(line).AppendBet? ==>
      var bet := ParseLine(line).bet;
      && bet.betType == TrimSpace(fields[0]) && IsTrimOf(bet.betType, fields[0])
      && ParseInt(TrimSpace(fields[1])) == Some(bet.value)
      && ParseDecimal(TrimSpace(fields[2])) == Some(bet.amount)
  {
    assert !HasPrefix(line, BankrollKey) by { assert line[1] == 'e'; }
    ParseDecimalAccepts(TrimSpace(fields[2]));
    TrimSpaceTrims(fields[0]);
  }
}
