/**
 * Writing a strategy as text in the format `ParseStrategy` reads: a
 * `bankroll:` line, then one `bet:` line per bet, amounts written with two
 * decimals.  Reading the text back gives the strategy whenever its amounts
 * are in whole hundredths, so the parser loses nothing of such a strategy.
 */
module Rendering {
  import opened Wrappers
  import opened Text
  import opened Numbers
  import opened Strategies
  import opened StrategyLaws

  /** A bet whose amount is a whole number of hundredths. */
  datatype BetEntry = BetEntry(betType: string, value: int, cents: int)

  function EntryBet(entry: BetEntry): Bet {
    Bet(entry.betType, entry.value, entry.cents as real / 100.0)
  }

  /** A bet type that can stand in the first field of a `bet:` line and be read back unchanged. */
  predicate WritableType(betType: string) {
    IsTrimmed(betType) && ',' !in betType && '\n' !in betType
  }

  function BankrollLine(cents: int): string {
    BankrollKey + " " + FormatCents(cents)
  }

  function BetLine(entry: BetEntry): string {
    BetText(entry.betType, FormatInt(entry.value), FormatCents(entry.cents))
  }

  /** A `bet:` line with the given fields, each after one space. */
  function BetText(betType: string, value: string, amount: string): string {
    BetKey + " " + betType + ", " + value + ", " + amount
  }

  /** The lines of a strategy's text: the bankroll line, then one `bet:` line per entry, in order. */
  function StrategyLines(cents: int, entries: seq<BetEntry>): (lines: seq<string>)
    ensures |lines| == |entries| + 1
  {
    if |entries| == 0 then [BankrollLine(cents)]
    else StrategyLines(cents, entries[..|entries| - 1]) + [BetLine(entries[|entries| - 1])]
  }

  /** The text of a strategy, one line per entry, separated by newlines. */
  function RenderStrategy(cents: int, entries: seq<BetEntry>): string {
    Join(StrategyLines(cents, entries), '\n')
  }

  /** The bets the entries stand for, in order. */
  function EntryBets(entries: seq<BetEntry>): (bets: seq<Bet>)
    ensures |bets| == |entries|
  {
    if |entries| == 0 then [] else EntryBets(entries[..|entries| - 1]) + [EntryBet(entries[|entries| - 1])]
  }

  predicate AllWritable(entries: seq<BetEntry>) {
    forall k :: 0 <= k < |entries| ==> WritableType(entries[k].betType)
  }

  /**
   * Reading the rendering of a strategy gives the strategy back: its
   * bankroll, the amount `cents` hundredths stand for, and its bets in order.
   */
  lemma RenderStrategyRoundTrip(cents: int, entries: seq<BetEntry>, bankroll: real)
    requires AllWritable(entries)
    requires bankroll == cents as real / 100.0
    ensures ParseLines(Split(RenderStrategy(cents, entries), '\n')) == Ok(Strategy(bankroll, EntryBets(entries)))
  {
    RenderedLinesSplit(cents, entries);
    RenderedStrategyParse(cents, entries, bankroll);
    ParseSplitLines(RenderStrategy(cents, entries), StrategyLines(cents, entries), Strategy(bankroll, EntryBets(entries)));
  }

  /** Parsing a text depends only on the lines it splits into. */
  lemma ParseSplitLines(text: string, lines: seq<string>, strategy: Strategy)
    requires Split(text, '\n') == lines && ParseLines(lines) == Ok(strategy)
    ensures ParseLines(Split(text, '\n')) == Ok(strategy)
  {
  }

  /** The lines of a rendered strategy build that strategy. */
  lemma RenderedStrategyParse(cents: int, entries: seq<BetEntry>, bankroll: real)
    requires AllWritable(entries)
    requires bankroll == cents as real / 100.0
    ensures ParseLines(StrategyLines(cents, entries)) == Ok(Strategy(bankroll, EntryBets(entries)))
  {
    ParseBankrollLine(cents, bankroll);
    RenderedLinesParse(cents, entries, bankroll);
  }

  /** The rendered lines build the strategy they were rendered from, given what the bankroll line reads as. */
  lemma {:induction false} RenderedLinesParse(cents: int, entries: seq<BetEntry>, bankroll: real)
    requires AllWritable(entries)
    requires ParseLines([BankrollLine(cents)]) == Ok(Strategy(bankroll, []))
    ensures ParseLines(StrategyLines(cents, entries)) == Ok(Strategy(bankroll, EntryBets(entries)))
  {
    if |entries| > 0 {
      var front, last := entries[..|entries| - 1], entries[|entries| - 1];
      RenderedLinesParse(cents, front, bankroll);
      ParseBetLineAfter(StrategyLines(cents, front), last, Strategy(bankroll, EntryBets(front)));
    }
  }

  /** A `bet:` line after lines that build a strategy appends its bet to that strategy. */
  lemma ParseBetLineAfter(lines: seq<string>, entry: BetEntry, strategy: Strategy)
    requires ParseLines(lines) == Ok(strategy) && WritableType(entry.betType)
    ensures ParseLines(lines + [BetLine(entry)]) == Ok(Strategy(strategy.initialBankroll, strategy.bets + [EntryBet(entry)]))
  {
    BetLineRead(entry);
    ParseLinesAppendBet(lines, BetLine(entry), strategy, EntryBet(entry));
  }

  /** A written `bankroll:` line alone reads as its amount, passed in as `bankroll`, and no bets. */
  lemma ParseBankrollLine(cents: int, bankroll: real)
    requires bankroll == cents as real / 100.0
    ensures ParseLines([BankrollLine(cents)]) == Ok(Strategy(bankroll, []))
  {
    AmountField(cents, bankroll);
    ParseBankrollText(BankrollLine(cents), FormatCents(cents), bankroll);
  }

  /** A text of one `bankroll:` line builds that bankroll and no bets. */
  lemma ParseBankrollText(line: string, amount: string, bankroll: real)
    requires line == BankrollKey + " " + amount
    requires IsTrimmed(amount) && |amount| > 0 && IsDigit(amount[|amount| - 1])
    requires ParseDecimal(amount) == Some(bankroll)
    ensures ParseLines([line]) == Ok(Strategy(bankroll, []))
  {
    BankrollTextRead(line, amount, bankroll);
    assert [] + [line] == [line];
    ParseLinesSnoc([], line);
    assert Effects([]) == [];
  }

  lemma ParseLinesAppendBet(lines: seq<string>, line: string, strategy: Strategy, bet: Bet)
    requires ParseLines(lines) == Ok(strategy) && Effect(line) == AppendBet(bet)
    ensures ParseLines(lines + [line]) == Ok(Strategy(strategy.initialBankroll, strategy.bets + [bet]))
  {
    ParseLinesSnoc(lines, line);
  }

  /** Splitting a rendered text at its newlines gives back its lines. */
  lemma RenderedLinesSplit(cents: int, entries: seq<BetEntry>)
    requires AllWritable(entries)
    ensures Split(RenderStrategy(cents, entries), '\n') == StrategyLines(cents, entries)
  {
    LinesHaveNoNewline(cents, entries);
    SplitJoin(StrategyLines(cents, entries), '\n');
  }

  /** No rendered line holds a newline, so the lines survive being joined and split again. */
  lemma {:induction false} LinesHaveNoNewline(cents: int, entries: seq<BetEntry>)
    requires AllWritable(entries)
    ensures forall k :: 0 <= k < |entries| + 1 ==> '\n' !in StrategyLines(cents, entries)[k]
  {
    if |entries| == 0 {
      BankrollLineHasNoNewline(cents);
    } else {
      var front, last := entries[..|entries| - 1], entries[|entries| - 1];
      LinesHaveNoNewline(cents, front);
      BetLineHasNoNewline(last);
      NoNewlineSnoc(StrategyLines(cents, front), BetLine(last));
    }
  }

  lemma NoNewlineSnoc(lines: seq<string>, line: string)
    requires forall k :: 0 <= k < |lines| ==> '\n' !in lines[k]
    requires '\n' !in line
    ensures forall k :: 0 <= k < |lines| + 1 ==> '\n' !in (lines + [line])[k]
  {
    assert forall k :: 0 <= k < |lines| ==> (lines + [line])[k] == lines[k];
  }

  /** A numeral `FormatCents` or `FormatInt` writes has no white space at either end. */
  lemma NumeralTrimmed(s: string)
    requires |s| > 0 && IsDigit(s[|s| - 1])
    requires forall k :: 0 <= k < |s| ==> IsDigit(s[k]) || s[k] == '-' || s[k] == '.'
    ensures IsTrimmed(s) && ',' !in s && '\n' !in s
  {
    assert IsDigit(s[0]) || s[0] == '-' || s[0] == '.';
  }

  /** A field written after one space reads back as written. */
  lemma PaddedField(field: string)
    requires IsTrimmed(field)
    ensures TrimSpace(" " + field) == field
  {
    assert " " + field + "" == " " + field;
    TrimSpacePadded(" ", field, "");
  }

  /** A line that starts with a letter and ends with a digit is left alone by trimming. */
  lemma LineTrimmed(line: string)
    requires |line| > 0 && 'a' <= line[0] <= 'z' && IsDigit(line[|line| - 1])
    ensures TrimSpace(line) == line
  {
    assert !IsSpace(line[0]) && !IsSpace(line[|line| - 1]);
  }

  lemma BankrollLineHasNoNewline(cents: int)
    ensures '\n' !in BankrollLine(cents)
  {
    NumeralTrimmed(FormatCents(cents));
  }

  lemma BetLineHasNoNewline(entry: BetEntry)
    requires WritableType(entry.betType)
    ensures '\n' !in BetLine(entry)
  {
    NumeralTrimmed(FormatInt(entry.value));
    NumeralTrimmed(FormatCents(entry.cents));
  }

  /** Trimming leaves a trimmed line alone, so its effect is that of the line itself. */
  lemma EffectOfTrimmed(line: string)
    requires TrimSpace(line) == line
    ensures Effect(line) == ParseLine(line)
  {
  }

  /** A `bankroll:` line whose amount is a trimmed decimal numeral sets the bankroll to its value. */
  lemma BankrollTextRead(line: string, amount: string, bankroll: real)
    requires line == BankrollKey + " " + amount
    requires IsTrimmed(amount) && |amount| > 0 && IsDigit(amount[|amount| - 1])
    requires ParseDecimal(amount) == Some(bankroll)
    ensures Effect(line) == SetBankroll(bankroll)
  {
    assert line[|line| - 1] == amount[|amount| - 1];
    LineTrimmed(line);
    EffectOfTrimmed(line);
    BankrollLineShape(amount);
    PaddedField(amount);
    BankrollLineOutcome(line);
  }

  lemma BankrollLineShape(amount: string)
    ensures HasPrefix(BankrollKey + " " + amount, BankrollKey)
    ensures TrimPrefix(BankrollKey + " " + amount, BankrollKey) == " " + amount
  {
    assert BankrollKey + " " + amount == BankrollKey + (" " + amount);
  }

  lemma BetLineRead(entry: BetEntry)
    requires WritableType(entry.betType)
    ensures Effect(BetLine(entry)) == AppendBet(EntryBet(entry))
  {
    BetEntryRead(entry, EntryBet(entry));
  }

  /**
   * `BetLineRead` with the entry's bet passed in whole, so that the amount
   * enters the proof as a value rather than as a quotient of hundredths.
   */
  lemma BetEntryRead(entry: BetEntry, bet: Bet)
    requires WritableType(entry.betType)
    requires bet == EntryBet(entry)
    ensures Effect(BetLine(entry)) == AppendBet(bet)
  {
    EntryFields(entry.value, entry.cents, bet.amount);
    BetTextRead(entry.betType, FormatInt(entry.value), FormatCents(entry.cents), entry.value, bet.amount);
  }

  /** The numerals written for a value and an amount are trimmed, comma-free, and read back as the value and the amount. */
  lemma EntryFields(n: int, cents: int, amount: real)
    requires amount == cents as real / 100.0
    ensures FieldsReadAs(FormatInt(n), FormatCents(cents), n, amount)
  {
    NumeralTrimmed(FormatInt(n));
    ParseIntFormatInt(n);
    AmountField(cents, amount);
  }

  /** The numeral written for an amount of `cents` hundredths can end a `bet:` line and reads back as that amount. */
  lemma AmountField(cents: int, amount: real)
    requires amount == cents as real / 100.0
    ensures IsTrimmed(FormatCents(cents)) && ',' !in FormatCents(cents)
    ensures |FormatCents(cents)| > 0 && IsDigit(FormatCents(cents)[|FormatCents(cents)| - 1])
    ensures ParseDecimal(FormatCents(cents)) == Some(amount)
  {
    NumeralTrimmed(FormatCents(cents));
    ParseDecimalFormatCents(cents);
  }

  /** Numerals that can stand in a `bet:` line's value and amount fields and read as `n` and `a`. */
  predicate FieldsReadAs(value: string, amount: string, n: int, a: real) {
    && IsTrimmed(value) && ',' !in value && ParseInt(value) == Some(n)
    && IsTrimmed(amount) && ',' !in amount && |amount| > 0 && IsDigit(amount[|amount| - 1])
    && ParseDecimal(amount) == Some(a)
  }

  /** A `bet:` line of three trimmed fields reads as the bet they spell. */
  lemma BetTextRead(betType: string, value: string, amount: string, n: int, a: real)
    requires IsTrimmed(betType) && ',' !in betType
    requires FieldsReadAs(value, amount, n, a)
    ensures Effect(BetText(betType, value, amount)) == AppendBet(Bet(betType, n, a))
  {
    var line := BetText(betType, value, amount);
    var fields := [" " + betType, " " + value, " " + amount];
    assert line[|line| - 1] == amount[|amount| - 1];
    LineTrimmed(line);
    EffectOfTrimmed(line);
    BetLineShape(betType, value, amount);
    SplitJoin(fields, ',');
    PaddedField(betType);
    PaddedField(value);
    PaddedField(amount);
    ParseDecimalAccepts(amount);
    BetLineOutcome(line, fields);
  }

  lemma BetLineShape(betType: string, value: string, amount: string)
    ensures var line := BetText(betType, value, amount);
      && HasPrefix(line, BetKey)
      && TrimPrefix(line, BetKey) == Join([" " + betType, " " + value, " " + amount], ',')
  {
    var fields := [" " + betType, " " + value, " " + amount];
    assert Join(fields[2..], ',') == " " + amount;
    assert Join(fields[1..], ',') == " " + value + [','] + " " + amount;
    assert BetKey + " " + betType + ", " + value + ", " + amount
      == BetKey + (" " + betType + [','] + (" " + value + [','] + " " + amount));
  }
}
