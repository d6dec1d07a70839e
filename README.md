# Roulette strategy simulator, modelled in Dafny

The program reads a betting strategy written in a small line-oriented
language, then plays American roulette with it for a number of games and
reports the final bankroll. This project models everything in `main.go`
except the terminal driver `main`:

- the data model (`Bet`, `Strategy`, `RouletteWheel`);
- the wheel (`NewRouletteWheel`, `Spin`);
- the strategy parser (`ParseStrategy`);
- the simulator (`SimulateRoulette` and `contains`).

It proves the properties the code promises about them.

Modules, one per concern of the program, plus one added partner
(`Rendering`) that has no counterpart in the source:

- `Wrappers`: the `Option` and `Result` types that carry "does not parse"
  and the parser's error.
- `Text`: Go's `strings.TrimSpace`, `HasPrefix`, `TrimPrefix` and `Split`,
  with what they guarantee: trimming removes exactly the surrounding white
  space, and `Split` cuts at every separator and is undone by joining.
- `Numbers`: `strconv.Atoi` and `strconv.ParseFloat` on plain decimal
  notation, read into exact integers and reals. It also has formatters
  whose output reads back as the value written.
- `Wheel`: the 38-pocket wheel. `NewRouletteWheel` is a method that fills
  an array in a loop, as the Go code fills its slice. `Spin` reads the
  pocket at a drawn index.
- `Strategies`: the parser. `ParseStrategy` is the Go loop, with its
  running bankroll, its growing bet list and its early error return. It is
  proved equal to `ParseLines`, a function that folds the per-line effects
  (`Ignored`, `SetBankroll`, `AppendBet`, `Rejected`) over the trimmed
  lines.
- `StrategyLaws`: what the parser promises, stated against independent
  definitions. These are the bets of the `bet:` lines in order (read from
  the front), the last `bankroll:` amount (read from the back, 0 when there
  is none), which line decides an error, and the exact conditions for each
  error kind.
- `Rendering`: a strategy writer, added as a partner for the parser;
  `main.go` has no writer. It writes a bankroll and bets whose amounts are
  whole hundredths, with bet types that are trimmed and hold no comma or
  newline. Parsing the text it writes gives back that strategy. So the
  parser loses nothing of a strategy whose amounts are in whole hundredths;
  amounts with more decimals (`0.125`) are read but not round-tripped here.
- `Simulation`: the settlement rules (`Wins`, `Multiplier`, `Settle`) and
  their folds over bets (`PlayRound`) and games (`PlayGames`). Also the
  imperative `SimulateRoulette` with its nested loops, proved equal to that
  fold, and `Contains`, a linear search with an early return.

Randomness is a parameter. `SimulateRoulette` receives `draws`, where
`draws[i]` stands for the value `rand.Intn(38)` returned in game `i`.
Amounts and bankrolls are exact `real`s.

A bet whose type is none of `number`, `even`, `odd`, `red` and `black`
is accepted by the parser. Whenever the bankroll covers it, it loses its
stake: the code debits before its `switch` (main.go:96) and has no default
case to pay anything back. `Simulation.Settle` and
`Simulation.UnrecognisedTypeLoses` state this.

## Model

| member | source | states |
|---|---|---|
| Text.TrimSpace | main.go:53 | Go's `strings.TrimSpace`: drops white space from both ends; the result neither starts nor ends with white space and is no longer than the input. |
| Text.HasPrefix | main.go:54 | Go's `strings.HasPrefix`: holds exactly when the key is no longer than the line and the line's first characters spell it. |
| Text.TrimSpaceTrims | main.go:53 | The trimmed line is a slice of the line with only white space before and after it, and it neither starts nor ends with white space. |
| Text.TrimSpaceIdempotent | main.go:53 | Trimming an already trimmed line changes nothing. |
| Text.TrimSpacePadded | main.go:67-72 | Trimming a trimmed field surrounded by white space gives back exactly that field. |
| Text.TrimSpaceSuffixed | main.go:67-72 | Trimming a trimmed field followed by white space gives back exactly that field. |
| Text.TrimPrefix | main.go:55 | When the line starts with the key, the key followed by the result is the line; otherwise the line is returned unchanged. |
| Text.Split | main.go:49 | Go's `strings.Split` with a one-character separator: always at least one piece, and a text without the separator is its only piece. |
| Text.SplitPieces | main.go:49 | No piece holds the separator, and joining the pieces with the separator restores the input. |
| Text.SplitCount | main.go:63-64 | There is one more piece than there are separators in the input. |
| Text.SplitJoin | main.go:49 | Splitting a join of separator-free pieces gives back the pieces, in order. |
| Numbers.ParseInt | main.go:68 | `strconv.Atoi` on decimal numerals: succeeds exactly on an optional sign followed by one or more digits; the value is negative only with a minus sign and non-negative without one. |
| Numbers.ParseDecimal | main.go:56 | `strconv.ParseFloat` on decimal notation, read exactly: an integer numeral reads as that integer; the value is negative only with a minus sign and non-negative without one. |
| Numbers.ParseDecimalOfPieces | main.go:56 | A numeral with a decimal point reads as the digits before the point plus the fraction after it, negated under a minus sign. |
| Numbers.FractionScaled | main.go:56 | The digits after a point, moved past the point, are the whole number they spell: each one counts a tenth of the one before. |
| Numbers.MagnitudeScaled | main.go:56 | The digits before and after a point, with the point moved past the fraction, are the whole number all the digits spell. |
| Numbers.ParseDecimalPointed | main.go:56 | The value of a numeral with a point, such as `2.5`: it is accepted, and its value times ten to the number of fraction digits is all its digits read as one integer, negated under a minus sign. |
| Numbers.ParseDecimalAccepts | main.go:56 | The amount reader succeeds exactly on decimal notation: an optional sign, digits, at most one point, at least one digit. |
| Numbers.ParseIntFormatInt | main.go:68 | Reading back the decimal writing of any integer gives that integer. |
| Numbers.ParseDecimalOfInteger | main.go:72 | An integer numeral read as an amount denotes the same number. |
| Numbers.ParseDecimalFormatCents | main.go:72 | A whole number of hundredths written with two decimals reads back as exactly that amount. |
| Wheel.NewRouletteWheel | main.go:32-40 | The wheel has 38 pockets: indices 0..35 hold 1..36 and indices 36 and 37 both hold 0. |
| Wheel.Spin | main.go:43-45 | A spin lands on one of the wheel's pocket numbers. |
| Wheel.SpinRange | main.go:37-45 | Every spin of the standard wheel is in 0..36; it is 0 exactly for the last two indices and i+1 for index i below 36. |
| Wheel.PocketMultiplicity | main.go:33-38 | 0 occupies two pockets, each of 1..36 occupies one, and no other number occurs. |
| Strategies.ParseLine | main.go:53-77 | The body of the loop for a trimmed line: it is ignored exactly when it starts with neither `bankroll:` nor `bet:`; a bankroll setting or an invalid bankroll comes only from a `bankroll:` line; a bet or one of the three bet errors comes only from a `bet:` line; an appended bet comes from a remainder of exactly three comma-separated fields and its type is trimmed. |
| Strategies.Effect | main.go:52-53 | A raw line is read after trimming: it is ignored exactly when, once trimmed, it starts with neither key, and any bet it appends has a trimmed type. |
| Strategies.Build | main.go:50-80 | Folds line effects in order from bankroll 0 and no bets, stopping at the first rejection; a strategy it builds holds at most one bet per effect. |
| Strategies.ParseLines | main.go:49-80 | Parsing a text's lines is that fold over their effects; a parsed strategy holds at most one bet per line. |
| Strategies.ParseStrategy | main.go:48-81 | The loop's result is the fold of the trimmed lines' effects: the first rejected line's error, or the bankroll and bets the lines build from bankroll 0 and no bets. |
| Strategies.BuildAbort | main.go:57-74 | Once a line is rejected, the lines after it cannot change the outcome. |
| StrategyLaws.BuildSucceedsIffNoRejection | main.go:52-80 | A run of line effects yields a strategy exactly when none of them is a rejection. |
| StrategyLaws.BuiltContents | main.go:50-76 | A successful run holds the bets of the `bet:` lines in order and the amount of the last `bankroll:` line, or 0 without one. |
| StrategyLaws.ParseSucceedsIffNoLineRejected | main.go:52-80 | Parsing succeeds exactly when no line, after trimming, is rejected. |
| StrategyLaws.FirstRejectedLineDecides | main.go:57-74 | The error of a failed parse is that of its first rejected line, whatever follows it. |
| StrategyLaws.ParsedStrategyContents | main.go:50-76 | A parsed strategy's i-th bet comes from the i-th recognised `bet:` line, and its bankroll is the last `bankroll:` line's amount, 0 when there is none. |
| StrategyLaws.IgnoredLineDropsOut | main.go:52-77 | Inserting a line that is ignored anywhere in a text does not change the outcome. |
| StrategyLaws.IgnoredDropsOut | main.go:52-77 | An ignored effect anywhere in a run of effects does not change the outcome. |
| StrategyLaws.ParseLinesSnoc | main.go:52-53 | One more line at the end adds its trimmed line's effect to the outcome so far. |
| StrategyLaws.BetFieldCount | main.go:61-65 | A `bet:` line is rejected for its format exactly when it does not hold exactly two commas. |
| StrategyLaws.BetLineFields | main.go:62-65 | A `bet:` line is rejected for its format exactly when its remainder does not split into three comma-separated fields. |
| StrategyLaws.BankrollLineOutcome | main.go:54-60 | A `bankroll:` line sets the bankroll to the value of its trimmed remainder when that is a decimal numeral, and is rejected as an invalid bankroll exactly when it is not. |
| StrategyLaws.BetLineOutcome | main.go:66-76 | A three-field `bet:` line is rejected for its value exactly when the trimmed second field is no integer. It is rejected for its amount exactly when the value reads but the trimmed third field is no decimal. Otherwise it appends the bet: type = the trimmed first field with case kept, value and amount = what the fields read as. |
| Rendering.RenderStrategyRoundTrip | main.go:48-81 | Parsing the text written for a bankroll of `cents` hundredths and bets whose amounts are whole hundredths (types trimmed and without commas or newlines) gives back that bankroll and those bets in order. |
| Rendering.RenderedLinesSplit | main.go:49 | Splitting a written strategy text at its newlines gives back its lines. |
| Rendering.ParseBankrollLine | main.go:54-60 | A written `bankroll:` line alone parses to that bankroll and no bets. |
| Rendering.BetLineRead | main.go:61-76 | A written `bet:` line reads as the bet it was written from. |
| Rendering.EntryFields | main.go:67-72 | The numerals written for a bet's value and amount are trimmed, hold no comma, and read back as that value and amount. |
| Rendering.AmountField | main.go:56 | The numeral written for an amount of whole hundredths is trimmed, holds no comma, ends in a digit and reads back as exactly that amount. |
| Simulation.Contains | main.go:129-136 | The search reports true exactly when the value occurs in the slice. |
| Simulation.Wins | main.go:98-121 | The switch's win test: only the five named types can win, and `even`, `odd`, `red` and `black` never win on 0. |
| Simulation.Settle | main.go:92-121 | One bet on one spin: an unaffordable bet leaves the bankroll unchanged; otherwise a winning number adds 35 x amount, another win adds the amount, and a loss or an unknown type takes the amount away. A non-negative bankroll stays non-negative under a non-negative amount. |
| Simulation.PlayRound | main.go:91-122 | The bets settled in declaration order against one spin; a non-negative bankroll stays non-negative when every amount is non-negative. |
| Simulation.PlayGames | main.go:88-123 | One round per spin, in order; with no spins or no bets the bankroll is the initial one, and a non-negative bankroll stays non-negative when every amount is non-negative. |
| Simulation.SimulateRoulette | main.go:84-126 | The final bankroll is the fold of the settlement rules over the bets in order and over the spins in order, one spin per game. It is the initial bankroll when there are no games or no bets. It is non-negative when the initial bankroll and all amounts are. |
| Simulation.UnrecognisedTypeLoses | main.go:98-121 | A type other than the five the switch names never wins. |
| Simulation.ZeroPocketPaysOnlyNumberZero | main.go:98-121 | On pocket 0 exactly the bets on the number 0 win. |
| Simulation.RedBlackPartition | main.go:112-117 | No number is both red and black, and the red and black numbers together are exactly 1..36. |
| Simulation.EvenOddExclusive | main.go:103-110 | On 0 neither an even nor an odd bet wins; on any other pocket exactly one of them does. |
| Simulation.PlayGamesAppend | main.go:88-123 | Playing two runs of spins one after the other is the same as playing their concatenation. |

## Left out

- `main` (main.go:138-170) is not part of this model. It is terminal
  input and output: reading the strategy until `done`, reading the game
  count, and printing the result.
- `rand.Seed` and the uniform distribution of `rand.Intn` are left out,
  because randomness cannot be verified. The drawn indices are supplied as
  the sequence `draws`.
- Simulation.SimulateRoulette: requires at least one draw per game played,
  because the draws stand in for the random source, which never runs out.
- IEEE-754 `float64` arithmetic is left out (rounding, NaN, infinities).
  Amounts and bankrolls are exact reals.
- Numbers.ParseDecimal: models only plain decimal notation. It leaves out
  the rest of what `strconv.ParseFloat` accepts: exponents, `inf` and
  `nan`, hexadecimal, underscores, and out-of-range values.
- Numbers.ParseInt: models only an optional sign followed by decimal
  digits. It leaves out `strconv.Atoi`'s range error for values beyond 64
  bits.
- Error message text (main.go:58, 65, 70, 74) is left out. Only which of
  the four errors occurs is modelled.
- Strings are sequences of code points, so invalid UTF-8 bytes are outside
  the model.
- Simulation.PlayGames: non-negativity holds only for non-negative
  amounts. A negative amount is affordable whenever the bankroll is
  non-negative, and it can drive the bankroll below zero, as in the code.
