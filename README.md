# European roulette core, in Dafny

A model of the discrete core of `js/casino.js`, a browser roulette wheel. It covers:

- the fixed layout of the 37 pockets;
- the red/black/green colour rule;
- the payout table that settles a bet once a spin ends;
- the spinning/idle state machine behind the spin button.

The drawing, the floating-point angle arithmetic and the host callbacks are left out.

Files and modules:

- `wrappers.dfy` (`Wrappers`): `Option`, which stands for a JavaScript number that may be NaN.
- `wheel.dfy` (`Wheel`): the pocket order `Sequence`, the red set `Reds` and `NumberColor`. It proves that the layout is a permutation of 0..36, that the colours alternate after 0, and that there is 1 green, 18 red and 18 black pocket.
- `numtext.dfy` (`NumberText`): `parseInt(text, 10)` and the decimal text of an integer, with a round-trip lemma between them.
- `payout.dfy` (`Payout`): the ordered red / black / number test of `showResult` (`Decide`) and the status message it writes (`ShowResult`).
- `spin.dfy` (`Spin`): the class `Roulette`. It holds the state that `startSpin` and `step` update: `spinning`, `startTime`, `resultIndex`, and the whole turns of the target angle.

Modelling choices:

- Time is integer milliseconds. The spin is over when `now - startTime >= Duration` (4500). That is the integer form of `t = min(1, (now - startTime) / duration)` reaching 1.
- The two `Math.random()` draws are parameters of `StartSpin`, each with its range as a precondition: turns in 6..9 and index in 0..36.
- The bet fields are read when the spin ends. `Step` therefore gets their three texts as a `BetForm`.
- Animation frames are only requested by `startSpin` and by a frame of a running spin (js/casino.js:144, 158). So `Step` requires `spinning`.
- The bet type is kept as a string and compared with `"red"`, `"black"` and `"number"` as the code does.
- `angleToIndex` is floating-point arithmetic. `Step` takes its intermediate result, `floor(a / slice)`, as the natural number `pointerSlot`. The model then reduces it modulo the pocket count and looks it up in `Sequence`, as the code does.
- Two points where the model follows the code rather than what the page suggests:
  - The stake is not validated. Any parsed integer is multiplied, including zero and negative values. A stake that does not parse makes a win or jackpot message say `NaN`; a losing bet still says "Du tapte.".
  - The comment at js/casino.js:136 says the drawn index ends up under the pointer, but the code does not make the pocket under the pointer equal to `resultIndex`. The pointer sits at -pi/2, but the target rotation is `resultIndex * slice`, and the start angle carries over from one spin to the next. So the model does not relate the two values.

## Model

| member | source | states |
|---|---|---|
| `Wheel.SequenceIsPermutation` | js/casino.js:3-7 | the layout has 37 entries, all in 0..36, pairwise distinct, and every number 0..36 occurs in it, so each occurs exactly once |
| `Wheel.PositionInvertsSequence` | js/casino.js:3-7 | the table of wheel positions is a left inverse of the layout |
| `Wheel.SequenceInvertsPosition` | js/casino.js:3-7 | the layout is a left inverse of the table of wheel positions |
| `Wheel.NumberColor` | js/casino.js:10-15 | the colour is green exactly for 0; a red number always lies in 1..36 |
| `Wheel.ColorsAlternate` | js/casino.js:3-14 | along the layout, pocket 0 is green and after it odd places are red and even places black, as the comments claim |
| `Wheel.PlaceColoredCounts` | js/casino.js:3-14 | in a layout coloured by place, the first k pockets hold one green (for k > 0), k/2 red and (k-1)/2 black |
| `Wheel.ColorPartition` | js/casino.js:3-15 | across the 37 pockets there are exactly 1 green, 18 red and 18 black |
| `NumberText.TrimStart` | js/casino.js:172-174 | parseInt's first step drops exactly the leading white space, leaving a suffix that starts with something else |
| `NumberText.DigitPrefixLength` | js/casino.js:172-174 | parseInt reads the longest run of digits: all of them digits, and the next character is not one |
| `NumberText.NatToString` | js/casino.js:179-183 | the decimal text of an amount is non-empty, all digits, has no leading zero and denotes the amount |
| `NumberText.ParseIntToString` | js/casino.js:172-183 | parseInt applied to an integer's text, with any leading white space and any non-digit text after it, gives back that integer |
| `NumberText.ParseIntOfText` | js/casino.js:172-183 | parseInt of the bare text of an integer gives that integer |
| `NumberText.ParseInt` | js/casino.js:172-174 | parseInt of text with no digit at all is NaN; its round trip with the printed form is `ParseIntToString` |
| `NumberText.ParseIntOfWord` | js/casino.js:172-174 | text that starts with something other than white space, a sign or a digit, such as "NaN", parses to NaN |
| `NumberText.IntToString` | js/casino.js:176-183 | the template-literal text of an integer is a minus sign exactly for a negative value, followed by a non-empty run of digits that denotes its magnitude, with no leading zero except in "0" itself |
| `NumberText.NumberToString` | js/casino.js:179-183 | the text of a number is "NaN" exactly when the number is NaN |
| `NumberText.IntToStringInjective` | js/casino.js:179-183 | different integers are printed differently |
| `NumberText.NumberToStringInjective` | js/casino.js:179-183 | NaN and the integers are printed differently from one another |
| `Payout.Decide` | js/casino.js:178-186 | the outcome is a win of twice the stake exactly for red on red or black on black, a jackpot of 36 times the stake exactly for a number bet whose parsed number equals the winning number, and a loss otherwise; a NaN stake pays NaN |
| `Payout.Heading` | js/casino.js:176 | the heading starts with the label "Resultat: " |
| `Payout.HeadingNamesNumber` | js/casino.js:176 | whatever follows the heading, parseInt reads the winning number back from the text after the label |
| `Payout.OutcomeText` | js/casino.js:178-186 | the outcome text is "Du tapte." exactly for a loss and starts with 'J' exactly for a jackpot |
| `Payout.OutcomeTextReadsBack` | js/casino.js:179-183 | parseInt reads the amount of a win back after "Du vant ", and that of a jackpot after "Jackpot! Du vant ", NaN included |
| `Payout.ShowResult` | js/casino.js:171-189 | the status message starts with the label "Resultat: " |
| `Payout.ShowResultNamesNumber` | js/casino.js:171-189 | parseInt reads the winning number back from the status message, right after the label |
| `Payout.HeadingNamesColor` | js/casino.js:176 | whatever follows the heading, the character two places after the number is the initial of the colour's name |
| `Payout.ColorInitialsDiffer` | js/casino.js:176 | the three colour names start with different letters, so the initial after the number tells the colour |
| `Payout.ShowResultDeterminesOutcome` | js/casino.js:171-189 | two status messages are equal only when they name the same winning number and colour and the bets, read from their input texts, have the same outcome, amounts included |
| `Payout.OutcomeTextInjective` | js/casino.js:179-185 | the three outcome texts never coincide, and the amount can be read back from a win or jackpot text |
| `Payout.MessageDeterminesOutcome` | js/casino.js:176-188 | for a given result, two messages are equal only when the outcomes (amounts included) are equal |
| `Payout.NumberBetOffTheWheelLoses` | js/casino.js:174-186 | a number bet on NaN or on a number outside 0..36 always loses |
| `Payout.ColorBetLosesOnZero` | js/casino.js:178-186 | a red or black bet loses when 0, which is green, comes up |
| `Payout.PayoutIsExactMultiple` | js/casino.js:172-186 | for any integer stake, negative or zero included, the payout is exactly 2 or 36 times it or a loss; a NaN stake pays NaN |
| `Payout.RedBetOnRedWins` | js/casino.js:178-179 | a stake of 10 on red wins 20 when 32 comes up |
| `Payout.BlackBetOnRedLoses` | js/casino.js:180-185 | a stake of 10 on black loses when 32 comes up |
| `Payout.NumberBetOnZeroWins` | js/casino.js:182-183 | a stake of 5 on number 0 wins 180 when 0 comes up |
| `Payout.RedBetOnRedMessage` | js/casino.js:171-179 | with "10" in the stake field on red and 32 coming up, whatever the bet-number field holds, the status message is the heading for 32 red followed by the win text for 20 |
| `Payout.BlackBetOnRedMessage` | js/casino.js:171-185 | with "10" in the stake field on black and 32 coming up, whatever the bet-number field holds, the status message is the heading for 32 red followed by "Du tapte." |
| `Payout.NumberBetOnZeroMessage` | js/casino.js:171-183 | with "5" in the stake field and "0" in the bet-number field on number, and 0 coming up, the status message is the heading for 0 green followed by the jackpot text for 180 |
| `Payout.NonNumericStakeWinsNaN` | js/casino.js:172-179 | a winning colour bet whose stake is not a number is reported as a win of NaN, with the text "Du vant NaN kr!" |
| `Spin.Resolve` | js/casino.js:162-165 | the winning number is the layout entry at the pointer slot modulo 37, hence a number in 0..36 that occurs in the layout; its colour is NumberColor of it, and the message is showResult's for it |
| `Spin.Roulette.constructor` | js/casino.js:35-40 | the page starts idle, with start time 0 and result index 0 |
| `Spin.Roulette.StartSpin` | js/casino.js:128-145 | while a spin runs nothing changes and no spin starts; otherwise the state becomes spinning, with the start time, the drawn index in 0..36 and the drawn turns in 6..9 recorded; the state invariant is kept |
| `Spin.Roulette.Step` | js/casino.js:147-168 | a frame runs only while a spin runs; before the duration has elapsed nothing is reported and the spin goes on; from then on the flag goes to false and the report is the one Resolve gives; start time, index and turns never change |
| `Spin.SpinOnce` | js/casino.js:128-168 | from the idle page, the second click it returns as `again` is ignored; the frame it returns one millisecond before the duration has no report; at the duration the report is `Resolve` of the pointer's pocket, with a number in 0..36 and its colour |

## Left out

- `drawWheel` (js/casino.js:48-114) is canvas rendering without a result, so it is not modelled. So is the initial `drawWheel(0)` call.
- `easeOutCubic` (js/casino.js:43-45) is floating-point arithmetic and is not modelled. The same goes for the interpolated rotation `current` (js/casino.js:150), the ball drift `ballAngle` (js/casino.js:153), the start-angle normalisation and the `targetAngle` computation in `startSpin` (js/casino.js:136-139), and `angleToIndex` up to its last step (js/casino.js:117-123). The fields `startAngle`, `targetAngle` and `ballAngle` are therefore not in the model.
- `Spin.Roulette.Step`: the pocket under the pointer is a parameter (`pointerSlot`), not computed from the rotation. So the model does not say which pocket a given spin lands on.
- DOM access, the spin button's enabled state, the "Spinner..." status text and `requestAnimationFrame` scheduling (js/casino.js:18-19, 142-144, 158, 166, 188, 195) are I/O and host callbacks. The model returns the message instead of writing it.
- `Math.random` and `performance.now` (js/casino.js:133, 135, 140) are replaced by caller-supplied values.
- `NumberText.ParseInt` and `NumberText.IntToString` treat numbers as unbounded integers. They leave out three things that happen with large values in JavaScript: precision loss above 2^53, exponent notation from 10^21, and overflow to `Infinity` beyond about 1.8e308. That last one covers a stake text of more than about 309 digits, or a stake whose double or 36-fold product is that large; the page then prints "Infinity" or "-Infinity" where the model prints the exact integer. They also leave out the sign of a negative zero, which `===` and the printed text ignore anyway.
- `NumberText.ParseInt` works on Unicode scalar values rather than UTF-16 code units. Its white-space set is the ECMAScript set of white space and line terminators.
