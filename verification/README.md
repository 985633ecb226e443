# Verified models of the V8 benchmark programs

The algorithms of five self-contained benchmark programs, as Dafny models that are proved against what the programs are
for: the bignum and RSA arithmetic of `crypto.js`, the Earley parser and the Boyer prover of `earley-boyer.js`, the task
dispatcher of `richards.js`, the top-down splay tree of `splay.js`, and the planner of `deltablue.js`.

`dafny verify dfyconfig.toml` checks everything.

- **Numbers.** `JsNumber` has the 32-bit operators, `Digits` the value of a digit string and its arithmetic.  A
  `BigInteger` is an object with the fields `t`, `s` and the sparse array, overwritten in place: `BigInteger`, `Shifts`,
  `Compare`, `Multiply`, `Division` and `AmVariants`.  A `Reducer` stands for the Classic, Montgomery and Barrett
  objects: `Reducers`, `Congruence`, `Montgomery`, `Barrett`, `Reductions`.  On top are `Exponents`, `Windows`,
  `SlidingWindow`, `Gcd`, `ModInverse`, `LowPrimes`, `NumberTheory`, `Primality` and `Rsa`.
- **Earley.** `EarleyGrammar` defines derivations, tables and closed charts; `EarleyStates` the states, whose cells
  thread two linked lists and a work stack; `EarleyParser` fills the chart, `EarleyFilter` makes the second one,
  `EarleyTables` compiles grammars, `EarleyTrees` enumerates and counts trees, `EarleyParses` is about parse trees on
  their own, `EarleyEnumeration` says what the enumeration lists and when it ends, `EarleyRepeats` when it lists a parse
  more than once, `EarleyUses` what the second chart keeps, and `EarleyAnswers` puts the parts together.
- **Boyer.** `Boyer` has unification and rewriting, `Tautology` the decision of if-terms and what a proof means.
- **Richards.** `RichardsModel` is the machine, with its invariants and its measure; `RichardsPackets` and `Richards`
  are the objects, which are proved to run that machine; `RichardsDispatch` is the scheduler for any tasks, of which the
  machine is proved to be a case; `RichardsRuns` follows the register, the letters and the counts over whole runs.
- **Splay.** `SplayTrees` has the nodes and trees, `SplayCost` splaying as a function of trees and its amortized cost,
  `Splay` the objects.
- **DeltaBlue** is one file.  `Options` is shared by the Earley and Boyer files.

A quantity that a program takes from elsewhere is a parameter: the random keys of the splay benchmark, the packet counts
of Richards, the lemmas of Boyer.

## Model

| member | source | states |
|---|---|---|
| BigIntegers.BigInteger.CopyTo | benchmarks/crypto.js:180-187 | the copy is the same number with the same digits, also onto itself |
| BigIntegers.BigInteger.TryFromInt | benchmarks/crypto.js:190-197 | for -2^28 <= x < 2^28 the routine makes the number x exactly when x >= -1; below that it reads a variable that nothing declares, and leaves length 1, sign -1 and the old digits |
| BigIntegers.BigInteger.FromInt | benchmarks/crypto.js:190-197 | where it does not fail, the number made is x, clamped |
| BigIntegers.BigInteger.Clamp | benchmarks/crypto.js:243-247 | the value is kept and the representation becomes the normal one; what is cut off are copies of the sign |
| BigIntegers.BigInteger.Am | benchmarks/crypto.js:108-123 | `am3`: n digits of w from j on become themselves plus x times n digits of this from i on plus c, with the exact carry out below 3 * 2^28; nothing else of w changes; w may be this when it is not written ahead of what is read |
| BigIntegers.AmDigit | benchmarks/crypto.js:113-121 | one round of `am3`: the two 14-bit halves give the sum exactly, and every intermediate stays in 32 bits |
| AmVariants.NumberIsVal | benchmarks/crypto.js:77-148 | at base 2^28 the digit strings of any base are those of the rest of the library |
| AmVariants.Am1 | benchmarks/crypto.js:77-83 | `am1` at base 2^26 with doubles that round: for every operand and carry that the header allows, the multiply-add is exact if and only if the first sum is at most 2^53 or even |
| AmVariants.Am2 | benchmarks/crypto.js:91-105 | `am2` at base 2^30, through 15-bit halves: the same exact multiply-add for every carry the header allows |
| AmVariants.Am4 | benchmarks/crypto.js:126-140 | `am4` at base 2^26, through 13-bit halves: the same exact multiply-add for every carry the header allows |
| AmVariants.Am1Fits | benchmarks/crypto.js:70-83 | for a carry c, the sum of `am1` is at most 2^53 for all digits if and only if c <= 2 * 2^26 |
| AmVariants.Am1Overflows | benchmarks/crypto.js:70-83 | at an input: the largest operands that the header allows make the sum 2^53 + 2^26 - 1, which a double rounds up |
| AmVariants.Am1Carry | benchmarks/crypto.js:77-83 | the carry after a round, so that only a first sum can be rounded |
| BigIntegers.BigInteger.SubTo | benchmarks/crypto.js:378-411 | r is the difference, for any signs, lengths and aliasing of r, and clamped |
| BigIntegers.BigInteger.AddTo | benchmarks/crypto.js:935-968 | r is the sum, for any signs, lengths and aliasing of r, and clamped |
| BigIntegers.BigInteger.DLShiftTo | benchmarks/crypto.js:319-327 | r is this times 2^(28 n); for negative n, when r is another number, this divided by 2^(-28 n), rounded down; in place, that number if and only if the digits that are kept repeat; and a length that is negative exactly when more digits are dropped than there are |
| BigIntegers.InPlaceExact | benchmarks/crypto.js:319-327 | the same condition on the digits: what a negative shift in place leaves has the shifted value if and only if each digit kept equals the one that it is taken from |
| BigIntegers.RepeatedDigit | benchmarks/crypto.js:319-327 | at an input: 1, 2, 3 shifted by -1 in place become 3, 3 |
| BigIntegers.BigInteger.DRShiftTo | benchmarks/crypto.js:330-336 | r is this divided by 2^(28 n), rounded down, in place or not |
| Shifts.NBits | benchmarks/crypto.js:301-309 | the number of bits of a 32-bit word, and 1 for 0 |
| Shifts.LShiftTo | benchmarks/crypto.js:339-355 | r is this times 2^n, for any n and sign, in place or not |
| Shifts.RShiftTo | benchmarks/crypto.js:358-375 | r is this divided by 2^n, rounded down, for any n and sign, in place or not |
| BigIntegers.BigInteger.CompareTo | benchmarks/crypto.js:287-298 | returns what the comparison of signs, lengths and digits comes to |
| Compare.CompareOrders | benchmarks/crypto.js:287-298 | that result has the sign of the difference if and only if the numbers are not both negative with different lengths |
| Compare.CompareWrong | benchmarks/crypto.js:287-298 | for two negative numbers of different lengths it comes out the wrong way round |
| Compare.NormalUnique | benchmarks/crypto.js:243-247 | every number has one clamped representation |
| Multiply.Negate | benchmarks/crypto.js:281-281 | a new clamped number, the negated value |
| Multiply.Abs | benchmarks/crypto.js:284-284 | the absolute value, which is the number itself when it is not negative |
| Multiply.MultiplyTo | benchmarks/crypto.js:415-428 | r is the product, for any signs |
| Multiply.SquareTo | benchmarks/crypto.js:431-448 | r is the square, though each row is doubled in one digit and its overflow is mended once |
| Multiply.SquareCarry | benchmarks/crypto.js:437-446 | the carry out of a row of the squaring is below 2^29, so mending it once is enough |
| Division.GuessBounds | benchmarks/crypto.js:486-491 | with the estimate rounded down exactly, the guessed quotient digit is right or one too big |
| Division.DivRemTo | benchmarks/crypto.js:452-502 | quotient and remainder rounded toward zero, for any signs and any aliasing of q and r with the operands; nothing for divisor zero; with q the dividend itself and a shorter dividend the remainder is 0 instead |
| Division.OneIntoItself | benchmarks/crypto.js:458-462 | that last case at an input: 1 divided by 2^28 into itself leaves remainder 0, not 1 |
| Division.TruncSpec | benchmarks/crypto.js:450-451 | those two numbers are the only ones with x = q m + r, |r| < |m| and r zero or of the sign of x |
| Montgomery.Modulo | benchmarks/crypto.js:505-510 | the remainder in [0, a), for any sign of the number |
| Montgomery.InvDigit | benchmarks/crypto.js:539-553 | for an odd number, minus the inverse of its lowest digit modulo 2^28; 0 for an even one and for one of no digits |
| Montgomery.Newton | benchmarks/crypto.js:544-552 | one step of Newton's iteration squares the modulus of the inverse |
| Montgomery.MontFactor | benchmarks/crypto.js:587-591 | the product modulo 2^28 from 15-bit halves is exact |
| Montgomery.MontReduce | benchmarks/crypto.js:583-600 | for 0 <= x < m R with R = 2^(28 t): the y in [0, m) with y R = x modulo m, carries kept inside the number |
| Montgomery.MontConvert | benchmarks/crypto.js:566-572 | x R modulo m in [0, m), also for x = 0 and x < 0 |
| Barretts.MultiplyLowerTo | benchmarks/crypto.js:1028-1038 | the product modulo 2^(28 n) |
| Barretts.MultiplyUpperTo | benchmarks/crypto.js:1043-1054 | the upper part of the product, at most n too small for the carries dropped |
| Barretts.DAddOffset | benchmarks/crypto.js:1001-1010 | adds n 2^(28 w); a clamped number stays clamped if and only if n > 0 or the number reached above word w |
| Barretts.ZeroPlusZero | benchmarks/crypto.js:1001-1010 | adding 0 to 0 leaves a zero that is not clamped |
| Barretts.EstimateBounds | benchmarks/crypto.js:1075-1083 | the quotient estimate is never too big, and too small by less than t + 3 |
| Barretts.BarrettReduce | benchmarks/crypto.js:1075-1083 | x modulo m for 0 <= x of at most twice the length of m, in place; both loops at the end stop |
| Barretts.NewBarrett | benchmarks/crypto.js:1057-1063 | the tables are right for any modulus of at most 2^28 - 3 digits |
| Barretts.BarrettConvert | benchmarks/crypto.js:1066-1070 | the residue in [0, m), for any sign and length |
| Reductions.Convert | benchmarks/crypto.js:514-572 | through whichever reducer: a representative of the residue, in its form |
| Reductions.Revert | benchmarks/crypto.js:518-580 | back from that form: the residue in [0, m) |
| Reductions.MulTo | benchmarks/crypto.js:520-606 | the product of representatives represents the product of the numbers |
| Reductions.SqrTo | benchmarks/crypto.js:521-603 | the square of a representative represents the square |
| Exponents.Exp | benchmarks/crypto.js:621-631 | x^e modulo m through any reducer for 1 <= e < 2^32, and 1 for other e |
| Exponents.ModPowInt | benchmarks/crypto.js:634-638 | the same with the reducer that `modPowInt` picks |
| Windows.WindowRead | benchmarks/crypto.js:1129-1151 | reading a window of n bits turns the exponent read so far into 2^n times it plus the window |
| Windows.WindowAcross | benchmarks/crypto.js:1130-1134 | a window across two digits is the low bits of one and the high bits of the next |
| SlidingWindow.BitLength | benchmarks/crypto.js:312-316 | the number of bits of a number that is not negative |
| SlidingWindow.ModPow | benchmarks/crypto.js:1098-1155 | x^e modulo m in [0, m) for every e > 0, through the Classic, Barrett or Montgomery reducer and any window width, windows across digits included; 1 for e = 0 |
| SlidingWindow.ZeroPowerModuloOne | benchmarks/crypto.js:1100-1101 | at an input: 1^0 modulo 1 comes out 1, not 0 |
| Gcd.GreatestCommonDivisor | benchmarks/crypto.js:1158-1183 | the greatest common divisor of any two numbers, signs and zeros included: its divisors are their common divisors |
| Gcd.GcdGreatest | benchmarks/crypto.js:1158-1183 | so a positive one is the greatest of them |
| ModInverse.Inverse | benchmarks/crypto.js:1197-1236 | when both numbers are positive, or both even, or the modulus is 0: an inverse modulo m when the two have no common divisor, else 0; the loop stops for odd and even m; the inverse lies in [0, m) if and only if the coefficient that the loop comes to, a function of the two numbers, lies in [-2m, 2m) |
| ModInverse.NegativeInverse | benchmarks/crypto.js:1232-1235 | at an input: the inverse of 1748 modulo 3659 comes out as -651 |
| ModInverse.OppositeSignsGoOn | benchmarks/crypto.js:1204-1229 | for numbers of opposite signs the loop never ends: u is not 0 after any number of turns |
| ModInverse.HalvingEnds | benchmarks/crypto.js:1205-1221 | a loop that halves while even ends if and only if the number is not 0, so for 0 with an odd modulus it does not |
| ModInverse.NoInverse | benchmarks/crypto.js:1199-1199 | two even numbers have a common divisor, so the early 0 is right |
| Primality.ModInt | benchmarks/crypto.js:1186-1194 | the residue in [0, n) for 0 < n < 2^26, for any sign; 0 for other n |
| Primality.GetLowestSetBit | benchmarks/crypto.js:876-894 | the place of the lowest set bit, and -1 exactly for 0 |
| Primality.TrialDivision | benchmarks/crypto.js:1252-1257 | no prime of the table divides the number, found through products of several primes |
| LowPrimes.TableIsPrimes | benchmarks/crypto.js:1238-1238 | the table holds exactly the primes up to 509 |
| LowPrimes.TableRises | benchmarks/crypto.js:1238-1238 | and those 97 in rising order, 2 the first |
| NumberTheory.Fermat | benchmarks/crypto.js:1262-1284 | a^(p-1) = 1 modulo a prime p that does not divide a |
| NumberTheory.RootsOfOne | benchmarks/crypto.js:1262-1284 | modulo a prime only 1 and -1 square to 1 |
| Primality.PrimePasses | benchmarks/crypto.js:1262-1284 | a prime passes a round with every base that it does not divide |
| Primality.PassesFermat | benchmarks/crypto.js:1262-1284 | and a number that passes with base a has a^(n-1) = 1 modulo n |
| Primality.MillerRabin | benchmarks/crypto.js:1262-1284 | accepts exactly the odd numbers above 1 that pass a round with each of the first ceil(t/2) primes of the table; for each of those bases a the number n accepted has a^(n-1) = 1 modulo n |
| Primality.IsProbablePrime | benchmarks/crypto.js:1242-1259 | never rejects a prime; exact up to 509; above that accepts exactly what no table prime divides and what passes those rounds, so that a^(n-1) = 1 modulo n for each of their bases a |
| Primality.CompositeRejected | benchmarks/crypto.js:1242-1284 | at an input: 272483 = 521 * 523, which no prime of the table divides, is rejected for t = 10 |
| Rsa.RSAKey.DoPublic | benchmarks/crypto.js:1521-1523 | x^e modulo n |
| Rsa.RaiseAbove | benchmarks/crypto.js:1636-1637 | the loop that adds p stops, above xq, in the same class modulo p |
| Rsa.Crt | benchmarks/crypto.js:1628-1640 | numbers that agree modulo two primes agree modulo their product |
| Rsa.RSAKey.DoPrivate | benchmarks/crypto.js:1628-1640 | x^d modulo n in [0, n), the same through the Chinese remainder and directly, as section 5.1.2 of RFC 8017 has it |
| Rsa.RoundTrip | benchmarks/crypto.js:1521-1640 | for a valid key the public and the private operation undo each other, in both orders, on every number below n |
| EarleyTables.Nonterminals | benchmarks/earley-boyer.js:3851-3878 | every name of the grammar once, the head of the first definition first |
| EarleyTables.AddRule | benchmarks/earley-boyer.js:3934-3957 | what compiling one rule changes in each table, and that it changes nothing else |
| EarleyTables.MakeTables | benchmarks/earley-boyer.js:3813-3963 | the tables hold the whole grammar and nothing else, each alternative under its name; and they begin an alternative twice if and only if the grammar gives it twice under one number |
| EarleyStates.MergedOk | benchmarks/earley-boyer.js:4061-4063 | joining the waiting list to the settled one, through the threaded cells, appends it |
| EarleyStates.AdjoinedOk | benchmarks/earley-boyer.js:4064-4067 | a position that is absent comes to the end of the waiting list, and to no other |
| EarleyStates.State.Get | benchmarks/earley-boyer.js:4056-4060 | a configuration set is there afterwards, and no item changed |
| EarleyStates.State.Adjoin | benchmarks/earley-boyer.js:4064-4067 | one item more, in the waiting list of its configuration, which is on the work stack |
| EarleyStates.State.Pop | benchmarks/earley-boyer.js:4141-4148 | the top of the work stack: its waiting list is settled, in order, and no item changed |
| EarleyStates.State.Union | benchmarks/earley-boyer.js:4099-4114 | the settled positions of another set come as items, and nothing else changes |
| EarleyParser.KindsOf | benchmarks/earley-boyer.js:4446-4461 | the nonterminals that a token stands for and the grammar uses |
| EarleyParser.Forw | benchmarks/earley-boyer.js:4115-4224 | the state is closed under prediction, completion and empty rules, every item in it is true, and the loop stops |
| EarleyParser.FillChart | benchmarks/earley-boyer.js:4470-4489 | a closed chart of true items for the whole input |
| EarleyGrammar.ChartDecides | benchmarks/earley-boyer.js:4115-4224 | a closed chart of true items has a goal item over the whole input if and only if the grammar derives it, empty rules included |
| EarleyFilter.FilterState | benchmarks/earley-boyer.js:4511-4582 | every way to split an item that is kept is kept too, and nothing is left waiting |
| EarleyFilter.Filter | benchmarks/earley-boyer.js:4490-4585 | the second chart: the least that has the goal's enders and every split of an item it holds |
| EarleyFilter.IsParsed | benchmarks/earley-boyer.js:4225-4253 | for i <= j whether an ender of the nonterminal is in the second chart over i..j; for i > j, past the end of a vector, whether one is there that ends at j, begun anywhere; an error for a state that does not exist; false for a name that the grammar does not use |
| EarleyFilter.FilterDecides | benchmarks/earley-boyer.js:4490-4585 | the second chart gives the same verdict on the goal as the grammar |
| EarleyFilter.SpansSound | benchmarks/earley-boyer.js:4225-4253 | whatever nonterminal and span the second chart reports is derived |
| EarleyTables.Recognize | benchmarks/earley-boyer.js:3813-4598 | for every grammar and token list, the answer for the goal over the whole input is yes if and only if the grammar derives it |
| EarleyTrees.CountAgrees | benchmarks/earley-boyer.js:4254-4402 | on every chart and at every depth the count is the number of trees enumerated, though their base cases differ |
| EarleyTrees.CountOfAgrees | benchmarks/earley-boyer.js:4324-4435 | the same for a nonterminal with its enders |
| EarleyTrees.TreesParse | benchmarks/earley-boyer.js:4254-4323 | every tree enumerated for an item of a chart of true items is a tree of that item |
| EarleyTrees.TreesOfParse | benchmarks/earley-boyer.js:4324-4356 | every tree enumerated for a nonterminal and a span is a parse of it |
| EarleyAnswers.SnapshotShows | benchmarks/earley-boyer.js:4585-4608 | the second chart, read through its links, lists each kept position once |
| EarleyParses.DerivedHasParse | benchmarks/earley-boyer.js:4254-4323 | whatever is derived has a parse tree |
| EarleyParses.ParseDerives | benchmarks/earley-boyer.js:4254-4323 | whatever a tree parses is derived |
| EarleyParses.TreeTells | benchmarks/earley-boyer.js:4254-4323 | a tree tells the configuration and the span that it is of, unless its alternative is given twice |
| EarleyEnumeration.TreeListed | benchmarks/earley-boyer.js:4254-4323 | every tree of a kept item is enumerated for it |
| EarleyEnumeration.ListedOnce | benchmarks/earley-boyer.js:4254-4323 | and none of them twice, if none uses an alternative that is given twice |
| EarleyEnumeration.MoreFuel | benchmarks/earley-boyer.js:4254-4323 | a larger cut-off depth gives the same answer |
| EarleyEnumeration.CutOffIsTall | benchmarks/earley-boyer.js:4254-4323 | an enumeration that is cut off has a tree at least as large as the depth |
| EarleyEnumeration.ListsParses | benchmarks/earley-boyer.js:4324-4356 | what is enumerated for a nonterminal and a span whose enders are kept is exactly its parses |
| EarleyRepeats.RepeatTwin | benchmarks/earley-boyer.js:4254-4323 | but some tree is listed twice for an item, if a tree of it uses such an alternative below its root |
| EarleyRepeats.OnceExactly | benchmarks/earley-boyer.js:4254-4356 | each parse is enumerated once if and only if none of them uses, at any depth, an alternative that the grammar gives twice under one number |
| EarleyEnumeration.EndsExactly | benchmarks/earley-boyer.js:4254-4356 | the enumeration ends at some depth if and only if the parses are of bounded size |
| EarleyRepeats.CountsParses | benchmarks/earley-boyer.js:4403-4435 | the count is at least the number of parses, and that number under the same condition |
| EarleyUses.KeptExactly | benchmarks/earley-boyer.js:4490-4585 | an item is in the second chart if and only if some parse of the whole input uses it |
| EarleyUses.SpansExactly | benchmarks/earley-boyer.js:4225-4253 | the second chart has a nonterminal over a span if and only if some parse of the whole input has a parse of it there |
| EarleyAnswers.ParseParsed | benchmarks/earley-boyer.js:4591-4598 | from grammar and tokens, for every nonterminal and span inside the input: yes if and only if some parse of the whole input has a parse of it there; for i > j, if and only if one ends at j; an error past the input |
| EarleyAnswers.SpanForward | benchmarks/earley-boyer.js:4225-4253 | no parse has a span that ends before it begins, so for i > j the answer yes is wrong |
| EarleyAnswers.BackwardSpan | benchmarks/earley-boyer.js:4225-4253 | at an input: with the rule `s -> a` and one token a the nonterminal a is answered to span 2..1 |
| EarleyAnswers.ParseTrees | benchmarks/earley-boyer.js:4599-4608 | from grammar and tokens to the trees of any nonterminal and span that a parse of the whole input uses: exactly its parses, each once if and only if none repeats an alternative, all of them found when none is as large as the depth; none for other spans |
| EarleyAnswers.ParseNbTrees | benchmarks/earley-boyer.js:4609-4617 | from grammar and tokens to the number of those parses, in the same way |
| EarleyAnswers.InnerTwice | benchmarks/earley-boyer.js:3939-3957 | at an input: with `s -> x` and `x -> a` given twice, the one parse of a uses it below the root |
| EarleyAnswers.UnusedTwice | benchmarks/earley-boyer.js:3939-3957 | and at another: an alternative that is given twice and not used does no harm |
| Boyer.EqualTerms | benchmarks/earley-boyer.js:3686-3719 | `is_term_equal` decides equality |
| Boyer.MemberIn | benchmarks/earley-boyer.js:3720-3732 | `is_term_member` decides membership |
| Boyer.CoveredSame | benchmarks/earley-boyer.js:3555-3563 | more bindings do not change a term whose variables were bound |
| Boyer.Prover.OneWayUnify1 | benchmarks/earley-boyer.js:3635-3681 | a match makes the pattern the term and keeps earlier bindings; it succeeds whenever any substitution would, and is the least of them |
| Boyer.Prover.Rewrite | benchmarks/earley-boyer.js:3604-3634 | what it returns equals the term by instances of the lemmas, and no lemma matches anywhere in it; the calls it takes are the subterms of the term and of every instance put in a term's place, each instance being that of the first lemma that matches |
| Boyer.NormalStays | benchmarks/earley-boyer.js:3604-3634 | a term in which no lemma matches is its own result, after as many calls as it has subterms |
| Boyer.AtLeastNodes | benchmarks/earley-boyer.js:3604-3634 | and no term takes fewer |
| Boyer.RewritesFirst | benchmarks/earley-boyer.js:3604-3634 | on rewritten arguments the result is that of the instance of the first lemma that matches, of those filed under the head, and the count is what the two take together |
| Boyer.RewritesInside | benchmarks/earley-boyer.js:3604-3634 | rewriting begins with the arguments, each in its place, and goes on with their results, which are not rewritten a second time: the result is that of the term on those, and the count falls apart in the same way |
| Boyer.NormalEverywhere | benchmarks/earley-boyer.js:3604-3634 | when every lemma is filed under the head of its left side, the search under the head misses none: a term is in that form if and only if no lemma of the whole set matches any subterm |
| Boyer.MoreDepth | benchmarks/earley-boyer.js:3604-3634 | a larger cut-off depth changes neither result nor count |
| Boyer.NeverEnds | benchmarks/earley-boyer.js:3604-3634 | for a lemma with equal sides no depth is enough |
| Tautology.AddLemmas | benchmarks/earley-boyer.js:3747-3762 | every head symbol has its equations, the last first, before the lemmas that it had; left sides stay filed under their heads; the first term that is no equation stops it |
| Tautology.CollectedAre | benchmarks/earley-boyer.js:3747-3762 | so the lemmas afterwards are those from before and, for each equation taken, that of its first side to its second |
| Tautology.TautologySound | benchmarks/earley-boyer.js:3564-3603 | a yes is right in every interpretation under the assumptions made |
| Tautology.TautologyExact | benchmarks/earley-boyer.js:3564-3603 | on terms whose tests contain no if, the answer is yes if and only if the term is true under every valuation of its other terms |
| Tautology.Refuted | benchmarks/earley-boyer.js:3564-3603 | a no on such terms comes with a valuation that makes it false |
| Tautology.Prove | benchmarks/earley-boyer.js:3767-3799 | rewriting and deciding: the answer is the decision on a normal form that equals the term by the lemmas, with the count of the rewriting |
| Tautology.TestBoyer | benchmarks/earley-boyer.js:3774-3797 | for the term with n disjunctions put on it: the number of calls of that rewriting if the normal form is a tautology, else no |
| Tautology.AndProved | benchmarks/earley-boyer.js:3747-3799 | at an input: from the lemma that expands `and`, the term (and (t) (t)) is proved |
| Tautology.ProofSound | benchmarks/earley-boyer.js:3767-3799 | in every model of the lemmas a term that is proved is not false |
| Tautology.InstanceSound | benchmarks/earley-boyer.js:3767-3799 | nor is any instance of it |
| RichardsPackets.Packet.AddTo | benchmarks/richards.js:527-535 | the packet is the last of the list, its stale link gone, and the others stay in order |
| Richards.TaskControlBlock.CheckPriorityAdd | benchmarks/richards.js:345-354 | the packet is the last of the queue; on an empty queue the task becomes runnable and the higher of the two priorities is next |
| Richards.TaskControlBlock.Run | benchmarks/richards.js:324-338 | on the objects, one turn of the task is one step of the machine |
| Richards.IdleTask.Run | benchmarks/richards.js:374-384 | the idle task's part of that step; bit k of the register becomes its old bit k + 1, flipped exactly when the old bit 0 was set and k is 3, 12, 14 or 15 |
| Richards.DeviceTask.Run | benchmarks/richards.js:401-411 | the device's part, its slot holding one packet |
| Richards.WorkerTask.Run | benchmarks/richards.js:430-448 | the worker's part |
| Richards.HandlerTask.Run | benchmarks/richards.js:465-491 | the handler's part, with its two lists |
| Richards.Scheduler.SuspendCurrent | benchmarks/richards.js:230-233 | the current task is suspended and looked at again |
| Richards.Scheduler.HoldCurrent | benchmarks/richards.js:220-224 | the current task is held, the count goes up, the next of the list follows |
| Richards.Scheduler.Release | benchmarks/richards.js:204-213 | a task is released, and next if its priority is higher |
| Richards.Scheduler.QueuePacket | benchmarks/richards.js:241-248 | a packet taken off its place goes to the end of its task's queue, the count goes up |
| Richards.Scheduler.Schedule | benchmarks/richards.js:188-198 | the loop on the objects runs the machine to its end and stops; its counts go up by the turns in which a task was held and in which a queue grew |
| Richards.RunRichards | benchmarks/richards.js:47-78 | for any idle count from 1 on and any numbers of packets: the set-up is in order, its states, queues and register the benchmark's and no letters on their way; the loop leaves the machine's final state, and as counts the numbers of turns in which a task was held and in which a queue grew |
| RichardsModel.StepGood | benchmarks/richards.js:188-491 | every turn keeps all the invariants, and lowers a measure: rounds of the idle task, then work, then the place in the list |
| RichardsModel.ScheduleEnds | benchmarks/richards.js:188-198 | so the loop ends from every state in order |
| RichardsModel.FinalIdle | benchmarks/richards.js:188-198 | at the end no task is ready, and the idle task is held, its rounds used up |
| RichardsModel.HighestPriority | benchmarks/richards.js:188-198 | in every state of every run, a ready task is not above the one looked at |
| RichardsModel.PacketsConserved | benchmarks/richards.js:241-535 | in every state of every run each packet is in exactly one place, once; none is lost or made |
| RichardsRuns.RegisterNotZero | benchmarks/richards.js:374-384 | in every state of every run the idle task's register is not 0 |
| RichardsRuns.DeviceBReleased | benchmarks/richards.js:374-384 | so of any 16 turns in which the idle task releases a device, one releases device B |
| RichardsRuns.LettersConserved | benchmarks/richards.js:401-491 | in every state of every run: what a handler has sent to its device, then what is on its way there, is what the worker had on the way to it and wrote for it, in order |
| RichardsRuns.LettersInOrder | benchmarks/richards.js:430-491 | so from the start on a device gets the letters of the alphabet, four to a packet and every other packet, up to those on their way |
| RichardsRuns.TurnShows | benchmarks/richards.js:188-491 | a turn holds a task if and only if the task at hand holds itself, and a queue grows if and only if it has a packet to send |
| RichardsDispatch.DispatchesHighest | benchmarks/richards.js:188-338 | the same priority rule for any tasks by falling priority and any calls of the scheduler that they make |
| RichardsDispatch.StepIsTurn | benchmarks/richards.js:188-491 | a turn of the six-task machine, which the objects run, is a turn of this scheduler with one call, for a task that exists; which call it is follows from what the task has |
| RichardsDispatch.RunIsDispatch | benchmarks/richards.js:188-491 | so every run of the machine is a run of this scheduler |
| RichardsDispatch.HeldStays | benchmarks/richards.js:188-338 | a held task is passed over until it is released, whatever packets come |
| RichardsDispatch.ReleasedRuns | benchmarks/richards.js:204-213 | a task released is not held, and is the one run next if nothing else is against it and its priority is higher; no other task changes |
| RichardsDispatch.QueuedRuns | benchmarks/richards.js:241-354 | a packet makes its task runnable, and the next one run if it only waited for it and its priority is higher |
| RichardsDispatch.TurnExactly | benchmarks/richards.js:188-338 | a turn leaves no ready task above the one looked at if and only if its call is for a task that exists; a call for another ends the loop, with the caller ready |
| RichardsDispatch.DispatchesExactly | benchmarks/richards.js:188-338 | over any run: the order is kept if and only if every call made was for a task that exists |
| RichardsDispatch.MissingTaskStops | benchmarks/richards.js:204-248 | at an input: one task that calls for a task that does not exist |
| Splay.SplayNodes | benchmarks/splay.js:293-352 | `splay_` on the nodes: the same nodes in the same order, at the root the key or a neighbour of it; the tree and the number of turns are those of a function of the tree and the key |
| Splay.NearFinds | benchmarks/splay.js:293-352 | so the key is in the tree if and only if it is at the root |
| SplayCost.TurnsOfWay | benchmarks/splay.js:293-352 | a turn passes one node or two of the way down to the key |
| Splay.SplayTree.Splay | benchmarks/splay.js:293-352 | the same on the tree object, nothing for an empty tree |
| Splay.SplayTree.Insert | benchmarks/splay.js:160-182 | as a sorted map: the entry added for a new key, nothing changed for one that is there, the key at the root |
| Splay.SplayTree.Remove | benchmarks/splay.js:193-214 | as a sorted map: the entry gone and its node returned, or the error for a key that is not there |
| Splay.SplayTree.Find | benchmarks/splay.js:224-230 | a node of the key with its value if and only if the key is there; the map is unchanged |
| Splay.SplayTree.FindMax | benchmarks/splay.js:236-245 | the node of the greatest key, of the tree or of the subtree given |
| Splay.SplayTree.FindGreatestLessThan | benchmarks/splay.js:252-268 | the node of the greatest key below the one given, none exactly when there is no such key |
| Splay.SplayTree.ExportKeys | benchmarks/splay.js:274-280 | all keys, each once, in rising order |
| Splay.Traverse | benchmarks/splay.js:386-394 | the walk visits the keys of a subtree in order |
| SplayCost.SplayCosts | benchmarks/splay.js:293-352 | two to the number of turns of a splay, times the weight of the tree after, is at most 4 n^3 times the weight before, the weight being the product of all subtree sizes |
| SplayCost.WeightAtMost | benchmarks/splay.js:123-131 | no tree weighs more than its size to the power of its size |
| Splay.Perform | benchmarks/splay.js:123-131 | insertions, removals and look-ups in any order: the entries are those of a sorted map after them, each tree is what its operation's splays make of the one before, and the turns are those of all the splays: logarithmic amortized time, as k operations on a tree of n nodes take turns t with 2^t <= (16 m^6)^k n^n, where m = n + k + 1 |
| Splay.InsertNewNode | benchmarks/splay.js:71-80 | the first of the generated keys that was not there is inserted, with its payload |
| Splay.ReplaceNode | benchmarks/splay.js:112-120 | one step of the benchmark: one entry comes, under the first key that was not there; the next lower one goes, or the new one itself; the size is the same |
| DeltaBlue.OrderedCollection.RemoveFirst | benchmarks/deltablue.js:72-74 | takes the last element, not the first |
| DeltaBlue.LastComesFirst | benchmarks/deltablue.js:72-74 | at an input: of two elements the second comes out first |
| DeltaBlue.Constraint.Execute | benchmarks/deltablue.js:523-525 | an equality hands its input's value to its output; the other kinds do nothing |
| DeltaBlue.Planner.AddConstraintsConsumingTo | benchmarks/deltablue.js:738-746 | the satisfied constraints on a variable other than the one that determines it, in order |
| DeltaBlue.Planner.MakePlan | benchmarks/deltablue.js:648-661 | stops; plans no variable twice, everything in an order in which inputs are ready, all that is fed and nothing else |
| DeltaBlue.Planner.ExtractPlanFromConstraints | benchmarks/deltablue.js:667-676 | such a plan from exactly the satisfied edit constraints among those given |
| DeltaBlue.Plan.Execute | benchmarks/deltablue.js:773-778 | on the objects, the values that running the constraints one by one gives |
| DeltaBlue.PlanIsDownstream | benchmarks/deltablue.js:648-676 | a constraint is planned if and only if values flow to it from the sources |
| DeltaBlue.PlanRestores | benchmarks/deltablue.js:648-778 | whatever the sources' variables are set to, execution makes every satisfied equality true again, keeps those values, and changes nothing that is not downstream |
| DeltaBlue.Change | benchmarks/deltablue.js:862-871 | on the objects: plan, then ten times set and execute; every satisfied equality is true and the variable has the new value |
| DeltaBlue.ChainEnds | benchmarks/deltablue.js:797-823 | along a chain of satisfied equalities the first and the last variable are equal |
| DeltaBlue.ChainTest | benchmarks/deltablue.js:797-823 | the whole test on objects, for a chain of any n equalities on n + 1 variables: in each of the hundred turns the value put in the first variable comes to all of them, so the alarm never goes off |

## Findings

Where the code and what it is for, or what its comments say, part ways.  The model follows the code.

- `compareTo` orders two negative numbers of different lengths the wrong way round (`Compare.CompareOrders`,
  `Compare.CompareWrong`; benchmarks/crypto.js:291-297).
- `fromInt` below -1 reads a variable that nothing declares (`BigIntegers.BigInteger.TryFromInt`;
  benchmarks/crypto.js:195).
- The header of the `am` routines allows a carry below three times the base.  For `am1` the sum can then pass 2^53; it
  cannot if and only if the carry is at most twice the base, and a sum that does pass it is exact if and only if it is
  even (`AmVariants.Am1Fits`, `AmVariants.Am1`, `AmVariants.Am1Overflows`; benchmarks/crypto.js:70-83).
- `divRemTo` into the dividend itself loses the remainder of a dividend that is shorter than the divisor
  (`Division.DivRemTo`, `Division.OneIntoItself`; benchmarks/crypto.js:458-462).
- `dAddOffset(0, w)` on a number that does not reach above word w leaves it unclamped (`Barretts.DAddOffset`,
  `Barretts.ZeroPlusZero`; benchmarks/crypto.js:1001-1010).
- `dlShiftTo` by a negative number in place repeats digits: it shifts if and only if they are repeated already; by more
  digits than there are it leaves a negative length (`BigIntegers.BigInteger.DLShiftTo`, `BigIntegers.RepeatedDigit`;
  benchmarks/crypto.js:319-327).
- `modPow` with exponent 0 gives 1 even for modulus 1 (`SlidingWindow.ModPow`, `SlidingWindow.ZeroPowerModuloOne`;
  benchmarks/crypto.js:1100-1101).
- `modInverse` adds the modulus twice at most, which need not be enough: the result can be negative
  (`ModInverse.Inverse`, `ModInverse.NegativeInverse`; benchmarks/crypto.js:1232-1235).
- `modInverse` does not end for numbers of opposite signs, nor for 0 with an odd modulus
  (`ModInverse.OppositeSignsGoOn`, `ModInverse.HalvingEnds`; benchmarks/crypto.js:1204-1229).
- A parse is enumerated and counted more than once if and only if some parse that is asked for uses, at any depth, an
  alternative that the grammar gives twice under one number (`EarleyRepeats.OnceExactly`, `EarleyAnswers.ParseTrees`,
  `EarleyAnswers.InnerTwice`, `EarleyAnswers.UnusedTwice`; benchmarks/earley-boyer.js:3939).
- `parse->parsed?` for a span that ends before it begins reads past the end of a vector and answers whether the
  nonterminal ends there at all: right if and only if it does not (`EarleyFilter.IsParsed`, `EarleyAnswers.ParseParsed`,
  `EarleyAnswers.SpanForward`, `EarleyAnswers.BackwardSpan`; benchmarks/earley-boyer.js:4241).
- A call of the Richards scheduler for a task that does not exist ends the loop with the caller ready: the highest ready
  task is always the next one looked at if and only if every call is for a task that exists
  (`RichardsDispatch.TurnExactly`, `RichardsDispatch.DispatchesExactly`, `RichardsDispatch.MissingTaskStops`;
  benchmarks/richards.js:204-248).
- `removeFirst` of DeltaBlue's collection takes the last element (`DeltaBlue.OrderedCollection.RemoveFirst`,
  `DeltaBlue.LastComesFirst`; benchmarks/deltablue.js:72-74).

## Left out

- Division.GuessBounds: the estimate is taken in exact arithmetic and rounded down; the rounding of IEEE doubles is not modelled.
- Division.DivRemTo: a divisor that is not clamped, and a dividend that is not unless it is a zero with digits as a digit shift leaves it.
- ModInverse.Inverse: two negative numbers that are not both even.
- SlidingWindow.ModPow: a negative exponent, and a modulus that is not positive. For an even modulus, one of more than 2^28 - 3 digits.
- Rsa.RSAKey.DoPrivate: key generation, padding and the text interface; keys are of two different odd primes, with an inverse coefficient that fits.
- EarleyTrees.CountAgrees: enumeration and count are functions with a cut-off depth, as they do not end on a cyclic chart; `EarleyEnumeration.EndsExactly` says when they do.
- EarleyAnswers.ParseTrees: spans that end before they begin or after the input, for which the code reads past its vectors.
- EarleyTables.Recognize: the empty grammar, for which the code reads a vector of length 0; and the lexer, whose tokens are the input.
- Boyer.Prover.Rewrite: that rewriting ends, which depends on the lemmas; it is cut off at a depth.
- Tautology.TautologyExact: exactness is for valuations that treat terms other than ifs as independent.
- Tautology.AddLemmas: an equation with only one side is refused; the code takes it and fails when it is used.
- Tautology.Prove: an if with fewer than three arguments, on which the code fails, gives no answer.
- Richards.RunRichards: the two numbers that the counts come to with the benchmark's own parameters; the counts are proved to be those of the machine's turns.
- RichardsDispatch.DispatchesHighest: a task's run makes one call of the scheduler, as each of the benchmark's tasks does.
- Splay.Perform: `findMax` and `findGreatestLessThan`, whose walks to the right are not followed by a splay; the turns counted are those of the loop of `splay_`.
- Splay.SplayTree.Insert: keys are real numbers, so NaN is not one; the dummy node's own key is not read.
- DeltaBlue.Planner.MakePlan: graphs of stay, edit and equality constraints, given as the planner leaves them; incremental adding and removing, walkabout strengths and scale constraints are not modelled. So is the chain of `DeltaBlue.ChainTest`.
- The Earley state vectors are values inside state objects: that two states share a vector is not possible in the model.
- Scheme lists and pairs are sequences, symbols are strings; the shared structure of lists is not modelled.
- Bignums made from strings, bitwise operators, conversion to text, ARC4, the seed pool, and the random number generator.
- The driver and timing code, the floating-point benchmarks, the regular expression benchmark, and the V8 headers and glue.
