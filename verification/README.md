# dcrvanity: the vanity-address search

dcrvanity generates Decred key pairs until the address of one matches a user pattern. The
function `searchKeyPair` in `main.go` does the work:

- It compiles the secondary pattern (reported, does not end the search) and the primary pattern
  (ends the search). Each pattern is glued behind the anchor `^Ds`.
- It then loops without bound. On each iteration it generates a key and its address, prints a
  progress count every 10000 iterations and tests the address against the patterns.
- Under the *inclusive* policy the primary pattern is tried only on an address the secondary
  pattern matched. Under the *independent* policy the two are tried separately.
- A generator error, or a pattern that does not compile, ends the search with that error.

`main` picks the network from the `-testnet`/`-simnet` flags and always runs the search with the
inclusive policy.

The model is written in Dafny, in seven modules:

- `Matching` (matching.dfy): the anchored expression, the engine abstraction, and the decision
  taken for one candidate (`Judge`).
- `Vanity` (search.dfy): the pattern set-up, the loop as a method with invariants (`RunLoop`,
  `SearchKeyPair`), and its specification as a recursive function (`Scan`, `Search`). It also
  holds lemmas that describe the loop by the first iteration at which it leaves.
- `SearchProperties` (search_properties.dfy): what `searchKeyPair` promises, stated on `Search` in
  terms of the user's patterns, the engine and the generator.
- `Network` (network.dfy) and `Program` (program.dfy): the network choice and the part of `main`
  that decides what runs.
- `Intended` (intended.dfy): the set-up as its own messages say it should behave (see Findings).
- `Scenarios` (scenarios.dfy): concrete runs with a stand-in engine that knows only literal
  prefixes.

The regular-expression engine is a parameter, `Engine`. It maps an expression either to a match
test `Address -> bool` or to a compile error. The key and address generator is a script: a finite
sequence of what successive calls return (`Draw`: key generation failed, address construction
failed, or a key with its address). The source loop never ends unless a candidate wins or the
generator fails. In the model it ends with `Exhausted` when the script runs out, which stands for
"the loop would go on". Printed output is kept only as the indices of iterations that printed a
secondary match or a progress count, and the number of generator calls is counted.

Calling `String()` on a nil `*regexp.Regexp` is a nil-pointer panic in Go. The model records it
as the outcome `NilDeref(line)`.

Three facts about the code shape the model:

- It runs one sequential loop, with no workers, no cancellation and no shared progress counter.
- Patterns are always anchored at `Ds`, whatever network is chosen (`Matching.AddressPrefix`).
- An empty pattern is not a pattern that never matches: the code panics at line 86 or 97 (see
  Findings).

## Model

| member | source | states |
|---|---|---|
| `Matching.Anchor` | main.go:78 | The expression compiled for a user pattern is `^`, then `Ds`, then the pattern unchanged (the same at line 90). |
| `Matching.Judge` | main.go:125-175 | A candidate is reported exactly when the secondary pattern is present and matches, under both policies. Inclusive stops exactly when both match. Independent stops exactly when the primary matches. A stop always needs a primary match. |
| `Matching.InclusiveStopIsReported` | main.go:126-142 | Under inclusive, the address that ends the search has been printed as a secondary match first. |
| `Matching.PoliciesDifferExactly` | main.go:123-159 | The two policies decide differently on an address exactly when the primary matches and the secondary does not. The report decision never differs. |
| `Vanity.Prepare` | main.go:76-97 | The loop runs exactly when both patterns are non-empty and both anchored expressions compile. Its matchers are the engine's compilation of `^Ds`+pattern and carry that expression. A halted set-up never yields a key and never loops. |
| `Vanity.Scan` | main.go:102-176 | The loop from an iteration on: it never calls the generator more often than the script allows, a key it returns is at its last call, and running out means every entry was drawn. |
| `Vanity.Search` | main.go:72-183 | `searchKeyPair` as a function, the specification of `SearchKeyPair`. Its own contract only bounds the generator calls by the script; what it promises is stated by the `SearchProperties` lemmas. |
| `Vanity.SearchKeyPair` | main.go:72-183 | The method (set-up, then loop) yields exactly the outcome, reports, progress ticks and generator-call count of `Search`. |
| `Vanity.RunLoop` | main.go:102-176 | The `for` loop returns at the first generator error or winning candidate, accumulating reports and ticks. Its result equals `Scan` from iteration 0. |
| `Vanity.ScanOutcomeAtFirstHalt` | main.go:102-117 | Given the first iteration `k` at which the loop leaves, the search ends as draw `k` says: a key-generation or address error is returned, and a winning candidate's key and address are returned. With no such iteration it runs on. The generator was called once per iteration up to `k`. |
| `Vanity.ScanReportsToFirstHalt` | main.go:126-157 | Up to the first halting iteration, exactly the generated candidates the secondary pattern matches are reported, in increasing order. |
| `Vanity.ScanTicksToFirstHalt` | main.go:119-121 | Up to the first halting iteration, progress is printed exactly on generated candidates whose index is a multiple of 10000, in increasing order. |
| `Vanity.ScanUpToFirstHalt` | main.go:102-176 | The three statements above together. |
| `Vanity.FoundIsFirstWinner` | main.go:138-173 | A returned key comes from a generated candidate the matchers stop on. Every earlier iteration generated a candidate they let pass. |
| `Vanity.PoliciesAgreeWhenPrimaryImpliesSecondary` | main.go:123-124 | If every generated address the primary matches is also matched by the secondary, the inclusive and independent loops run identically. |
| `Vanity.PoliciesDivergeOnPrimaryOnly` | main.go:145-159 | A candidate that only the primary matches ends the independent search. The inclusive search passes it over. |
| `SearchProperties.SecondaryCompileErrorAborts` | main.go:77-81 | A non-empty secondary pattern that does not compile returns the engine's error. No candidate is generated, nothing is printed, and the primary pattern is irrelevant. |
| `SearchProperties.PrimaryCompileErrorAborts` | main.go:89-93 | A non-empty primary pattern that does not compile, after a valid secondary one, returns the engine's error before any candidate is generated. |
| `SearchProperties.EmptySecondaryInclusiveChecksNothing` | main.go:82-85 | An empty secondary pattern under inclusive returns no key, no address and no error. No candidate is examined, and the primary pattern is not even compiled. |
| `SearchProperties.AbsentMatcherPanics` | main.go:86-97 | An empty secondary pattern under independent panics at line 86. An empty primary pattern after a valid secondary panics at line 97. Both happen before any candidate is generated. |
| `SearchProperties.SearchRunsOnlyWithBothPatterns` | main.go:76-102 | The generator is called only when both patterns are given and both anchored expressions compile. |
| `SearchProperties.InclusiveWinner` | main.go:125-143 | Under inclusive, the returned key and address are those of the first generated candidate that both anchored patterns match. Every earlier candidate failed one of them. The winner was reported, and the generator was called once per iteration. |
| `SearchProperties.IndependentWinner` | main.go:145-174 | Under independent, the result is the first generated candidate the anchored primary pattern matches, whatever the secondary says. Every earlier candidate failed the primary. |
| `SearchProperties.ReportsAreSecondaryHits` | main.go:126-157 | Under both policies, the reported candidates are exactly the drawn ones the anchored secondary pattern matches, in order. |
| `SearchProperties.ProgressTicks` | main.go:119-121 | Progress is printed exactly on iterations that produced an address and whose index is a multiple of 10000. |
| `SearchProperties.GeneratorErrorAborts` | main.go:103-117 | A key-generation or address error at iteration `k`, with no earlier winner, ends the search with that error after `k+1` generator calls. |
| `SearchProperties.FailureExplained` | main.go:79-117 | Every failure is either a compile error returned before any generator call, or the error of the last generator call made. |
| `SearchProperties.ExhaustedMeansNoWinnerYet` | main.go:102 | A search still running when the script ends drew every entry, and every entry was a candidate that did not end the loop. |
| `Network.SelectNetwork` | main.go:236-245 | Both flags give the "only one network" error. `-testnet` alone selects testnet, `-simnet` alone selects simnet, and neither keeps mainnet. |
| `Program.RunProgram` | main.go:223-248 | `-h` shows the help and nothing else. Conflicting network flags end the run. Otherwise the search runs with the inclusive policy, pattern1 as primary and pattern2 as secondary, on the chosen network's generator. |
| `Program.MissingSecondPatternChecksNothing` | main.go:248 | Started from `main`, a missing second pattern always ends the search at once with nothing checked, because `main` passes the inclusive policy. |
| `Program.MissingFirstPatternPanics` | main.go:94-97 | Started from `main` with a valid second pattern, a missing first pattern panics before any candidate is generated. |
| `Intended.PrepareIntended` | main.go:76-97 | The corrected set-up never panics. It lets the loop run exactly when the secondary pattern is given or the policy is independent, and every given pattern compiles. A present matcher exists exactly for a non-empty pattern and is the engine's compilation of the anchored pattern. |
| `Intended.SearchIntended` | main.go:72-183 | The search as its own messages say it should run: it never panics, never calls the generator more often than the script allows, and draws a candidate only after every given pattern has compiled. |
| `Intended.NoSecondaryNoReports` | main.go:125-159 | Without a secondary matcher the loop prints no secondary match: the report branches at lines 126 and 147 both test `regexSecondary != nil`. |
| `Intended.IntendedAgreesWhereNoPanic` | main.go:86-97 | Wherever the code as written does not panic, the corrected search behaves identically. |
| `Intended.IntendedNeverQuits` | main.go:86-97 | With no primary pattern, and either a valid secondary one or the independent policy (both patterns empty included), the corrected search never returns a key. It draws every candidate unless the generator fails, and reports exactly the secondary matches, which is nothing when there is no secondary pattern. |
| `Intended.IntendedIgnoresAbsentSecondary` | main.go:86 | With no secondary pattern under independent, the corrected search reports nothing. A returned key is the first generated candidate the anchored primary pattern matches, and a search still running drew only candidates it does not match. |
| `Scenarios.NestedPatternsAgree` | main.go:125-159 | With secondary `B` and primary `BC`, under both policies: `DsBXYZ` is reported and passed over, `DsBCXY` ends the search, and `DsCXYZ` is ignored. |
| `Scenarios.TenthCandidateWins` | main.go:102-173 | Nine non-matching candidates, then `DsABCDEF`, with primary `AB` and secondary `A`. The search returns the tenth candidate after ten generator calls, having reported only it and printed progress only at iteration 0. |

## Left out

- Cryptography: secp256k1 key generation, public-key serialisation, Hash160, address encoding and
  WIF encoding are library calls. They are the generator script; a key is only its scalar, and
  the copy made at lines 178-181 is the same key.
- Regular-expression engine: compilation and matching are the `Engine` parameter. Only the gluing
  of `^Ds` in front of the pattern is modelled. In Go syntax a top-level `|` in the user pattern
  binds the anchor to the first alternative only; this is a property of the engine, not of this
  model.
- The unbounded loop: the generator is a finite script, and running out of it is the outcome
  `Exhausted`.
- Loop counter width: the Go `int` counter is not bounded in the model; it cannot wrap in any
  feasible run.
- Output: all printing is left out except the fact that a secondary report or a progress count is
  printed, and at which iteration. This covers the pattern echo at lines 86 and 97 (only its panic
  is kept), the winner's lines and the final lines of `main`.
- `main` after the search: printing the result, including the nil address dereference at line 256
  that follows the early return at line 84.
- Network and address prefix: the model does not tie an address's leading characters to the
  network. Addresses on testnet and simnet likely begin with other letters than `Ds` (chaincfg is
  not part of this model), in which case a pattern anchored at `Ds` could never match there.
- Flag parsing, help text, the Windows newline choice and `writeNewFile` (never called).
- version.go: a string-formatting wrapper.
- Concurrency: the code has no workers, cancellation or shared counters, so there is nothing to
  model.

## Findings

| source | as written | input that shows it | evidently intended | confidence | as-written member | corrected member |
|---|---|---|---|---|---|---|
| main.go:94-97 | With an empty primary pattern it prints "nil primary pattern. The program will never quit." and then calls `String()` on the nil primary matcher, which panics. Line 86 does the same for an empty secondary pattern under the independent policy. | `-pattern2 A` without `-pattern1` (main uses the inclusive policy) | The search runs on and reports secondary matches without ever returning a key. An absent pattern matches nothing. | high; not executed | `SearchProperties.AbsentMatcherPanics` | `Intended.IntendedNeverQuits`, `Intended.IntendedIgnoresAbsentSecondary` |

`Intended.SearchIntended` is the corrected search. It differs from `Vanity.Search` only where the
code as written panics (`Intended.IntendedAgreesWhereNoPanic`), so every property proved of
`Search` for the other inputs holds of it too.
