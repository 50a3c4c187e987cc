# Symmetry: verified models of its protocol core

Symmetry is a control plane that admits, runs and validates work by agents. Much of what it promises
rests on code whose correctness is a statement about all inputs or all interleavings: which JSON texts
the wire decoder lets through and what they hash to, what a hand-written SHA-256 and tokenizer compute
from untrusted files, which thread may publish a run's one terminal transition, and so on. This project
models that code in Dafny and proves those statements. Nothing was executed.

| Area | Files | Main results |
|---|---|---|
| Strict wire JSON | `CodeUnits` `Decimal` `JsonGrammar` `JsonReader` `WireJson` `JsonNames` `WireNumbers` `WireDecoder` | The recursive scanner reaches the end of a text exactly when it derives from RFC 8259. Beside it the flat number scan finds the first bad number token, and the reported duplicate is the first repeated name in the text. The decoder accepts exactly the texts with only safe integers and no repeated name |
| Canonical JSON | `JsonValues` `EqualJson` `KeyOrder` `CanonicalJson` `Printing` `Spelling` `WireDecoder` `Unicode` | Canonical text, structural equality and meaning draw the same distinctions; every canonical text decodes to the value printed |
| SHA-256 in C | `Sha256` `Sha256State` `Sha256Bits` `Sha256Traces` `Sha256Answers` | Streaming updates followed by the final step give the FIPS 180-4 digest, however the input was split; the functions and constants are characterised bit by bit and as roots of primes, and the digests of the standard's example messages are derived round by round |
| JSON tokenizer in C | `HelperTokens` `HelperParser` `HelperGrammar` | The texts accepted are exactly those of a small grammar within the limits. A successful parse leaves the pre-order layout of a tree, whose intervals nest; member lookup is exact; the pair check cannot fail |
| Response holds | `Holds` `HoldRegistry` | Safety of holds over every interleaving |
| Autonomous agent | `Autonomous` `AutonomousAgent` | Replays are invisible; every run is lawful |
| Terminal reservation | `TerminalQueue` | One terminal under every interleaving; exactly when only one call can succeed |
| Chat cache | `ChatCache` | Held history covers everything from the cursor up, exactly when no refresh of one named kind is committed |
| Clone sync and guard | `SyncTree` `LeaseGuard` | Exact bounds and sync order of the traversal; wrap-around caught |
| Decimal recognisers | `Decimal` `Microusd` | The money pattern accepts exactly 0 to 2^63-1 |

How the parts are built. Code that computes a value is a function; code that updates fields or loops is
a class or a method, proved against a specification function, and the theorems are about that function.
Texts are sequences of 16-bit code units. A grammar is given as parse trees together with the text each
tree derives, independently of any reader. What a specification function shares with the code, such as an
escape table, a sort order or a matching rule, is said a second time without naming it: in character literals,
on fields, or by known answers. Concurrent code is a state machine whose steps are the
critical sections of the source, and the theorems are about all sequences of steps.

Where a property does not hold of the code as it stands, the code is kept and the exact condition is
proved; each bullet says whether the program can come into the failing case.

* At most one terminal is recorded under every interleaving (`TerminalQueue.InterleavingsSafe`). At most one
  call of `queueDeterministicValidationTerminal` returns success in every interleaving exactly when no two
  callers carry the same transition under the same fence (`OneSuccessExact`; `BothSucceed` is the failing
  run). The one caller makes a transition id of its own for every call
  (daemon/internal/app/deterministic_validation.go:299), so the program does not come into that case
  (`OwnTransitionsSucceedOnce`). With reservations made on a lasting record only one call succeeds whatever
  the callers carry (`ReservationExclusive`).
* The comment at daemon/internal/app/deterministic_validation.go:382-386 promises that a cancellation does
  not come between check and write. The reservation gives this: cancelling, losing the lease and claiming for
  a native session all first test that nobody has reserved the run (daemon/internal/app/app.go:959, 4043, 9099,
  10135). So a caller whose reservation found the record decides on a run that is neither cancelled nor stale,
  up to and at its write (`ReservedRunStaysAlive`). It holds of every call exactly when reservations find a
  record, the record outlives them, and daemon shutdown, which cancels without that test
  (daemon/internal/app/app.go:11634), does not fall between check and write (`AliveAtWriteExact`, with
  `UnfoundFails`, `DroppedFails` and `ShutdownFails`). The record is installed before the worker that validates
  is started, with its cleanup blocked (daemon/internal/app/app.go:3461); cleanup does not release a blocked
  record (daemon/internal/app/cleanup.go:119), and the block is lowered only after validation
  (daemon/internal/app/app.go:4541, 10492). So of these three shutdown is the one the program is exposed to.
* A Chat refresh loses messages exactly when it finds more than a page over a history marked as loaded
  while it was empty (`ChatCache.CommitExact`), and over whole runs everything from the cursor up is held after
  every step exactly when no such refresh is committed (`CoveredExact`). Such a history comes only from an older
  page without messages, and once it is there a refresh can always lose (`HollowExact`, `EmptyHistoryLoses`).
  A Load older that is sent with a cursor never leads there (`CacheComplete`), but the page does not enforce
  that, and the program can come into this case: creating a project selects it
  (control/priv/portal_assets/portal.js:2088) before the workspace is reloaded, and until then the Load older
  button of the conversation on screen stays; a click sends Load older for the new, empty conversation, without
  a cursor (`EmptyHistoryReached`).
* `pathOverlaps` misses containment exactly when one path is the root directory and the other is not
  (`ClonePaths.OverlapExact`, `RootOverlapMissed`). Its one caller refuses a root path of "/" first
  (daemon/cmd/symmetry-linux-clone-bootstrap/filesystem_linux_amd64.go:210) and the other path names the seed
  file, so there the test is containment (`OverlapBelowRoot`).

Modelling choices. Property order is JavaScript's: array indices by number, then other keys; the sort
before it is by code unit. Lone surrogates are allowed in every string, because `JSON.stringify` escapes
them; the round trip therefore holds for more values than those with well-formed strings. A number token
"-0" denotes 0, which is how it is compared and printed.

## Model

| member | source | states |
|---|---|---|
| JsonReader.ReadsExactlyJson | contracts/ts/wire-json.ts:80-276 | the scanner's reading of a text succeeds exactly when the text derives from the JSON grammar |
| JsonReader.DocumentSound | contracts/ts/wire-json.ts:203-276 | the tree read is well-formed and derives the whole text |
| JsonReader.DocumentComplete | contracts/ts/wire-json.ts:203-276 | reading the text of any well-formed tree gives that tree back |
| JsonReader.Unambiguous | contracts/ts/wire-json.ts:203-276 | no text has two derivations |
| WireJson.SkipJsonWhitespace | contracts/ts/wire-json.ts:80-88 | the loop stops at the first code unit that is not JSON white space |
| WireJson.HexDigit | contracts/ts/wire-json.ts:90-95 | a value exactly for hexadecimal digits, of either case |
| WireJson.ScanHexEscape | contracts/ts/wire-json.ts:141-151 | four hexadecimal digits give their code unit, anything else nothing |
| WireJson.ScanJsonString | contracts/ts/wire-json.ts:97-157 | ends where the grammar's literal ends, with the unescaped text; fails exactly when no literal starts there |
| WireJson.ScanFraction | contracts/ts/wire-json.ts:177-186 | an optional fraction, as the grammar reads it |
| WireJson.ScanExponent | contracts/ts/wire-json.ts:188-198 | an optional exponent, as the grammar reads it |
| WireJson.ScanJsonNumber | contracts/ts/wire-json.ts:159-201 | ends where the grammar's number ends, and fails exactly when there is none |
| WireJson.ScanJsonValue | contracts/ts/wire-json.ts:203-223 | terminates on every input; end and duplicate are those of the value the grammar reads there |
| WireJson.ScanJsonMember | contracts/ts/wire-json.ts:232-246 | one member: its end, the names seen, and the first duplicate so far |
| WireJson.ScanJsonObject | contracts/ts/wire-json.ts:225-250 | the member loop against the grammar's object |
| WireJson.ScanJsonArray | contracts/ts/wire-json.ts:252-270 | the element loop against the grammar's array |
| WireJson.FindDuplicateJsonMember | contracts/ts/wire-json.ts:272-276 | nothing on texts that are not JSON, else the duplicate of the document's tree |
| Spelling.EscapeDecoded | contracts/ts/wire-json.ts:112-140 | a string with any of the eight escapes of section 7 of RFC 8259 written out in characters decodes to the character it stands for, between what the rest denotes |
| Spelling.HexDecoded | contracts/ts/wire-json.ts:141-151 | four hexadecimal digits of either case after a backslash and u decode to the number they write |
| Spelling.ClassesSpelled | contracts/ts/wire-json.ts:80-88 | white space and digits, in characters |
| Spelling.LiteralsSpelled | contracts/ts/wire-json.ts:212-217 | the three literal names and the root path, in characters |
| Spelling.NumberSpelled | contracts/ts/wire-json.ts:159-201 | sign, point, exponent mark and exponent sign of a number's text, in characters |
| Spelling.ArraySpelled | contracts/ts/wire-json.ts:252-270 | brackets and commas of an array's text |
| Spelling.ObjectSpelled | contracts/ts/wire-json.ts:225-250 | braces and commas of an object's text |
| Spelling.EntrySpelled | contracts/ts/wire-json.ts:232-241 | a quoted name, a colon and a value, with white space between |
| Spelling.PathsSpelled | contracts/ts/wire-json.ts:238-259 | the path of a member and of an element |
| JsonNames.EarliestDuplicateReported | contracts/ts/wire-json.ts:97-157 | a duplicate is reported exactly when some object repeats an unescaped name, and it is the first repeated name in text order |
| JsonNames.ReportIsFirstRepeat | contracts/ts/wire-json.ts:225-270 | the threading of seen names and first duplicates through objects and arrays finds the first repeat in the flat list of names |
| JsonNames.NamesPlaced | contracts/ts/wire-json.ts:225-270 | the flat list holds the names in the order in which they stand in the text |
| WireNumbers.SafeIntegerExact | contracts/ts/wire-json.ts:32-37 | on integer tokens the length-then-text comparison accepts exactly magnitudes up to 2^53-1 |
| Decimal.LengthThenLex | contracts/ts/wire-json.ts:32-37 | on canonical numerals, comparing lengths and then texts is comparing values |
| Spelling.NumeralSpelled | contracts/ts/wire-json.ts:32-37 | a numeral is read in base ten |
| WireNumbers.FindNonCanonicalNumber | contracts/ts/wire-json.ts:39-75 | the flat loop with its two string flags computes the recursive scan |
| WireNumbers.LexemeIssueIs | contracts/ts/wire-json.ts:62-68 | a number token is refused, and for which reason, exactly by whether it is an integer and safe |
| WireNumbers.ScanFindsFirstBadNumber | contracts/ts/wire-json.ts:39-75 | on every JSON text the number tokens stand one after the other at the offsets listed; the flat scan finds nothing exactly when all are safe integers, else the first that is not |
| Microusd.MicrousdExact | contracts/generated/effect/index.ts:28 | the pattern matches exactly the canonical numerals up to 2^63-1 |
| EqualJson.EqualIffSameMeaning | contracts/ts/schema-helpers.ts:29-49 | structural equality holds exactly between values of the same meaning, members taken as a map |
| EqualJson.SameKeys | contracts/ts/schema-helpers.ts:40-45 | equally many distinct keys with one set inside the other are the same set, which is why one direction of lookup is enough |
| KeyOrder.SortSorts | contracts/ts/semantics.ts:41-42 | sorting by key gives a strictly sorted rearrangement |
| KeyOrder.SortedTexts | contracts/ts/semantics.ts:42-42 | any two sorted names part at a position where the first ends or has the smaller code unit |
| KeyOrder.LessMeans | contracts/ts/semantics.ts:40-44 | the property order, on the names: indices below 2^32-1 first and by number, then by first difference |
| KeyOrder.EnumerateSorts | contracts/ts/semantics.ts:40-44 | the rebuilt object lists the same properties in strictly increasing property order |
| KeyOrder.SortedUnique | contracts/ts/semantics.ts:40-44 | there is only one sorted rearrangement |
| Canonicalizing.CanonicalizeKeepsMeaning | contracts/ts/semantics.ts:37-47 | the canonical value is well-formed, in key order throughout, and means the same |
| Canonicalizing.KeyOrderUnique | contracts/ts/semantics.ts:37-47 | two values in key order throughout with the same meaning are identical |
| Canonicalizing.CanonicalizeIffMeaning | contracts/ts/semantics.ts:37-47 | two values canonicalize alike exactly when they mean the same |
| Canonicalizing.CanonicalAscends | contracts/ts/semantics.ts:37-47 | in every object of a canonical value, at every depth, indices come first by number and other names ascend by their first difference |
| Canonicalizing.ListingKeepsMeaning | contracts/ts/wire-json.ts:303-304 | the order in which JavaScript lists parsed members changes no meaning |
| Canonicalizing.ListingKeepsOrder | contracts/ts/wire-json.ts:303-304 | a value in key order throughout is listed as it was created |
| Printing.PrintedTree | contracts/ts/semantics.ts:49-55 | the printed text is derived by a well-formed tree that denotes the value |
| Printing.PrintedIsRead | contracts/ts/semantics.ts:49-55 | reading printed text consumes all of it and rebuilds the value |
| Printing.PrintingInjective | contracts/ts/semantics.ts:49-55 | different values print differently |
| Spelling.PiecePrinted | contracts/ts/semantics.ts:49-55 | how every code unit that is no surrogate is printed, wherever it stands in a string: the seven short escapes, other controls in lower-case hexadecimal, the rest as they are |
| Spelling.PairPrinted | contracts/ts/semantics.ts:49-55 | a surrogate pair is printed as it is |
| Spelling.ValuePrinted | contracts/ts/semantics.ts:49-55 | literals, numbers, arrays and objects are printed with their punctuation and nothing else |
| WireDecoder.ParseWireJson | contracts/ts/wire-json.ts:278-308 | the checks in order: bad number, duplicate member, bad JSON, value |
| WireDecoder.WireAcceptsExactly | contracts/ts/wire-json.ts:278-308 | the decoder accepts exactly the texts with a derivation whose numbers are safe integers and whose objects repeat no name, and returns what the derivation denotes, members in JavaScript's order |
| WireDecoder.RefusedFor | contracts/ts/wire-json.ts:290-307 | which error a refused text gets: the first bad number, else the first repeated name, else no JSON |
| WireDecoder.CanonicalRoundTrip | contracts/ts/semantics.ts:37-55 | the decoder accepts every canonical text and rebuilds the canonical value, which means what was printed |
| WireDecoder.CanonicalTextDecides | contracts/ts/semantics.ts:37-55 | equal canonical text, structural equality and equal meaning coincide |
| WireDecoder.ReorderingInvisible | contracts/ts/semantics.ts:37-55 | rearranging members never changes the canonical text |
| WireDecoder.DecodedIsCanonicalizable | contracts/ts/wire-json.ts:278-308 | whatever the decoder accepts prints to a canonical text that it accepts again, with the same meaning |
| WireDecoder.UniqueItemsExact | contracts/ts/schema-helpers.ts:160-164 | the test passes exactly when the canonical texts of the items are pairwise distinct |
| Unicode.FindUnpairedSurrogate | contracts/ts/wire-json.ts:310-322 | the loop computes the recursive check |
| Unicode.SurrogateCheckExact | contracts/ts/wire-json.ts:310-322 | nothing is found exactly in the UTF-16 encodings of sequences of scalar values |
| Unicode.EncodeMeans | contracts/ts/wire-json.ts:313-317 | the surrogate ranges, and the code point a pair makes |
| Unicode.UnpairedIsFirst | contracts/ts/wire-json.ts:310-322 | what is found is the first unpaired surrogate, with its kind |
| Unicode.UnicodeCheckExact | contracts/ts/wire-json.ts:324-346 | nothing is found exactly when every string and every key at any depth is well-formed |
| Sha256Spec.PaddedLength | scripts/ci/literal-pid-reuse-helper.c:467-472 | the padding of section 5.1.1 of FIPS 180-4 fills whole blocks |
| Sha256Spec.SumOrder | scripts/ci/literal-pid-reuse-helper.c:429-434 | the code's order of the four schedule terms gives the sum the standard writes in the opposite order |
| Sha256Answers.AbcDigest | scripts/ci/literal-pid-reuse-helper.c:424-482 | the digest of "abc" is the published one, byte for byte |
| Sha256Answers.AlphabetDigest | scripts/ci/literal-pid-reuse-helper.c:424-482 | likewise of the two-block example message of the standard |
| Sha256Bits.ChChooses | scripts/ci/literal-pid-reuse-helper.c:439-439 | where a bit of the first word is set the bit is that of the second, elsewhere of the third |
| Sha256Bits.MajAgrees | scripts/ci/literal-pid-reuse-helper.c:442-442 | where two of the words agree, that is the bit |
| Sha256Bits.RotateMovesBits | scripts/ci/literal-pid-reuse-helper.c:422-422 | bit k of a word rotated by n is bit k+n modulo 32 |
| Sha256Bits.WordBytesRoundTrip | scripts/ci/literal-pid-reuse-helper.c:426-428 | bytes make words most significant first, and words give them back |
| Sha256Bits.RoundConstants | scripts/ci/literal-pid-reuse-helper.c:93-104 | each round constant is the first 32 fraction bits of the cube root of its prime |
| Sha256Bits.InitialValue | scripts/ci/literal-pid-reuse-helper.c:450-453 | each initial word is the first 32 fraction bits of the square root of its prime |
| Sha256Streaming.FillSchedule | scripts/ci/literal-pid-reuse-helper.c:425-434 | the two loops compute the message schedule |
| Sha256Streaming.RunRounds | scripts/ci/literal-pid-reuse-helper.c:435-445 | the loop computes the 64 rounds |
| Sha256Streaming.Sha256State.constructor | scripts/ci/literal-pid-reuse-helper.c:450-453 | the initial state streams the empty message |
| Sha256Streaming.Sha256State.Transform | scripts/ci/literal-pid-reuse-helper.c:424-448 | one compression step of section 6.2.2 of FIPS 180-4, in place |
| Sha256Streaming.Sha256State.Absorb | scripts/ci/literal-pid-reuse-helper.c:459-463 | one turn of the loop: the buffer and hash stand for the longer message |
| Sha256Streaming.Sha256State.Update | scripts/ci/literal-pid-reuse-helper.c:455-465 | the message absorbed grows by exactly the data, with the bit count modulo 2^64 |
| Sha256Streaming.Sha256State.Final | scripts/ci/literal-pid-reuse-helper.c:467-482 | terminates, and gives the FIPS 180-4 digest of everything absorbed below 2^61 bytes |
| Sha256Streaming.HashChunks | scripts/ci/literal-pid-reuse-helper.c:455-482 | any sequence of updates gives the digest of the concatenation |
| HelperParser.Parser.SkipSpace | scripts/ci/literal-pid-reuse-helper.c:130-135 | the cursor moves to the first unit that is no space |
| HelperParser.Parser.AddToken | scripts/ci/literal-pid-reuse-helper.c:137-147 | one token is appended, or the limit reported |
| HelperParser.Parser.ParseString | scripts/ci/literal-pid-reuse-helper.c:149-165 | reads one literal and appends its token, failing at the stage the reader names |
| HelperParser.Parser.ParseValue | scripts/ci/literal-pid-reuse-helper.c:167-213 | reads one value and appends the layout of its tree, leaving earlier tokens alone |
| HelperParser.Parser.ParseMember | scripts/ci/literal-pid-reuse-helper.c:183-190 | one key and value |
| HelperParser.Parser.ParseMembers | scripts/ci/literal-pid-reuse-helper.c:182-196 | the member loop appends the layout of all members |
| HelperParser.Parser.ParseObject | scripts/ci/literal-pid-reuse-helper.c:173-200 | an object's token closes over exactly its members |
| HelperParser.Parser.ParseJson | scripts/ci/literal-pid-reuse-helper.c:215-222 | the token array is the layout of the document's tree, or the first failing stage is reported |
| HelperGrammar.ReadsExactly | scripts/ci/literal-pid-reuse-helper.c:130-222 | a text is accepted exactly when a document of the helper's language derives it, an object with at most 16 levels and 512 tokens, and its tree is the one read |
| HelperTokens.LayoutNested | scripts/ci/literal-pid-reuse-helper.c:137-213 | token intervals are not empty, stay inside, and never cross |
| HelperTokens.JsonSpelled | scripts/ci/literal-pid-reuse-helper.c:149-222 | every node of a parsed document is spelled in the text, and the root is an object |
| HelperTokens.FindLaidOut | scripts/ci/literal-pid-reuse-helper.c:137-213 | every token index starts the layout of one node of the tree |
| HelperParser.Parser.FindField | scripts/ci/literal-pid-reuse-helper.c:231-268 | the shared scan: the value of the only direct member with the name, none, or a duplicate; the pair failure is not among the outcomes |
| HelperParser.Parser.ObjectField | scripts/ci/literal-pid-reuse-helper.c:231-249 | succeeds exactly when one direct member has the name, with its value |
| HelperParser.Parser.OptionalObjectField | scripts/ci/literal-pid-reuse-helper.c:251-268 | the same, with absence allowed |
| HelperParser.Parser.TokenUint | scripts/ci/literal-pid-reuse-helper.c:280-294 | accepts exactly canonical numerals up to 2^64-1 and returns their value |
| Holds.ExpireKeeps | scripts/ci/rootless-compose-transition-proxy.py:90-103 | expiry keeps the invariant and moves holds forward only |
| Holds.ArmKeeps | scripts/ci/rootless-compose-transition-proxy.py:135-153 | arming keeps the invariant and replaces only released holds |
| Holds.TransitionKeeps | scripts/ci/rootless-compose-transition-proxy.py:185-238 | binding and parking keep the invariant |
| Holds.ReleaseKeeps | scripts/ci/rootless-compose-transition-proxy.py:163-183 | releasing keeps the invariant, in which no hold is released twice |
| Holds.StepKeeps | scripts/ci/rootless-compose-transition-proxy.py:90-238 | every step of any thread keeps the invariant and moves each hold at most one phase forward, its identity fixed once held |
| Holds.HeldOnlyBy | scripts/ci/rootless-compose-transition-proxy.py:217-233 | a hold becomes held only by a transition of its runtime and epoch, which becomes its binding, for 120 seconds |
| Holds.FreedOnlyBy | scripts/ci/rootless-compose-transition-proxy.py:90-183 | a held hold is freed only by a request naming its nonce and binding, or by an expiry at or after its deadline |
| Holds.ExpireMeans | scripts/ci/rootless-compose-transition-proxy.py:90-103 | what expiry does to each hold and to the dictionary, field by field |
| Holds.LatestStands | scripts/ci/rootless-compose-transition-proxy.py:129-131 | the last epoch reported for a runtime stands |
| Holds.ExpiryFrees | scripts/ci/rootless-compose-transition-proxy.py:539-543 | an expiry at the end of a handler's wait has released its hold |
| Holds.FallbackIsRedundant | scripts/ci/rootless-compose-transition-proxy.py:539-543 | the event set after a timed-out wait was set already |
| Holds.HoldsPersist | scripts/ci/rootless-compose-transition-proxy.py:53-238 | over any stretch of a run a hold goes only armed, held, released, and keeps its binding |
| Holds.RunSafety | scripts/ci/rootless-compose-transition-proxy.py:90-238 | in every reachable state: event set exactly when released, held holds in the table, handlers on one hold agree, every successful release named its hold and none succeeded twice on one, no handler outlasts its wait |
| HoldRegistryClass.HoldRegistry.ObserveRegistration | scripts/ci/rootless-compose-transition-proxy.py:129-131 | the last epoch reported for each runtime stands |
| HoldRegistryClass.HoldRegistry.Arm | scripts/ci/rootless-compose-transition-proxy.py:145-153 | armed exactly for a known epoch and no live hold; the new hold's epoch, nonce and 180 second deadline; the step of the state machine |
| HoldRegistryClass.HoldRegistry.Release | scripts/ci/rootless-compose-transition-proxy.py:168-183 | succeeds exactly when the hold is held and nonce, run, generation, epoch, claim and token each match; then that hold alone is released |
| HoldRegistryClass.HoldRegistry.HoldSuccessfulTransition | scripts/ci/rootless-compose-transition-proxy.py:217-238 | parks exactly on an armed hold of the epoch or a held one with the same binding, and binds the armed one for 120 seconds |
| HoldRegistryClass.HoldRegistry.Expire | scripts/ci/rootless-compose-transition-proxy.py:90-103 | visiting the entries one by one, in any order, is the machine's one-step expiry |
| Autonomous.ReplaysInvisible | daemon/cmd/symmetry-fake-agent/autonomous.go:199-278 | deleting every line that repeats an earlier command id changes neither how a run ends, nor its state, nor any first receipt |
| Autonomous.RunLawful | daemon/cmd/symmetry-fake-agent/autonomous.go:110-197 | every run's output is lawful, and a run without error completed all steps and was answered "staged" if asked |
| Autonomous.LawfulMeans | daemon/cmd/symmetry-fake-agent/autonomous.go:110-278 | lawful output: no operation starts while paused or waiting, operations in order, pauses and resumes alternate, never paused and waiting |
| Autonomous.AskedOnce | daemon/cmd/symmetry-fake-agent/autonomous.go:143-151 | the question is asked at most once, right after the configured operation, and was asked in every run that ends well |
| Autonomous.GuidanceIsMessages | daemon/cmd/symmetry-fake-agent/autonomous.go:224-234 | in every run the guidance held is the list of messages applied, in order |
| Autonomous.FirstReceipt | daemon/cmd/symmetry-fake-agent/autonomous.go:213-271 | when the first line of a command id is applied, on its fields, and all that it changes |
| Autonomous.RepeatedReceipt | daemon/cmd/symmetry-fake-agent/autonomous.go:210-216 | a repeated id changes nothing and is answered as the first was, or rejected if the line differs |
| Autonomous.Answered | daemon/cmd/symmetry-fake-agent/autonomous.go:250-277 | an answer is taken exactly while waiting and only for the two options; "defer" ends the run |
| Autonomous.BoundaryFolds | daemon/cmd/symmetry-fake-agent/autonomous.go:170-197 | a boundary applies every line it takes, in order, and stops only at a failure, the end of input, or nothing waiting while free |
| Autonomous.ApplyAgrees | daemon/cmd/symmetry-fake-agent/autonomous.go:199-278 | one control line keeps the observer's view equal to the agent's state |
| Autonomous.BoundaryAgrees | daemon/cmd/symmetry-fake-agent/autonomous.go:170-197 | so does a whole boundary, which completes no operation |
| AutonomousAgent.Agent.Apply | daemon/cmd/symmetry-fake-agent/autonomous.go:199-278 | the field updates and records of one line are those of the specification |
| AutonomousAgent.Agent.Boundary | daemon/cmd/symmetry-fake-agent/autonomous.go:170-197 | the loop computes the specification's boundary |
| AutonomousAgent.Agent.Step | daemon/cmd/symmetry-fake-agent/autonomous.go:118-151 | one turn of the step loop |
| AutonomousAgent.Agent.Execute | daemon/cmd/symmetry-fake-agent/autonomous.go:110-168 | the step loop computes the specification's run |
| TerminalQueue.StepSafe | daemon/internal/app/deterministic_validation.go:387-432 | every step of any caller or of the rest of the daemon keeps: one terminal recorded, every success honest |
| TerminalQueue.InterleavingsSafe | daemon/internal/app/deterministic_validation.go:387-466 | under every interleaving at most one terminal is recorded; a success saw the run neither cancelled, stale nor owned, and was recorded under the expected fence |
| TerminalQueue.StepCounted | daemon/internal/app/app.go:3981-4011 | the count is exactly the reservations held on the record, by callers, other terminal paths and native owners, while the record lasts |
| TerminalQueue.StepOneOwner | daemon/internal/app/deterministic_validation.go:434-466 | the check lets through only a caller whose reservation is the only one, so at most one holder is past its check |
| TerminalQueue.ReservationExclusive | daemon/internal/app/deterministic_validation.go:387-466 | with reservations on a lasting record, at most one caller is past its check and at most one ever succeeds |
| TerminalQueue.OneSuccessExact | daemon/internal/app/deterministic_validation.go:387-432 | at most one call succeeds in every interleaving exactly when no two callers carry the same transition under the same fence |
| TerminalQueue.BothSucceed | daemon/internal/app/app.go:3981-3987 | for any two such callers, a run in which both succeed: one reservation found no record |
| TerminalQueue.OwnTransitionsSucceedOnce | daemon/internal/app/deterministic_validation.go:299-316 | callers with transitions of their own: at most one succeeds in every interleaving |
| TerminalQueue.FinishUndoesBegin | daemon/internal/app/app.go:3981-4011 | a reservation given back without success leaves the record exactly as it was found |
| TerminalQueue.FirstTerminalStays | daemon/internal/state/goal_delivery.go:260-307 | nothing recorded later changes the journal, and a later call is answered with success exactly when it asks for the same |
| TerminalQueue.StepGuarded | daemon/internal/app/app.go:957-965 | every step keeps the run uncancelled, current and without native owner while a caller holding a reservation is between check and write |
| TerminalQueue.ReservedRunStaysAlive | daemon/internal/app/deterministic_validation.go:382-432 | in every interleaving on a lasting record, a caller whose reservation was found decides on and writes for a run neither cancelled nor stale, shutdown apart |
| TerminalQueue.AliveAtWriteExact | daemon/internal/app/deterministic_validation.go:382-432 | no terminal is ever queued for a run that is cancelled, stale or gone, exactly when reservations find a record, it outlives them, and shutdown stays out of the window |
| TerminalQueue.UnfoundFails | daemon/internal/app/app.go:3981-3987 | a failing run for every request that can succeed: the reservation found no record |
| TerminalQueue.DroppedFails | daemon/internal/app/app.go:3852-3857 | likewise: the record is replaced after the check |
| TerminalQueue.ShutdownFails | daemon/internal/app/app.go:11630-11634 | likewise: shutdown after the check |
| TerminalQueue.RecordedIsReported | daemon/internal/state/state.go:4293-4308 | no terminal is recorded and then reported as failure, exactly when the transition carries the expected fence, not zero |
| TerminalDaemon.Daemon.QueueTerminal | daemon/internal/app/deterministic_validation.go:387-432 | undisturbed: exact success condition, the record written, the reservation always given back |
| ChatCache.PageMeans | control/lib/symmetry_control/chat.ex:23-62 | a page is the 50 messages below its bound, with a cursor exactly when more remain |
| ChatCache.CommitExact | control/priv/portal_assets/portal.js:1634-1642 | a reply keeps everything from the cursor up held, exactly when it is not a refresh with more below it over an empty history marked loaded |
| ChatCache.RefreshKeepsHistory | control/priv/portal_assets/portal.js:1637-1642 | a refresh that meets what is held keeps a loaded history and its cursor |
| ChatCache.GapForgetsHistory | control/priv/portal_assets/portal.js:1637-1642 | a refresh that skips past what is held starts again at its page |
| ChatCache.OlderProgress | control/priv/portal_assets/portal.js:1629-1642 | Load older brings the fifty messages below the cursor and moves the cursor to the oldest of them, or removes it |
| ChatCache.StepFresh | control/priv/portal_assets/portal.js:1621-1655 | the latest request always started from what is held now; older ones change nothing |
| ChatCache.SendOutdates | control/priv/portal_assets/portal.js:1565-1629 | sending makes the new request the only current one, starting from what is held of its conversation and from nothing after a change of conversation |
| ChatCache.HeldGrows | control/priv/portal_assets/portal.js:1621-1655 | no interleaving drops a held message while the conversation stays |
| ChatCache.CoveredExact | control/priv/portal_assets/portal.js:1565-1655 | in every run, everything known and not below the cursor is held after every step exactly when no losing refresh is committed |
| ChatCache.StepSound | control/priv/portal_assets/portal.js:1632-1643 | only an empty older page marks an empty history as loaded; without one every step keeps the cache covered |
| ChatCache.HollowExact | control/priv/portal_assets/portal.js:1634-1642 | from any covered state, no run without an empty older page loses a message exactly when the history is not empty and marked loaded |
| ChatCache.CacheComplete | control/priv/portal_assets/portal.js:1565-1655 | in particular, runs in which every Load older is sent with a cursor are covered after every step |
| ChatCache.EmptyHistoryLoses | control/priv/portal_assets/portal.js:1634-1642 | from an empty history marked loaded, a refresh of a longer conversation leaves older messages unheld and no cursor |
| ChatCache.EmptyHistoryReached | control/priv/portal_assets/portal.js:1621-1643 | Load older for another, empty conversation, clicked where the one on screen has a cursor, leads there |
| ChatPage.ChatView.FinishLoad | control/priv/portal_assets/portal.js:1632-1643 | a current reply is merged as specified, any other ignored |
| SyncTree.Traversal.SyncDirectory | daemon/cmd/symmetry-linux-clone-bootstrap/filesystem_linux_amd64.go:552-654 | success exactly within the bounds left; counters, byte sum in range, and what was synced is a first part of the post-order; an error names a broken bound |
| SyncTree.Traversal.SyncEntry | daemon/cmd/symmetry-linux-clone-bootstrap/filesystem_linux_amd64.go:574-638 | one entry of the loop, likewise |
| SyncTree.SyncCloneTree | daemon/cmd/symmetry-linux-clone-bootstrap/filesystem_linux_amd64.go:546-550 | succeeds exactly up to 250,000 entries, depth 32, 4 GiB, files, directories and symlinks only; then every file and directory was synced once, children first |
| SyncTree.PostOrderChildrenFirst | daemon/cmd/symmetry-linux-clone-bootstrap/filesystem_linux_amd64.go:594-650 | nothing occurs twice in the sync order and no directory precedes what it contains |
| ClonePaths.OverlapExact | daemon/cmd/symmetry-linux-clone-bootstrap/filesystem_linux_amd64.go:522-525 | the test is component containment, except exactly between the root directory and another path |
| ClonePaths.RootOverlapMissed | daemon/cmd/symmetry-linux-clone-bootstrap/filesystem_linux_amd64.go:522-525 | a containment that the test misses |
| ClonePaths.OverlapBelowRoot | daemon/cmd/symmetry-linux-clone-bootstrap/filesystem_linux_amd64.go:210-215 | for two paths other than the root directory the test is containment |
| LeaseGuard.MonotonicNowExact | daemon/cmd/symmetry-linux-clone-bootstrap/guard_linux_amd64.go:22-41 | the reading is exact or refused, wrap-around never seen |
| LeaseGuard.AddDurationExact | daemon/cmd/symmetry-linux-clone-bootstrap/guard_linux_amd64.go:43-52 | the sum is exact or refused |
| LeaseGuard.NewGuard | daemon/cmd/symmetry-linux-clone-bootstrap/guard_linux_amd64.go:64-89 | when a guard is made, and that its deadline is the lease's or two minutes away |
| LeaseGuard.OwnerLeaseGuard.Check | daemon/cmd/symmetry-linux-clone-bootstrap/guard_linux_amd64.go:91-112 | passes exactly before the deadline with a live owner and no earlier cause; the first cause stays |
| LeaseGuard.OwnerLeaseGuard.Remaining | daemon/cmd/symmetry-linux-clone-bootstrap/guard_linux_amd64.go:114-128 | a duration only when it is the true difference, from 0 to two minutes, for clock readings less than 2^63 ns apart |
| LeaseGuard.WrapCaught | daemon/cmd/symmetry-linux-clone-bootstrap/guard_linux_amd64.go:114-128 | the range check refuses exactly the subtractions that wrapped |
| LeaseGuard.OwnerLeaseGuard.RemainingWithoutCheck | daemon/cmd/symmetry-linux-clone-bootstrap/guard_linux_amd64.go:177-193 | the true positive difference, or the cause |
| LeaseGuard.PollOvershoot | daemon/cmd/symmetry-linux-clone-bootstrap/guard_linux_amd64.go:148-157 | the rounded wait is 1 to 100 ms and ends less than 1 ms past the deadline |

## Left out

- WireDecoder.ParseWireJson: does not model byte input and its decoding, which TextDecoder does; `JSON.parse` is taken to accept exactly the grammar.
- Number formatting beyond integers and WebCrypto: library behaviour.
- HelperParser.Parser.ParseJson: the stage named for a refused text is the reader's; which stage that is for which text is not characterised beyond it.
- Unicode.UnicodeCheckExact: does not say at which path an issue is reported.
- `canonicalPlanProposal` and the semantic validators of contracts/ts/semantics.ts: default filling and finite rules over sets.
- The rest of the generated schemas and of contracts/ts/schema-helpers.ts: finite case tables.
- C helper: `copy_string`, the request parsers, `sha256_hex`, and everything that talks to the kernel.
- HoldRegistryClass.HoldRegistry.Arm: models the critical section after the wait for a registration; the wait itself only delays it.
- Proxy: HTTP forwarding, WebSocket relay, gzip, decoding of bodies, `status`; clock readings are integers, of which only order and sums are used.
- Agent: reading lines, decoding envelopes and UUIDs (a line carries what each of these checks finds), failing writes, and the artifacts written.
- Terminal reservation: the evidence loop and admission checks; validity of evidence, lease and deadline are inputs of the steps. The journal of the run exists throughout.
- ChatCache.CommitExact: models a message by its position in the log, so replaced receipts and rendering are not captured.
- ChatCache.CacheComplete: speaks of runs in which every Load older has a cursor, which the page does not enforce; `CoveredExact` and `HollowExact` speak of all runs.
- Clone sync: system calls always succeed, the tree does not change and the context is not cancelled; an fsync is an entry in a log.
- ClonePaths.OverlapExact: speaks of paths given as lists of components; that every clean absolute path has such a list is the definition of clean used here.
- Owner guard: descriptor checks are inputs, and of `monitor` only the poll timeout is modelled.
- Recovery, evidence export, receipt publishing, checkpoint verification and host probes: they order calls into the kernel, Git and the store, whose behaviour the model does not have.
