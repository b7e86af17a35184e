# Models of Dagster's protocols, printers and state machines

This project models the parts of the repository that carry real state, concurrency or recursion, and proves
what they promise. One `.dfy` file stands for one component; `Text.dfy` and `Wrappers.dfy` hold the string
operations and the `Option` and `Result` types that the others share. `dafny verify dfyconfig.toml` checks
everything.

Where the source works by changing things step by step, the model is a method or a class over the same fields,
and its contract ties the new state to a specification function; the lemmas then speak about that function. Every
induction is written out: lemmas for which Dafny would add an induction hypothesis of its own carry
`{:induction false}`.

- **Pipes session** (`PipesChannel`, `PipesProtocol`, `UploadDelay`, `UploadDelayInRuns`, `ContextLifecycle`). The
  buffered channel is a class; every thread of a session is interleaved at each access of the queue and of the
  session event. In all interleavings the uploaded chunks, the drained batch and the queue are exactly the messages
  put. `close` returns after a bounded number of steps. How long a message waits, and how soon one upload may
  follow another, is stated to the microsecond.
- **Asset key paths** (`AssetKeyPath`). Parsing undoes escaping.
- **Connections game** (`ConnectionsPuzzle`, `ConnectionsGame`, `ConnectionsRules`, `ConnectionsExamples`). A validated
  puzzle is a partition; `process_guess` is a state machine whose runs are bounded; spelling the unsolved groups wins.
- **GraphQL websocket** (`SubscriptionEndpoint`, `SubscriptionHistory`). The receive loop and its tasks, interleaved
  between awaits; what goes over the wire and which tasks are left, as functions of the history alone.
- **ty configuration printer** (`TyConfigPrinter`, `TomlTables`, `TyConfigRoundTrip`). The printed lines are read
  by an interpreter of TOML v1.0.0 tables (sections "Table" and "Array of Tables") and give the same mapping back.
- **Spark parameter trie** (`SparkTrie`, `SparkPrinter`, `SparkSurvivors`). Heap nodes with an index of paths; the
  recursive printer and a reader of its tokens.
- **Schema compilers** (`AirbyteClasses`, `AirbyteTypes`, `DataprocConfigs`). Reference closure of class maps and the
  JSON values that a generated type allows; full inlining of `$ref`s with termination by schema rank.
- **Changelog script** (`ChangelogReview`, `ChangelogKeys`, `ChangelogSections`, `ChangelogText`). The key-driven review
  as a state machine and as nested loops; the decision as a function of the keys pressed; grouping, stable sorting
  and rendering, and what a reader finds in the text.
- **Table preview** (`TablePreview`). The cache against the query it saves.

## What the code does that its documentation or its purpose would not suggest

Each point is proved below, with the exact condition under which the promise holds.

- The upload thread tests `empty()` and then `is_set()`; the two reads are not one step. If `close` runs in
  between, the thread leaves and "closed" stays in the queue (`PipesProtocol.ExitTestRace`). This is the only way to
  lose a message (`PipesProtocol.DeliveredIffNotLeaving`), and what is lost is exactly what was put after the last
  `empty()` read (`PipesProtocol.DeliveredOnReturn`).
- The upload interval is compared with `timedelta.seconds`, which starts again every day. The delay of interval + 1
  passes is guaranteed if and only if passes are at most 86399 seconds minus the interval apart, to the microsecond
  (`UploadDelay.DelayBoundIsExact`); when messages can wait for ever is stated exactly as well
  (`UploadDelay.StarvationIsExact`).
- `report_asset_materialization` is documented to raise when no assets are in scope; with an explicit key it does
  not (`ContextLifecycle.ExplicitKeyWithoutScope`; when it is accepted is stated by
  `ContextLifecycle.MaterializationAccepted`).
- `validate_puzzle` compares words in upper case and `validate_guess` does not, so a validated puzzle can be won if
  and only if its words are upper-case, trimmed and free of commas (`ConnectionsGame.Winnable`,
  `ConnectionsExamples.SmallLetterCannotBeWon`). A correct last guess loses if and only if the puzzle lists a word of the
  last group in another case (`ConnectionsGame.LastGuessWins`, `ConnectionsExamples.CorrectGuessLoses`).
- The ty printer loses empty arrays of tables and does not quote keys (`TyConfigRoundTrip.RoundTrip`,
  `TyConfigRoundTrip.EmptyArrayIsLost`).
- A Spark parameter is not printed when another one continues its path with "root"
  (`SparkSurvivors.EachConfigOnce`, `SparkSurvivors.RootHidesParent`).
- A nullable object written as a type list refers to a class `object` that is never defined
  (`AirbyteClasses.NullableObjectIsNotClosed`; when all references are defined is stated by
  `AirbyteClasses.ClosedIffWordsKnown`). A required property whose name is changed by sanitizing comes
  out optional (`AirbyteClasses.RequiredFieldTurnsOptional`, `AirbyteClasses.RequiredNameIsSanitized`),
  and an object or union that is not required does not (`AirbyteClasses.OptionalFields`).
- Two enums of the same property name but different values overwrite each other
  (`DataprocConfigs.EnumsKeptIffNoClash`, `DataprocConfigs.SameFieldNameClashes`).
- Table names are said to hold word characters only; one that ends in a newline is accepted
  (`TablePreview.NewlineIsAccepted`, `TablePreview.WordsIffNoNewline`).
- With no commits to review, the changelog script writes its notice into the changelog
  (`ChangelogSections.NoticeIsWritten`), and internal commits are then dropped
  (`ChangelogSections.InternalReachesText`); whenever it writes, the old title without its `#` stays in the middle of the
  file (`ChangelogSections.OldTitleStays`).

## Model

| member | source | states |
|---|---|---|
| `AssetKeyPath.ToAssetKeyPath` | python_modules/dagster-pipes/dagster_pipes/__init__.py:198-222 | The loop over characters, parts and the escape flag computes the recursive reading of the string, on every string |
| `AssetKeyPath.PiecesOfEscaped` | python_modules/dagster-pipes/dagster_pipes/__init__.py:207-216 | Reading an escaped part in front of any text adds exactly that part to the text's first piece |
| `AssetKeyPath.RoundTrip` | python_modules/dagster-pipes/dagster_pipes/__init__.py:198-222 | Escaping and joining a list of parts parses back to it if and only if its last part is not empty (or there is none) |
| `AssetKeyPath.EscapeJoinInjective` | python_modules/dagster-pipes/dagster_pipes/__init__.py:198-222 | No two lists with a non-empty last part share an escaped form |
| `PipesChannel.BatchDelivered` | python_modules/dagster-pipes/dagster_pipes/__init__.py:704-708 | A drained batch reaches the reader whole and in order, an empty one is not uploaded, and indices stay 1 to counter - 1 |
| `PipesChannel.IterationKeepsMessages` | python_modules/dagster-pipes/dagster_pipes/__init__.py:697-709 | One undisturbed pass keeps delivered plus queued messages, in order, and leaves only on an empty queue |
| `PipesChannel.BlobChannel.WriteMessage` | python_modules/dagster-pipes/dagster_pipes/__init__.py:670-671 | The message goes to the end of the queue; nothing else changes |
| `PipesChannel.BlobChannel.FlushMessages` | python_modules/dagster-pipes/dagster_pipes/__init__.py:673-677 | Returns the whole queue in order and leaves it empty |
| `PipesChannel.BlobChannel.UploadIteration` | python_modules/dagster-pipes/dagster_pipes/__init__.py:697-709 | One pass of the loop body has exactly the effect of the specified pass, including the exit; what the pass does to the interval is stated by `UploadDelay.UploadRestartsInterval` |
| `PipesChannel.BlobChannel.UploadLoop` | python_modules/dagster-pipes/dagster_pipes/__init__.py:695-709 | When other threads act between passes, the loop ends within two passes after the session is closed, with every message delivered in the order it was put |
| `PipesProtocol.StepKeepsInv` | python_modules/dagster-pipes/dagster_pipes/__init__.py:670-709 | Every single access by any thread keeps conservation, numbering, and what the upload thread knows at each point |
| `PipesProtocol.NothingLostInTransit` | python_modules/dagster-pipes/dagster_pipes/__init__.py:665-709 | In every interleaving, chunks in index order, then drained items, then the queue, are exactly the messages put; indices are 1 to counter - 1; draining never blocks |
| `PipesProtocol.DeliveredIsHistory` | python_modules/dagster-pipes/dagster_pipes/__init__.py:644-709 | Told from the actions alone: what is uploaded, drained and queued are, in order, exactly the messages that the threads and `close` put, and `close` sets the session event if and only if every capture thread has stopped |
| `PipesProtocol.DeliveredIffNotLeaving` | python_modules/dagster-pipes/dagster_pipes/__init__.py:644-656 | `close` delivers every message if and only if, at the moment the session event is set, the upload thread is not between the two reads of its exit test with a message queued; this holds in every schedule |
| `PipesProtocol.DeliveredOnReturn` | python_modules/dagster-pipes/dagster_pipes/__init__.py:682-709 | When `close` has returned, the messages delivered are exactly those put before the last `empty()` read, and the rest is still queued |
| `PipesProtocol.LateLookDeliversAll` | python_modules/dagster-pipes/dagster_pipes/__init__.py:689-700 | If that last read happened after the session event was set, every message is delivered |
| `PipesProtocol.ExitTestRace` | python_modules/dagster-pipes/dagster_pipes/__init__.py:700-701 | A run in which `close` falls between the two reads of the exit test and "closed" is never uploaded |
| `PipesProtocol.ClosingStepDescends` | python_modules/dagster-pipes/dagster_pipes/__init__.py:689-709 | After the event is set, every step of whatever thread lowers a bound on the steps left |
| `PipesProtocol.CloseReturns` | python_modules/dagster-pipes/dagster_pipes/__init__.py:682-709 | `close` returns within that bound in every schedule, and some thread can always run until then |
| `PipesProtocol.IterationIsARun` | python_modules/dagster-pipes/dagster_pipes/__init__.py:697-709 | The undisturbed pass is the interleaving in which only the upload thread runs |
| `UploadDelayInRuns.DelayBoundedInEveryRun` | python_modules/dagster-pipes/dagster_pipes/__init__.py:665-709 | In every interleaving of an open session, with messages put at any moment, and with passes at least a second and at most 86399 seconds minus the interval apart, a message put before a pass is in the blob store at most interval + 1 passes later |
| `UploadDelay.UploadDelayBounded` | python_modules/dagster-pipes/dagster_pipes/__init__.py:695-709 | The same for the loop alone, when messages arrive between its passes |
| `UploadDelayInRuns.UploadRestartsIntervalInRuns` | python_modules/dagster-pipes/dagster_pipes/__init__.py:702-708 | In every interleaving of an open session, a step that uploads a chunk starts the interval again: no chunk follows while all later readings lie within the interval after the reading of its pass |
| `UploadDelay.UploadRestartsInterval` | python_modules/dagster-pipes/dagster_pipes/__init__.py:702-708 | The same for the loop alone, whatever arrives between its passes |
| `UploadDelay.IdlePassesDoNotDelay` | python_modules/dagster-pipes/dagster_pipes/__init__.py:697-709 | Passes that find nothing queued do not start the interval: the first message after any number of them is uploaded in its own pass, if that one comes after the interval counted from the upload before them |
| `UploadDelay.DelayBoundIsExact` | python_modules/dagster-pipes/dagster_pipes/__init__.py:702-704 | That delay is guaranteed for all readings if and only if no tick exceeds 86399 seconds minus the whole seconds of the interval; one microsecond more is too much |
| `UploadDelay.StarvationIsExact` | python_modules/dagster-pipes/dagster_pipes/__init__.py:702-704 | Readings for which no pass is ever due exist if and only if ticks of a stated length can occur, for every interval below 86399 seconds |
| `UploadDelay.NothingUploadedWhileStarving` | python_modules/dagster-pipes/dagster_pipes/__init__.py:697-709 | With such ticks, counted from the last upload, nothing is uploaded for any number of passes and whatever is queued |
| `UploadDelay.LongIntervalNeverUploads` | python_modules/dagster-pipes/dagster_pipes/__init__.py:702-704 | An interval of 86399 seconds or more never uploads anything before the session is closed |
| `ContextLifecycle.ResolveMeans` | python_modules/dagster-pipes/dagster_pipes/__init__.py:254-281 | Which key a call means: the one named, if in scope or if nothing is in scope, or the only one in scope |
| `ContextLifecycle.LifeCycle` | python_modules/dagster-pipes/dagster_pipes/__init__.py:1611-1663 | Over every sequence of calls: one "opened" at the start, at most one "closed" and nothing after it, at most one materialization per key, and the recorded keys are those reported |
| `ContextLifecycle.FreshLifeCycle` | python_modules/dagster-pipes/dagster_pipes/__init__.py:1611-1626 | All of this holds for every sequence of calls on a new context |
| `ContextLifecycle.MaterializationAccepted` | python_modules/dagster-pipes/dagster_pipes/__init__.py:1824-1845 | A materialization is accepted if and only if the context is open, the call means a key not yet reported, and the other arguments check |
| `ContextLifecycle.SentByCall` | python_modules/dagster-pipes/dagster_pipes/__init__.py:1640-1663 | Every call on an open context either raises and changes nothing or adds exactly the one message it tells (materialization, check, custom message, external stream, closed with or without exception); which calls raise is stated exactly; a closed context takes only `close`, which then does nothing |
| `ContextLifecycle.MaterializedIffSent` | python_modules/dagster-pipes/dagster_pipes/__init__.py:1827-1845 | A key is in the set of materialized keys if and only if its message was sent |
| `ContextLifecycle.ExplicitKeyWithoutScope` | python_modules/dagster-pipes/dagster_pipes/__init__.py:261-281 | With no assets in scope an explicit key is accepted, although the documentation says that it raises |
| `ContextLifecycle.PipesContext.CloseContext` | python_modules/dagster-pipes/dagster_pipes/__init__.py:1640-1652 | Closing sends one "closed" and is idempotent |
| `ContextLifecycle.PipesContext.WriteMessage` | python_modules/dagster-pipes/dagster_pipes/__init__.py:1659-1663 | A closed context raises and stays as it is; an open one sends the message |
| `ContextLifecycle.PipesContext.ReportAssetMaterialization` | python_modules/dagster-pipes/dagster_pipes/__init__.py:1806-1845 | The method has the specified effect, and a call that raises changes nothing |
| `ContextLifecycle.PipesContext.Report` | python_modules/dagster-pipes/dagster_pipes/__init__.py:1847-1906 | Check results, custom messages and external streams have the specified effect, and a call that raises changes nothing |
| `ConnectionsPuzzle.ParsedWordsAreClean` | examples/docs_projects/project_dspy/dspy_modules/puzzle.py:179-186 | Every word parsed from any response is non-empty, trimmed, upper-case and comma-free |
| `ConnectionsPuzzle.ParseAnswer` | examples/docs_projects/project_dspy/dspy_modules/puzzle.py:179-186 | Parsing undoes joining clean words with ", " |
| `ConnectionsGame.ValidIsPartition` | examples/docs_projects/project_dspy/dspy_modules/puzzle.py:145-174 | A puzzle that validation accepts is sixteen words and four disjoint groups of four distinct words with distinct colours |
| `ConnectionsRules.ValidateMeans` | examples/docs_projects/project_dspy/dspy_modules/puzzle.py:145-174 | Validation accepts a puzzle if and only if it has sixteen words, four groups with exactly the four colours, four words in each, no word twice and the same words in the list as in the groups, all regardless of case; otherwise the error names the first of these that fails |
| `ConnectionsGame.UpperWordsMatch` | examples/docs_projects/project_dspy/dspy_modules/puzzle.py:170-174 | For words that are in upper case, the puzzle's words are exactly those of its groups |
| `ConnectionsGame.AcceptedGuesses` | examples/docs_projects/project_dspy/dspy_modules/puzzle.py:189-230 | A guess is accepted if and only if it is four distinct remaining words |
| `ConnectionsRules.RemainingMeans` | examples/docs_projects/project_dspy/dspy_modules/puzzle.py:221-230 | A word remains if and only if the puzzle lists it and no solved group holds it |
| `ConnectionsRules.GuessMeans` | examples/docs_projects/project_dspy/dspy_modules/puzzle.py:189-218 | A response is accepted as a guess if and only if it is four different words that are still open |
| `ConnectionsRules.ResponseMeans` | examples/docs_projects/project_dspy/dspy_modules/puzzle.py:234-276 | What each response does: a finished game takes none; one that is no guess costs one of three allowances and is told the first reason and the open words; a guess that names no group costs one of four mistakes and is told how many are left |
| `ConnectionsRules.CorrectGuessMeans` | examples/docs_projects/project_dspy/dspy_modules/puzzle.py:258-268 | In a validated game a guess that names a group solves that group, which was open; the fourth one wins and ends the game, and only then the reply does not ask for the next guess |
| `ConnectionsGame.ProcessKeepsInv` | examples/docs_projects/project_dspy/dspy_modules/puzzle.py:234-276 | Each response keeps the counters' relation and the three exclusive limits, spends one unit of the budget, and leaves a finished game alone |
| `ConnectionsGame.PlayKeepsInv` | examples/docs_projects/project_dspy/dspy_modules/puzzle.py:234-276 | The same over every run; an unfinished game has spent one unit per response |
| `ConnectionsGame.GameEndsByNinthResponse` | examples/docs_projects/project_dspy/dspy_modules/puzzle.py:234-276 | From the start of a validated puzzle the ninth response at the latest ends the game |
| `ConnectionsGame.EightResponsesMayNotDo` | examples/docs_projects/project_dspy/dspy_modules/puzzle.py:234-276 | Nine is exact: every puzzle with clean words has eight responses that leave the game open |
| `ConnectionsGame.RemainingCount` | examples/docs_projects/project_dspy/dspy_modules/puzzle.py:221-230 | In every reachable state of every validated puzzle 16 - 4 * solved words remain |
| `ConnectionsGame.LastGuessWins` | examples/docs_projects/project_dspy/dspy_modules/puzzle.py:258-276 | In every reachable state of every validated puzzle with one group unsolved, an accepted guess wins if and only if the puzzle lists that group's words as the group writes them |
| `ConnectionsGame.LastGroupCannotBeMissed` | examples/docs_projects/project_dspy/dspy_modules/puzzle.py:258-268 | So with upper-case words every accepted guess then wins |
| `ConnectionsGame.LastGroupReached` | examples/docs_projects/project_dspy/dspy_modules/puzzle.py:258-268 | Every puzzle with clean words gets to such a state, in which a guess is accepted |
| `ConnectionsGame.SpellingWins` | examples/docs_projects/project_dspy/dspy_modules/puzzle.py:234-268 | From every unfinished state, spelling the unsolved groups in any order wins with one guess each and no mistake |
| `ConnectionsGame.JoinedWordsSpell` | examples/docs_projects/project_dspy/dspy_modules/puzzle.py:179-186 | The comma-joined words of a group of four clean words spell it |
| `ConnectionsGame.Winnable` | examples/docs_projects/project_dspy/dspy_modules/puzzle.py:165-206 | A validated puzzle can be won if and only if all its words are clean |
| `ConnectionsExamples.ExamplesAreValid` | examples/docs_projects/project_dspy/dspy_modules/puzzle.py:145-174 | Validation accepts a puzzle of capital letters, also with one small letter in its list of words, in a group, or in both |
| `ConnectionsExamples.CapitalsCanBeWon` | examples/docs_projects/project_dspy/dspy_modules/puzzle.py:234-268 | The puzzle in capitals can be won and gets to a state with one group left |
| `ConnectionsExamples.SmallLetterCannotBeWon` | examples/docs_projects/project_dspy/dspy_modules/puzzle.py:165-206 | With a small letter in both it is accepted all the same, and no responses win it |
| `ConnectionsExamples.CorrectGuessLoses` | examples/docs_projects/project_dspy/dspy_modules/puzzle.py:258-276 | With a small letter in the last group only, a state is reached in which naming the four words that remain is an accepted guess and a mistake |
| `ConnectionsGame.Game.constructor` | examples/docs_projects/project_dspy/dspy_modules/puzzle.py:57-69 | The initial state: nothing solved, all counters zero |
| `ConnectionsGame.Game.GetRemainingWords` | examples/docs_projects/project_dspy/dspy_modules/puzzle.py:221-230 | Collects the words outside solved groups |
| `ConnectionsGame.Game.ValidateGuess` | examples/docs_projects/project_dspy/dspy_modules/puzzle.py:189-218 | Accepts or gives the first reason to reject, in the order of the code's checks |
| `ConnectionsGame.Game.ProcessGuess` | examples/docs_projects/project_dspy/dspy_modules/puzzle.py:234-276 | The method's new state and reply are those of the state machine |
| `SubscriptionEndpoint.StepKeepsTable` | python_modules/dagster-webserver/dagster_webserver/graphql.py:181-232 | Every step keeps: each uncancelled task is the one the table holds under its id |
| `SubscriptionEndpoint.StepKeepsWire` | python_modules/dagster-webserver/dagster_webserver/graphql.py:403-446 | Every step keeps the order of frames by task and id and the silence after a disconnect |
| `SubscriptionEndpoint.NoTaskLeaks` | python_modules/dagster-webserver/dagster_webserver/graphql.py:181-232 | In every run each task is in the table or cancelled, no id has two uncancelled tasks, and all are cancelled when the endpoint has ended |
| `SubscriptionEndpoint.FrameLanguages` | python_modules/dagster-webserver/dagster_webserver/graphql.py:403-446 | In every run each task sends DATA frames and then at most one COMPLETE, incarnations of an id never interleave, and no operation frame follows a disconnect; which frames are sent is stated by `SubscriptionHistory.FramesAreCalls` |
| `SubscriptionHistory.WireIsHistory` | python_modules/dagster-webserver/dagster_webserver/graphql.py:181-232 | In every run the whole wire is what the actions before the disconnect call for, in their order: ACK for each INIT, ERROR with the id of the START for each rejected subscription, DATA and COMPLETE for the tasks; after the disconnect nothing |
| `SubscriptionHistory.FramesAreCalls` | python_modules/dagster-webserver/dagster_webserver/graphql.py:403-446 | In every run the client of a task gets one DATA frame for each result and for a failing stream, and COMPLETE at the end, as far as these come before the disconnect |
| `SubscriptionHistory.CancelledIffStopped` | python_modules/dagster-webserver/dagster_webserver/graphql.py:222-232 | A task is cancelled if and only if a STOP for its id, or the end of the endpoint, came after its subscription |
| `SubscriptionHistory.TableHoldsUnstopped` | python_modules/dagster-webserver/dagster_webserver/graphql.py:216-228 | While the endpoint runs, the table holds an id if and only if a task of that id was not stopped since |
| `SubscriptionHistory.StartHonoured` | python_modules/dagster-webserver/dagster_webserver/graphql.py:199-202 | A START is honoured if and only if no task of its id is left that was not stopped; otherwise it changes nothing |
| `SubscriptionHistory.LoopLeft` | python_modules/dagster-webserver/dagster_webserver/graphql.py:184-229 | The receive loop has been left if and only if the client terminated or was gone, a subscription raised, the loop noticed the disconnect, or an INIT came after it; a rejected subscription leaves it running |
| `SubscriptionEndpoint.Endpoint.Serve` | python_modules/dagster-webserver/dagster_webserver/graphql.py:181-232 | The receive loop with its `finally` block, over any messages and any steps of tasks and connection at each `await`, is a run of the protocol that receives the messages one by one until the loop is left, ends, and leaves every task it created cancelled |
| `SubscriptionEndpoint.Endpoint.HandleAsyncResults` | python_modules/dagster-webserver/dagster_webserver/graphql.py:403-427 | The loop over a stream appends to the wire one DATA frame per result and one for an exception, and then COMPLETE, if the client is there, and nothing if it is not; and it is a run of the protocol |
| `SubscriptionEndpoint.Endpoint.Finish` | python_modules/dagster-webserver/dagster_webserver/graphql.py:230-232 | The `finally` loop cancels every task of the table and no other |
| `TyConfigPrinter.TomlValueOf` | scripts/run-ty.py:550-559 | The recursive method computes the TOML value of `TyConfigPrinter.TomlOf`, or raises; that it denotes the Python value is `TyConfigPrinter.TomlFaithful` |
| `TyConfigPrinter.TomlFaithful` | scripts/run-ty.py:550-559 | A value gets a TOML value if and only if it holds no mapping, and the TOML value denotes exactly that value, lists and their items included |
| `TyConfigPrinter.SerializeSection` | scripts/run-ty.py:534-547 | The two loops print header, scalar lines and nested tables as specified |
| `TyConfigPrinter.SerializeTyConfig` | scripts/run-ty.py:508-531 | The top-level loop prints one block per table and per item of an array of tables |
| `TyConfigRoundTrip.PrinterDefined` | scripts/run-ty.py:508-559 | The printer succeeds if and only if the shape is supported: mappings and lists of mappings on top, no mapping inside a list below |
| `TyConfigRoundTrip.ReadJoined` | scripts/run-ty.py:531 | The empty lines between sections mean nothing |
| `TyConfigRoundTrip.SectionBodyRead` | scripts/run-ty.py:537-547 | The lines of a section, with nested tables of any depth, rebuild its body at its path and change nothing else |
| `TyConfigRoundTrip.ItemsRead` | scripts/run-ty.py:524-528 | The blocks of an array of tables rebuild its items in order |
| `TyConfigRoundTrip.PrintedMeaning` | scripts/run-ty.py:508-559 | Reading the printed lines of a readable configuration gives the same nested mapping, with the configuration's own values at its leaves |
| `TyConfigRoundTrip.RoundTrip` | scripts/run-ty.py:508-559 | For a supported configuration with distinct keys this holds if and only if all keys are bare and no array of tables is empty |
| `TyConfigRoundTrip.EmptyArrayIsLost` | scripts/run-ty.py:524-528 | An empty array of tables prints nothing and is read back as no key |
| `SparkTrie.Insert` | python_modules/automation/automation/parse_spark_configs.py:246-254 | The pop loop creates what is missing on the path and sets the value; every node that was there stays at its path |
| `SparkTrie.Extract` | python_modules/automation/automation/parse_spark_configs.py:237-256 | The heap trie shows exactly the trie of the kept configurations |
| `SparkTrie.InsertedContents` | python_modules/automation/automation/parse_spark_configs.py:248-254 | One insertion adds the nodes of its path's prefixes and changes the value at its path only |
| `SparkTrie.TrieContents` | python_modules/automation/automation/parse_spark_configs.py:237-256 | Nodes exist exactly for prefixes of inserted paths and hold the last kept configuration with their path; the root has no value |
| `SparkTrie.NoSharing` | python_modules/automation/automation/parse_spark_configs.py:250-253 | No node object is found under two paths |
| `SparkPrinter.Write` | python_modules/automation/automation/parse_spark_configs.py:192-221 | The recursive method over the heap nodes appends exactly the specified tokens, or fails its assertion |
| `SparkPrinter.ReadBack` | python_modules/automation/automation/parse_spark_configs.py:192-221 | The tokens of any node are balanced and read back to its nested mapping, with nothing left over |
| `SparkSurvivors.WriteSucceeds` | python_modules/automation/automation/parse_spark_configs.py:193-194 | For a trie that `extract` built, the leaf assertion holds throughout if and only if some configuration was kept |
| `SparkSurvivors.LookupMeans` | python_modules/automation/automation/parse_spark_configs.py:199-215 | What a reader finds under a list of keys, in terms of the trie |
| `SparkSurvivors.EachConfigOnce` | python_modules/automation/automation/parse_spark_configs.py:199-203 | The last configuration with a path is printed if and only if no configuration's path goes on with "root" from there, and then at one place only |
| `SparkSurvivors.RowIsPrinted` | python_modules/automation/automation/parse_spark_configs.py:199-256 | In terms of the table rows: the last row of a dotted path is found by a reader, at that path or under one more key "root" and nowhere else, if and only if no kept row's path goes on with "root" from there |
| `SparkSurvivors.KeptMeans` | python_modules/automation/automation/parse_spark_configs.py:240-241 | All rows but those of the one parameter that the script leaves out are kept, as often as they come |
| `SparkSurvivors.RootHidesParent` | python_modules/automation/automation/parse_spark_configs.py:199-203 | With the parameters `a` and `a.root` the first is not printed |
| `SparkSurvivors.SerializeConfigs` | python_modules/automation/automation/parse_spark_configs.py:237-269 | From rows to printed schema: succeeds if and only if a row is kept, and the tokens read back to the trie's document |
| `AirbyteClasses.ClassName` | scripts/gen_airbyte_classes.py:33-37 | A class name is never one of the JSON type words that map to a scalar, nor the name of a scalar |
| `AirbyteTypes.CapitalizedAt` | scripts/gen_airbyte_classes.py:21-37 | Each word character of a title stands in the class name at the place of its number, as a capital where a run of word characters begins and unchanged elsewhere |
| `AirbyteTypes.FieldNameAt` | scripts/gen_airbyte_classes.py:21-22 | A field name is the property name with `_` for whatever is neither a letter nor a digit |
| `AirbyteClasses.GetClassDefinitions` | scripts/gen_airbyte_classes.py:188-264 | The loop over properties, with its merges and overwrites, computes the specified class map or raises |
| `AirbyteClasses.GetFieldType` | scripts/gen_airbyte_classes.py:208-260 | The branches that build the type of one property step by step, with the optional mark put around it last, compute the type and classes of `AirbyteClasses.FieldType`; what that type means is `AirbyteTypes.FieldTypeMeans` |
| `AirbyteTypes.FieldTypeMeans` | scripts/gen_airbyte_classes.py:40-260 | The type of every described field has exactly the JSON values that its schema allows: scalars by their type word, lists of the item's values, instances of the classes named by titles, unions of options and of listed types, and `null` where it is listed or where a plain field or array is not required; a plain field keeps its constant |
| `AirbyteTypes.ClassesMean` | scripts/gen_airbyte_classes.py:188-264 | Every class of the result is the class of an object in the schema that has its name, and has a field for each of its properties, with exactly the values that the property allows |
| `AirbyteTypes.ArrayOfStrings` | scripts/gen_airbyte_classes.py:240-259 | A required array of strings holds lists of strings and no string |
| `AirbyteClasses.GetListed` | scripts/gen_airbyte_classes.py:230-234 | The loop over a type list gives the union of its types, or the only one, without `null` |
| `AirbyteClasses.GetOptions` | scripts/gen_airbyte_classes.py:208-219 | The loop over `oneOf` options collects classes and union members |
| `AirbyteClasses.DefineIsClosed` | scripts/gen_airbyte_classes.py:188-264 | It raises if and only if a nested object lacks properties or a title; otherwise its keys are exactly the names of all nested objects, every field mentions only those and the schema's type words, at any nesting, and only a whole field type is optional |
| `AirbyteClasses.ClassMapIsClosed` | scripts/gen_airbyte_classes.py:188-264 | When all type words are scalars, every class that a field refers to is a key of the result, merges or not |
| `AirbyteClasses.ClosedIffWordsKnown` | scripts/gen_airbyte_classes.py:188-264 | For every schema that does not raise, the map is closed if and only if each type word of the classes and fields that no later one replaces is a scalar or a class of the schema |
| `AirbyteClasses.NullableObjectIsNotClosed` | scripts/gen_airbyte_classes.py:230-236 | A nullable object written as a type list breaks closure |
| `AirbyteClasses.LastPropertyWins` | scripts/gen_airbyte_classes.py:206-219 | A field has the type of the last property whose sanitized name it is |
| `AirbyteClasses.OptionalFields` | scripts/gen_airbyte_classes.py:230-259 | A field type is optional if and only if it is a type list with `null`, or a plain field or an array of any kind that is not required; objects and unions never are |
| `AirbyteClasses.RequiredFieldTurnsOptional` | scripts/gen_airbyte_classes.py:258-259 | A required plain property or array of any kind comes out optional if and only if sanitizing changes its name to one that is not required |
| `AirbyteClasses.RequiredNameIsSanitized` | scripts/gen_airbyte_classes.py:204-259 | A required string `a-b` comes out as an optional field `a_b` |
| `DataprocConfigs.RankIrrelevant` | python_modules/automation/automation/parse_dataproc_configs.py:176-180 | The rank that makes the recursion terminate does not influence its result |
| `DataprocConfigs.ParseInlines` | python_modules/automation/automation/parse_dataproc_configs.py:176-230 | At every path the parsed field is the one that the object there calls for, read with references followed: the scalar of its type word, a shape with its keys, a list, or an enum with its values, name and descriptions, required exactly when the description begins with "Required."; no reference is left |
| `DataprocConfigs.ParseSucceeds` | python_modules/automation/automation/parse_dataproc_configs.py:176-226 | Parsing succeeds if and only if no path leads to a missing schema or to an object of unknown type or without what its type needs |
| `DataprocConfigs.RecordedEnums` | python_modules/automation/automation/parse_dataproc_configs.py:191-203 | The enums recorded are exactly those in the field, in the order met |
| `DataprocConfigs.EnumNamedAfter` | python_modules/automation/automation/parse_dataproc_configs.py:176-202 | What names an enum: the schema that a reference leads to, else the property, and inside an array "Component", with the descriptions that the array gives |
| `DataprocConfigs.EnumsKeptIffNoClash` | python_modules/automation/automation/parse_dataproc_configs.py:191-202 | After parsing, every enum of the field is the one known by its name if and only if no two paths of the schema, read with references followed, lead to different enums of one name |
| `DataprocConfigs.SameFieldNameClashes` | python_modules/automation/automation/parse_dataproc_configs.py:191-202 | A schema whose second enum takes the name of the first |
| `DataprocConfigs.PrintedIffDescribed` | python_modules/automation/automation/parse_dataproc_configs.py:79-82 | Printing raises if and only if a field that is not hidden inside another one has no description |
| `DataprocConfigs.FieldReadsBack` | python_modules/automation/automation/parse_dataproc_configs.py:61-119 | The printed tokens of any field are balanced and read back, with nothing left over, as the field without its output-only parts: keys, types, enum names, descriptions and required marks |
| `DataprocConfigs.ShowFieldsMeans` | python_modules/automation/automation/parse_dataproc_configs.py:77-95 | What is read back of a mapping are the fields that are not hidden, each with its key, required mark and description |
| `DataprocConfigs.HiddenMeans` | python_modules/automation/automation/parse_dataproc_configs.py:79-81 | A field is hidden if and only if its description contains "Output only" |
| `DataprocConfigs.PrintField` | python_modules/automation/automation/parse_dataproc_configs.py:61-119 | The recursive printer with its loop over fields appends exactly the specified tokens, or raises |
| `DataprocConfigs.ConfigParser.ParseObject` | python_modules/automation/automation/parse_dataproc_configs.py:176-230 | The method's field, or exception, and its writes to `all_enums` are the specified ones |
| `DataprocConfigs.ConfigParser.ExtractSchemaForObject` | python_modules/automation/automation/parse_dataproc_configs.py:232-239 | Starts from no enums; every enum name in the printed configuration is imported and defined, and the configuration reads back as the parsed schema |
| `ChangelogReview.ReviewedCommits` | scripts/generate_changelog.py:880-896 | The gathering passes on every documented commit, for review or as internal; what is reviewed is a commit as it came, or an undocumented one of the public repository with the placeholder entry |
| `ChangelogReview.ReviewedIff` | scripts/generate_changelog.py:880-896 | Exactly which commits come up for review and as what, and exactly which are included as internal |
| `ChangelogReview.CategoriesCycle` | scripts/generate_changelog.py:632-645 | The categories of a repository follow each other in a circle, and any other category leads to the first |
| `ChangelogReview.PeriodFixed` | scripts/generate_changelog.py:174-183 | Adding a period settles the question and never yields an empty or placeholder entry |
| `ChangelogKeys.NeedsPeriodMeans` | scripts/generate_changelog.py:174-183 | A period is offered if and only if the entry, which is not the placeholder, ends, white space apart, in something other than a full stop, exclamation mark, question mark or closing bracket |
| `ChangelogReview.PressKeepsInv` | scripts/generate_changelog.py:945-1308 | Every key in every mode keeps: commits change only in category, entry, prefix and thanks, later ones not at all, and the accepted list is the one chosen by the decisions |
| `ChangelogReview.OutcomeKeepsInv` | scripts/generate_changelog.py:929-1308 | For every input and every prompt or AI answer the review ends, and ends in such a state |
| `ChangelogReview.ReviewAccepts` | scripts/generate_changelog.py:929-1061 | A review that ends normally decided about every commit; the accepted ones are distinct, in review order, documented, and lack a period only where it was declined |
| `ChangelogReview.DecisionsStay` | scripts/generate_changelog.py:1030-1061 | No later key edits a decided commit or takes an acceptance back |
| `ChangelogReview.AcceptAll` | scripts/generate_changelog.py:929-1045 | One accept per commit takes them all when each is documented and ends properly |
| `ChangelogReview.EditCommit` | scripts/generate_changelog.py:1063-1270 | The keys c, p, e, g, t and d change the displayed commit and its settings as `ChangelogReview.Choose` says; what the keys mean for the decision is stated by `ChangelogKeys.KeysDecide`, `ChangelogKeys.KeysCycle` and `ChangelogKeys.LastEditStands` |
| `ChangelogKeys.KeysDecide` | scripts/generate_changelog.py:956-1061 | The accept key skips the displayed commit if and only if `d` was pressed an odd number of times (even, if it was displayed as discarded or the AI suggested to skip it) since the last suggestion; else a documented commit that ends properly is taken, thanked as displayed or suggested and flipped once per `t`, and an undocumented one is refused |
| `ChangelogKeys.KeysAnswerPeriod` | scripts/generate_changelog.py:997-1045 | Where a period is missing, `y` after the accept key takes the commit with the period added and any other key takes it as it is |
| `ChangelogKeys.KeysCycle` | scripts/generate_changelog.py:1063-1073 | Each `c` since the last suggestion moves the category one place on in the circle of the repository |
| `ChangelogKeys.LastEditStands` | scripts/generate_changelog.py:1085-1211 | The entry is the one of the last `e` or `g` that changed it, and the prefix the one of the last `p`, `e` or `g`, with a prefix found in a typed entry used only if it is valid |
| `ChangelogKeys.TextStands` | scripts/generate_changelog.py:1063-1270 | Without such keys the entry and the prefix stay as displayed |
| `ChangelogKeys.DiscardThenAccept` | scripts/generate_changelog.py:1219-1253 | `d` and Enter skip a documented commit; `t` and Enter take it with its thanks flipped |
| `ChangelogKeys.EndingKeys` | scripts/generate_changelog.py:966-972 | An escape sequence changes nothing; `q` and Ctrl-C cancel the review for good, and the end of the input ends it with an exception |
| `ChangelogReview.AcceptCommit` | scripts/generate_changelog.py:993-1045 | Accepting a documented commit, with the offer of a period |
| `ChangelogReview.InteractiveReview` | scripts/generate_changelog.py:929-1317 | The nested loops end as the state machine does, with the same accepted and processed commits |
| `ChangelogSections.SortMeans` | scripts/generate_changelog.py:1320-1331 | The sort is a permutation, ordered by the prefix key, and keeps equal keys in order |
| `ChangelogSections.StableSortIsUnique` | scripts/generate_changelog.py:1348 | Any stable sort by this key gives the same list |
| `ChangelogSections.SectionMeans` | scripts/generate_changelog.py:1334-1367 | Each commit of a listed category is printed as often as accepted, under its own heading, sorted and stable; others are not printed; headings are the categories in use, in order |
| `ChangelogSections.PrintedOrder` | scripts/generate_changelog.py:1320-1331 | Below a heading, entries without a prefix come before those of `ui`, these before others, longer prefixes before shorter, equally long ones by alphabet |
| `ChangelogText.BulletMeans` | scripts/generate_changelog.py:1351-1366 | A bullet gives back the prefix and the entry of its commit, and the entry is followed by thanks to the author if and only if the commit was taken with thanks and its author has a name |
| `ChangelogText.TextLines` | scripts/generate_changelog.py:1342-1366 | The text split at its line ends is one line for each bullet and a heading between two empty lines for each category |
| `ChangelogText.FinishedText` | scripts/generate_changelog.py:1292-1317 | A finished review gives the header, the accepted commits with thanks and then the internal ones without, and nothing else |
| `ChangelogText.AcceptedIsPrinted` | scripts/generate_changelog.py:1030-1366 | Each commit accepted in a category of the changelog has its bullet in the text |
| `ChangelogSections.DocumentedSection` | scripts/generate_changelog.py:1334-1367 | Grouping in a dictionary, sorting and appending give the specified text, with or without thanks |
| `ChangelogSections.InteractiveChangelogGeneration` | scripts/generate_changelog.py:874-1317 | Gathering, review and rendering together give the specified text or exception |
| `ChangelogSections.FileUntouched` | scripts/generate_changelog.py:1405-1426 | The changelog file is left alone if and only if there were commits to review and their review was broken off |
| `ChangelogSections.OldTitleStays` | scripts/generate_changelog.py:1409-1415 | Of the old file's title only the `#` is cut off; the rest stays between the new and the old releases |
| `ChangelogSections.NoticeIffNothingToReview` | scripts/generate_changelog.py:911-916 | The answer is the notice if and only if there is nothing to review |
| `ChangelogSections.NoticeIsWritten` | scripts/generate_changelog.py:1408-1415 | Whenever there is nothing to review, the notice is written in front of the old changelog |
| `ChangelogSections.InternalReachesText` | scripts/generate_changelog.py:1301-1317 | The internal commits reach the text if and only if there is something else to review and its review ends normally |
| `ChangelogSections.InternalAloneIsDropped` | scripts/generate_changelog.py:884-916 | A documented internal commit alone is gathered and then dropped |
| `TablePreview.ParseTableMeans` | python_modules/dagster-webserver/dagster_webserver/data_preview.py:62-69 | Exactly the qualified names of valid tables are accepted, and each is taken apart again |
| `TablePreview.WordsIffNoNewline` | python_modules/dagster-webserver/dagster_webserver/data_preview.py:18-20 | The parts of an accepted name hold word characters only if and only if the name has no newline |
| `TablePreview.NewlineIsAccepted` | python_modules/dagster-webserver/dagster_webserver/data_preview.py:62-69 | The name `a.b.c` followed by a newline is accepted |
| `TablePreview.ClampRows` | python_modules/dagster-webserver/dagster_webserver/data_preview.py:72-77 | Between 1 and 1000 rows, and what was asked for when it is in range |
| `TablePreview.KeysAreDistinct` | python_modules/dagster-webserver/dagster_webserver/data_preview.py:91-95 | Equal cache keys mean the same table, row count and version |
| `TablePreview.CachedIffAnswered` | python_modules/dagster-webserver/dagster_webserver/data_preview.py:95-105 | A key is in the cache if and only if an earlier call with it was answered |
| `TablePreview.VersionedHit` | python_modules/dagster-webserver/dagster_webserver/data_preview.py:98-101 | With a version, a call is a hit if and only if the same preview was answered before |
| `TablePreview.VersionedHitIsFresh` | python_modules/dagster-webserver/dagster_webserver/data_preview.py:98-105 | A call with a version shows what the query would answer now, if contents change only with the version |
| `TablePreview.HitIffRecentlyQueried` | python_modules/dagster-webserver/dagster_webserver/data_preview.py:95-105 | A call is a hit if and only if the query answered a call for the same preview before and, with no version, the last such answer is less than 60 seconds old; a hit repeats that last answer, and any other call returns or raises what the query does now |
| `TablePreview.UnversionedHitIsRecent` | python_modules/dagster-webserver/dagster_webserver/data_preview.py:98-101 | A hit without a version shows what was answered for the same table and row count less than 60 seconds earlier, and not later when the clock never goes back |
| `TablePreview.Previews.FetchTablePreview` | python_modules/dagster-webserver/dagster_webserver/data_preview.py:80-105 | The method's reply and its new cache are the specified ones |

## Left out

- Uploads to S3, GCS, Azure, DBFS and files: an uploaded chunk is an entry of a list. Uploads that raise are not modelled.
- JSON text of messages: a non-empty line without a newline; TOML scalar text (`json.dumps`, `str`) is opaque.
- Standard output and error capture: each capture thread is a producer that stops before the session event is set.
- The 60-second limit of `thread.join` and the daemon thread that outlives it.
- `PipesContext.close` when leaving its resources raises, and contexts used from several threads at once.
- Encoding and decoding of parameters, which is compression and JSON of libraries.
- Upper case, letters and digits beyond ASCII; a lower-cased key is a single character.
- Cancellation inside asyncio: a cancelled task takes no more send steps. Subscription execution is a result or an exception.
- Quoted TOML keys: the interpreter reads bare keys and dotted table names only. Duplicate keys of a dict cannot occur.
- `SparkConfig.write`: the text of one field is one token; the table parser and the whitespace clean-up are not modelled.
- Checks, annotations and docstrings generated from an Airbyte type, and schemas whose type entries have unexpected shapes.
- Cyclic `$ref`s, on which `parse_object` does not terminate; the order of imports; the text of enum definitions.
- The terminal display, key capture, PR lookup, git and AI calls: arbitrary inputs of the review. A prompt that hits the end of its input is not modelled.
- ChangelogReview.EditCommit: the cleaned text and the prefix found in a typed entry are arbitrary, which covers the regular expressions of the script.
- The sort of Python's lists: modelled by the unique stable sort.
- Running the preview query, reading source files and schedules; the cache is used by one thread.
- Scoring of Connections games: linear formulas.
