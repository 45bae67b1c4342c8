# Hot-pluggable external functions: a model in Dafny

The repository is a Firebird external engine that can replace the module holding
the user's functions while calls are under way, together with the test program
that exercises it. This project models the parts of both where the logic is
intricate and proves what they guarantee.

`dafny verify dfyconfig.toml` checks the whole project.

## What is modelled

Names below are those of files; a module bears the name of its file, with the suffix
`Module` where a class has that name (`FbSql`, `FbQuery`, `TestConfig`).

**The hot-reload protocol.** `EngineState` gives the effect of every critical
section of the plugin on the shared state. A module is named by its generation,
its place in the order of installs; since a file is loaded outside the lock, the
order of loading is free. Two machines run any number of threads over that state:

- `Coarse`: each critical section is one step. A thread carries the stack of the
  user procedures it is inside of, each with the module reference it holds, so a
  procedure may make functions, call them and reload in turn.
- `Fine`: taking and leaving a mutex, reading `exec_proc`, promoting the weak
  pointer, each of the two writes of `rebindFunction`, publishing a function, and
  the three effects of `module.reset` with the count are steps of their own.

`CoarseInvariant` and `Laws` prove the guarantees of the coarse machine,
`BindingLaw` states exactly which version a new call runs, `Refinement`,
`FineInvariant` and `FineSteps` prove that the fine machine refines the coarse one,
and `FineLaws` carries the guarantees down and adds those about the mutexes.
`EngineClasses` holds the classes with fields updated in place; their methods are
proved against the operations of `EngineState` that the machines use.

The paper in the repository's root says that after a reload all new invocations
bind to the new version. The code does not do that: a function moves only once
the module it is bound to has expired. `BindingLaw` says when the sentence holds:
`NewCallsRunCurrentIff` for a call that no other thread disturbs, `CallsRunNewerIff`
for every interleaving, and `ThrowsIffNameIsMissing` when a call fails. Two runs show
it failing: in `NewCallMayRunOldVersion` a new call runs the old version, and in
`DisturbedCallMayThrow` a call that alone would run the new one throws.
`FineExample` is a run of the fine machine in which the two fields of a function
disagree.

**The statement preprocessor and binding by name.** `SqlGrammar` says what a
statement text is: a sequence of pieces (comments, literals, quoted identifiers,
parameters, single characters), each complete in its context. A text has at most
one such reading. `SqlSpelling` says in letters what makes up each piece and what a
parameter is called. `SqlOutcome` says when the preprocessor is to succeed and for
which causes it is to fail, without reference to a scanner. `Preprocess` is the
scanner with its cursors and its buffer, proved against both. `Segments` and
`SecondPass` state the rewriting and what a second pass does. `NameChains` and
`FbSql` thread parameters of equal name into linked lists and set them by name.

The code ends a line comment at the letter `r` where a carriage return must be
meant (`test/fbaccess.c:956`). `SqlGrammar.LineEnd` covers both; all results about
the grammar hold for both, the scanner follows the code, and
`SecondPass` says when the code's reading is that of SQL, asked of texts that SQL
reads (`SqlIsReadAsMeantIff`) and of texts that the code reads (`CodeReadsAsSqlIff`).
`CommentIsRejected` is a text of SQL that the code rejects.

**The test program.** `TestMaster`, `TestThreads`, `TestTermination` and `TestLaws`
model the tree of test threads and the shared object by which the last of them is
recognised; `TestOutcome` says exactly when the tests are failed and what success
means. `FunctionList`, `ConfigValue` and `TestConfig` model loading, cloning
and comparing the configuration, and `ConfigDigest` says what the comparison can
tell apart. `FieldOrder` and `FbQuery` model the cache of
column names in the user module's query class.

## Model

| member | source | states |
|---|---|---|
| CoarseInvariant.FailedPromotionIsBehind | src/ps_engine/pse_function.cpp:58-66 | a promotion fails only for a function bound to a generation before the current one |
| CoarseInvariant.NextKeepsInv | src/ps_engine/pse_function.cpp:35-75 | every step of every thread keeps the registry, the bindings, the use counts and the retry budget consistent |
| CoarseInvariant.InstallKeepsInv | src/ps_engine/ps_engine.cpp:93-98 | installing a module keeps the accounts of the new, the previous and all other modules |
| CoarseInvariant.RunInv | src/ps_engine/ps_engine.cpp:59-100 | so it is in every state of every run |
| Laws.RunExtends | src/ps_engine/ps_engine.cpp:248-261 | version law (a): over any run a function is never bound to an older generation than before |
| Laws.RunningCallsAreSafe | src/ps_engine/pse_function.cpp:56-64 | every procedure being executed, at any depth of nesting, is the entry for its function's name in a module that is alive and was never torn down |
| Laws.SupersededHasHolder | src/ps_engine/ps_engine.cpp:94-95 | a superseded module that is alive has a running caller |
| Laws.TornExactlyWhenUnheld | src/ps_engine/pse_module.h:140-147 | the use count is one for the engine plus the references on all stacks; a module is torn down at most once, exactly when that sum is zero |
| Laws.DeadForever | src/ps_engine/pse_function.cpp:28-33 | an expired module is never promoted again |
| Laws.OldVersionNeedsCompany | src/ps_engine/pse_function.cpp:58-63 | version law (b): a call starts in a superseded module only while another running call holds it |
| Laws.AfterDrainOnlyNewer | src/ps_engine/ps_engine.cpp:248-261 | version law (c): once the holders of superseded modules have drained, only the generation current then, or later ones, ever run |
| Laws.FailuresAreAttempts | src/ps_engine/pse_function.cpp:58-70 | the history kept with a call counts its promotion attempts and remembers the installs before it |
| Laws.RetryBound | src/ps_engine/pse_function.cpp:58-70 | a call makes at most two attempts plus one for every install during it |
| Laws.QuietCallSucceeds | src/ps_engine/pse_function.cpp:58-70 | with no install during the call the attempt after a rebind promotes the current module |
| Laws.RunGrowsRegistry | src/ps_engine/ps_engine.cpp:59-83 | over any run names are never removed or remapped, objects keep their name and kind, and an installed module is never unset |
| Laws.RegistryIsConsistent | src/ps_engine/ps_engine.h:131-137 | the count is the number of installs, objects are registered under their own name, special names shadow module tables |
| Text.MatchingNames | src/ps_engine/ps_engine.h:131-137 | names match ignoring case exactly if they are of equal length and differ at most between a letter A to Z and the same small letter |
| Laws.SpecByName | src/ps_engine/ps_engine.h:131-137 | pse_reload_module and pse_get_module_info in any case are the two special functions, every other name is ordinary |
| Laws.MakingByName | src/ps_engine/ps_engine.cpp:59-83 | a registered name yields its object and changes nothing; another yields a new object bound to the current module; nothing is yielded exactly if the name is unregistered, not special and not in the current table |
| Laws.MadeForever | src/ps_engine/ps_engine.cpp:64-65 | in every run, once making a name has yielded a function, every later making of it by any thread yields the same one and changes nothing |
| Laws.CallGoesByName | src/ps_engine/pse_function.cpp:40-58 | in every run a call of a function named pse_reload_module goes to loading, of pse_get_module_info to asking, of any other name to its first attempt |
| Laws.ReloadAndAsk | src/ps_engine/ps_engine.cpp:85-100 | what is loaded becomes the table of the current module and the reload reports success; loading may fail, which changes nothing; asking tells whether there is a module |
| Laws.UserMayReenter | src/ps_module/my_sum_args.cpp:63-78 | from any depth of nesting user code may make, call and reload, and returning gives control back to the caller below |
| Laws.FailedReloadChangesNothing | src/ps_engine/ps_engine.cpp:85-100 | a reload reports success exactly if it installed a module; a failed one changes nothing |
| BindingLaw.CallOfLiveBinding | src/ps_engine/pse_function.cpp:58-64 | an undisturbed new call of a function whose module is alive runs that module's procedure |
| BindingLaw.CallOfDeadBindingHit | src/ps_engine/pse_function.cpp:65-69 | undisturbed, if its module has expired and the current table has the name, it runs the current entry |
| BindingLaw.CallOfDeadBindingMiss | src/ps_engine/pse_function.cpp:66-67 | undisturbed, if the current table lacks the name it throws and changes nothing |
| BindingLaw.NewCallsRunCurrentIff | src/ps_engine/pse_function.cpp:56-70 | the law for an undisturbed call: it runs the current version if and only if its function is bound to it, or nobody is inside the module it is bound to and the current table has the name |
| BindingLaw.NeverBehindAgain | src/ps_engine/ps_engine.cpp:252-258 | from a state on in which a function is bound to the current module, or nobody is inside the module it is bound to, it is never promoted to a module older than the one current there, whatever other threads do |
| BindingLaw.CallsRunNewerIff | src/ps_engine/pse_function.cpp:56-70 | the exact law for every interleaving: in all continuations of a run, calls of a function that begin to execute run the version current at its end, or a later one, if and only if the function is in such a state there |
| BindingLaw.LaterCallsRunNewer | src/ps_engine/pse_function.cpp:58-63 | the same said of the step at which a call of any thread begins to execute |
| BindingLaw.ThrowsIffNameIsMissing | src/ps_engine/pse_function.cpp:66-69 | under any interleaving a rebind makes the call throw exactly if no module is installed or the current table lacks the name, and otherwise sends it to another attempt |
| BindingLaw.OnlyRebindThrows | src/ps_engine/pse_function.cpp:65-67 | a call throws nowhere else |
| BindingLaw.DisturbedCallMayThrow | src/ps_engine/pse_function.cpp:65-67 | a run in which an undisturbed call would run the current version, but another thread installs a module without the name before the rebind, and the call throws |
| BindingLaw.RestoredNameIsCallable | src/ps_engine/ps_engine.cpp:248-261 | a later version that has the name again makes the same object callable |
| BindingLaw.NewCallMayRunOldVersion | src/ps_engine/pse_function.cpp:58-63 | a run after which a new call runs the old version although the new one is installed |
| FineSteps.BothWritesAreRebind | src/ps_engine/ps_engine.cpp:255-257 | the two writes together are the rebind of the coarse machine |
| FineSteps.ReleaseCompletesInstall | src/ps_engine/ps_engine.cpp:94-96 | letting the previous module go completes what the pointer exchange began |
| FineSteps.StepSimulates | src/ps_engine/pse_function.cpp:28-75 | every step of the fine machine is a coarse step of the same thread at the point of effect of its critical section, and invisible elsewhere |
| FineSteps.StepRefines | src/ps_engine/ps_engine.cpp:59-100 | so every fine step, under its image, is a coarse step, and the fine invariant is kept |
| FineSteps.RunRefines | src/ps_engine/ps_engine.cpp:59-261 | the image of every fine run is a coarse run, for every interleaving |
| FineLaws.RunningCallsAreSafe | src/ps_engine/pse_function.cpp:28-64 | the safety of running procedures in every state of the mutex-level protocol |
| FineLaws.BindingNeverGoesBack | src/ps_engine/ps_engine.cpp:255-257 | the weak pointer field itself, whenever its mutex is free, never moves to an older generation |
| FineLaws.OldVersionNeedsCompany | src/ps_engine/pse_function.cpp:30-32 | a promotion that yields another than the current module finds it on a stack or in an install that has not let it go |
| FineLaws.AfterDrainOnlyNewer | src/ps_engine/pse_function.cpp:58-69 | version law (c) for the mutex-level protocol |
| FineLaws.TornExactlyWhenUnheld | src/ps_engine/pse_module.h:140-147 | the use count of a module is one if it is the engine's, one if an install has yet to let it go, and one for each reference on a stack; it is torn down at most once, exactly when that is zero |
| FineLaws.FreeFunctionIsBound | src/ps_engine/ps_engine.cpp:255-257 | whenever func_mutex of an ordinary function is free, exec_proc is the entry for its name in the module that weak_module_ptr designates |
| FineLaws.BetweenTheWrites | src/ps_engine/ps_engine.cpp:256-257 | in every run, between the two writes, that holds exactly if the old and the new module have the same procedure under the name; both do have the name |
| FineExample.FieldsDisagree | src/ps_engine/ps_engine.cpp:256-257 | a run to a state between the two writes in which it does not hold |
| FineLaws.RunGrowsRegistry | src/ps_engine/ps_engine.cpp:59-83 | over every run of the mutex-level protocol names are never removed or remapped, objects keep their name and kind, and a module is never unset |
| FineLaws.FreeEngineIsConsistent | src/ps_engine/ps_engine.cpp:59-100 | whenever engine_mutex is free the count is the number of installs, objects are registered under their own names, and special names shadow module tables |
| FineLaws.NeverBehindAgain | src/ps_engine/pse_function.cpp:30-32 | the law for every interleaving, for the promotions of the mutex-level protocol |
| FineLaws.WaitingDescends | src/ps_engine/ps_engine.cpp:250-255 | a thread waits only for one whose own wait is of lower rank: engine_mutex is always taken before a func_mutex |
| FineLaws.NoWaitCycle | src/ps_engine/ps_engine.cpp:248-261 | in no reachable state is there a cycle of threads waiting for each other |
| FineLaws.Progress | src/ps_engine/ps_engine.cpp:59-100 | whenever a thread is inside the engine, it or a thread it waits for can take a step |
| FineLaws.UserCodeHoldsNoMutex | src/ps_engine/pse_function.cpp:59-63 | no mutex is held while a procedure runs or a file is loaded, so nested calls and reloads can proceed |
| FineLaws.RetryBound | src/ps_engine/pse_function.cpp:58-70 | the bound on promotions, counted as calls of lock() on the weak pointer |
| FineLaws.QuietCallSucceeds | src/ps_engine/pse_function.cpp:58-70 | with no install since the call began, the promotion after a rebind yields the current module |
| FineLaws.MadeForever | src/ps_engine/ps_engine.cpp:62-65 | in every run of the mutex-level protocol later makings of a name yield the function that the first one yielded |
| FineLaws.CallGoesByName | src/ps_engine/pse_function.cpp:40-58 | calls go where the name of the function says, in the mutex-level protocol too |
| FineLaws.UserMayReenter | src/ps_module/my_sum_args.cpp:63-78 | the same freedom of user code there |
| FineLaws.LoadingIsFree | src/ps_engine/ps_engine.cpp:87-92 | loading may fail, changing nothing, or yield any table, which is then installed |
| EngineClasses.TableHasEntries | src/ps_engine/pse_module.h:92-95 | the table of a loaded module has exactly the names of its entries |
| EngineClasses.TableOfLast | src/ps_engine/pse_module.h:92-95 | of entries with equal names the last one counts |
| EngineClasses.PSModule.constructor | src/ps_engine/pse_module.h:88-95 | the loop over the entries builds that table |
| EngineClasses.PSModule.Release | src/ps_engine/pse_module.h:140-147 | dropping the last reference runs the destructor, dropping another does not |
| EngineClasses.PSEFuncImpl.constructor | src/ps_engine/pse_function.h:78-90 | a new function holds the given procedure and module |
| EngineClasses.PSEFuncImpl.LockModule | src/ps_engine/pse_function.cpp:28-33 | the procedure read, and a new strong reference exactly if the module is alive |
| EngineClasses.PSEngine.GetOrAddFunc | src/ps_engine/ps_engine.cpp:59-83 | the registered object if there is one, and then nothing changes; otherwise a new object of that name, bound to the current module and its entry, and registered; nothing exactly if the name is unregistered, not special ignoring case, and not in the current table |
| EngineClasses.PSEngine.RebindFunction | src/ps_engine/ps_engine.cpp:248-261 | it succeeds exactly if the current table has the name; then the function holds the entry there and the current module, otherwise it keeps what it had; the engine changes by Rebind |
| EngineClasses.PSEngine.InstallModule | src/ps_engine/ps_engine.cpp:94-96 | the locked part of a reload: the new module is the current one, held once, the count grows by one, and the previous one loses the reference of the engine |
| EngineClasses.PSEngine.Reload | src/ps_engine/ps_engine.cpp:85-100 | if loading yields a table, that is the table of a new current module, held once, and the reload is counted; nothing changes if loading fails |
| EngineClasses.PSEngine.DoGetModuleInfo | src/ps_engine/ps_engine.cpp:221-230 | there is information exactly if a module is installed |
| EngineClasses.PSEngine.LockFunc | src/ps_engine/pse_function.cpp:28-33 | lock_module as a step of the shared state: Retain of the promoted generation, or nothing |
| EngineClasses.PSEngine.ReleaseModule | src/ps_engine/pse_function.cpp:59-63 | leaving a procedure is Release of its generation |
| EngineClasses.PSEngine.Attempt | src/ps_engine/pse_function.cpp:59-69 | one turn of the retry loop: run with the references balanced, or rebind |
| EngineClasses.PSEngine.ExecuteOrdinary | src/ps_engine/pse_function.cpp:57-70 | undisturbed, the loop ends after at most two attempts: it runs the procedure held if its module is alive, else the entry for the name in the current table, and fails exactly if neither is there |
| EngineClasses.PSEngine.Execute | src/ps_engine/pse_function.cpp:35-75 | by the name of the function, ignoring case: pse_reload_module installs what was loaded or changes nothing, pse_get_module_info says whether there is a module and changes nothing, any other runs the procedure held if its module is alive, else the entry in the current table, or fails |
| EngineClasses.ReboundIsPromotable | src/ps_engine/ps_engine.cpp:255-257 | once rebound, a function is promoted to the current generation |
| SqlGrammar.FirstPieceUnique | test/fbaccess.c:938-1123 | the first piece of a text, and where it ends, are determined by the text |
| SqlGrammar.ReadingsAgree | test/fbaccess.c:938-1123 | any beginning of a reading is a prefix of the complete one |
| SqlGrammar.ReadingUnique | test/fbaccess.c:938-1123 | a text has at most one complete reading |
| SqlSpelling.NameLetters | test/fbaccess.c:921-933 | the characters of a name are digits, letters, the underscore and the dollar sign |
| SqlSpelling.PlainCharacters | test/fbaccess.c:938-1017 | a single character is no quote, no question mark, colon or at sign, and begins no comment |
| SqlSpelling.LineComments | test/fbaccess.c:948-963 | a line comment extends to the next line feed or letter r, in the sense of SQL to the next line feed or carriage return |
| SqlSpelling.BlockComments | test/fbaccess.c:964-986 | a block comment ends at the first star with a slash after it |
| SqlSpelling.Parameters | test/fbaccess.c:1019-1121 | which names may follow a designator and what may follow them; only a question mark may stand alone |
| SqlSpelling.ReadableTexts | test/fbaccess.c:903-1134 | a reading that is to succeed, without recursion: pieces in a row that spell the text, each complete before what follows it, each parameter after something else |
| SqlSpelling.NameFromText | test/fbaccess.c:1051-1119 | the name of a parameter from its spelling: what follows the designator, without quotes, and none exactly if that is empty |
| SqlSpelling.NamesFromText | test/fbaccess.c:1051-1119 | the same for each of the names of a reading, in order |
| SqlSpelling.DoublingRoundTrip | test/fbaccess.c:885-898 | every text with its quotes doubled can stand between quotes, and is read back |
| SqlSpelling.PairedIsDoubled | test/fbaccess.c:885-898 | and nothing else can stand there |
| SqlSpelling.EveryTextCanBeQuoted | test/fbaccess.c:988-1014 | so every text can be written as a literal and as a quoted identifier |
| SqlOutcome.NotStuckAtPiece | test/fbaccess.c:980-1014 | where a piece can be read no cause of failure is present |
| SqlOutcome.SucceedsOrFails | test/fbaccess.c:903-1134 | a text that can be read contains no cause of failure anywhere along any reading |
| SqlOutcome.FailsMeansUnreadable | test/fbaccess.c:905-1057 | a text with a cause of failure has no complete reading with separated parameters |
| CString.StrNCat | test/fbaccess.c:1032-1035 | bounded appending: it succeeds exactly if the terminator still fits |
| Preprocess.FindMatchingDoubleQuote | test/fbaccess.c:885-898 | the closing quote with only doubled quotes before it, or none exactly if the text never closes |
| Preprocess.SkipLiteral | test/fbaccess.c:988-1006 | the same for a literal |
| Preprocess.SkipBlockComment | test/fbaccess.c:969-982 | the first comment end, or none exactly if there is none |
| Preprocess.SkipLineComment | test/fbaccess.c:953-959 | the first line end in the sense of the code |
| Preprocess.SkipPiece | test/fbaccess.c:940-1017 | the cursor moves past one complete piece, or the scan is stuck for the cause given |
| Preprocess.ScanName | test/fbaccess.c:1037-1120 | the same for a parameter; the name handed to the caller is what was written after the designator, without its quotes, and none if that is empty |
| Preprocess.ScannedText | test/fbaccess.c:942-946 | a piece of text keeps the correspondence of cursors, output, names and pieces read |
| Preprocess.ScannedParam | test/fbaccess.c:1028-1038 | and so does a parameter |
| SqlGrammar.RewritingNeverLonger | test/fbaccess.c:1028-1035 | the rewriting of a text is at most as long as the text |
| Preprocess.ScanBounds | test/fbaccess.c:936-938 | hence the output of the scan is never longer than the text up to the last parameter read; PreprocessSQL keeps this, with the order of the cursors, as an invariant of its loop |
| Preprocess.Relay | test/fbaccess.c:1028-1035 | the text since the last parameter and a question mark always fit |
| Preprocess.PreprocessSQL | test/fbaccess.c:903-1134 | it succeeds exactly on the readable texts, yielding their rewriting and, for each parameter in order, the name as it was spelled, in a buffer that always suffices, with the cursor at the end; on all others it fails, for a cause the text contains |
| Segments.CutWeaves | test/fbaccess.c:1028-1131 | input seg1 param1 ... segN paramN tail, output seg1 ? ... segN ? tail, names in order; comments, literals and quoted identifiers lie inside a segment or the tail |
| Segments.SegmentNamesFromText | test/fbaccess.c:1051-1119 | in that weaving the i-th name is what follows the designator in parami, without its quotes |
| Segments.SegmentsNonempty | test/fbaccess.c:1029-1031 | no segment is empty |
| SecondPass.SecondPassOfDetached | test/fbaccess.c:1019-1121 | where nothing attaches to a question mark a second pass is idle and finds as many parameters, all anonymous |
| SecondPass.SecondPassIdleIff | test/fbaccess.c:1019-1121 | a second pass is idle if and only if no identifier name is followed by a double quote and no quoted name by a name character |
| SecondPass.SqlIsReadAsMeantIff | test/fbaccess.c:954-959 | of any text that SQL reads, with separated parameters, the code makes the same reading if and only if no comment of SQL contains the letter r or ends at a carriage return |
| SecondPass.CodeReadsAsSqlIff | test/fbaccess.c:954-959 | of any text that the code reads, its reading is that of SQL if and only if no comment of the code contains a carriage return or was cut short at the letter r |
| SecondPass.CommentIsRejected | test/fbaccess.c:956 | a text that SQL reads and the code rejects, because a literal seems to begin in a comment |
| SecondPass.CommentIsNotOpaque | test/fbaccess.c:956 | a text that both read, where the code finds a parameter inside a comment of SQL |
| NameChains.ChainListsExactly | test/fbaccess.c:1356-1391 | a chain is strictly decreasing and lists exactly the positions that bear its name |
| NameChains.CompatibleIffSameClass | test/fbaccess.c:1251-1288 | types are compatible exactly if both are texts, both numbers or both times; so compatibility is transitive, and compatible types agree on being numeric |
| NameChains.CompatibleTypes | test/fbaccess.c:1251-1288 | the three classes of compatible types, and which types are numeric |
| NameChains.NeighboursSuffice | test/fbaccess.c:1363-1370 | comparing each position with the last one of its name makes all of them pairwise compatible |
| FbSqlModule.ToShortWraps | test/fbaccess.c:1853 | the cast to short wraps, and is the identity on its range |
| FbSqlModule.AssignedCarries | test/fbaccess.c:1844-1885 | an assignment on each numeric type: width and value of the data, scale 0, indicator 0 if the parameter can be null and otherwise kept |
| FbSqlModule.SetParamAsInt | test/fbaccess.c:1844-1885 | it succeeds exactly on numeric types; then the parameter carries the value at the width of its type, modulo 65536 in a short, with scale 0, and is not null; otherwise nothing changes |
| FbSqlModule.ChainsGrow | test/fbaccess.c:1371-1390 | a new node in front of its chain keeps the structure of all chains |
| FbSqlModule.FbSql.Close | test/fbaccess.c:1159-1189 | closing empties parameters, names and nodes, and frees every node allocated since the last close exactly once |
| FbSqlModule.FbSql.BindNames | test/fbaccess.c:1356-1391 | binding succeeds exactly if all parameters of equal name are pairwise compatible, and then the chains are right; also if it fails, the list of allocation visits every node allocated, each once |
| FbSqlModule.FbSql.Prepare | test/fbaccess.c:1291-1405 | preparing succeeds exactly if there is a transaction, the text is readable, the database describes as many parameters, and equal names agree in type; without a transaction nothing changes, the parameters are as described and null where they can be, and after any other failure the statement is closed |
| FbSqlModule.FbSql.ChainsAreExact | test/fbaccess.c:1356-1391 | following the links from a name's entry visits exactly the positions bearing it, in decreasing order, and ends |
| FbSqlModule.FbSql.ChainsAreDisjoint | test/fbaccess.c:1371-1378 | two positions never share a node |
| FbSqlModule.FbSql.ParamByName | test/fbaccess.c:1714-1722 | a node is found exactly if the name occurs, and the links from it visit all its occurrences |
| FbSqlModule.FbSql.OccurrencesAgree | test/fbaccess.c:1251-1288 | all occurrences of a name are numeric or none is |
| FbSqlModule.FbSql.SetByName | test/fbaccess.c:2292-2304 | all or nothing: every occurrence of the name carries the value and none is null, and no other parameter changes; or nothing changes and it fails |
| FbSqlModule.FbSql.SetPbnAsInt | test/fbaccess.c:2292-2304 | the same with the preparation that a closed statement gets first |
| TestMaster.MasterObject.DoFailTests | test/test_pse/test_master.c:79-83 | the tests are failed, and the text is recorded if it is not empty |
| TestMaster.MasterObject.RunThread | test/test_pse/test_master.c:103-122 | a thread is launched, and counted, exactly if nothing failed and the pool accepts it; a refusal fails the tests under the name of the job |
| TestMaster.MasterObject.ReportTestResults | test/test_pse/test_master.c:138-159 | one more report, saying whether anything failed |
| TestMaster.MasterObject.ThreadDone | test/test_pse/test_master.c:161-179 | the count goes down by one; exactly if it is zero and there is no reloader there is a report and an exit code, 0 if nothing failed and else 1 |
| TestMaster.MasterObject.ReloaderGone | test/test_pse/test_master.c:181-197 | a report and an exit code; the tests fail here exactly if the reloader did not end in time |
| TestTermination.AcceptedLaunch | test/test_pse/pse_tests.c:132-134 | a launch adds a thread that was not there to the tree and to the count |
| TestTermination.DepartKeepsInv | test/test_pse/test_master.c:161-179 | a thread that leaves is no longer counted; if the count becomes zero all others have ended |
| TestTermination.ThreadKeepsInv | test/test_pse/pse_tests.c:78-169 | every step of a test thread keeps the invariant |
| TestTermination.ReachableInv | test/test_pse/pse_tests.c:78-203 | the invariant holds after a first launch that succeeded, whatever the schedule |
| TestLaws.CountIsExact | test/test_pse/test_master.c:103-122 | at every release of the lock the count is the number of threads launched and not past their decrement |
| TestLaws.ZeroIsFinal | test/test_pse/test_master.c:168-179 | at zero every launched thread is past its decrement, the count stays zero and nothing is launched any more |
| TestLaws.OneReportOneExit | test/test_pse/test_master.c:161-200 | at most one report and one exit, the exit after the report, when all threads have ended, with the code the report calls for |
| TestLaws.SuccessIsComplete | test/test_pse/pse_tests.c:78-169 | success is reported only if every thread of the tree was launched and ran through all its launches or tests |
| TestLaws.FailureHasErrors | test/test_pse/test_master.c:138-159 | failure is reported only with an error to show |
| TestOutcome.AnythingMayHappen | test/test_pse/pse_tests.c:78-169 | every thread that has not ended may go on, well or badly, and a reload may fail at any time while the reloader runs |
| TestOutcome.ReloaderRunsOn | test/test_pse/test_master.c:181-197 | the reloader runs until it has been waited for in time |
| TestOutcome.RefusalIsNamed | test/test_pse/test_master.c:110-118 | a launch that the pool refuses leaves the tree as it is and is recorded under the name of the job |
| TestOutcome.FailedExactlyIf | test/test_pse/test_master.c:79-83 | on every schedule the tests are failed, with an error to show, exactly if some choice went wrong: the preparations of a thread, a launch, a test, the end of the reloader, or a reload |
| TestOutcome.ReportIsTrue | test/test_pse/test_master.c:138-159 | the one report says success exactly if nothing went wrong on the schedule before it |
| TestOutcome.AllGoodIsSuccess | test/test_pse/test_master.c:161-200 | on a schedule in which all goes well there is never an error, the report is success and the exit code 0 |
| TestOutcome.AllGoodEndsInSuccess | test/test_pse/test_master.c:161-200 | and when it cannot go on, that report and that exit have been made |
| TestOutcome.SuccessMeansTested | test/test_pse/pse_tests.c:78-169 | if success is reported, every thread of the plan that tests has made all its tests, each of which turned out well |
| TestOutcome.FailureStopsWork | test/test_pse/pse_tests.c:88 | after a failure no thread is launched, no test thread goes on to another test, and no thread of a database takes up its launches |
| TestOutcome.NothingLaunchedAfterFailure | test/test_pse/test_master.c:107-108 | after a failure no thread is ever launched again |
| TestLaws.ThreadStepShrinks | test/test_pse/pse_tests.c:78-169 | every step of a thread, a launch included, decreases a bound on the steps of the whole tree |
| TestLaws.SomeThreadCanStep | test/test_pse/test_master.c:161-200 | until the program has been ended some thread can make a step |
| TestLaws.EveryScheduleEnds | test/test_pse/test_master.c:161-200 | no schedule is longer, in steps of threads, than the tree allows, and one that cannot go on has reported and exited exactly once |
| TestLaws.FirstLaunch | test/test_pse/pse_tests.c:198-200 | the first launch succeeds exactly if the pool accepts it and nothing failed before |
| TestLaws.FirstLaunchCounts | test/test_pse/pse_tests.c:198-200 | what a successful first launch leaves: the main thread alone, counted, with nothing failed |
| TestLaws.RefusedLaunchNeverEnds | test/test_pse/pse_tests.c:198-202 | after a refused first launch nobody ever reports or ends the program |
| FunctionList.GetNextToken | test/test_pse/test_config.c:141-151 | the next name of the list and where reading goes on, or the end of the names |
| FunctionList.ReadsList | test/test_pse/test_config.c:181-192 | of a list spelled with any blanks and commas exactly its names are read, and nothing of what stands after an empty item |
| FunctionList.JoinedNamesAreRead | test/test_pse/test_config.c:141-151 | names joined by a comma, a blank, a tab, or a blank and a comma are read back |
| ConfigValue.SameMatch | test/test_pse/test_config.c:153-159 | names equal ignoring case have the same first match |
| ConfigValue.KnownIff | test/test_pse/test_config.c:153-159 | a name is known exactly if it is, ignoring case, that of some function |
| ConfigValue.LoadableFuncIff | test/test_pse/test_config.c:57-71 | a function can be loaded exactly if its category is there and all its fields and those of its tests are filled in |
| ConfigValue.LoadableDbIff | test/test_pse/test_config.c:169-196 | a database can be loaded exactly if it has a path and a list of one or more names, each known, no two the same ignoring case |
| ConfigValue.LoadableIff | test/test_pse/test_config.c:116-123 | a file can be loaded exactly if all its categories can, and there are a server, a port, a user, a password, a database and a function |
| ConfigValue.LoadedFields | test/test_pse/test_config.c:198-313 | what is loaded, field by field; a database refers, name by name, to the first function of that name |
| ConfigValue.DbFields | test/test_pse/test_config.c:279-301 | the fields of a loaded database are those of its category |
| ConfigValue.ClonedExactlyIff | test/test_pse/test_config.c:348-370 | a configuration is cloned field for field exactly if every database refers to the first function of each name |
| ConfigValue.LoadedRefersToFirst | test/test_pse/test_config.c:169-196 | what was loaded has that property, also with names that differ only in case |
| ConfigValue.CloneMayMove | test/test_pse/test_config.c:358-367 | a configuration, not a loaded one, whose clone refers to another function |
| ConfigDigest.SameBytesIffSameFields | test/test_pse/test_config.c:406-446 | of configurations with equally long strings and equally many entries, the digest is fed alike if and only if every fed field agrees, integers as C ints and functions of a database by name |
| ConfigDigest.SameBytesIffEqual | test/test_pse/test_config.c:406-446 | so of such configurations, with no string missing, integers in the range of a C int, and databases that refer to the same positions, the digest is fed alike if and only if they are equal |
| ConfigDigest.CloneFeedsAlikeIff | test/test_pse/test_master.c:207-208 | a configuration and its clone, the pair the program compares, feed the digest alike if and only if every reference kept its name letter by letter |
| ConfigDigest.OtherShapesMayFeedAlike | test/test_pse/test_config.c:389-415 | without the condition that fails: for any functions and databases two configurations whose fields differ and which feed the digest alike |
| TestConfigModule.ExtFunc.Validate | test/test_pse/test_config.c:57-71 | it holds exactly if all fields and all tests are filled in |
| TestConfigModule.FuncByName | test/test_pse/test_config.c:153-159 | the first function whose name matches ignoring case |
| TestConfigModule.AlreadyInDb | test/test_pse/test_config.c:161-167 | whether a listed name matches ignoring case |
| TestConfigModule.ParseDbFunctions | test/test_pse/test_config.c:169-196 | it succeeds exactly if the text is not empty, every name is known and none is listed twice ignoring case; then the database refers to the first match of each name, in order |
| TestConfigModule.TestConfig.Validate | test/test_pse/test_config.c:116-123 | validate_config on the objects is ValidConfig on the value |
| TestConfigModule.LoadFunc | test/test_pse/test_config.c:232-262 | one function with its tests, field by field as the file says, all of new objects |
| TestConfigModule.LoadDb | test/test_pse/test_config.c:279-301 | one database, exactly if its category is there and valid, with the path and the two numbers of that category |
| TestConfigModule.Load | test/test_pse/test_config.c:198-313 | a configuration is loaded exactly if the file is valid in all parts, and says what the file says |
| TestConfigModule.CloneFunc | test/test_pse/test_config.c:333-345 | an equal function of new objects |
| TestConfigModule.CloneReferences | test/test_pse/test_config.c:357-368 | each function of a database is found in the clone's own list, at the first match of its name; the branch called unexpected is never taken |
| TestConfigModule.CloneDb | test/test_pse/test_config.c:350-370 | a new database equal to the original up to these references |
| TestConfigModule.Clone | test/test_pse/test_config.c:320-378 | the clone shares no object with the original and is equal up to the references; there is one exactly if validate_config holds |
| TestConfigModule.FeedDb | test/test_pse/test_config.c:418-426 | the bytes of one database, after what was fed before |
| TestConfigModule.Feed | test/test_pse/test_config.c:406-446 | exactly the bytes of ConfigBytes are fed to the digest |
| TestConfigModule.CompareConfigs | test/test_pse/test_config.c:450-458 | for any digest, the comparison succeeds on configurations that feed it alike |
| TestConfigModule.CloneForThread | test/test_pse/test_master.c:202-214 | a loaded configuration always has a clone, wholly new and equal with the same indices, and the check of the digests never fails |
| FieldOrder.Trichotomy | src/ps_module/fb_iface.h:49-59 | the order's equivalence is equality after lower-casing |
| FieldOrder.StrictWeakOrder | src/ps_module/fb_iface.h:49-59 | the order is a strict weak order |
| FieldOrder.FindsTheMatch | src/ps_module/fb_iface.cpp:240-245 | what is found is the only entry whose key matches ignoring case |
| FieldOrder.FindAfterAssign | src/ps_module/fb_iface.cpp:235-238 | assigning changes what is found for the names that match, and for no other |
| FbQueryModule.FbQuery.Prepare | src/ps_module/fb_iface.cpp:41-62 | it throws on a prepared query; otherwise the columns are those of the new statement |
| FbQueryModule.FbQuery.Close | src/ps_module/fb_iface.cpp:80-108 | the columns are gone, the cache stays |
| FbQueryModule.FbQuery.FieldIdxByName | src/ps_module/fb_iface.cpp:232-247 | the last column whose alias matches ignoring case, or -1 if none does, as long as the cache is empty or of this statement; in general the same of the columns the cache was filled from |
| FbQueryModule.StaleIsRightIff | src/ps_module/fb_iface.cpp:232-247 | an old cache answers rightly for every name exactly if the old and the new columns have the same names, ignoring case, and each name its last column at the same place |
| FbQueryModule.StaleExample | src/ps_module/fb_iface.cpp:80-108 | two statements on one query where it does not |

## Left out

- EngineClasses.PSEngine.Attempt: the user's procedure is a black box there; calls and reloads nested in a procedure are part of the machines.
- EngineClasses.PSEngine.ExecuteOrdinary: the loop as a method runs without interference; with interference it is the subject of RetryBound in Laws and FineLaws.
- EngineClasses.PSEngine.Execute: the same holds of its ordinary case.
- TestTermination.ThreadKeepsInv: the thread procedures are steps of a machine and not methods, because their loops interleave with those of other threads; the operations on the shared object they call are methods of TestMaster.MasterObject.
- FbSqlModule.SetParamAsInt: an integer stored as float or double is kept as the integer it came from; rounding is not modelled.
- CString.StrNCat: strncat_s and strcat_s are taken as in annex K of ISO/IEC 9899:2011; strcat_s is the case of one character.
- FieldOrder.FindAfterAssign: std::map is modelled as a sorted sequence searched through the comparison only; its tree is not part of this model.
- Loading a file (memfd_create, dlopen, dlsym) is an arbitrary failure or an arbitrary table. The path where the entry point is missing (`src/ps_engine/pse_module.h:81-86`) closes the handle and leaves it set, so a module that failed to load is closed twice; teardown is stated for installed modules only.
- What a module's finaliser does: it is taken not to call back into the engine.
- initialize is two reload steps, and makeFunction is getOrAddFunc with an error for a missing entry; neither has a member of its own.
- The text of getModuleInfo and the result buffers of the two special functions.
- Characters outside 1..127 in a statement: the source indexes its table of name characters by a plain char (`test/fbaccess.c:1084`).
- Allocation failures in the test program, its string list, its hash table (an exact map over keys) and its thread pool (a scheduler that may refuse).
- The database and the transaction of a statement are one condition, and the database calls in fb_prepare_sql one answer: the description of the parameters, or none; result columns are not modelled.
- The other setters by name: those for 64-bit integers and timestamps reject some types within a class of compatible ones, so they can stop part-way.
- The reading of the configuration file itself; its categories and values are the input of Load.
- What a test does against the database: each turns out well or not, arbitrarily. Elapsed times and the count of reloads in the report.
- MD5: any function of the bytes fed to it.
- Numeric and text conversions of fetched fields.
