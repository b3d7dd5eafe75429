# A verified model of CMake's FASTBuild generator, Qt AutoGen decisions and the project() command

This project models, in Dafny, the core of a CMake fork that adds a FASTBuild
(`.bff`) generator. The model covers four parts.

- **FASTBuild back end.**
  - The target-readiness ledger (`MapFastbuildInfoTargets`). Each target is registered under the key `name ++ config` with its dependency keys and a counter of dependencies that still block it. `TargetTreatedFinish` marks a target treated and decrements the counters that name it, emitting every target that becomes ready in a cascade. The unregistered-dependency sweep and the final forced pass close it.
  - The global generator's other state: the `.bff` scope writer, the alias table and the rule set.
  - The global generator's helpers: quoting and escaping, configuration selection, the closure-key order, `WriteBuild`'s checks and the custom-command `Exec` section.
  - The per-target generators: name and path normalisers, the partition of a target's sources into object lists, output extensions, the compiler table, the Exe/Lib/Dll naming schemes, the target-type dispatch, link dependencies, output paths, the order-only phony target and the scan/compile split.
  - The link-line filter.
- **Qt AutoGen.**
  - The logger's verbosity and head lines, the settings-file lookup and message paths.
  - `cmQtAutoRcc`: `Init`'s validation and derived paths, and the decision whether the rcc output, the configuration wrapper and the settings file are regenerated, touched or left alone. Time stamps and file-system outcomes form a `Host` value; what a run does is a log of effects.
  - The initializer: the static-library cycle search, the common link targets, search-path sanitizing, the escaped list encoding, unique moc header paths, qrc uniqueness and `-name` options, and Qt version selection.
- **`project()`.** The keyword state machine over the arguments, the version check and split under both CMP0096 behaviours, and the variables it sets, clears or conditionally sets.
- **`get_cmake_property()`.** The value stored for `VARIABLES`, `MACROS`, `COMPONENTS` and any other property.

Each stateful operation is a method on a class (the ledger, the scope writer, the alias table, the rule set, the compiler table, the rcc generator, the logger, the makefile). Its contract ties the new state to a function of the old state. Lemmas then prove what the source promises about those functions. Pure helpers are functions, with lemmas relating them to an inverse or an independent description.

## Model

| member | source | states |
|---|---|---|
| FastbuildTypes.NewRule | Source/cmFastbuildTypes.h:23-41 | a rule built from a name carries that name and every other field empty, and is not a generator rule |
| FastbuildTypes.NewBuild | Source/cmFastbuildTypes.h:43-61 | a build statement built from a rule name carries that rule and no outputs, dependencies, variables or response file |
| FastbuildTypes.EmptyBuild | Source/cmFastbuildTypes.h:46 | the default build statement is the one of the empty rule name |
| BffWriter.ScopeWriter.constructor | Source/cmGlobalFastbuildGenerator.cxx:878-880 | a new writer has no open scope and has written nothing |
| BffWriter.ScopeWriter.Reset | Source/cmGlobalFastbuildGenerator.cxx:878-880 | before the files are written the prefix and the closers are emptied; nothing is written |
| BffWriter.ScopeWriter.PushScope | Source/cmGlobalFastbuildGenerator.cxx:164-170 | the opener is written at the current prefix, then the prefix gains a tab and the closer is remembered; one closer per tab is kept |
| BffWriter.ScopeWriter.PopScope | Source/cmGlobalFastbuildGenerator.cxx:177-186 | with a scope open, the prefix loses a tab and the innermost closer is written at the new prefix and forgotten |
| BffWriter.ScopeWriter.WriteVariable | Source/cmGlobalFastbuildGenerator.cxx:188-195 | one line `.key operation value` at the current prefix; the scope state is unchanged |
| BffWriter.ScopeWriter.WriteCommand | Source/cmGlobalFastbuildGenerator.cxx:197-206 | one line with the command, and its value in parentheses when there is one |
| BffWriter.ScopeWriter.WriteComment | Source/cmGlobalFastbuildGenerator.cxx:135-142 | nothing for an empty comment, otherwise one `// comment` line at the prefix |
| BffWriter.ScopeWriter.WriteArray | Source/cmGlobalFastbuildGenerator.cxx:208-222 | the variable line, the opener, one line per value one level deeper, and the closer at the original prefix; the scope state is restored |
| BffWriter.ScopeWriter.WriteAlias | Source/cmGlobalFastbuildGenerator.cxx:224-232 | an `Alias` section whose `.Targets` lists the given targets, written one level deeper; the scope state is restored |
| BffWriter.SelectedMembers | Source/cmGlobalFastbuildGenerator.cxx:1728-1737 | an alias goes into the "all" list exactly when it was added and is not excluded from all, and into "other" exactly when it is |
| BffWriter.SelectedPartition | Source/cmGlobalFastbuildGenerator.cxx:1728-1737 | the "all" and "other" lists together hold every added alias exactly once |
| BffWriter.SelectedForMembers | Source/cmGlobalFastbuildGenerator.cxx:1745-1768 | in multi-config mode an alias is listed for a configuration exactly when it was recorded for it; one recorded for a configuration other than Debug, RelWithDebInfo and Release is listed nowhere |
| BffWriter.SelectedForRefines | Source/cmGlobalFastbuildGenerator.cxx:1745-1768 | each configuration's list holds only aliases of the single-config list with the same flag |
| BffWriter.AliasTable.constructor | Source/cmGlobalFastbuildGenerator.cxx:1707-1719 | the alias table starts empty |
| BffWriter.AliasTable.Add | Source/cmGlobalFastbuildGenerator.cxx:1707-1719 | a new alias is recorded and appended to the order; an alias already present keeps its first record and position |
| BffWriter.AliasTable.Lists | Source/cmGlobalFastbuildGenerator.cxx:1721-1743 | the "all" and "other" strings are the names of the selected aliases concatenated in insertion order |
| BffWriter.RuleSet.constructor | Source/cmGlobalFastbuildGenerator.cxx:1275-1290 | no rule has been added or written |
| BffWriter.RuleSet.Has | Source/cmGlobalFastbuildGenerator.cxx:1287-1290 | a rule is known exactly when it was written |
| BffWriter.RuleSet.Add | Source/cmGlobalFastbuildGenerator.cxx:1275-1285 | a rule of a new name is stored with its command length and written once; a repeated name changes nothing |
| FastbuildLedger.Ledger.constructor | Source/cmGlobalFastbuildGenerator.cxx:234-249 | the ledger starts with no entry, nothing written and the final sweep not yet done |
| FastbuildLedger.Ledger.CountUntreated | Source/cmGlobalFastbuildGenerator.cxx:251-266 | the count is the number of dependency occurrences, other than the target itself, that are unregistered or registered and untreated |
| FastbuildLedger.UntreatedSplit | Source/cmGlobalFastbuildGenerator.cxx:251-266 | that count is the registered-untreated occurrences plus the unregistered ones |
| FastbuildLedger.Ledger.CanTreat | Source/cmGlobalFastbuildGenerator.cxx:268-277 | a registered target can be treated exactly when it is untreated and its counter is not above zero |
| FastbuildLedger.ReadyIsClear | Source/cmGlobalFastbuildGenerator.cxx:268-277 | with counters that are not too small, a target that can be treated has every registered dependency treated, and before the sweep every dependency registered |
| FastbuildLedger.Ledger.Register | Source/cmGlobalFastbuildGenerator.cxx:234-249 | the key is name followed by configuration; an existing key changes nothing; a new one is stored untreated with its untreated-dependency count, keeps the ledger's counters exact and the written order after dependencies |
| FastbuildLedger.RegisterKeepsCounts | Source/cmGlobalFastbuildGenerator.cxx:234-249 | registering a new target with its pending count keeps every other counter exact |
| FastbuildLedger.PendingAfterTreating | Source/cmGlobalFastbuildGenerator.cxx:279-296 | treating targets lowers another target's pending count by exactly their occurrences among its dependencies |
| FastbuildLedger.TreatingKeepsCounts | Source/cmGlobalFastbuildGenerator.cxx:279-296 | treating targets and decrementing by their occurrences keeps every counter exact |
| FastbuildLedger.Ledger.Treat | Source/cmGlobalFastbuildGenerator.cxx:279-296 | treating a ready target writes it first, then every target made ready by the cascade; afterwards counters are exact, no untreated target is ready, and every written target comes after its registered dependencies |
| FastbuildLedger.FewerUntreated | Source/cmGlobalFastbuildGenerator.cxx:279-296 | each treatment leaves fewer untreated targets, so the cascade ends |
| FastbuildLedger.Ledger.Generate | Source/cmFastbuildNormalTargetGenerator.cxx:63-121 | without a linker language the target fails with the CMake message and the ledger is unchanged; otherwise it is registered under name+config and written at once exactly when nothing blocks it; earlier writes are kept; a blocked new target only adds its entry, a ready one is finished from the table with that entry added (written first, the cascade after it, counters lowered by exactly the newly treated targets) |
| FastbuildLedger.Ledger.SubtractMissing | Source/cmGlobalFastbuildGenerator.cxx:298-313 | every untreated counter loses one per dependency occurrence that has no entry; nothing else changes |
| FastbuildLedger.SweepMakesSwept | Source/cmGlobalFastbuildGenerator.cxx:298-313 | after the sweep each counter counts only the registered untreated dependencies |
| FastbuildLedger.Ledger.LastChance | Source/cmGlobalFastbuildGenerator.cxx:315-327 | the sweep, then every target that became ready is treated; earlier writes are kept, and no untreated target is left ready; lists, configurations and treated flags carry over, every target written by the pass was untreated before it, and each counter is the swept one less the occurrences of the targets the pass treated |
| FastbuildLedger.StuckWaitsOnStuck | Source/cmGlobalFastbuildGenerator.cxx:315-327 | after the last pass every untreated target waits on another registered untreated target |
| FastbuildLedger.Ledger.Leftovers | Source/cmGlobalFastbuildGenerator.cxx:329-344 | the targets reported are the untreated ones in key order, and each waits on another reported target |
| GlobalEncoding.Quote | Source/cmGlobalFastbuildGenerator.cxx:119-124 | an empty string stays empty; any other string gains the quotation on each side |
| GlobalEncoding.QuoteRoundTrip | Source/cmGlobalFastbuildGenerator.cxx:119-124 | removing the quotation again gives back the string |
| GlobalEncoding.EncodeRule | Source/cmGlobalFastbuildGenerator.cxx:365-380 | an encoded rule name holds only letters, digits and '_' |
| GlobalEncoding.RuleNameRoundTrip | Source/cmGlobalFastbuildGenerator.cxx:365-380 | decoding the encoded name (letters and digits kept, every other character as '_' and two hex digits) gives back the name |
| GlobalEncoding.EncodeRuleName | Source/cmGlobalFastbuildGenerator.cxx:365-380 | the character loop computes the encoding, which decodes to the name and uses only rule-name characters |
| GlobalEncoding.Escape | Source/cmGlobalFastbuildGenerator.cxx:382-408 | escaping never shortens a string |
| GlobalEncoding.EscapeRoundTrip | Source/cmGlobalFastbuildGenerator.cxx:382-408 | when '$' is itself escaped, unescaping gives back the string |
| GlobalEncoding.EscapePlain | Source/cmGlobalFastbuildGenerator.cxx:382-408 | a string without special characters is left as it is |
| GlobalEncoding.EscapeDollar | Source/cmGlobalFastbuildGenerator.cxx:386 | doubling every '$' is escaping with '$' as the only special |
| GlobalEncoding.LiteralEscape | Source/cmGlobalFastbuildGenerator.cxx:384-387 | the two replacements in order ('$' doubled, then newline prefixed by '$') are one escape of both characters |
| GlobalEncoding.LiteralRoundTrip | Source/cmGlobalFastbuildGenerator.cxx:382-393 | in a single-config generator the encoded literal is that escape and unescapes back to the literal |
| GlobalEncoding.LiteralKeepsIntDir | Source/cmGlobalFastbuildGenerator.cxx:388-391 | in a multi-config generator a `$` followed by the configuration directory comes out unchanged |
| GlobalEncoding.PathRoundTrip | Source/cmGlobalFastbuildGenerator.cxx:395-408 | in a single-config generator an encoded path escapes '$', newline, space and ':' and unescapes back to the path |
| GlobalConfig.ListSubsetWithAll | Source/cmGlobalFastbuildGenerator.cxx:1351-1372 | the loop computes the subset function: the items as a set, the defaults for "all" alone, none for an unknown item or "all" with others |
| GlobalConfig.SubsetWithAllCases | Source/cmGlobalFastbuildGenerator.cxx:1351-1372 | no items give the empty set; "all" alone gives the defaults; an unknown item or "all" beside others is rejected |
| GlobalConfig.SubsetWithAllWithin | Source/cmGlobalFastbuildGenerator.cxx:1351-1372 | an accepted subset lies within the known configurations |
| GlobalConfig.ConfigurationList | Source/cmGlobalFastbuildGenerator.cxx:3234-3240 | the configuration list is never empty: it is the one empty configuration or a list of non-empty names |
| GlobalConfig.GetCrossConfigs | Source/cmGlobalFastbuildGenerator.cxx:3060-3066 | the cross configurations plus the file configuration, and nothing else |
| GlobalConfig.SelectionConsistent | Source/cmGlobalFastbuildGenerator.cxx:3232-3306 | an accepted selection has a default file configuration among the configurations, cross configurations within them, and defaults within the cross ones plus the file configuration |
| GlobalConfig.UnknownDefaultBuildType | Source/cmGlobalFastbuildGenerator.cxx:3243-3256 | a default build type that is not a configuration fails with the message naming it |
| GlobalConfig.DefaultConfigsNeedCross | Source/cmGlobalFastbuildGenerator.cxx:3273-3287 | default configurations other than the build type, without cross configurations, fail |
| GlobalConfig.ExpandEmpty | Source/cmGlobalFastbuildGenerator.cxx:3234-3237 | an empty list variable expands to no item |
| GlobalConfig.ExpandSingle | Source/cmGlobalFastbuildGenerator.cxx:3234-3237 | a non-empty value without ';' expands to itself |
| GlobalConfig.PlainSelection | Source/cmGlobalFastbuildGenerator.cxx:3232-3306 | with none of the three selection variables set, the first configuration is the default file configuration, there are no cross configurations, and it alone is the default |
| GlobalConfig.SubsetOfOne | Source/cmGlobalFastbuildGenerator.cxx:3289-3303 | a single default configuration is accepted as itself |
| GlobalConfig.CrossAll | Source/cmGlobalFastbuildGenerator.cxx:3258-3271 | CMAKE_CROSS_CONFIGS "all" selects every configuration |
| GlobalConfig.KeyLessIrreflexive | Source/cmGlobalFastbuildGenerator.cxx:75-83 | no closure key is below itself |
| GlobalConfig.KeyLessTransitive | Source/cmGlobalFastbuildGenerator.cxx:75-83 | the order of closure keys (target, then configuration, then genex output) is transitive |
| GlobalConfig.KeyLessTotal | Source/cmGlobalFastbuildGenerator.cxx:60-83 | two closure keys are equal or one is below the other |
| GlobalConfig.KeyLessAsymmetric | Source/cmGlobalFastbuildGenerator.cxx:75-83 | no two closure keys are each below the other |
| GlobalConfig.DerivedOperators | Source/cmGlobalFastbuildGenerator.cxx:85-104 | `<=`, `>=` and `>` agree with `<` and equality |
| GlobalConfig.ImplFilename | Source/cmGlobalFastbuildGenerator.cxx:3197-3202 | the implementation file name is its prefix, the configuration and the extension |
| GlobalConfig.ConfigFilename | Source/cmGlobalFastbuildGenerator.cxx:3204-3209 | the configuration file name is its prefix, the configuration and the extension |
| GlobalConfig.FilenamesInjective | Source/cmGlobalFastbuildGenerator.cxx:3197-3209 | different configurations get different file names of each kind |
| GlobalConfig.FilenamesApart | Source/cmGlobalFastbuildGenerator.cxx:3197-3209 | no implementation file name is a configuration file name |
| BuildStatement.TrimClean | Source/cmGlobalFastbuildGenerator.cxx:767 | a value without white space at either end is kept whole by the trimming WriteVariable applies |
| BuildStatement.TrimIdempotent | Source/cmGlobalFastbuildGenerator.cxx:767 | trimming twice is trimming once |
| BuildStatement.WriteVariable | Source/cmGlobalFastbuildGenerator.cxx:752-775 | an empty name is an error; otherwise nothing is written exactly when the value is only white space |
| BuildStatement.ResponseFileThreshold | Source/cmGlobalFastbuildGenerator.cxx:494-497 | a negative limit always uses a response file, a zero limit never does, a positive one when the statement plus 1000 exceeds it; a longer statement never switches back |
| BuildStatement.WriteBuild | Source/cmGlobalFastbuildGenerator.cxx:410-516 | a statement fails exactly when it has no rule or no output, with the message for the first check that fails, naming the comment; a written statement adds its outputs to the combined outputs exactly while unknown dependencies are computed, and disables cleandead exactly when it binds "dyndep" |
| BuildStatement.WriteBuildResponseFile | Source/cmGlobalFastbuildGenerator.cxx:494-505 | a well-formed statement uses the response file under a negative limit and never under a zero one |
| BuildStatement.ReadEscaped | Source/cmGlobalFastbuildGenerator.cxx:395-408 | an escaped path followed by a space or the end is read back as that path and the rest |
| BuildStatement.PathListRoundTrip | Source/cmGlobalFastbuildGenerator.cxx:430-478 | in single-config mode the space-separated encoded path lists of a statement split back into the original paths, spaces and colons included |
| BuildStatement.JoinCommands | Source/cmGlobalFastbuildGenerator.cxx:591-602 | the counting loop yields the only command, or every command but the first joined with " && " |
| BuildStatement.SplitCommand | Source/cmGlobalFastbuildGenerator.cxx:626-631 | executable and arguments concatenate to the command; the executable holds no space and the arguments start with one |
| BuildStatement.ExecutableOfSecondCommand | Source/cmGlobalFastbuildGenerator.cxx:591-631 | with several commands, the executable is the first word of the second command |
| BuildStatement.ExecOutput | Source/cmGlobalFastbuildGenerator.cxx:604-611 | without a random file name, a single output is the Exec output |
| BuildStatement.ExecNameOfRandomFile | Source/cmGlobalFastbuildGenerator.cxx:604-638 | with a random file name, a single output's Exec name is that file name up to its first dot |
| BuildStatement.WriteCustomCommandBuild | Source/cmGlobalFastbuildGenerator.cxx:581-672 | the Exec section's executable and arguments, output, name (name of the output file plus configuration, '-' turned into '_'), working directory ("./" when empty) and stdout flag; the alias table gains the record name+"-deps" → name for the configuration, excluded from "all" as requested, unless that alias is already known; nothing else changes |
| LinkLine.Contribution | Source/cmFastbuildLinkLineComputer.cxx:20-33 | an item contributes nothing exactly when it is not on the link line (a target or a path) |
| LinkLine.ComputeLinkLibs | Source/cmFastbuildLinkLineComputer.cxx:15-35 | the loop computes the link line: each plain item's value followed by a space |
| LinkLine.LinkLibsConcat | Source/cmFastbuildLinkLineComputer.cxx:15-35 | the link line of two item lists is the concatenation of their link lines |
| LinkLine.LinkLibsEmpty | Source/cmFastbuildLinkLineComputer.cxx:15-35 | the link line is empty exactly when no item is on it |
| LinkLine.LinkLibsSingle | Source/cmFastbuildLinkLineComputer.cxx:21-32 | a target (interface library or not) or a path contributes nothing; any other item its value and a space |
| LinkLine.LinkLibsDropFiltered | Source/cmFastbuildLinkLineComputer.cxx:21-28 | removing an item that is not on the link line leaves the link line unchanged |
| NormalTarget.ListNamesDistinct | Source/cmFastbuildNormalTargetGenerator.cxx:696-697 | object lists with different numbers get different names |
| NormalTarget.SourceOptions | Source/cmFastbuildNormalTargetGenerator.cxx:678-688 | a source's options are its flags, its defines between two spaces (with `\"` unescaped for GNU and Clang) and its includes |
| NormalTarget.ComputeObjectLists | Source/cmFastbuildNormalTargetGenerator.cxx:664-715 | the loop splits the sources, in order, into maximal runs that share options, object directory and extension, numbered from 1; the last list is written even when empty, which happens only without sources |
| NormalTarget.PartitionCount | Source/cmFastbuildNormalTargetGenerator.cxx:664-715 | the number of object lists is one more than the number of places where a source's key differs from the one before |
| NormalTarget.InputFiles | Source/cmFastbuildNormalTargetGenerator.cxx:707 | each input file is the source's full path in double quotes |
| NormalTarget.WriteObjectListsFB | Source/cmFastbuildNormalTargetGenerator.cxx:610-732 | the lists partition the sources under the base name (short name plus "_obj", and "_" plus the configuration in multi-config mode); only an object library records the alias base name + "_deps" → base name, in "all", unless that alias is already known; nothing else changes in the alias table |
| NormalTarget.ObjectExtension | Source/cmFastbuildNormalTargetGenerator.cxx:746-751 | ".res" for resources, else ".o" for GNU and Clang and ".obj" otherwise, prefixed by the language's source extension; an rc source gets ".rc.res" |
| NormalTarget.ObjectCompilerOverride | Source/cmFastbuildNormalTargetGenerator.cxx:753-784 | a compiler is overridden exactly for rc, c and cpp sources in a target of another language; otherwise the list uses `.Compiler` + language + configuration + target name with '-' doubled to "__" |
| NormalTarget.DeclareAllFacts | Source/cmFastbuildNormalTargetGenerator.cxx:427-535 | declared are exactly the listed languages that are not yet known and have a compiler, each once |
| NormalTarget.NewCompilersOnce | Source/cmFastbuildNormalTargetGenerator.cxx:427-553 | no language is declared twice or once known; C, CXX and RC with a compiler are declared; the linker language is known afterwards |
| NormalTarget.CompilerTable.constructor | Source/cmFastbuildNormalTargetGenerator.cxx:427-553 | no compiler section has been written |
| NormalTarget.CompilerTable.Add | Source/cmFastbuildNormalTargetGenerator.cxx:534 | a language not yet declared is written and recorded |
| NormalTarget.CompilerTable.Declare | Source/cmFastbuildNormalTargetGenerator.cxx:427-553 | the languages written are the new compilers of the call, in order, and the table grows by exactly them |
| TargetNames.GetNameFile | Source/cmFastbuildNormalTargetGenerator.cxx:155-181 | the name holds no '.' and is a prefix of the path after its last separator |
| TargetNames.NameFileOneSeparator | Source/cmFastbuildNormalTargetGenerator.cxx:155-181 | with only one kind of separator, the name is the text after the last one, up to its first '.' |
| TargetNames.NameFileNoSeparator | Source/cmFastbuildNormalTargetGenerator.cxx:155-181 | without separator, the name is the path up to its first '.' |
| TargetNames.NameFileBothSeparators | Source/cmFastbuildNormalTargetGenerator.cxx:166-171 | when both '/' and '\\' occur, the name keeps the last separator as its first character (no +1 in that branch) |
| TargetNames.FileOfPath | Source/cmFastbuildNormalTargetGenerator.cxx:238-252 | the file part of dir + "/" + file is file |
| TargetNames.FileLibraryNameAt | Source/cmFastbuildNormalTargetGenerator.cxx:253-270 | a file name with a last dot gets the part before it, the tag of its extension and the configuration suffix |
| TargetNames.LibraryNameOfPath | Source/cmFastbuildNormalTargetGenerator.cxx:234-273 | a library's name depends only on its file name, not its directory |
| TargetNames.LibraryNameOfArchive | Source/cmFastbuildNormalTargetGenerator.cxx:257-258 | a ".lib" or ".a" file is named name + "_lib" (+ "_" + configuration in multi-config mode) |
| TargetNames.LibraryNameOfShared | Source/cmFastbuildNormalTargetGenerator.cxx:259-260 | a ".so" file is named name + "_dll" (+ the configuration suffix) |
| TargetNames.LibraryNameOfManifest | Source/cmFastbuildNormalTargetGenerator.cxx:262-265 | a ".manifest" file is ignored: the name is empty |
| TargetNames.LibraryNameWithoutDot | Source/cmFastbuildNormalTargetGenerator.cxx:266-272 | a file without '.' is named by the configuration suffix alone, empty in single-config mode |
| TargetNames.GetOutputExtension | Source/cmFastbuildNormalTargetGenerator.cxx:275-285 | "c", "cpp" and "rc" for C, CXX and RC, empty for every other language |
| TargetNames.GetPath | Source/cmFastbuildNormalTargetGenerator.cxx:287-295 | the directory part: empty without '/', otherwise the prefix up to and including the last '/' |
| TargetNames.GetPathIdempotent | Source/cmFastbuildNormalTargetGenerator.cxx:287-295 | taking the directory part twice is taking it once |
| TargetNames.ReplaceDashWithUnderscores | Source/cmFastbuildNormalTargetGenerator.cxx:308-318 | the find-and-replace loop turns each '-' into "__": no '-' is left and the string grows by one per '-' |
| TargetNames.GetShortOutputName | Source/cmFastbuildNormalTargetGenerator.cxx:897-908 | the short output name has neither '-' nor '.' |
| TargetNames.StripQuoteEscapes | Source/cmFastbuildNormalTargetGenerator.cxx:297-306 | stripping never lengthens the text and keeps a first character that is not a backslash |
| TargetNames.StripLeavesNoEscape | Source/cmFastbuildNormalTargetGenerator.cxx:297-306 | after stripping no `\"` is left |
| TargetNames.StripClean | Source/cmFastbuildNormalTargetGenerator.cxx:297-306 | text without `\"` is left unchanged |
| TargetNames.StripIdempotent | Source/cmFastbuildNormalTargetGenerator.cxx:297-306 | stripping twice is stripping once |
| TargetNames.RemoveBackslashBeforeDoubleRib | Source/cmFastbuildNormalTargetGenerator.cxx:297-306 | the find-and-erase loop removes the backslash before each double quote until no `\"` is left |
| TargetNames.RemoveDuplicateName | Source/cmFastbuildNormalTargetGenerator.cxx:142-153 | the names, each once, in ascending order |
| TargetNames.GetFileDeps | Source/cmFastbuildNormalTargetGenerator.cxx:184-198 | the link dependencies other than ".manifest" files, each once, in ascending order |
| TargetNames.GetNameDepsTargets | Source/cmFastbuildNormalTargetGenerator.cxx:131-140 | exactly the file names of the dependencies followed by the configuration, each once, ascending |
| TargetNames.DropLibPrefix | Source/cmFastbuildNormalTargetGenerator.cxx:212-219 | a "lib" prefix is dropped exactly for GNU and Clang |
| TargetNames.LibraryDependency | Source/cmFastbuildNormalTargetGenerator.cxx:207-228 | a dependency contributes only a non-empty library name |
| TargetNames.LibraryDependencyRegistered | Source/cmFastbuildNormalTargetGenerator.cxx:207-228 | a dependency contributes only when its ledger key is registered; for other compilers it contributes its library name exactly when that name is non-empty and its key registered |
| TargetNames.GetNameTargetLibraries | Source/cmFastbuildNormalTargetGenerator.cxx:201-232 | exactly the contributed library names, each once, ascending |
| TargetNames.DedupOfSomes | Source/cmFastbuildNormalTargetGenerator.cxx:201-232 | deduplicating the contributed names keeps exactly the contributions |
| TargetNaming.TargetPlanShape | Source/cmFastbuildNormalTargetGenerator.cxx:354-410 | compilers are written first and the ledger told last; a link node is written exactly for executables and static, shared and module libraries, always after the object lists; object lists are written for those and object libraries; a header comes exactly with the types not fully supported |
| TargetNaming.ExecutableNames | Source/cmFastbuildNormalTargetGenerator.cxx:925-936 | the executable's object list is named like the one WriteObjectListsFB writes |
| TargetNaming.LibraryNames | Source/cmFastbuildNormalTargetGenerator.cxx:1028-1046 | the library's object list is named like the one WriteObjectListsFB writes |
| TargetNaming.DllNamesFixed | Source/cmFastbuildNormalTargetGenerator.cxx:1112-1123 | the Dll writer's own Lib node is the import library ("_slib") WriteLibraryFB names |
| TargetNaming.NodeNamesDistinct | Source/cmFastbuildNormalTargetGenerator.cxx:925-1123 | the node, object list and alias names of one target differ, so no alias shadows its node |
| TargetNaming.StaticLibraryReferenced | Source/cmFastbuildNormalTargetGenerator.cxx:1028-1046 | a static library's node is the name its dependents compute from its import library, and its alias that name + "_deps" |
| TargetNaming.DllNodeReferenced | Source/cmFastbuildNormalTargetGenerator.cxx:1112-1137 | a Dll node is the name its dependents compute from its import library |
| TargetNaming.DllAliasAsWrittenMissed | Source/cmFastbuildNormalTargetGenerator.cxx:1117 | as written, the single-config Dll alias ends in "-deps" and is not the alias executables reference |
| TargetNaming.DllAliasReferenced | Source/cmFastbuildNormalTargetGenerator.cxx:974-986 | with the alias named node + "_deps", the Dll's alias is the one its dependents reference |
| TargetNaming.DllNamesMultiConfig | Source/cmFastbuildNormalTargetGenerator.cxx:1118-1123 | in multi-config mode the names as written and as corrected agree |
| TargetNaming.TargetNameAlias | Source/cmFastbuildNormalTargetGenerator.cxx:988-994 | the target-name alias is added in single-config mode exactly for MSVC, and in multi-config mode only for the default file configuration |
| TargetNaming.AddExecutableAliases | Source/cmFastbuildNormalTargetGenerator.cxx:976-994 | the alias table gains the executable's alias, listing each library alias (name + "_deps") then the executable, in "all"; when due, the target name as alias of the executable, outside "all"; an alias already known keeps its first record and nothing else changes |
| TargetNaming.ConcatQuotedAliases | Source/cmFastbuildNormalTargetGenerator.cxx:978-982 | the loop concatenates each library name + "_deps", quoted |
| TargetNaming.AddStaticLibraryAlias | Source/cmFastbuildNormalTargetGenerator.cxx:1077-1090 | only a static library records its alias, listing its libraries then itself, in "all", unless the alias is already known; otherwise the table is unchanged |
| TargetNaming.ConcatQuoted | Source/cmFastbuildNormalTargetGenerator.cxx:1080-1084 | the loop concatenates each name, quoted |
| TargetNaming.AddDllAlias | Source/cmFastbuildNormalTargetGenerator.cxx:1155-1182 | the alias table gains the Dll's alias, listing its libraries then the Dll node, in "all", unless the alias is already known; nothing else changes. The alias is named node + "_deps", the corrected name of the Findings table |
| TargetNaming.DllArguments | Source/cmFastbuildNormalTargetGenerator.cxx:1147-1153 | MSVC adds " /dll", GNU and Clang " -shared", other compilers nothing; the link flags come first |
| TargetGenerator.New | Source/cmFastbuildTargetGenerator.cxx:45-64 | the normal generator exactly for executables, shared, static, module and object libraries; the utility generator exactly for utilities, interface libraries and global targets; none otherwise |
| TargetGenerator.NormalGeneratorWritesObjects | Source/cmFastbuildTargetGenerator.cxx:45-64 | a target gets the normal generator exactly when its plan writes object lists; the utility types get a "not available" header |
| TargetGenerator.MapPaths | Source/cmFastbuildTargetGenerator.cxx:353-356 | each path is converted, in order |
| TargetGenerator.LinkDepsShape | Source/cmFastbuildTargetGenerator.cxx:334-378 | static and object libraries (unless the type is ignored) and targets without link information have no link dependency; otherwise the link dependencies, module definition sources, manifests and user link dependencies, converted, in that order |
| TargetGenerator.TargetFilePathParts | Source/cmFastbuildTargetGenerator.cxx:467-476 | the path ends with the name; its directory part is the output directory, none for "" or "." |
| TargetGenerator.LowerCase | Source/cmFastbuildTargetGenerator.cxx:406-409 | each character lowered, length kept |
| TargetGenerator.PreprocessedExtensionPlain | Source/cmFastbuildTargetGenerator.cxx:403-417 | the preprocessed extension never starts with 'F' and is never "fpp"; "FPP" and "fpp" give "f"; an extension without a leading 'F' other than "fpp" is kept |
| TargetGenerator.PreprocessedExtensionNoSlash | Source/cmFastbuildTargetGenerator.cxx:403-417 | the extension gains no '/' |
| TargetGenerator.PreprocessedBesideObject | Source/cmFastbuildTargetGenerator.cxx:400-434 | the preprocessed file lies in the object file's directory and shares its name up to the object extension |
| TargetGenerator.FileUnderPrefix | Source/cmFastbuildTargetGenerator.cxx:428-433 | a file name after a directory ending in '/' has that directory as its path |
| TargetGenerator.ConfigFlags | Source/cmFastbuildTargetGenerator.cxx:961-965 | " /FS" is appended exactly for Debug and RelWithDebInfo |
| TargetGenerator.OrderOnlyDeps | Source/cmFastbuildTargetGenerator.cxx:1060-1075 | the order-only dependencies sorted and deduplicated, or the target directory alone when there are none; never empty |
| TargetGenerator.OrderOnlyPhony | Source/cmFastbuildTargetGenerator.cxx:1033-1078 | a phony statement, commented with the target name, whose one output is the order-depends target and whose order-only dependencies are those, sorted, unique and never empty |
| TargetGenerator.ScanVariablesDistinct | Source/cmFastbuildTargetGenerator.cxx:1212-1271 | the variable names the scan statement binds are pairwise different |
| TargetGenerator.ScanVariables | Source/cmFastbuildTargetGenerator.cxx:1212-1271 | the scan statement gets IN_ABS, FLAGS, DEFINES and INCLUDES of the compile statement, OBJ_FILE, the .ddi file, the converted depfile of its first output, and the .modmap file exactly when a module-map format is set, and no other variable |
| TargetGenerator.CompileVariables | Source/cmFastbuildTargetGenerator.cxx:1209-1262 | when preprocessing, the compile statement loses IN_ABS (and DEFINES unless compiled with them) and its depfile; otherwise it keeps them; FLAGS and INCLUDES are kept (bound to "" when missing), and every other variable keeps its value |
| TargetGenerator.GetScanBuildStatement | Source/cmFastbuildTargetGenerator.cxx:1189-1276 | the dependencies move to the scan statement when preprocessing, the compile statement then depending only on the preprocessed file, and are copied otherwise; outputs, implicit outputs and response file as the source sets them; the scan statement has no comment and binds IN_ABS, FLAGS, DEFINES, INCLUDES, OBJ_FILE, the .ddi file, the depfile of its first output and, exactly when a module-map format is set, the .modmap file, and nothing else; the compile statement's variables as CompileVariables states |
| QtAutoGenerator.StrToULong | Source/cmQtAutoGenerator.cxx:50 | a value is accepted only if it is a non-empty run of decimal digits below 2^64 |
| QtAutoGenerator.StrToULongDecimal | Source/cmQtAutoGenerator.cxx:50 | the decimal text of a number below 2^64 reads back as that number |
| QtAutoGenerator.RaisedAsWritten | Source/cmQtAutoGenerator.cxx:47-55 | the verbosity as written, with the 64-bit value cast to 32 bits, stays below 2^32 |
| QtAutoGenerator.RaiseAsWrittenLowers | Source/cmQtAutoGenerator.cxx:51-53 | a value of 2^32 or more whose low 32 bits are below the current verbosity lowers it |
| QtAutoGenerator.Raised | Source/cmQtAutoGenerator.cxx:47-55 | the verbosity never decreases; it rises exactly when the value reads as a larger number, and becomes that number when it fits, the largest 32-bit value otherwise |
| QtAutoGenerator.RaisedAgrees | Source/cmQtAutoGenerator.cxx:47-55 | for values that fit in 32 bits the corrected and the written behaviour agree |
| QtAutoGenerator.Logger.constructor | Source/cmQtAutoGenerator.cxx:19-43 | the logger starts at the given verbosity |
| QtAutoGenerator.Logger.RaiseVerbosity | Source/cmQtAutoGenerator.cxx:47-55 | the logger's verbosity becomes the corrected raised value (never lower than before), not the value as written |
| QtAutoGenerator.HeadLine | Source/cmQtAutoGenerator.cxx:62-65 | the title, a newline, one '-' per title character and a newline |
| QtAutoGenerator.SettingsFindSpec | Source/cmQtAutoGenerator.cxx:260-275 | without "key:" the value is empty; a non-empty value is the text after the first "key:" up to the next newline, which follows it |
| QtAutoGenerator.SettingsFindRoundTrip | Source/cmQtAutoGenerator.cxx:245-275 | a settings line "key:value\n" as written is found again as value |
| QtAutoGenerator.SettingsFindEmpty | Source/cmQtAutoGenerator.cxx:266-271 | a key at the very end or followed directly by a newline has the empty value |
| QtAutoGenerator.MessagePathRestores | Source/cmQtAutoGenerator.cxx:277-288 | a path under the source directory becomes "SRC:" and the rest, else under the binary directory "BIN:" and the rest, else itself; prefixing the directory back gives the path |
| QtAutoRcc.InitFailureIff | Source/cmQtAutoRcc.cxx:22-126 | Init succeeds exactly when the info file is read, the rcc executable exists and the build directory, include directory, lock file, settings file, executable, qrc file and output name are all given; the second build-directory check can never be the one that fails |
| QtAutoRcc.WrapperIncludes | Source/cmQtAutoRcc.cxx:443-452 | the wrapper's content ends with an include of the multi-config output |
| QtAutoRcc.JobPaths | Source/cmQtAutoRcc.cxx:111-124 | the public rcc file is buildDir/checksum/name; it is also the output in single-config mode; in multi-config mode the output is under the include directory, in the checksum directory |
| QtAutoRcc.SettingsStable | Source/cmQtAutoRcc.cxx:216-240 | a settings file written with the same hash is unchanged, one with another hash or empty is changed |
| QtAutoRcc.QrcRccTestIff | Source/cmQtAutoRcc.cxx:272-327 | the test fails exactly when the qrc file's time cannot be read; it says "up to date" exactly when the output exists, the settings did not change, and the output is no older than the qrc file and the rcc executable |
| QtAutoRcc.ResourcesTestVerdict | Source/cmQtAutoRcc.cxx:329-366 | "up to date" exactly when every resource is no newer than the output; otherwise the first resource that is newer or unreadable decides |
| QtAutoRcc.WrapperDecisionIff | Source/cmQtAutoRcc.cxx:443-492 | the wrapper is written exactly in multi-config mode when its content differs, and touched exactly when it is the same and the build file changed |
| QtAutoRcc.GenerateDecisionOutput | Source/cmQtAutoRcc.cxx:134-141 | deciding not to generate implies the output exists |
| QtAutoRcc.ProcessReleases | Source/cmQtAutoRcc.cxx:128-159 | a successful run ends by releasing the lock |
| QtAutoRcc.ProcessWritesSettings | Source/cmQtAutoRcc.cxx:245-269 | a successful run writes the settings exactly when they changed, and only "rcc:" + the current hash |
| QtAutoRcc.ProcessGeneratesOrTouches | Source/cmQtAutoRcc.cxx:128-159 | rcc runs only when the decision is to generate, the output is touched only when it is not, never both |
| QtAutoRcc.ProcessUpToDate | Source/cmQtAutoRcc.cxx:128-159 | with settings, qrc, resources, rcc executable and info file all up to date, a run only takes and releases the lock |
| QtAutoRcc.AutoRcc.constructor | Source/cmQtAutoRcc.cxx:22-126 | a new generator has issued no effect and no change is recorded |
| QtAutoRcc.AutoRcc.Init | Source/cmQtAutoRcc.cxx:22-126 | the failure is the first failed check of Init; the verbosity is raised, by the corrected rule, when the info file was read; on success the job holds the derived paths |
| QtAutoRcc.AutoRcc.SettingsFileRead | Source/cmQtAutoRcc.cxx:167-243 | the effects and outcome of the read phase: the hash is recorded, and on success whether the settings changed |
| QtAutoRcc.AutoRcc.LockFiles | Source/cmQtAutoRcc.cxx:186-211 | the settings and lock files are created when missing and the lock taken, or the run fails |
| QtAutoRcc.AutoRcc.ReadOldSettings | Source/cmQtAutoRcc.cxx:213-240 | the settings changed when the old file is unreadable or its hash differs, and a changed file is cleared |
| QtAutoRcc.AutoRcc.TestQrcRccFiles | Source/cmQtAutoRcc.cxx:272-327 | the test's verdict is added to the generate flag, which is never cleared |
| QtAutoRcc.AutoRcc.TestResources | Source/cmQtAutoRcc.cxx:329-366 | the resource list is read into the job's inputs (or the run fails), then its verdict is added to the generate flag |
| QtAutoRcc.AutoRcc.TestInfoFile | Source/cmQtAutoRcc.cxx:368-389 | an info file newer than the output makes the output be touched, which counts as a build file change |
| QtAutoRcc.AutoRcc.GenerateRcc | Source/cmQtAutoRcc.cxx:391-441 | the run fails with no effect when the output's parent directory cannot be made; otherwise the directory is made and rcc is run on the qrc file; a failed rcc removes the output, a successful one marks the build file changed |
| QtAutoRcc.AutoRcc.GenerateWrapper | Source/cmQtAutoRcc.cxx:443-492 | the wrapper phase's effects and outcome |
| QtAutoRcc.AutoRcc.SettingsFileWrite | Source/cmQtAutoRcc.cxx:245-269 | the settings are written only when they changed |
| QtAutoRcc.AutoRcc.Finish | Source/cmQtAutoRcc.cxx:151-159 | the wrapper, then the settings, then the lock released |
| QtAutoRcc.AutoRcc.Decide | Source/cmQtAutoRcc.cxx:134-141 | the qrc test, then the resource test unless already generating: the run fails when a test fails, otherwise the decision is that of the tests, not generating means the output exists, and no effect is issued |
| QtAutoRcc.AutoRcc.DecideAndRun | Source/cmQtAutoRcc.cxx:134-159 | after the settings are read, the run's effects and outcome are the decision followed by generation or touching and the final steps |
| QtAutoRcc.AutoRcc.Process | Source/cmQtAutoRcc.cxx:128-159 | the run's effects and outcome are those of the process specification the lemmas above describe |
| QtInitDepends.ReachesStep | Source/cmQtAutoGenInitializer.cxx:101-121 | following a link edge from a reachable target reaches its end |
| QtInitDepends.NotReached | Source/cmQtAutoGenInitializer.cxx:101-121 | a target outside a set closed under link edges is not reachable from inside it |
| QtInitDepends.QueueLibraries | Source/cmQtAutoGenInitializer.cxx:104-120 | the inner loop queues each library of the tested target not yet known; everything known stays reachable from the dependency and every library of the tested target becomes known |
| QtInitDepends.StaticLibraryCycle | Source/cmQtAutoGenInitializer.cxx:87-125 | a cycle is reported exactly when both targets are static libraries and the origin is reachable from the dependency through static-library links |
| QtInitDepends.DependsAsWrittenMiscounts | Source/cmQtAutoGenInitializer.cxx:1034-1053 | as written, a library linked twice in one configuration and absent from another is counted as common, and one linked twice in the only configuration is not |
| QtInitDepends.ConfigCountAll | Source/cmQtAutoGenInitializer.cxx:1049-1052 | a target is counted in every configuration exactly when it is present in each |
| QtInitDepends.CountConfiguration | Source/cmQtAutoGenInitializer.cxx:1036-1047 | one configuration adds one to the count of each library it links (outside a static cycle), once per configuration: the corrected count, not the occurrence count as written |
| QtInitDepends.DependTargets | Source/cmQtAutoGenInitializer.cxx:1030-1053 | the autogen target depends exactly on the libraries present in every configuration |
| QtInitLists.ProjectRelativePathChoice | Source/cmQtAutoGenInitializer.cxx:62-80 | the path relative to the source directory when strictly shorter than the one relative to the binary directory; else that one when shorter than the file name; else the file name |
| QtInitLists.ProjectRelativePathNotShortest | Source/cmQtAutoGenInitializer.cxx:70-78 | the result need not be the shortest of the three |
| QtInitLists.StripSlashesSpec | Source/cmQtAutoGenInitializer.cxx:150-153 | stripping keeps a prefix that does not end in '/' and removes only slashes |
| QtInitLists.StripSlashesIdempotent | Source/cmQtAutoGenInitializer.cxx:150-153 | stripping twice is stripping once |
| QtInitLists.SanitizeSearchPaths | Source/cmQtAutoGenInitializer.cxx:142-160 | the loop computes the sanitized list: each path collapsed, stripped of trailing slashes, kept when non-empty |
| QtInitLists.SanitizedPaths | Source/cmQtAutoGenInitializer.cxx:142-160 | the sanitized list is no longer than the input and holds only non-empty paths without a trailing '/' |
| QtInitLists.EscapeItem | Source/cmQtAutoGenInitializer.cxx:178-195 | the character loop escapes '"', '$', '\\' and ';' with a backslash, up to the first NUL |
| QtInitLists.ListJoin | Source/cmQtAutoGenInitializer.cxx:170-198 | the loop joins the escaped items with ';' |
| QtInitLists.JoinedRoundTrip | Source/cmQtAutoGenInitializer.cxx:170-198 | splitting at unescaped ';' and unescaping gives back any non-empty list of items without NUL |
| QtInitLists.JoinedEmptyAmbiguous | Source/cmQtAutoGenInitializer.cxx:170-198 | the empty list and the list of one empty item are written alike |
| QtInitLists.EscapedStopsAtNul | Source/cmQtAutoGenInitializer.cxx:178 | an item is written only up to its first NUL character |
| QtInitLists.NestedListsCons | Source/cmQtAutoGenInitializer.cxx:244-253 | each nested list is written in braces, separated by the list separator |
| QtInitHeaders.FirstFree | Source/cmQtAutoGenInitializer.cxx:1291-1298 | the first candidate name not yet emitted, all before it being taken, or none when all 1024 are taken |
| QtInitHeaders.PlaceHeader | Source/cmQtAutoGenInitializer.cxx:1291-1298 | the loop picks the first free candidate and records it, or leaves the header without a path |
| QtInitHeaders.HeaderBuildPaths | Source/cmQtAutoGenInitializer.cxx:1283-1300 | the paths are assigned header by header, each against the names emitted before |
| QtInitHeaders.AssignDistinct | Source/cmQtAutoGenInitializer.cxx:1283-1300 | the build paths are pairwise different and none was emitted before |
| QtInitHeaders.AssignComplete | Source/cmQtAutoGenInitializer.cxx:1283-1300 | with at most 1024 emitted names and headers together every header gets a path |
| QtInitHeaders.AssignPlain | Source/cmQtAutoGenInitializer.cxx:1292-1296 | a header whose plain name is free gets base + ".cpp" |
| QtInitHeaders.AssignNumbered | Source/cmQtAutoGenInitializer.cxx:1292-1297 | otherwise it gets base + "_" + k + ".cpp" for some k from 1 |
| QtInitHeaders.AssignSkipsExhausted | Source/cmQtAutoGenInitializer.cxx:1291-1298 | a header whose 1024 candidates are all taken gets no path, so the path list falls out of step with the headers |
| QtInitVersions.CharPtrToUInt | Source/cmQtAutoGenInitializer.cxx:1510-1517 | the value fits in 32 bits |
| QtInitVersions.CharPtrToUIntDecimal | Source/cmQtAutoGenInitializer.cxx:1510-1517 | a decimal number is read modulo 2^32, exactly when it fits |
| QtInitVersions.CharPtrToUIntZero | Source/cmQtAutoGenInitializer.cxx:1510-1517 | a missing or non-numeric value reads as 0 |
| QtInitVersions.AddVersion | Source/cmQtAutoGenInitializer.cxx:1533-1539 | a version is appended only when its major number is not 0 |
| QtInitVersions.AddVersions | Source/cmQtAutoGenInitializer.cxx:1543-1553 | the loop appends the versions of the three key pairs in order |
| QtInitVersions.GetKnownQtVersions | Source/cmQtAutoGenInitializer.cxx:1519-1557 | the versions from the variables, then from the directory properties, Qt6 before Qt5 before QT_VERSION |
| QtInitVersions.VersionsFromSpec | Source/cmQtAutoGenInitializer.cxx:1519-1557 | at most one version per key pair, each with a non-zero major number |
| QtInitVersions.KnownVersionsQt6First | Source/cmQtAutoGenInitializer.cxx:1524-1547 | a Qt6 variable version comes first |
| QtInitVersions.KnownVersionsNone | Source/cmQtAutoGenInitializer.cxx:1519-1557 | without variables or properties no version is known |
| QtInitVersions.GetQtVersion | Source/cmQtAutoGenInitializer.cxx:1560-1584 | no version when none is known; the first known without a request; with a request the first known of that major, or none |
| QtInitVersions.NoVersionUnknown | Source/cmQtAutoGenInitializer.cxx:1536-1538 | the empty version is never among the known ones |
| QtInitQrc.MarkUnique | Source/cmQtAutoGenInitializer.cxx:879-888 | each qrc is unique exactly when no other qrc has its name |
| QtInitQrc.ConfigSettingsFiles | Source/cmQtAutoGenInitializer.cxx:905-910 | each configuration's settings file is the settings file with "_" + configuration appended |
| QtInitQrc.NameFiles | Source/cmQtAutoGenInitializer.cxx:892-911 | a qrc gets its checksum, its rcc file and its lock, info and settings files, the checksum in their base only when not unique |
| QtInitQrc.SetFileNames | Source/cmQtAutoGenInitializer.cxx:889-913 | every qrc is named with its own file's checksum |
| QtInitQrc.RccFilesDistinct | Source/cmQtAutoGenInitializer.cxx:895-896 | qrcs with different checksums or names get different rcc files |
| QtInitQrc.FileBasesDistinct | Source/cmQtAutoGenInitializer.cxx:897-904 | two unique qrcs of different names, or two non-unique ones differing in name or checksum, get different lock, info and settings files |
| QtInitQrc.FileBasesMayMeet | Source/cmQtAutoGenInitializer.cxx:897-904 | a unique qrc's base can coincide with a non-unique qrc's base |
| QtInitQrc.RccNameSpec | Source/cmQtAutoGenInitializer.cxx:918-928 | the "-name" value is the qrc name with '-' turned into '_', then "_" + checksum when not unique |
| QtInitQrc.NameOptionShape | Source/cmQtAutoGenInitializer.cxx:926-928 | the option is "-name" and its value; a unique name without '-' is passed as is |
| ProjectArgs.KeywordOfSpelling | Source/cmProjectCommand.cxx:91-150 | exactly the four spellings LANGUAGES, VERSION, DESCRIPTION and HOMEPAGE_URL are keywords, and each keyword is recognised by its own spelling |
| ProjectArgs.Kinds | Source/cmProjectCommand.cxx:90-185 | every argument is classified, one classification per argument |
| ProjectArgs.RepeatBefore | Source/cmProjectCommand.cxx:92-98 | a repeated keyword, when found, is at an argument after the name and before the point reached |
| ProjectArgs.RepeatStays | Source/cmProjectCommand.cxx:92-98 | once a keyword repeats, the loop stops there: later positions report the same repetition |
| ProjectArgs.ReadArgument | Source/cmProjectCommand.cxx:90-185 | one iteration of the argument loop: the new parse state and the messages issued are those of the reference reading at the next position, with the corrected HOMEPAGE_URL that first fires a pending missed-value warning |
| ProjectArgs.RepeatStep | Source/cmProjectCommand.cxx:92-98 | a keyword already seen is the repetition reported for the whole argument list; any other argument leaves no repetition |
| ProjectArgs.ParseArguments | Source/cmProjectCommand.cxx:69-189 | the argument loop yields the parse outcome and messages of the reference reading of the whole argument list, with the corrected HOMEPAGE_URL |
| ProjectArgs.SeenSpec | Source/cmProjectCommand.cxx:69-89 | a keyword counts as seen exactly when it occurs among the arguments read so far |
| ProjectArgs.NoRepeatDistinct | Source/cmProjectCommand.cxx:92-98 | while no repetition is reported, no keyword occurs twice |
| ProjectArgs.RepeatBeforeSpec | Source/cmProjectCommand.cxx:92-98 | the reported repetition is a keyword that occurred earlier, and it is the first repetition |
| ProjectArgs.ValueAbsent | Source/cmProjectCommand.cxx:69-89 | a keyword never given leaves its value empty |
| ProjectArgs.ValueTaken | Source/cmProjectCommand.cxx:169-180 | the argument right after VERSION, DESCRIPTION or HOMEPAGE_URL, when it is not a keyword, becomes that keyword's value |
| ProjectArgs.LanguagesBeforeSpec | Source/cmProjectCommand.cxx:181-184 | the languages collected are exactly the arguments read in language position, and no more of them than arguments |
| ProjectArgs.LanguagesNotKeywords | Source/cmProjectCommand.cxx:181-184 | no keyword spelling is ever taken as a language |
| ProjectArgs.InjectedOnlyFirst | Source/cmProjectCommand.cxx:167-168 | the injected marker is recognised exactly when it is the argument right after the project name |
| ProjectArgs.InjectedLaterIsLanguage | Source/cmProjectCommand.cxx:167-184 | the marker anywhere later, outside a keyword's value, is collected as a language |
| ProjectArgs.StepLanguages | Source/cmProjectCommand.cxx:91-110 | the LANGUAGES keyword records that languages were given, fires the pending missed-value warning, and warns when languages were listed before it |
| ProjectArgs.StepValueKeyword | Source/cmProjectCommand.cxx:111-166 | VERSION, DESCRIPTION and HOMEPAGE_URL record that they were given, expect their value next and make the missed-value warning pending; HOMEPAGE_URL first fires a pending one (the corrected behaviour) |
| ProjectArgs.MissedWarnedBefore | Source/cmProjectCommand.cxx:99-189 | once the arguments up to some point are read, every keyword among them followed by another keyword has been warned about, under the corrected HOMEPAGE_URL |
| ProjectArgs.MissedValueWarned | Source/cmProjectCommand.cxx:99-189 | every keyword followed by another keyword, or ending the list, draws the warning that its value is missing |
| ProjectArgs.AllMessagesExplained | Source/cmProjectCommand.cxx:90-199 | every message issued while reading names a missing value, languages before LANGUAGES, or a repeated keyword that occurs |
| ProjectArgs.MessagesAsWrittenLoseWarning | Source/cmProjectCommand.cxx:150-166 | as written, HOMEPAGE_URL right after VERSION issues no warning for the missing version, while firing the pending warning issues it |
| ProjectVersion.DigitRunsSplit | Source/cmProjectCommand.cxx:216-218 | the version pattern accepts exactly the strings made of at most four dot-separated runs of digits (or the empty string) |
| ProjectVersion.JoinSplit | Source/cmProjectCommand.cxx:250-255 | splitting a version at its dots and joining the parts again gives the version back |
| ProjectVersion.Padded | Source/cmProjectCommand.cxx:230 | the four components hold the given parts followed by empty strings |
| ProjectVersion.ScanUnsigned | Source/cmProjectCommand.cxx:235-236 | a component read by sscanf's %u fits an unsigned int |
| ProjectVersion.Scanned | Source/cmProjectCommand.cxx:234-236 | sscanf reads at most four components, each an unsigned int |
| ProjectVersion.Printed | Source/cmProjectCommand.cxx:239 | each printed component is the decimal form of the value read |
| ProjectVersion.BufferFitsEveryUnsigned | Source/cmProjectCommand.cxx:233-239 | a buffer of digits10 + 2 characters holds the decimal form of every unsigned int with its terminator |
| ProjectVersion.WrittenBufferOverrun | Source/cmProjectCommand.cxx:233-239 | the version 100000000 is accepted and read as 100000000, whose decimal form with its terminator does not fit the digits10 characters declared |
| ProjectVersion.PrintComponents | Source/cmProjectCommand.cxx:237-246 | the old behaviour's loop builds the dotted version string and the padded components from the values read, each within the corrected buffer |
| ProjectVersion.VersionStrings | Source/cmProjectCommand.cxx:225-256 | CMP0096 OLD or WARN reprints the values sscanf reads; otherwise the version string is kept and split at its dots |
| ProjectVersion.CanonicalRoundTrip | Source/cmProjectCommand.cxx:235-239 | reading and reprinting a component without leading zeros gives it back |
| ProjectVersion.NewVersionRoundTrip | Source/cmProjectCommand.cxx:247-256 | under CMP0096 NEW the version string is the version as given, and its components joined with dots give it back |
| ProjectVersion.BehavioursAgree | Source/cmProjectCommand.cxx:225-256 | for a version whose components have no leading zeros and fit an unsigned int, both behaviours give the same strings |
| ProjectVersion.OldDropsLeadingZeros | Source/cmProjectCommand.cxx:232-256 | the two behaviours differ on "1.02": the old one drops the leading zero |
| ProjectVersion.EmptyVersion | Source/cmProjectCommand.cxx:216-256 | an empty version is accepted and gives empty strings under both behaviours |
| ProjectCommand.IncludeByVariable | Source/cmProjectCommand.cxx:354-375 | the include step's result, error and new makefile state are those of its reference outcome |
| ProjectCommand.IncludeSpec | Source/cmProjectCommand.cxx:354-375 | the step fails exactly when the variable names a file that cannot be read and no fatal error occurred, with the "could not find file" error; a readable file is recorded as read; otherwise nothing changes |
| ProjectCommand.TopLevelCMakeVarCondSet | Source/cmProjectCommand.cxx:377-390 | the conditional set's new state is its reference update |
| ProjectCommand.CondSetSpec | Source/cmProjectCommand.cxx:377-390 | in the top-level makefile, or when the name is unset, the variable and its cache entry take the value; otherwise nothing changes; other names and the rest of the state are untouched |
| ProjectCommand.CondSetTwice | Source/cmProjectCommand.cxx:377-390 | two project() calls in the top-level directory leave the last value; elsewhere the first value set stays |
| ProjectCommand.SetNames | Source/cmProjectCommand.cxx:35-67 | setting the project name and directories gives the reference naming state |
| ProjectCommand.NamedSpec | Source/cmProjectCommand.cxx:35-67 | the project name, PROJECT_NAME, PROJECT_SOURCE_DIR, PROJECT_BINARY_DIR, the <name>_SOURCE_DIR and <name>_BINARY_DIR cache entries, and CMAKE_PROJECT_NAME when top-level or unset, all take their values |
| ProjectCommand.SetVersionVariables | Source/cmProjectCommand.cxx:258-287 | setting the version variables gives the reference version update |
| ProjectCommand.AssignVersionVariables | Source/cmProjectCommand.cxx:258-277 | the ten PROJECT_VERSION* and <name>_VERSION* assignments give the reference assignment |
| ProjectCommand.SetTopLevelVersionVariables | Source/cmProjectCommand.cxx:278-287 | the five CMAKE_PROJECT_VERSION* conditional sets give the reference update |
| ProjectCommand.VersionPairsConsistent | Source/cmProjectCommand.cxx:258-287 | no variable name is given two different values by the version assignments |
| ProjectCommand.VersionSetSpec | Source/cmProjectCommand.cxx:258-287 | after the version update, PROJECT_VERSION*, <name>_VERSION* and (top-level or unset) CMAKE_PROJECT_VERSION* each hold the version string or their component |
| ProjectCommand.ClearVersionVariables | Source/cmProjectCommand.cxx:288-327 | the clearing loop's new state and listed names are those of the reference clearing |
| ProjectCommand.ClearedWarn | Source/cmProjectCommand.cxx:307-326 | under CMP0048 WARN nothing is cleared, and names are listed (unless injected) exactly when one of them is set to a non-empty value |
| ProjectCommand.ClearedNew | Source/cmProjectCommand.cxx:307-320 | under CMP0048 NEW every version variable that is set becomes empty, unset ones stay unset and nothing is listed |
| ProjectCommand.IssueFatal | Source/cmProjectCommand.cxx:208-222 | a fatal error message is issued and the fatal-error flag is set |
| ProjectCommand.VersionVariables | Source/cmProjectCommand.cxx:204-327 | the version phase halts or proceeds with the state of its reference phase |
| ProjectCommand.VersionPhaseHalts | Source/cmProjectCommand.cxx:204-327 | the command stops exactly when a version is given and CMP0048 is not NEW or the version is malformed, with the matching fatal error; without a version under CMP0048 OLD nothing changes |
| ProjectCommand.VersionPhaseSets | Source/cmProjectCommand.cxx:206-287 | an accepted version sets PROJECT_VERSION* and <name>_VERSION* from the strings of the behaviour CMP0096 selects |
| ProjectCommand.Finish | Source/cmProjectCommand.cxx:329-351 | the description, homepage, languages and include steps give the reference final outcome |
| ProjectCommand.FinishedLanguages | Source/cmProjectCommand.cxx:337-341 | the languages given, or C and CXX when none, are enabled once |
| ProjectCommand.FinishedFails | Source/cmProjectCommand.cxx:343-351 | the final steps fail only with the "could not find file" error for a file that cannot be read |
| ProjectCommand.Configure | Source/cmProjectCommand.cxx:187-351 | from the parsed arguments on, the command gives the reference outcome |
| ProjectCommand.ConfiguredLanguages | Source/cmProjectCommand.cxx:191-341 | misplaced arguments or a halted version phase enable nothing; otherwise the languages given, NONE when LANGUAGES had none, or C and CXX are enabled |
| ProjectCommand.InitialPass | Source/cmProjectCommand.cxx:23-352 | project() gives the reference outcome for its arguments, makefile state and environment, with the corrected HOMEPAGE_URL |
| ProjectCommand.ProjectFails | Source/cmProjectCommand.cxx:26-29 | no arguments fail with the argument-count error and change nothing; any other failure is a file that cannot be read |
| ProjectCommand.ProjectRepeatedKeyword | Source/cmProjectCommand.cxx:92-98 | a repeated keyword ends the command successfully with the fatal error as its last message and no language enabled |
| GetCMakeProperty.JoinList | Source/cmGetCMakePropertyCommand.cxx:37-45 | the loop joins the items with ';' between them |
| GetCMakeProperty.InitialPass | Source/cmGetCMakePropertyCommand.cxx:19-80 | fewer than two arguments fail with the argument-count error and change nothing; otherwise the first argument is set to the property's value and nothing else changes |
| GetCMakeProperty.VariablesListed | Source/cmGetCMakePropertyCommand.cxx:28-47 | VARIABLES gives NOTFOUND when there are no variables, else a list whose items are the variable names in order |
| GetCMakeProperty.ComponentsListed | Source/cmGetCMakePropertyCommand.cxx:52-66 | COMPONENTS gives the empty string when there are none, else a list holding each install component once |
| GetCMakeProperty.OtherProperty | Source/cmGetCMakePropertyCommand.cxx:67-75 | any other property gives its value when it is defined, else NOTFOUND |
| CMakeMakefile.Visible | Source/cmProjectCommand.cxx:61 | a variable is read from the definitions first, then from the cache, and is absent exactly when neither holds it |

## Left out

- File and stream I/O is not modelled as text: the `.bff` layout, the compile database, the clean script and the temp-file merge are left out. The scope writer records lines as values.
- File-system calls in `cmQtAutoRcc` (`FileRead`, `FileWrite`, `Touch`, `MakeDirectory`, the lock) are outcomes read from a `Host` value. Their effects are recorded as a log; nothing is read or written.
- Running rcc and the rcc lister is reduced to a success flag (`GenerateRcc`). Making the output's parent directory is another flag: when it fails nothing is run or removed. When rcc fails the output is removed.
- Time stamps are integers compared by `<`; `cmFileTime`'s resolution is not modelled.
- The SHA-256 settings hash is an input of the run rather than a computation.
- `cmFilePathChecksum::getPart`, `AppendFilenameSuffix`, `CollapseFullPath`, `RelativePath`, `ConvertToOutputFormat` and the compiler, flag and define queries are function parameters. So are generator-expression evaluation and link information.
- `cmQtAutoGen::Quoted`, which wraps the result of `MessagePath`, is not part of this model; the path itself is.
- `QtAutoGenerator.StrToULong` accepts only plain decimal digits. `cmStrToULong` also skips leading white space and accepts a sign; those inputs are not modelled.
- The Logger constructor's reading of the `VERBOSE` and `COLOR` environment is left out; the initial verbosity is a parameter. The logger's mutex and all of `cmQtAutoMocUic` (worker threads) are left out.
- `RccMergeOptions` is left out; the `-name` option pair is modelled as produced.
- `cmMakefile` is not part of this model. Its variables, cache, messages, fatal-error flag, project name, enabled languages and files read are a record.
  - Adding a cache entry does not remove a normal variable of the same name.
  - Cache documentation strings and entry types are dropped.
  - The policy stack is reduced to the values of CMP0048 and CMP0096, passed in.
  - The CMP0048 warning text is a parameter.
  - `ReadDependentFile` succeeds exactly for the files in a `readable` set.
  - `EnableLanguage` records the language list it is given.
  - `cmSystemTools::SetFatalErrorOccured` is kept as a flag of the makefile.
- ProjectArgs.ParseArguments: the warnings and errors of the argument loop are collected and issued to the makefile when the loop ends. Nothing else changes the makefile during the loop, so their order is kept.
- ProjectVersion.ScanUnsigned: a `%u` component of 2^64 or more is taken to read as 2^32 - 1, and a smaller one as its value modulo 2^32, the way glibc converts through `strtoul`. The C standard leaves such input undefined, and other C libraries are not modelled.
- The list of macros and the set of install components given to `get_cmake_property()` are parameters, as is the CMake instance's property table.
- BuildStatement.TrimClean: `cmTrimWhitespace`'s handling of non-ASCII bytes is not modelled; white space is the ASCII set.
- GlobalEncoding.EncodeRuleName: only characters 0..127 are modelled; the sign extension of negative `char` values is left out.
- The `_WIN32` branches of `EncodePath`, `EnsureTrailingSlash` and the GCC detection are left out.
- `AddTargetsFastbuildToWrite` and the recursive call from `TargetTreatedFinish` into the target generator are replaced by "emit the key, then finish it".
- The Fortran and C++-module dyndep machinery, CUDA device linking, Swift, macOS bundles, symlink rules, the Ninja-derived link rule text and the MSVC extra-file tables of `WriteCompileFB` are left out.
- The header-only and thin wrapper commands (`source_group`, `target_sources`, `target_compile_features`, `set_target_properties`, the CTest coverage command, `target_compile_options`, `target_precompile_headers`) and `cmGeneratorExpressionContext` are not part of this model.
- Shared-library names on GNU platforms (`.so` versions and soname links) are not modelled; the Dll node names are.
- Object identity (pointers to generator targets) is modelled by target identifiers.
- Text.ExpandList: splits at every ';' and drops empty pieces. `cmExpandList`'s `[...]` brackets and `\;` escapes are not modelled, so configuration lists holding them are read differently.
- QtAutoGenerator.Logger.RaiseVerbosity: follows the corrected rule `Raised`; the source as written (`RaisedAsWritten`) can lower the verbosity for values of 2^32 and above (Findings).
- QtAutoRcc.AutoRcc.Init: raises the verbosity by the corrected rule `Raised`, not as written (Findings).
- QtInitDepends.CountConfiguration: counts a library once per configuration that links it, the corrected count; the source counts each link-item occurrence, which `DependsAsWritten` models (Findings).
- ProjectArgs.ReadArgument: HOMEPAGE_URL fires a pending missed-value warning before replacing it, the corrected behaviour; as written the warning is lost, which `MessagesBefore` with `homepageFires` false models (Findings).
- ProjectArgs.StepValueKeyword: the same corrected HOMEPAGE_URL step.
- ProjectArgs.ParseArguments: the same corrected HOMEPAGE_URL reading, for the whole loop.
- ProjectArgs.MissedWarnedBefore: is proved for the corrected reading only; as written it fails (`MessagesAsWrittenLoseWarning`).
- ProjectCommand.InitialPass: parses the arguments with the corrected HOMEPAGE_URL reading.
- TargetNaming.AddDllAlias: records the alias under the corrected name node + "_deps"; as written a single-config Dll records "_lib-deps" (`DllNamesAsWritten`, Findings).

## Findings

| source | as written | input that shows it | evidently intended | confidence | as-written member | corrected member |
|---|---|---|---|---|---|---|
| Source/cmFastbuildNormalTargetGenerator.cxx:1117 | a single-config Dll alias is named short_name + "_lib-deps" | a shared library "foo" in a single-config build: the Dll registers "foo_lib-deps", while its dependents list "foo_lib_deps" (line 981) | the alias named "foo_lib_deps", as for static libraries (line 1041) and multi-config Dlls (line 1122) | not executed | TargetNaming.DllAliasAsWrittenMissed | TargetNaming.DllAliasReferenced |
| Source/cmQtAutoGenerator.cxx:47-55 | the 64-bit value read is compared with the verbosity, then cast to 32 bits | verbosity 1 and value "4294967296": the comparison passes and the cast stores 0 | the verbosity never decreases | not executed | QtAutoGenerator.RaiseAsWrittenLowers | QtAutoGenerator.Raised |
| Source/cmQtAutoGenInitializer.cxx:1034-1053 | the count is of link-item occurrences summed over the configurations | two configurations, where a library is linked twice in the first and not at all in the second: the count reaches 2 and the library is taken as common | a library is counted once per configuration that links it | not executed | QtInitDepends.DependsAsWrittenMiscounts | QtInitDepends.DependTargets |
| Source/cmProjectCommand.cxx:233-239 | each component buffer holds `digits10` (9) characters | VERSION "100000000" under CMP0096 OLD: sprintf writes 9 digits and a terminator, 10 characters | buffers of digits10 + 2 characters, enough for any unsigned int and its terminator | not executed | ProjectVersion.WrittenBufferOverrun | ProjectVersion.PrintComponents |
| Source/cmProjectCommand.cxx:150-166 | HOMEPAGE_URL replaces the pending missed-value reporter without calling it | project(P VERSION HOMEPAGE_URL u): no warning that VERSION has no value | the pending warning fires first, as LANGUAGES, VERSION and DESCRIPTION do | not executed | ProjectArgs.MessagesAsWrittenLoseWarning | ProjectArgs.MissedValueWarned |
