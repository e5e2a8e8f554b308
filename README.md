# cronwatch configuration core in Dafny

cronwatch runs a cron job, watches its output and mails a report. The report is shaped by a
configuration file. This project models the parts of cronwatch that read and check that
configuration, and the part that scans job output for patterns:

- `TrunkSimpleConfig` (trunk/simpleconfig.py) is the newer configuration library. A `Setting`
  keeps the raw input beside an auto-typed value. A `Section` holds named settings. A `Config`
  holds named sections and a defaults section. It can merge another configuration into itself,
  copy defaults into the other sections, and parse a file line by line. The file's lines are
  given as a sequence, and each regular expression used to classify a line is written out as
  its own function (`LineSyntax`).
- `SimpleConfigLib` (simpleconfig.py) is the older library: `SimpleConfig`,
  `SimpleConfigSection`, `SimpleConfigSetting` and `readfp`. `readfp` writes its sections in
  dictionary order, which Python does not fix. The model picks sections in any order and
  proves that the result does not depend on it.
- `TrunkCronwatch` (trunk/cronwatch.py) models `read_config`. It seeds the defaults section
  with ten settings, reads the configuration file and rejects any other setting name.
  `filter_text` in that file is the same code as in cronwatch.py.
- `Cronwatch` (cronwatch.py) models three functions:
  - `filter_text` finds, for each pattern, the numbers of the lines it matches;
  - `compile_re` compiles a pattern or a list of patterns;
  - `verify_config` checks every section in name order, compiles its pattern settings in place
    and normalises `exit_codes`.
  The regular-expression engine is a parameter (`Engine`).
- `ProcessorConfig` (processor/config.py) models `ConfigSetting`, a table of typed settings.
  `TrunkProcessorConfig` (trunk/processor/config.py) models `ConfigSection` and `Config`, a
  table of such sections. The typed table they share is `Registry`.

Shared helpers:
- `Wrappers` holds `Option`, `Result` and `Outcome`.
- `Text` holds stripping, lower-casing and decimal rendering.
- `Sorting` holds the sorted key lists that `get_settings`, `get_sections` and the iterators
  return.
- `Values` holds the Python values a setting can hold, and the keyword and integer conversion
  shared by both auto-typers.

Objects that the source changes in place are classes here: sections, configurations and the
processor tables. The setting records are values. Each operation that changes state is
specified against a function of the old state. The properties of those functions are proved as
lemmas:
- defaults never overwrite a setting;
- applying defaults twice changes nothing;
- a merge's incoming values win;
- a parse error names the first bad line;
- `verify_config` succeeds again on its own output.

## Model

| member | source | states |
|---|---|---|
| Values.ConvertKeywordOrInteger | trunk/simpleconfig.py:94-97 | a none/null, integer, true/yes/on or false/no/off word never converts to text or a list |
| Values.IntegerTextRoundTrip | trunk/simpleconfig.py:95 | the decimal text of any integer matches only the integer pattern, and it converts back to that integer |
| Sorting.SortKeys | trunk/simpleconfig.py:146-150 | the key list it builds is the unique strictly sorted list of exactly the keys |
| Sorting.SortedListingUnique | trunk/simpleconfig.py:146-150 | two strictly sorted lists of the same key set are equal, so a sorted listing is well defined |
| LineSyntax.HeaderName | trunk/simpleconfig.py:310 | a header's name has no `]` and no surrounding blanks |
| LineSyntax.Assignment | trunk/simpleconfig.py:321 | a setting's name has no `=`, and its value has no newline |
| LineSyntax.Classify | trunk/simpleconfig.py:306-344 | a line is unparseable exactly when it is neither blank or a comment, nor a header, nor an assignment; an unparseable line keeps its raw text |
| TrunkSimpleConfig.QuotedBody | trunk/simpleconfig.py:99-100 | a quoted body is the text between matching quotes: two characters shorter than the text without its final newline, and with no newline |
| TrunkSimpleConfig.AutoType | trunk/simpleconfig.py:81-103 | a list is typed item by item with its length kept; a non-string is returned as is; a keyword or integer text converts; quoted text loses its quotes; other text is unchanged |
| TrunkSimpleConfig.AutoTypeKeepsPlainText | trunk/simpleconfig.py:91-103 | text comes back unchanged exactly when it is neither a keyword, an integer nor quoted |
| TrunkSimpleConfig.AutoTypeIgnoresFinalNewline | trunk/simpleconfig.py:94-100 | a final newline does not change how a keyword, integer or quoted text is typed, because `$` matches before it |
| TrunkSimpleConfig.AutoTypeIntegerRoundTrip | trunk/simpleconfig.py:95 | the decimal text of any integer is typed back to that integer |
| TrunkSimpleConfig.Setting.Set | trunk/simpleconfig.py:65-79 | the raw input is always what `get(raw=True)` returns; `get()` returns the auto-typed input unless auto-typing is off or the raw flag is given |
| TrunkSimpleConfig.NewSetting | trunk/simpleconfig.py:52-55 | a new setting keeps its auto-type flag and raw input, and its value is typed when the flag is on |
| TrunkSimpleConfig.Section.constructor | trunk/simpleconfig.py:110-112 | a new section has no name and no settings |
| TrunkSimpleConfig.Section.Holding | trunk/simpleconfig.py:261 | the deep copy of a section is a fresh section holding the same settings |
| TrunkSimpleConfig.Section.SetName | trunk/simpleconfig.py:118-120 | only the name changes |
| TrunkSimpleConfig.Section.SetSetting | trunk/simpleconfig.py:122-127 | the setting is stored under its key, replacing any earlier one; the section's name and other settings are unchanged |
| TrunkSimpleConfig.Section.GetSetting | trunk/simpleconfig.py:129-134 | succeeds exactly for a stored key and returns that setting; otherwise InvalidSettingError names the key |
| TrunkSimpleConfig.Section.HasSetting | trunk/simpleconfig.py:136-138 | true exactly for a stored key |
| TrunkSimpleConfig.Section.DelSetting | trunk/simpleconfig.py:140-144 | removes exactly that key when it is stored; otherwise InvalidSettingError and nothing changes |
| TrunkSimpleConfig.Section.GetSettings | trunk/simpleconfig.py:146-150 | the stored keys in sorted order |
| TrunkSimpleConfig.Section.Items | trunk/simpleconfig.py:164-178 | the settings in the sorted order of their keys |
| TrunkSimpleConfig.Inherit | trunk/simpleconfig.py:292-295 | a section keeps every setting it has and gains each default it lacks |
| TrunkSimpleConfig.DefaultsApplied | trunk/simpleconfig.py:276-295 | without a defaults section nothing changes; the defaults section and sections not targeted keep their settings; each targeted section inherits the defaults |
| TrunkSimpleConfig.DefaultsNeverOverwrite | trunk/simpleconfig.py:293 | applying defaults never changes or removes a setting a section already holds |
| TrunkSimpleConfig.DefaultsIdempotent | trunk/simpleconfig.py:276-295 | applying defaults twice gives the same result as applying them once |
| TrunkSimpleConfig.DefaultsAreFilledIn | trunk/simpleconfig.py:283-295 | filling in the targeted sections one at a time, in any order, gives `DefaultsApplied` |
| TrunkSimpleConfig.Stored | trunk/simpleconfig.py:220-226 | the section exists afterwards and holds the setting under its key; an existing section only has that key replaced |
| TrunkSimpleConfig.Merged | trunk/simpleconfig.py:258-266 | merging one incoming section adds it when new; an existing section is overlaid with the incoming settings |
| TrunkSimpleConfig.MergedAll | trunk/simpleconfig.py:254-266 | after a merge the configuration has its own sections and every incoming one |
| TrunkSimpleConfig.MergedAllTakesIncoming | trunk/simpleconfig.py:263-266 | every incoming setting is present after a merge with its incoming value |
| TrunkSimpleConfig.MergedAllKeepsOwn | trunk/simpleconfig.py:254-266 | a setting that no incoming section names keeps its own value |
| TrunkSimpleConfig.MergedIntoEmptyCopies | trunk/simpleconfig.py:258-261 | merging into an empty configuration copies the incoming sections exactly, when none of them is the defaults section |
| TrunkSimpleConfig.Appended | trunk/simpleconfig.py:326-337 | a repeated key's value becomes a list: its earlier items, or the earlier typed value, followed by the new text; the raw value is that list and the value is the typed list |
| TrunkSimpleConfig.ParseStep | trunk/simpleconfig.py:303-340 | a header makes its section current and present; an assignment puts its key into the current section; no section is ever removed |
| TrunkSimpleConfig.ParseKinds | trunk/simpleconfig.py:297-345 | a failure is a ConfigParseError that gives the one-based number of an unparseable line and that line's text |
| TrunkSimpleConfig.ParseFile | trunk/simpleconfig.py:297-347 | `create_from_file` fails exactly when the line parse fails, with the same error |
| TrunkSimpleConfig.ParseFailureSticks | trunk/simpleconfig.py:342-344 | once a prefix of the file fails to parse, the whole file fails with the same error |
| TrunkSimpleConfig.ParseFailsAtFirstUnparseable | trunk/simpleconfig.py:303-344 | the parse fails exactly when some line is unparseable, and every line before the one it reports parses |
| TrunkSimpleConfig.ParseFileFailsIffBadLine | trunk/simpleconfig.py:297-347 | `create_from_file` fails exactly when some line is neither blank or a comment, a header nor an assignment |
| TrunkSimpleConfig.ParseFileErrorNamesFirstBadLine | trunk/simpleconfig.py:342-344 | the error quotes the raw text of the first bad line and gives its one-based number |
| TrunkSimpleConfig.ReadAll | trunk/simpleconfig.py:352-368 | a file that cannot be opened ends the read: with IOError when files are required, quietly otherwise, and later files are not read; every failure is an IOError or a parse error |
| TrunkSimpleConfig.Config.constructor | trunk/simpleconfig.py:182-184 | no sections, and the given defaults section name |
| TrunkSimpleConfig.Config.GetSection | trunk/simpleconfig.py:194-198 | succeeds exactly for a present section and returns that object; otherwise InvalidSectionError |
| TrunkSimpleConfig.Config.HasSection | trunk/simpleconfig.py:200-202 | true exactly for a present section |
| TrunkSimpleConfig.Config.DelSection | trunk/simpleconfig.py:204-208 | removes exactly that section when it is present; otherwise InvalidSectionError and nothing changes |
| TrunkSimpleConfig.Config.GetSections | trunk/simpleconfig.py:210-214 | the section names in sorted order |
| TrunkSimpleConfig.Config.Items | trunk/simpleconfig.py:238-252 | the sections in the sorted order of their names |
| TrunkSimpleConfig.Config.SetDefaultSection | trunk/simpleconfig.py:268-270 | only the defaults section name changes |
| TrunkSimpleConfig.Config.GetSetting | trunk/simpleconfig.py:216-218 | InvalidSectionError for a missing section, then InvalidSettingError for a missing key, otherwise the value or raw input asked for |
| TrunkSimpleConfig.Config.StoreSetting | trunk/simpleconfig.py:225-226 | only that key of that section changes |
| TrunkSimpleConfig.Config.Fill | trunk/simpleconfig.py:292-295 | the section inherits the defaults |
| TrunkSimpleConfig.Config.FillInOrder | trunk/simpleconfig.py:292-295 | filling the defaults in one at a time, in any listing of them, gives `Inherit` |
| TrunkSimpleConfig.Config.FillSection | trunk/simpleconfig.py:288-295 | only that section changes, and it inherits the defaults |
| TrunkSimpleConfig.Config.FillSections | trunk/simpleconfig.py:283-295 | every target except the defaults section inherits the defaults |
| TrunkSimpleConfig.Config.ApplyDefaults | trunk/simpleconfig.py:276-295 | fails only when a defaults section exists and the named target does not, and then changes nothing; otherwise the result is `DefaultsApplied` |
| TrunkSimpleConfig.Config.SetSection | trunk/simpleconfig.py:186-192 | the section is stored under the name, and then the defaults are applied to all sections |
| TrunkSimpleConfig.Config.CreateMissing | trunk/simpleconfig.py:223-224 | a missing section is created empty, and the defaults applied, exactly when auto-creation is on; an existing section is left as it was |
| TrunkSimpleConfig.Config.SetSetting | trunk/simpleconfig.py:220-226 | fails only for a missing section when auto-creation is off, and then changes nothing; otherwise the result is `Stored` with a new setting built from the value |
| TrunkSimpleConfig.Config.Overwrite | trunk/simpleconfig.py:263-266 | the incoming settings overlay that section only |
| TrunkSimpleConfig.Config.PutInOrder | trunk/simpleconfig.py:263-266 | storing the incoming settings one at a time, in any listing of them, overlays them |
| TrunkSimpleConfig.Config.MergeOne | trunk/simpleconfig.py:258-266 | the result is `Merged` for one incoming section |
| TrunkSimpleConfig.Config.MergeInOrder | trunk/simpleconfig.py:258-266 | the result is `MergedAll` over the given order |
| TrunkSimpleConfig.Config.ApplyConfig | trunk/simpleconfig.py:254-266 | the result is `MergedAll` over the other configuration's sections in sorted order |
| TrunkSimpleConfig.Config.ReadHeader | trunk/simpleconfig.py:309-317 | the result is the parse step for a header |
| TrunkSimpleConfig.Config.ReadAssignment | trunk/simpleconfig.py:319-339 | the result is the parse step for an assignment |
| TrunkSimpleConfig.Config.ReadLine | trunk/simpleconfig.py:303-344 | stops exactly at an unparseable line; otherwise the state and current section are those of the parse step |
| TrunkSimpleConfig.Config.CreateFromFile | trunk/simpleconfig.py:297-347 | fails exactly when `ParseFile` does, with its error; otherwise a fresh configuration whose sections are `ParseFile`'s |
| TrunkSimpleConfig.Config.Read | trunk/simpleconfig.py:352-368 | the outcome and the new sections are those of `ReadAll` on the old sections |
| TrunkSimpleConfigExamples.AppendedIntegers | trunk/simpleconfig.py:326-337 | two integer texts under one key give the list of both integers |
| TrunkSimpleConfigExamples.FirstHeaderOpensSection | trunk/simpleconfig.py:309-317 | a header opens an empty section and makes it current |
| TrunkSimpleConfigExamples.RepeatedKeyMakesList | trunk/test_cronwatch.py:148-158 | `exit_codes=10` then `exit_codes=101` in one section give the list [10, 101] |
| TrunkSimpleConfigExamples.AssignNew | trunk/simpleconfig.py:337-338 | a key new to the current section is stored as a typed setting of its text |
| TrunkSimpleConfigExamples.OpenAfterDefaults | trunk/simpleconfig.py:186-192 | a section opened after the defaults section starts with a copy of the defaults |
| TrunkSimpleConfigExamples.DefaultsThenSection | trunk/simpleconfig.py:309-317 | a `[defaults]` setting is inherited by a section opened after it |
| TrunkSimpleConfigExamples.DefaultsBeforeSectionMakeList | trunk/simpleconfig.py:326-337 | when a section repeats a key the defaults gave it, the result is a list of both values, not an override |
| SimpleConfigLib.AutoValueConvertsOnlyWords | simpleconfig.py:207-217 | a value changes exactly when it is keyword or integer text, and then it becomes neither text nor a list |
| SimpleConfigLib.AutoValueIdempotent | simpleconfig.py:207-217 | typing a typed value changes nothing |
| SimpleConfigLib.AutoValueIntegerRoundTrip | simpleconfig.py:213 | the decimal text of any integer is typed back to that integer |
| SimpleConfigLib.AutoValueWholeStringOnly | simpleconfig.py:212-213 | the patterns match the whole text, so `none1` and `-1a` stay text |
| SimpleConfigLib.AutoValueAgreesWithAutoType | simpleconfig.py:207-217 | on non-lists without quotes, the older typer agrees with the trunk one |
| SimpleConfigLib.SimpleConfigSetting.Set | simpleconfig.py:191-205 | the raw input is always kept; the value is typed exactly when `auto_value` is on |
| SimpleConfigLib.MakeSetting | simpleconfig.py:188-189 | a new setting keeps its raw input and types its value when asked |
| SimpleConfigLib.Converted | simpleconfig.py:152-153 | each initial value becomes a setting under the same key |
| SimpleConfigLib.Typed | simpleconfig.py:136-138 | each text read from a file becomes an auto-typed setting under the same key |
| SimpleConfigLib.SimpleConfigSection.constructor | simpleconfig.py:145-153 | a copy of the defaults' settings, overlaid with the initial settings |
| SimpleConfigLib.SimpleConfigSection.SetValues | simpleconfig.py:152-153 | the given values overlay the settings |
| SimpleConfigLib.SimpleConfigSection.Set | simpleconfig.py:159-162 | only that key changes, to a new setting of the value |
| SimpleConfigLib.SimpleConfigSection.Get | simpleconfig.py:164-169 | succeeds exactly for a stored key with the value or raw input asked for; otherwise a SettingError names the key |
| SimpleConfigLib.SimpleConfigSection.GetSettings | simpleconfig.py:171-175 | the stored keys in sorted order |
| SimpleConfigLib.SimpleConfigSection.SetTexts | simpleconfig.py:136-138 | the typed texts overlay the settings |
| SimpleConfigLib.Seed | simpleconfig.py:62-66 | a new section starts from the defaults section's settings, or empty without one |
| SimpleConfigLib.AddedIfMissing | simpleconfig.py:133-135 | a missing section is added, seeded from the defaults; every existing section is unchanged |
| SimpleConfigLib.Wrote | simpleconfig.py:133-138 | the section, added if missing, is overlaid with the typed texts; no other section changes |
| SimpleConfigLib.FileDefaults | simpleconfig.py:129-131 | a `[defaults]` block with settings is written first; without one nothing changes |
| SimpleConfigLib.FileDefaultsAbsorbed | simpleconfig.py:129-131 | after that first stage, writing the defaults block again changes nothing |
| SimpleConfigLib.Written | simpleconfig.py:133-138 | writing sections adds exactly those sections |
| SimpleConfigLib.WrittenStep | simpleconfig.py:133-138 | writing the sections one at a time, in any order, gives the same result |
| SimpleConfigLib.FileApplied | simpleconfig.py:129-138 | a file adds exactly its own sections |
| SimpleConfigLib.FileValuesWin | simpleconfig.py:133-138 | every setting the file gives is read back as that file's typed text |
| SimpleConfigLib.ExistingSectionKeepsOwn | simpleconfig.py:133-138 | an existing section gains only its own file settings, not the file's defaults |
| SimpleConfigLib.NewSectionInheritsFileDefaults | simpleconfig.py:62-66 | a new section inherits a setting from the file's `[defaults]` block |
| SimpleConfigLib.NewSectionInheritsOldDefaults | simpleconfig.py:62-66 | a new section inherits a setting from the existing defaults section |
| SimpleConfigLib.UnmentionedSectionUnchanged | simpleconfig.py:133-138 | a section the file does not name is left unchanged |
| SimpleConfigLib.DictStep | simpleconfig.py:103-126 | a line fails exactly when it is unparseable, or is an assignment before any header; the error gives the line number and the raw line |
| SimpleConfigLib.ReadKinds | simpleconfig.py:100-126 | the current section is always one of the sections read |
| SimpleConfigLib.ReadKindsFailureSticks | simpleconfig.py:118-126 | once a prefix fails, the whole file fails with the same error |
| SimpleConfigLib.ReadKindsCurrent | simpleconfig.py:97-114 | there is a current section exactly when a header has been read |
| SimpleConfigLib.ReadKindsFailure | simpleconfig.py:103-126 | the read fails exactly when some line is bad; the error is the first bad line's, and it says whether a header was missing |
| SimpleConfigLib.ReadKindsSections | simpleconfig.py:109-114 | the sections read are exactly the headers seen |
| SimpleConfigLib.BadLineIsBadKind | simpleconfig.py:103-126 | a line is bad exactly when its classification is |
| SimpleConfigLib.ReadDictFailsIffBadLine | simpleconfig.py:94-126 | `readfp` fails exactly when some line is unparseable or is an assignment before any header |
| SimpleConfigLib.ReadDictErrorQuotesLine | simpleconfig.py:118-126 | the error quotes the raw line it names |
| SimpleConfigLib.ReadDictErrorNamesFirstBadLine | simpleconfig.py:103-126 | the error names the first bad line; it is "section header missing" exactly when that line is an assignment |
| SimpleConfigLib.ReadDictSectionsAreHeaders | simpleconfig.py:109-114 | a section is read exactly when the file has its header |
| SimpleConfigLib.RepeatedKeyLastWins | simpleconfig.py:121 | in the older library a repeated key keeps its last text |
| SimpleConfigLib.ParseLine | simpleconfig.py:103-126 | equals `DictStep` on the classified line |
| SimpleConfigLib.ParseDict | simpleconfig.py:94-126 | equals `ReadDict` |
| SimpleConfigLib.SimpleConfig.constructor | simpleconfig.py:49-50 | no sections |
| SimpleConfigLib.SimpleConfig.Add | simpleconfig.py:56-68 | a SectionError for a section that exists, and then nothing changes; otherwise a fresh section seeded from the defaults |
| SimpleConfigLib.SimpleConfig.Has | simpleconfig.py:70-72 | true exactly for a present section |
| SimpleConfigLib.SimpleConfig.Get | simpleconfig.py:74-80 | succeeds exactly for a present section; otherwise a SectionError |
| SimpleConfigLib.SimpleConfig.GetSections | simpleconfig.py:82-86 | the section names in sorted order |
| SimpleConfigLib.SimpleConfig.AutoSection | simpleconfig.py:88-92 | the section exists afterwards, added from the defaults if it was missing |
| SimpleConfigLib.SimpleConfig.SetTextsIn | simpleconfig.py:136-138 | only that section changes, overlaid with the typed texts |
| SimpleConfigLib.SimpleConfig.WriteDefaults | simpleconfig.py:129-131 | the result is `FileDefaults` |
| SimpleConfigLib.SimpleConfig.WriteSection | simpleconfig.py:133-138 | the result is `Wrote` |
| SimpleConfigLib.SimpleConfig.WriteSections | simpleconfig.py:133-138 | writing every section, in an order that is not fixed, gives `Written` |
| SimpleConfigLib.SimpleConfig.Readfp | simpleconfig.py:94-138 | fails exactly when the line parse does, with its error and nothing changed; otherwise the result is `FileApplied` |
| Cronwatch.MatchingLines | cronwatch.py:111-116 | the line numbers found are in range and strictly increasing |
| Cronwatch.MatchingLinesExactly | cronwatch.py:111-116 | a line number is found exactly when that line matches the pattern |
| Cronwatch.FirstInvalid | cronwatch.py:102-106 | reports a pattern that fails to compile, with its message; reports none exactly when every pattern compiles |
| Cronwatch.FirstInvalidIsFirst | cronwatch.py:102-106 | the reported pattern is the first in list order that fails |
| Cronwatch.FilteredFailure | cronwatch.py:92-108 | `filter_text` fails exactly when a pattern fails to compile; the error quotes the first such pattern and its message |
| Cronwatch.FilteredResult | cronwatch.py:92-118 | the result has one entry per pattern, holding the increasing numbers of exactly the lines that pattern matches |
| Cronwatch.SearchLine | cronwatch.py:113-115 | each pattern's list gains the line number exactly when the pattern matches the line |
| Cronwatch.CompileEach | cronwatch.py:102-108 | fails exactly on the first pattern that fails to compile; otherwise each pattern starts with an empty list |
| Cronwatch.SearchEach | cronwatch.py:111-116 | each pattern ends with `MatchingLines` |
| Cronwatch.FilterText | cronwatch.py:92-118 | equals `Filtered` |
| Cronwatch.FirstInvalidExtends | cronwatch.py:102-106 | a failing pattern in a prefix is the one reported for the whole list |
| Cronwatch.CompiledAll | cronwatch.py:152-157 | succeeds exactly when every item compiles, keeping the order; otherwise the error is the first failing item's |
| Cronwatch.CompiledAllFailureSticks | cronwatch.py:152-157 | a failure in a prefix is the failure of the whole list |
| Cronwatch.CompileRe | cronwatch.py:149-159 | equals `CompiledRe` |
| Cronwatch.CompiledReOfString | cronwatch.py:152 | a plain string is compiled character by character |
| Cronwatch.CompiledReFailure | cronwatch.py:149-159 | a value that is neither a list nor a string gives a TypeError; a list fails exactly when an item fails, with either the "must be a string" Error or a regex error |
| Cronwatch.CompiledReTwice | cronwatch.py:149-159 | compiling an already compiled list gives it back unchanged |
| Cronwatch.FirstUnknown | cronwatch.py:168-174 | reports a name outside the ten options; reports none exactly when every name is an option |
| Cronwatch.FirstUnknownIsFirst | cronwatch.py:168-174 | the reported name is the first unknown one in order |
| Cronwatch.FindUnknown | cronwatch.py:168-174 | equals `FirstUnknown` |
| Cronwatch.FirstUnknownExtends | cronwatch.py:168-174 | an unknown name in a prefix is the one reported for the whole list |
| Cronwatch.CompilePatternsFailureSticks | cronwatch.py:177-187 | once a pattern setting fails to compile, the later ones are not reached |
| Cronwatch.SectionResults | cronwatch.py:168-201 | every section is checked |
| Cronwatch.Combined | cronwatch.py:168 | checking sections in turn keeps every section |
| Cronwatch.CombinedFailureSticks | cronwatch.py:168-201 | the first failing section stops the check |
| Cronwatch.CombinedUntouched | cronwatch.py:168-201 | a section not yet checked is left unchanged |
| Cronwatch.CompileSetting | cronwatch.py:178-187 | the section's settings and the outcome are those of `CompilePattern` |
| Cronwatch.AllIntegers | cronwatch.py:193-196 | true exactly when every item is a Python 2 `int`: a bool, or an integer from -2^63 to 2^63-1; a `long` outside that range is refused |
| Cronwatch.CheckExitCodesIn | cronwatch.py:190-196 | the settings and the outcome are those of `CheckExitCodes`: `exit_codes` passes exactly when, wrapped as a list if it is not one, every item is a Python 2 `int` (bools included, `long`s refused) |
| Cronwatch.CheckMaxsizeIn | cronwatch.py:199-201 | equals `CheckMaxsize`: `email_maxsize` passes exactly when it is a Python 2 `int` (a bool, or an integer within the 64-bit range) |
| Cronwatch.CheckMaxsizeRefusesLong | cronwatch.py:199-201 | `email_maxsize` of 2^63, which Python 2 holds as a `long`, fails with "must be an integer" |
| Cronwatch.CompileSettings | cronwatch.py:177-187 | the settings and the outcome are those of `CompilePatterns` over required, whitelist and blacklist |
| Cronwatch.VerifySection | cronwatch.py:168-201 | the settings and the outcome are those of `CheckSection` |
| Cronwatch.VerifyOne | cronwatch.py:168-201 | only that section changes, as `CheckSection` says |
| Cronwatch.VerifyInOrder | cronwatch.py:168-201 | the outcome and the sections are those of `Combined` over the given order |
| Cronwatch.VerifyConfig | cronwatch.py:162-201 | the outcome and the new sections are those of `Verified` on the old sections |
| Cronwatch.CheckSectionUnknownOption | cronwatch.py:168-174 | a section with an unknown name fails with "unknown option" on its least unknown name, before anything is compiled |
| Cronwatch.CompilePatternPasses | cronwatch.py:178-187 | a pattern setting that passes is replaced by its compiled list; no other setting changes |
| Cronwatch.CompilePatternTwice | cronwatch.py:178-187 | an already compiled setting passes unchanged |
| Cronwatch.CompilePatternsPass | cronwatch.py:177-187 | when all three pattern settings pass, each holds its compiled list and nothing else changes |
| Cronwatch.CompilePatternsTwice | cronwatch.py:177-187 | compiled pattern settings pass unchanged |
| Cronwatch.CheckSectionPass | cronwatch.py:168-201 | a passing section names only options; its patterns are compiled; `exit_codes` is a list of integers; `email_maxsize` is an integer; the other settings are unchanged |
| Cronwatch.CheckSectionTwice | cronwatch.py:168-201 | a section that passed passes again, unchanged |
| Cronwatch.CheckExitCodesScalar | cronwatch.py:190-196 | a single exit code is wrapped as a one-item list, re-typed by the attribute assignment, and it passes exactly when it is a Python 2 `int` (a bool, or an integer within the 64-bit range) |
| Cronwatch.CombinedOutcome | cronwatch.py:168-201 | passes exactly when every section passes, and then each section holds its checked settings; otherwise the error is the first failing section's |
| Cronwatch.CombinedPasses | cronwatch.py:168-201 | checking sections in turn passes exactly when every section's own check passes |
| Cronwatch.CombinedSettings | cronwatch.py:168-201 | when every section passes, each holds what its own check made of it and the others are unchanged |
| Cronwatch.CombinedFirstFailure | cronwatch.py:168-201 | a failure is the one raised by the first failing section, every section before it having passed |
| Cronwatch.CombinedNoChange | cronwatch.py:168-201 | sections that pass unchanged leave the configuration unchanged |
| Cronwatch.ListingFacts | cronwatch.py:168 | the sorted section list holds each section once |
| Cronwatch.CombinedInOrder | cronwatch.py:168-201 | over sections in sorted name order, a failure is that of the least failing section name |
| Cronwatch.VerifiedOutcome | cronwatch.py:162-201 | `verify_config` passes exactly when every section does; a failure is the one of the least failing section name |
| Cronwatch.VerifiedTwice | cronwatch.py:162-201 | checking a configuration that passed again passes and changes nothing |
| TrunkCronwatch.DefaultsAfter | trunk/cronwatch.py:118-127 | after the first n assignments, the defaults section holds exactly the first n names |
| TrunkCronwatch.DefaultSettingsAreOptions | trunk/cronwatch.py:118-127 | the seeded defaults are exactly the ten options, each holding its default as both value and raw input |
| TrunkCronwatch.DefaultValueKept | trunk/cronwatch.py:118-127 | auto-typing leaves every default value as written |
| TrunkCronwatch.PlainTextKept | trunk/simpleconfig.py:94-103 | text that starts with none of the characters a keyword, an integer or a quote starts with is kept by auto-typing |
| TrunkCronwatch.SectionUnknowns | trunk/cronwatch.py:134-141 | every section is checked for unknown names |
| TrunkCronwatch.FirstReported | trunk/cronwatch.py:134-141 | reports an unknown setting of some section; reports none exactly when no section has one |
| TrunkCronwatch.FirstReportedExtends | trunk/cronwatch.py:134-141 | a report in a prefix of the sections is the one for all of them |
| TrunkCronwatch.FirstReportedIsFirst | trunk/cronwatch.py:134-141 | the reported section is the first in order that has an unknown setting |
| Cronwatch.LeastUnknown | trunk/cronwatch.py:135-141 | over sorted names, the reported name is the least unknown one |
| TrunkCronwatch.UnknownOptionOfIsLeast | trunk/cronwatch.py:134-141 | no report exactly when every section names only options; otherwise the least unknown name of the least section that has one |
| TrunkCronwatch.SeedDefault | trunk/cronwatch.py:118-127 | one more default is set |
| TrunkCronwatch.SeedAll | trunk/cronwatch.py:118-127 | all ten defaults are set |
| TrunkCronwatch.SeedDefaults | trunk/cronwatch.py:116-127 | a fresh configuration whose only section is the defaults section with the ten defaults |
| TrunkCronwatch.FindUnknownOption | trunk/cronwatch.py:134-141 | equals `FirstReported` |
| TrunkCronwatch.CheckOptions | trunk/cronwatch.py:134-141 | reports `UnknownOptionOf` the configuration's sections, and changes nothing |
| TrunkCronwatch.ReadOnto | trunk/cronwatch.py:129-143 | a failing read passes its error through; after a read that passes, the result is the configuration read unless a setting name is not an option |
| TrunkCronwatch.ReadConfig | trunk/cronwatch.py:114-143 | succeeds exactly when `ReadConfigResult` does, with the same error or the same sections |
| TrunkCronwatch.ReadConfigWithoutFile | trunk/cronwatch.py:131-132 | when the default file is missing, the result is just the defaults |
| TrunkCronwatch.ReadConfigMissingFile | trunk/cronwatch.py:129-130 | a named file that is missing gives an IOError |
| TrunkCronwatch.ReadConfigOnlyOptions | trunk/cronwatch.py:129-143 | library errors pass through; when the read passes, the result succeeds exactly when every section names only options; an unknown option reported is the least in the least such section |
| TrunkCronwatch.FilterTextOnePattern | trunk/cronwatch.py:95-97 | a single pattern is treated as a one-item list |
| Registry.Added | processor/config.py:52-65 | a duplicate name fails first, then an unknown type; otherwise exactly one row is added with the type and default given |
| Registry.Lookup | processor/config.py:67-83 | succeeds exactly for a defined name and returns its row |
| Registry.Updated | processor/config.py:85-92 | fails exactly for an undefined name; otherwise only that row's value changes, and its type is kept |
| Registry.AddedThenLookup | processor/config.py:52-83 | an added setting reads back with its type and default, and adding it again is a duplicate whatever the type |
| Registry.UpdatedThenLookup | processor/config.py:76-92 | a set value reads back under the old type, and other names read as before |
| Registry.UpdatedTwice | processor/config.py:85-92 | the last set wins; setting the value already held changes nothing |
| Registry.TypesAreFixed | processor/config.py:52-92 | adding and setting never change a declared type |
| ProcessorConfig.Raised | processor/config.py:29-45 | each failure raises its own exception class |
| ProcessorConfig.ConfigSetting.constructor | processor/config.py:48-50 | no settings |
| ProcessorConfig.ConfigSetting.AddSetting | processor/config.py:52-65 | as `Added`, with SettingExistsError and SettingTypeInvalidError; a failed call changes nothing |
| ProcessorConfig.ConfigSetting.GetType | processor/config.py:67-74 | the declared type of a defined name; otherwise SettingNameInvalidError |
| ProcessorConfig.ConfigSetting.Get | processor/config.py:76-83 | the value of a defined name; otherwise SettingNameInvalidError |
| ProcessorConfig.ConfigSetting.Set | processor/config.py:85-92 | fails exactly for an undefined name and then changes nothing; otherwise as `Updated` |
| ProcessorConfig.ConfigSetting.GetItem | processor/config.py:95-97 | the same as `get` |
| ProcessorConfig.ConfigSetting.SetItem | processor/config.py:99-101 | the same as `set` |
| ProcessorConfig.SetUp | processor/test_config.py:29-35 | the five settings of the test fixture, with their types and defaults |
| ProcessorConfig.Misuse | processor/test_config.py:40-75 | a repeated name, an unknown type and an unknown name each raise their exception |
| ProcessorConfig.SetThenGet | processor/test_config.py:86-89 | `c['i'] = 3` reads back as 3, and the type stays `int` |
| TrunkProcessorConfig.Raised | trunk/processor/config.py:29-45 | each failure raises its own exception class |
| TrunkProcessorConfig.ConfigSection.constructor | trunk/processor/config.py:48-51 | no settings, and the `global_only` flag given, False by default |
| TrunkProcessorConfig.ConfigSection.AddSetting | trunk/processor/config.py:53-66 | as `Added`, with NameExistsError and SettingTypeInvalidError; a failed call changes nothing; the flag is kept for a setting name other than `global_only` |
| TrunkProcessorConfig.ConfigSection.GetType | trunk/processor/config.py:68-75 | the declared type of a defined name; otherwise NameInvalidError |
| TrunkProcessorConfig.ConfigSection.Get | trunk/processor/config.py:77-84 | the value of a defined name; otherwise NameInvalidError |
| TrunkProcessorConfig.ConfigSection.Set | trunk/processor/config.py:86-93 | as `Updated`, with NameInvalidError; a failed call changes nothing |
| TrunkProcessorConfig.ConfigSection.GetItem | trunk/processor/config.py:96-98 | the same as `get` |
| TrunkProcessorConfig.ConfigSection.SetItem | trunk/processor/config.py:100-102 | the same as `set` |
| TrunkProcessorConfig.Config.constructor | trunk/processor/config.py:105-107 | no sections |
| TrunkProcessorConfig.Config.AddSection | trunk/processor/config.py:109-115 | NameExistsError for a name in use, with nothing changed; otherwise a fresh empty section with the flag given, and every other section kept |
| TrunkProcessorConfig.Config.Get | trunk/processor/config.py:117-123 | the section object itself for a known name; otherwise NameInvalidError |
| TrunkProcessorConfig.Config.GetItem | trunk/processor/config.py:125-127 | the same as `get` |
| TrunkProcessorConfig.AddSettingIn | trunk/processor/config.py:53-66 | `c[name].add_setting(...)` changes only that section, as `Added`; a missing section gives NameInvalidError |
| TrunkProcessorConfig.DifferentSections | trunk/processor/test_config.py:120-125 | settings added to two sections each read back from their own section |
| TrunkProcessorConfig.GlobalOnlyFlag | trunk/processor/test_config.py:91-95 | `global_only` is False unless given |
| TrunkProcessorConfig.SectionMisuse | trunk/processor/test_config.py:104-110 | a repeated section raises NameExistsError; an unknown one raises NameInvalidError |

## Left out

- File opening and reading: files are sequences of lines. A file that cannot be opened is a
  `None` in `File.lines` (trunk), or a path function in `read_config`. An `IOError`'s message
  is the path.
- The regular-expression engine is a parameter (`Cronwatch.Engine`). The fixed patterns of the
  two parsers and the auto-typers are written out as functions, including Python's rule that
  `$` also matches before a final newline.
- Floating-point values are opaque literals (`VFloat`). Nothing is computed on them.
- `run`, `call_sendmail`, `send_mail`, `watch` and `main` of both cronwatch.py files are not
  modelled. They run processes, read clocks and send mail.
- The configobj-based `read_config` of cronwatch.py and its validators (`is_regex`,
  `is_regex_list`, `force_regex_list`, `force_int_list`) are not part of this model.
  `verify_config` is modelled over the trunk/simpleconfig.py `Config`, whose section and
  setting API it calls.
- Python attribute machinery is not modelled as separate members. This covers `__getattr__`,
  `__setattr__`, `__delattr__` and `get_default_section`. Their effects are covered by the
  members they delegate to:
  - `Section.__setattr__` is `SetSetting` of `NewSetting`;
  - `Config.__getattr__` is `SetSetting`'s auto-created section;
  - the simpleconfig.py attribute forms are `SimpleConfig.AutoSection` and
    `SimpleConfigSection.Set`/`Get`.
- ProcessorConfig.ConfigSetting.AddSetting, TrunkProcessorConfig.ConfigSection.AddSetting: the
  attribute that `add_setting` installs with `setattr(self, name, property(self.get, self.set))`
  (processor/config.py:63, trunk/processor/config.py:64) is not modelled, and neither is what
  it hides. A `property` stored on an instance is not a descriptor, so it delegates to nothing.
  It also replaces whatever the object held under that name:
  - `add_setting('global_only')` replaces the section's flag with a `property` object, which is
    truthy. The model's `globalOnly == old(globalOnly)` holds only for other names;
  - `add_setting('get')`, `'set'`, `'get_type'` or `'add_setting'` replaces that method, so
    later calls of it (and `c[n]`, which calls `get`) raise TypeError. The model's methods go
    on working;
  - `add_setting('_ConfigSetting__settings')` or `'_ConfigSection__settings'` replaces the
    settings table, so the next line of `add_setting` raises TypeError. The model adds the row
    and succeeds.
- The `assert isinstance` checks on names and sections are not modelled. Names are strings and
  sections are sections by type.
- The `__deepcopy__` guard in `Section.get_setting` (trunk/simpleconfig.py:131) is left out.
  There, `get_setting('__deepcopy__')` returns `None`, so iterating a section that holds a
  setting of that name yields `None`, and the option checks (trunk/cronwatch.py:136,
  cronwatch.py:170) raise `AttributeError`. The model treats the name like any other:
  `Section.Items` returns the setting, and the checks report "unknown option __deepcopy__".
- A setting's stored name is not a field of the `Setting` record. `Section.set_setting`
  stamps the key on the record (trunk/simpleconfig.py:122-127). Records are never shared (see
  below), so the name is the key the setting is stored under.
- Dictionary iteration order is not modelled. `apply_defaults` and `readfp` visit sections in
  an order Python does not fix, and the model proves the result is the same for every order.
  `apply_config` and `verify_config` iterate in sorted order, as the source's iterators do.
- The object identity that `Config.get` returns in trunk/processor/config.py is modelled:
  sections are shared references. Setting records are values. Every library path builds a fresh
  `Setting` (trunk/simpleconfig.py:158, 226) or stores a deep copy (trunk/simpleconfig.py:261,
  265-266, 294-295), so no two sections share a record. The in-place updates
  (trunk/simpleconfig.py:330-337, cronwatch.py:187) therefore reach one stored setting only. A
  caller that stores one `Setting` object in two sections is not modelled: in Python that
  record would carry the last key `set_setting` stamped on it.
- TrunkSimpleConfig.Config.SetSection: it requires that the section object is not already
  stored under another name, whereas the source's `set_section` (trunk/simpleconfig.py:186-192)
  accepts any `Section`. Every library call site passes a fresh `Section()` or a deep copy
  (trunk/simpleconfig.py:224, 231, 261, 316), so the model agrees wherever the library calls
  it. A caller that stores one section object under two names is not modelled. In Python,
  `set_name` renames the shared object, so the entry under the first name then reports the new
  name and receives both names' defaults and settings. `Config.Valid()` states that each stored
  section's name is its key, which such sharing breaks, so the model cannot allow it.
- Python 2 integers are modelled for a 64-bit platform, where `sys.maxint` is 2^63-1. `IsInt`
  accepts booleans, because `bool` is a subtype of `int`, and integers from -2^63 to 2^63-1.
  Parsing a larger number gives a `long`, which `isinstance(x, int)` refuses, so the
  `exit_codes` and `email_maxsize` checks fail for it. A 32-bit platform's narrower range is
  not modelled.
- trunk/test_cronwatch.py:140 expects a default named `email`, which `read_config` never
  defines. The model follows the code, which defines the ten options listed in `Options`.
- trunk/test_simpleconfig.py exercises the simpleconfig.py API (`SimpleConfig`, `readfp`). The
  model follows each library's own source.
- The build and test scaffolding (pavement.py, test_base.py and the documentation sources) is
  not modelled.
- TrunkSimpleConfig.ReadAll: its own contract states only which failures can occur. The full
  behaviour of `read` is stated by `Config.Read`, which equals `ReadAll`, and by the lemmas
  about `ParseFile` and `MergedAll`.
