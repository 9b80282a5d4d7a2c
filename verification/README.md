# ProjectAlice modules and dialog-template validator, modelled in Dafny

This project models the behaviour of a handful of ProjectAlice voice-assistant
modules, and of the validator that checks a module's dialog templates:

- **SpokenTime** (`DateDayTimeYear.timeIntent`): the phrase Alice says for the
  current time in English, French and German, as a function of the hour and
  minute. Each language's phrase is given a *reading*, the time on a 12-hour
  dial that a listener hears. Every phrase is proved to be read as the clock
  time, and a word for noon, midnight or one is proved to name that very hour
  of the day (so "midnight" is never said for noon), except at the inputs
  listed under Findings.
- **Validation / DialogValidation** (`Tools/JsonValidator`): the validator's
  accumulated report (`infinidict`, a nested map that creates missing levels
  on access) and its error flag. Each check over the dialog templates is a
  loop method on a `DialogValidation` object. The method is proved equal to a
  left fold over the files. What the fold records is proved entry by entry:
  the missing slots per file, the unknown slots and the unmatched slot values
  per intent, and the duplicated short utterances. For a given set of modules
  to read slots from, `validate` is proved to raise the error flag exactly
  when one of these problems exists; how that set comes from
  getRequiredModules is modelled beside it, and what that call adds to the
  flag is listed under Left out.
  `getRequiredModules` is modelled as written, with Python's recursion limit
  as fuel. Beside it, a corrected dependency closure is proved to be the
  least closed set.
- **BringShoppingList**: adding, deleting and checking items against a
  case-insensitive snapshot of the Bring! purchase list, the items read from
  the session, and the composed answer.
- **AliceSatellite**: the table of the latest sensor readings per site,
  updated by feedback messages and read by the query intents.
- **Minigames / MiniGame**: which game is selected, and whether it is started.
- **Speller** and **Telemetry**: small formatters.

Calls to the host (`endDialog`, `continueDialog`, `endTalk`, `randomTalk`)
become returned values (`Dialog.Action`, `BringShoppingList.Speech`,
`Minigames.Outcome`). Clocks, file reads, JSON parsing, the schema
validator, `unidecode`, the snips builtin entities, module loading and the
telemetry store become parameters.

Shared files: `Wrappers.dfy` (Option, Result), `Text.dfy` (the ASCII forms of
`str.lower`, `str.capitalize`, `str.join` and the decimal rendering of an int)
and `Dialog.dfy` (the host calls as values).

## Model

| member | source | states |
|---|---|---|
| Text.Lower | PublishedModules/philipp2310/BringShoppingList/BringShoppingList.py:102 | `lower()` keeps the length and maps each character through the ASCII lower-casing |
| Text.LowerIdempotent | PublishedModules/philipp2310/BringShoppingList/BringShoppingList.py:102 | lower-casing twice is lower-casing once, so the case-insensitive test is an equivalence on names |
| Text.Capitalize | PublishedModules/philipp2310/BringShoppingList/BringShoppingList.py:149 | `capitalize()`: the same length, the first character upper-cased and the rest lower-cased |
| Text.JoinLength | PublishedModules/Psychokiller1888/Speller/Speller.py:27 | a join is as long as its parts plus one separator between each two |
| Text.NatToString | PublishedModules/Psychokiller1888/DateDayTimeYear/DateDayTimeYear.py:39 | an f-string integer is a non-empty run of decimal digits with no leading zero |
| Text.ParseNatToString | PublishedModules/Psychokiller1888/DateDayTimeYear/DateDayTimeYear.py:39 | reading the rendered digits back gives the number |
| Text.NatToStringInjective | PublishedModules/Psychokiller1888/DateDayTimeYear/DateDayTimeYear.py:39 | two different numbers never render alike |
| SpokenTime.Dial | PublishedModules/Psychokiller1888/DateDayTimeYear/DateDayTimeYear.py:14-15 | a time lies on the 12-hour dial, in minutes 0..719 |
| SpokenTime.DialSameHour | PublishedModules/Psychokiller1888/DateDayTimeYear/DateDayTimeYear.py:23 | hours equal modulo 12 sit at the same place on the dial |
| SpokenTime.DialBefore | PublishedModules/Psychokiller1888/DateDayTimeYear/DateDayTimeYear.py:80 | "k minutes before h" is the place of h-1 at 60-k minutes |
| SpokenTime.ClockDial | PublishedModules/Psychokiller1888/DateDayTimeYear/DateDayTimeYear.py:14-15 | the clock time as a place on the 12-hour dial |
| SpokenTime.EnglishHour | PublishedModules/Psychokiller1888/DateDayTimeYear/DateDayTimeYear.py:18-23 | 12 is "noon", 0 is "midnight", every other hour is `hours % 12` in 1..11, and the hour keeps its place on the dial |
| SpokenTime.EnglishFormOf | PublishedModules/Psychokiller1888/DateDayTimeYear/DateDayTimeYear.py:17-48 | the English phrase fails exactly at :45 past 0 and 12; everywhere else it is read as the clock time except at :45 past 10 and 22, and its noon or midnight names the hour of the day it counts from except at 10:45, 11:45 and 22:45 |
| SpokenTime.EnglishQuarterToAsWritten | PublishedModules/Psychokiller1888/DateDayTimeYear/DateDayTimeYear.py:30-36 | 10:45 and 22:45 say "quarter to noon", 11:45 says "quarter to midnight", 0:45 and 12:45 fail; "quarter to noon" is not read as 10:45, and "midnight" does not name 12 o'clock |
| SpokenTime.EnglishQuarterTo | PublishedModules/Psychokiller1888/DateDayTimeYear/DateDayTimeYear.py:30-36 | the corrected quarter-to names the next hour of the day: read as the clock time, "noon" exactly at 11:45 and "midnight" exactly at 23:45 |
| SpokenTime.EnglishFormIntended | PublishedModules/Psychokiller1888/DateDayTimeYear/DateDayTimeYear.py:17-48 | the corrected English phrase is always read as the clock time, names the hour of the day it counts from, and agrees with the original at every minute but :45 |
| SpokenTime.FrenchHour | PublishedModules/Psychokiller1888/DateDayTimeYear/DateDayTimeYear.py:51-62 | up to :30 the current hour, after :30 the next one (mod 24); named "midi"/"minuit" exactly at 12 and 0 |
| SpokenTime.FrenchFormOf | PublishedModules/Psychokiller1888/DateDayTimeYear/DateDayTimeYear.py:64-84 | every French phrase is read as the clock time and names the hour of the day it counts from (midi and minuit exactly), and "moins k" past :30 (other than :45) subtracts 1..29 minutes |
| SpokenTime.GermanHour | PublishedModules/Psychokiller1888/DateDayTimeYear/DateDayTimeYear.py:88-105 | before :30 the current hour, from :30 the next one (`hours % 12 + 1` as a number), except that 11:30 and 23:30 keep the number 11 or 23; "Mittag" exactly at 12:00-12:29 and 11:31-11:59, "Mitternacht" exactly at 0:00-0:29 and 23:31-23:59, "eins" exactly at 1:00-1:29 and 0:30-0:59, and no other word |
| SpokenTime.GermanPhraseWith | PublishedModules/Psychokiller1888/DateDayTimeYear/DateDayTimeYear.py:107-119 | the phrase keeps the hour given; "nach" counts on from it, and "halb", "viertel vor" and "vor" count back from it |
| SpokenTime.GermanFormOf | PublishedModules/Psychokiller1888/DateDayTimeYear/DateDayTimeYear.py:87-119 | every German phrase is read as the clock time and names the hour of the day it counts from, except at 11:30 and 23:30 |
| SpokenTime.GermanHalfPastElevenAsWritten | PublishedModules/Psychokiller1888/DateDayTimeYear/DateDayTimeYear.py:96-101 | 11:30 says "halb 11" and 23:30 "halb 23"; "halb 11" is read as 10:30 |
| SpokenTime.GermanHourIntended | PublishedModules/Psychokiller1888/DateDayTimeYear/DateDayTimeYear.py:96-105 | the corrected German hour always names the hour the phrase counts from, and agrees with the original except at 11:30 and 23:30 |
| SpokenTime.GermanFormIntended | PublishedModules/Psychokiller1888/DateDayTimeYear/DateDayTimeYear.py:87-119 | the corrected German phrase is always read as the clock time and names the hour of the day it counts from |
| SpokenTime.TimePhrase | PublishedModules/Psychokiller1888/DateDayTimeYear/DateDayTimeYear.py:17-121 | the phrase for the active language fails exactly for English at :45 past 0 and 12; a language other than English, French and German gets "{hours} {minutes}" |
| SpokenTime.TimePhraseIntended | PublishedModules/Psychokiller1888/DateDayTimeYear/DateDayTimeYear.py:17-121 | the corrected phrase agrees with the original for every language but English and German: French unchanged, and "{hours} {minutes}" otherwise |
| SpokenTime.TimeIntent | PublishedModules/Psychokiller1888/DateDayTimeYear/DateDayTimeYear.py:123 | the dialog ends with the "time" talk filled in with the phrase, and raises whenever the phrase does |
| Validation.LookupPut | Tools/JsonValidator/src/Validation.py:20-21 | a deep write through the auto-creating map is read back at its path, which then exists |
| Validation.LookupPutApart | Tools/JsonValidator/src/Validation.py:20-21 | a deep write leaves every path apart from it as it was |
| Validation.PutPut | Tools/JsonValidator/src/Validation.py:20-21 | the second of two writes to one path wins |
| Validation.PutLookupSame | Tools/JsonValidator/src/Validation.py:20-21 | writing back what an existing path holds changes nothing |
| Validation.TouchCreates | Tools/JsonValidator/src/Validation.py:20-21 | reading a path creates it, with the value it read, and leaves an existing path alone |
| Validation.MissingReadsEmpty | Tools/JsonValidator/src/Validation.py:20-21 | reading a missing path gives an empty map |
| Validation.LookupConcat | Tools/JsonValidator/src/Validation.py:20-21 | reading a long path is reading its parts one after another |
| Validation.LookupPutBelow | Tools/JsonValidator/src/Validation.py:20-21 | below a written path the written value is read |
| Validation.TouchKeeps | Tools/JsonValidator/src/Validation.py:20-21 | reading one path changes nothing that lies apart from it or below it |
| Validation.EmptyReadsEmpty | Tools/JsonValidator/src/Validation.py:14 | every path of a new report reads as an empty map |
| Validation.SyntaxStep | Tools/JsonValidator/src/Validation.py:51-58 | a parse error raises the flag and stores its message under syntax/<file name>; a file that parses changes nothing |
| Validation.SyntaxStepKeeps | Tools/JsonValidator/src/Validation.py:56 | parsing touches nothing outside syntax/ |
| Validation.SyntaxPassKeeps | Tools/JsonValidator/src/Validation.py:56 | parsing many files touches nothing outside syntax/ |
| Validation.Messages | Tools/JsonValidator/src/Validation.py:75 | the recorded list holds each error's message, in the given order |
| Validation.SchemaStepRecords | Tools/JsonValidator/src/Validation.py:61-75 | schema/<file name> holds the file's messages in text order (empty when valid), and the flag rises on a parse error or a schema error |
| Validation.SchemaPassError | Tools/JsonValidator/src/Validation.py:61-75 | after the schema check the flag is set exactly when it was before or some file fails to parse or breaks the schema |
| Validation.SchemaPassKeeps | Tools/JsonValidator/src/Validation.py:61-75 | the schema check touches nothing outside syntax/ and schema/ |
| Validation.TextLeTotal | Tools/JsonValidator/src/Validation.py:74 | sorting by text compares any two messages |
| Validation.TextLeTrans | Tools/JsonValidator/src/Validation.py:74 | the text order is transitive |
| Validation.InsertSorted | Tools/JsonValidator/src/Validation.py:74 | inserting into a sorted list keeps it sorted |
| Validation.SortByText | Tools/JsonValidator/src/Validation.py:74 | `sorted(..., key=str)` returns a permutation of the errors, in text order |
| Validation.Validation.constructor | Tools/JsonValidator/src/Validation.py:12-17 | a validator starts with an empty report and the error flag down |
| Validation.Validation.ModuleName | Tools/JsonValidator/src/Validation.py:41-43 | the module's name is the last component of its path |
| Validation.Validation.ModuleAuthor | Tools/JsonValidator/src/Validation.py:46-48 | the author is the name of the path's parent |
| Validation.Validation.ValidateSyntax | Tools/JsonValidator/src/Validation.py:51-58 | returns the parsed data, or an empty dict on a parse error, and updates the state as SyntaxStep |
| Validation.Validation.ValidateSchema | Tools/JsonValidator/src/Validation.py:61-75 | the loop over the files leaves the state of the schema fold |
| Validation.Validation.ValidateSchemaOf | Tools/JsonValidator/src/Validation.py:64-75 | one file's schema check leaves the state of SchemaStep |
| Validation.Validation.AppendAll | Tools/JsonValidator/src/Validation.py:74-75 | appending the messages one by one to the empty list leaves exactly those messages there |
| DialogValidation.MapNorm | Tools/JsonValidator/src/DialogValidation.py:78-80 | each spelling is normalised in place |
| DialogValidation.UnmatchedMembers | Tools/JsonValidator/src/DialogValidation.py:73-84 | a value is reported missing exactly when it is an input value that matches no slot value |
| DialogValidation.ExtensibleFindsAll | Tools/JsonValidator/src/DialogValidation.py:82 | an automatically extensible slot with at least one value reports nothing missing |
| DialogValidation.NoValuesFindsNothing | Tools/JsonValidator/src/DialogValidation.py:77-83 | a slot without values reports every input value missing, even when extensible |
| DialogValidation.SynonymsNeedFlag | Tools/JsonValidator/src/DialogValidation.py:79-80 | without useSynonyms (and not extensible) only the normalised main values match |
| DialogValidation.SynonymMatches | Tools/JsonValidator/src/DialogValidation.py:79-82 | with useSynonyms a value matching a normalised synonym is found |
| DialogValidation.SearchMissingSlotValues | Tools/JsonValidator/src/DialogValidation.py:73-84 | the nested loops return the unmatched values, in input order |
| DialogValidation.AddNames | Tools/JsonValidator/src/DialogValidation.py:122 | `dict.update` on the key order: old names first, new names appended once |
| DialogValidation.UnionNames | Tools/JsonValidator/src/DialogValidation.py:117-122 | the slot names of all files, each once |
| DialogValidation.UnionNamesMembers | Tools/JsonValidator/src/DialogValidation.py:117-122 | a name is in the union exactly when some file declares it |
| DialogValidation.Without | Tools/JsonValidator/src/DialogValidation.py:128 | the names of the union that the file lacks, each once |
| DialogValidation.SlotsRecorded | Tools/JsonValidator/src/DialogValidation.py:125-131 | slots/<file name> holds exactly the union names the file lacks |
| DialogValidation.SlotsPassError | Tools/JsonValidator/src/DialogValidation.py:125-131 | the slot pass raises the flag exactly when some file lacks a name, and never lowers it |
| DialogValidation.SyntaxPassError | Tools/JsonValidator/src/DialogValidation.py:119-122 | parsing the files raises the flag exactly on a parse error |
| DialogValidation.ValidateSlotsOutcome | Tools/JsonValidator/src/DialogValidation.py:116-131 | after validateSlots each file's entry is its missing names |
| DialogValidation.ValidateSlotsError | Tools/JsonValidator/src/DialogValidation.py:116-131 | validateSlots raises the flag exactly on a parse error or a file lacking a slot |
| DialogValidation.SlotsPassKeeps | Tools/JsonValidator/src/DialogValidation.py:129 | the slot pass touches nothing outside syntax/ and slots/ |
| DialogValidation.Update | Tools/JsonValidator/src/DialogValidation.py:68 | `allSlots.update` keeps the old keys and adds the file's |
| DialogValidation.AllSlotsMembers | Tools/JsonValidator/src/DialogValidation.py:62-69 | for a given module list, a slot is known for a language exactly when one of those modules' templates for it declares the slot |
| DialogValidation.CheckSlot | Tools/JsonValidator/src/DialogValidation.py:99-113 | checking one slot raises the flag exactly for an unknown non-builtin slot or a known slot with missing values |
| DialogValidation.CheckSlotsError | Tools/JsonValidator/src/DialogValidation.py:99-113 | one intent raises the flag exactly when one of its slots is flagged |
| DialogValidation.CheckSlotMissing | Tools/JsonValidator/src/DialogValidation.py:100-108 | one slot is appended to its intent's missingSlots list exactly when it is neither builtin nor known |
| DialogValidation.CheckIntentsError | Tools/JsonValidator/src/DialogValidation.py:98-113 | one file raises the flag exactly when one of its intents is flagged |
| DialogValidation.IntentSlotsPassError | Tools/JsonValidator/src/DialogValidation.py:87-113 | the intent-slot check raises the flag exactly on a parse error or a flagged file |
| DialogValidation.UnknownSlots | Tools/JsonValidator/src/DialogValidation.py:100-108 | the slots listed as missing are neither builtin nor known |
| DialogValidation.CheckSlotsMissing | Tools/JsonValidator/src/DialogValidation.py:99-108 | an intent's missingSlots entry gains its unknown non-builtin slots, in order |
| DialogValidation.CheckIntentsMissing | Tools/JsonValidator/src/DialogValidation.py:98-108 | each intent's missingSlots entry lists its own unknown slots |
| DialogValidation.IntentSlotsPassMissing | Tools/JsonValidator/src/DialogValidation.py:94-108 | after the pass, utterances/<file>/missingSlots/<intent> lists that intent's unknown slots |
| DialogValidation.IntentSlotsEarlierKeep | Tools/JsonValidator/src/DialogValidation.py:94-113 | the pass writes nothing under the entries of other files |
| DialogValidation.CheckSlotsValues | Tools/JsonValidator/src/DialogValidation.py:109-113 | a known slot's missingSlotValue entry is set exactly when values are missing, to those values |
| DialogValidation.CheckIntentsValues | Tools/JsonValidator/src/DialogValidation.py:98-113 | each intent's per-slot missingSlotValue entry is its own |
| DialogValidation.IntentSlotsPassValues | Tools/JsonValidator/src/DialogValidation.py:94-113 | after the pass, utterances/<file>/missingSlotValue/<intent>/<slot> holds the slot's missing values when there are any |
| DialogValidation.RecordGroupsError | Tools/JsonValidator/src/DialogValidation.py:140-142 | an intent raises the flag exactly when a short utterance has more than one utterance |
| DialogValidation.RecordIntentsError | Tools/JsonValidator/src/DialogValidation.py:139-142 | a file raises the flag exactly when one of its intents has a duplicated short utterance |
| DialogValidation.DuplicatesPassError | Tools/JsonValidator/src/DialogValidation.py:134-143 | the duplicate search raises the flag exactly on a parse error or a duplicated short utterance |
| DialogValidation.RecordGroupsEntry | Tools/JsonValidator/src/DialogValidation.py:140-143 | a group is recorded with its utterances exactly when it has more than one |
| DialogValidation.RecordIntentsEntry | Tools/JsonValidator/src/DialogValidation.py:139-143 | each intent's groups are recorded under that intent |
| DialogValidation.DuplicatesPassEntry | Tools/JsonValidator/src/DialogValidation.py:134-143 | utterances/<file>/duplicates/<intent>/<short> holds the utterances exactly when there are more than one |
| DialogValidation.DuplicatesEarlierKeep | Tools/JsonValidator/src/DialogValidation.py:134-143 | the search writes nothing under other files' entries |
| DialogValidation.LoadAllSlotsError | Tools/JsonValidator/src/DialogValidation.py:88-91 | for a given module list, loading the known slots raises the flag exactly on a language template that does not parse |
| DialogValidation.ValidateMissingSlots | Tools/JsonValidator/src/DialogValidation.py:146-152 | after validate, each intent's missingSlots entry lists its unknown slots |
| DialogValidation.ValidateMissingValues | Tools/JsonValidator/src/DialogValidation.py:146-152 | after validate, each known slot's missingSlotValue entry holds its missing values when there are any |
| DialogValidation.ValidateDuplicates | Tools/JsonValidator/src/DialogValidation.py:146-152 | after validate, a short utterance is recorded exactly when verbosity is non-zero and it has more than one utterance |
| DialogValidation.ValidateFlag | Tools/JsonValidator/src/DialogValidation.py:146-152 | for a given module list, validate returns true exactly when the flag was up or some file has a schema, parse, slot, duplicate (with verbosity) or intent-slot problem |
| DialogValidation.ValidateFlagSound | Tools/JsonValidator/src/DialogValidation.py:146-152 | for a given module list, when validate raises a flag that was down, some file has one of those problems |
| DialogValidation.ValidateFlagComplete | Tools/JsonValidator/src/DialogValidation.py:146-152 | a flag already up stays up, and any file with one of those problems makes validate return true |
| DialogValidation.SearchModule | Tools/JsonValidator/src/DialogValidation.py:35-39 | the first published module with that name, or None when no published module has it |
| DialogValidation.FromNamesGrows | Tools/JsonValidator/src/DialogValidation.py:48-52 | the union only grows the module set |
| DialogValidation.FromInstallersGrows | Tools/JsonValidator/src/DialogValidation.py:45-52 | the installer loop only grows the module set |
| DialogValidation.RequiredContainsStart | Tools/JsonValidator/src/DialogValidation.py:43-44 | when getRequiredModules returns, its result contains the starting module |
| DialogValidation.RequiredWithin | Tools/JsonValidator/src/DialogValidation.py:42-53 | when it returns, every module it found is in every dependency-closed set containing the module under validation and the start |
| DialogValidation.RequiredClosed | Tools/JsonValidator/src/DialogValidation.py:42-53 | when getRequiredModules returns, every published dependency (other than the validated module's own name) of every module in its result is in the result |
| DialogValidation.FromInstallersClosed | Tools/JsonValidator/src/DialogValidation.py:45-52 | after the installer loop, every dependency it read is in the set, and modules already closed stay closed |
| DialogValidation.FromNamesClosed | Tools/JsonValidator/src/DialogValidation.py:48-52 | after the dependency loop, every name it read that is published is in the set, and modules already closed stay closed |
| DialogValidation.RequiredIsClosure | Tools/JsonValidator/src/DialogValidation.py:42-53 | when getRequiredModules returns from the validated module, its result is exactly the corrected closure: it holds the module, is closed, and lies in every closed set holding the module |
| DialogValidation.FromNamesStuck | Tools/JsonValidator/src/DialogValidation.py:49-52 | a dependency whose own search fails one level down (or at the recursion limit) makes the loop fail |
| DialogValidation.UnpublishedDependencyNeverReturns | Tools/JsonValidator/src/DialogValidation.py:43-52 | a direct dependency that is not published makes getRequiredModules raise for any recursion limit |
| DialogValidation.UnpublishedDependencyExample | Tools/JsonValidator/src/DialogValidation.py:43-52 | Telemetry requiring an unpublished AliceSatellite never returns |
| DialogValidation.CycleNeverReturns | Tools/JsonValidator/src/DialogValidation.py:42-53 | two published modules other than the validated one that require each other make getRequiredModules raise for any recursion limit, from either of them and from a validated module requiring one of them |
| DialogValidation.RequiredModules | Tools/JsonValidator/src/DialogValidation.py:42-53 | the corrected closure contains the module, is closed under found dependencies and lies in every such closed set |
| DialogValidation.Expand | Tools/JsonValidator/src/DialogValidation.py:48-52 | one module's dependencies are added and queued, and nothing outside any closed set is added |
| DialogValidation.SlotModules | Tools/JsonValidator/src/DialogValidation.py:56-61 | the module set of getAllSlots exists exactly when getRequiredModules returns; it holds the validated module and every core module, every non-core module in it has its dependencies in it, and it lies within any closed set holding the module plus the core |
| DialogValidation.DialogValidation.constructor | Tools/JsonValidator/src/Validation.py:12-17 | a dialog validator starts for its module path with an empty report and the error flag down |
| DialogValidation.DialogValidation.ValidateSlots | Tools/JsonValidator/src/DialogValidation.py:116-131 | the two loops leave the state of the validateSlots fold |
| DialogValidation.DialogValidation.LoadSlotNames | Tools/JsonValidator/src/DialogValidation.py:119-122 | the first loop returns the union of the files' slot names and leaves the state of parsing every file |
| DialogValidation.DialogValidation.RecordMissingSlots | Tools/JsonValidator/src/DialogValidation.py:125-131 | the second loop leaves the state of the slot pass: each file's missing names recorded, the flag raised when any are missing |
| DialogValidation.DialogValidation.GetAllSlots | Tools/JsonValidator/src/DialogValidation.py:62-69 | for a given module list, returns the union of the language's slots over the modules and parses their templates |
| DialogValidation.DialogValidation.ValidateIntentSlots | Tools/JsonValidator/src/DialogValidation.py:87-113 | the loops leave the state of the intent-slot fold |
| DialogValidation.DialogValidation.LoadAllSlotsOf | Tools/JsonValidator/src/DialogValidation.py:88-91 | the first loop keeps, for every file's language, the slots getAllSlots returns for it, and leaves the state of the slot-loading fold |
| DialogValidation.DialogValidation.IntentSlotsOf | Tools/JsonValidator/src/DialogValidation.py:95-113 | one file's intents leave the state of its step |
| DialogValidation.DialogValidation.CheckIntentSlots | Tools/JsonValidator/src/DialogValidation.py:99-113 | one intent's slots leave the state of its checks |
| DialogValidation.DialogValidation.SearchDuplicateUtterances | Tools/JsonValidator/src/DialogValidation.py:134-143 | the loop leaves the state of the duplicate fold |
| DialogValidation.DialogValidation.DuplicatesOf | Tools/JsonValidator/src/DialogValidation.py:136-143 | one file's groups leave the state of its step |
| DialogValidation.DialogValidation.Validate | Tools/JsonValidator/src/DialogValidation.py:146-152 | for a given module list, runs schema, slots, duplicates only with verbosity, then intent slots, and returns the final error flag |
| BringShoppingList.PresentAbsentSplit | PublishedModules/philipp2310/BringShoppingList/BringShoppingList.py:101-106 | the two lists split the requested items: together a permutation of them, one holding exactly those on the list, the other exactly those off it |
| BringShoppingList.FirstMatch | PublishedModules/philipp2310/BringShoppingList/BringShoppingList.py:119-123 | the entry found is a list entry matching the item case-insensitively, and there is none exactly when no entry matches |
| BringShoppingList.RemoveFirst | PublishedModules/philipp2310/BringShoppingList/BringShoppingList.py:121 | `recent_item` takes one entry of that name off the list, and leaves a list without the name unchanged |
| BringShoppingList.ShoppingList.PurchaseItem | PublishedModules/philipp2310/BringShoppingList/BringShoppingList.py:103 | `purchase_item` appends the item |
| BringShoppingList.ShoppingList.RecentItem | PublishedModules/philipp2310/BringShoppingList/BringShoppingList.py:121 | `recent_item` removes the first entry of that name |
| BringShoppingList.BringShoppingList.AddItemInt | PublishedModules/philipp2310/BringShoppingList/BringShoppingList.py:93-107 | returns the items that were not on the snapshot and those that were, in request order, and appends exactly the former |
| BringShoppingList.BringShoppingList.FindMatch | PublishedModules/philipp2310/BringShoppingList/BringShoppingList.py:119-123 | the inner search returns the first case-insensitive match of the snapshot |
| BringShoppingList.BringShoppingList.DeleteItemInt | PublishedModules/philipp2310/BringShoppingList/BringShoppingList.py:110-126 | returns the items on the snapshot and those off it, and removes each item's first match |
| BringShoppingList.BringShoppingList.CheckListInt | PublishedModules/philipp2310/BringShoppingList/BringShoppingList.py:129-142 | returns the items on the list and those missing, and changes nothing |
| BringShoppingList.BringShoppingList.DeleteCompleteList | PublishedModules/philipp2310/BringShoppingList/BringShoppingList.py:83-90 | after removing every snapshot entry the list is empty |
| BringShoppingList.BringShoppingList.ItemsMissing | PublishedModules/philipp2310/BringShoppingList/BringShoppingList.py:147-158 | when the items cannot be read (a spelled word without Letters) the handler raises; when none remain it gives the reprompt the item reader asked for |
| BringShoppingList.BringShoppingList.AddItemIntent | PublishedModules/philipp2310/BringShoppingList/BringShoppingList.py:183-187 | without items it reprompts (or raises) and leaves the list alone; otherwise it adds and answers with the added and existing items |
| BringShoppingList.BringShoppingList.DelItemIntent | PublishedModules/philipp2310/BringShoppingList/BringShoppingList.py:192-196 | without items it reprompts (or raises); otherwise it deletes and answers with the removed and absent items |
| BringShoppingList.BringShoppingList.CheckListIntent | PublishedModules/philipp2310/BringShoppingList/BringShoppingList.py:201-205 | without items it reprompts (or raises); otherwise it answers with the found and missing items |
| BringShoppingList.BringShoppingList.ReadListIntent | PublishedModules/philipp2310/BringShoppingList/BringShoppingList.py:210-214 | it reads out the whole list, in list order |
| BringShoppingList.BringShoppingList.DelListIntent | PublishedModules/philipp2310/BringShoppingList/BringShoppingList.py:163-168 | it asks for confirmation in the state the confirmation is mapped from |
| BringShoppingList.BringShoppingList.ConfDelIntent | PublishedModules/philipp2310/BringShoppingList/BringShoppingList.py:173-178 | yes empties the list and says del_all; no keeps it and says nodel_all |
| BringShoppingList.AddedAllOnList | PublishedModules/philipp2310/BringShoppingList/BringShoppingList.py:93-107 | after adding, every requested item is on the list |
| BringShoppingList.SnapshotAddsBothSpellings | PublishedModules/philipp2310/BringShoppingList/BringShoppingList.py:98-104 | "Milk" and "milk" asked for together are both added, since each is looked up in the snapshot taken before adding |
| BringShoppingList.DeleteRemovesAtMostOnePerItem | PublishedModules/philipp2310/BringShoppingList/BringShoppingList.py:118-123 | deleting removes only list entries, and at most one per requested item |
| BringShoppingList.RemoveOnlyMatch | PublishedModules/philipp2310/BringShoppingList/BringShoppingList.py:121 | in a list with no two matching entries, removing an item's match leaves none |
| BringShoppingList.DeleteClearsItems | PublishedModules/philipp2310/BringShoppingList/BringShoppingList.py:110-126 | with no two matching entries and no two matching items, no requested item is on the list afterwards, and every other entry stays |
| BringShoppingList.KnownWords | PublishedModules/philipp2310/BringShoppingList/BringShoppingList.py:151 | the shopItem values other than "unknownword", each as often as it was given |
| BringShoppingList.KnownWordsOne | PublishedModules/philipp2310/BringShoppingList/BringShoppingList.py:151 | a single value is kept exactly when it is not "unknownword" |
| BringShoppingList.KnownWordsAppend | PublishedModules/philipp2310/BringShoppingList/BringShoppingList.py:151 | the known words of two runs of values are those of the first followed by those of the second, so the order of the values is kept |
| BringShoppingList.GetShopItems | PublishedModules/philipp2310/BringShoppingList/BringShoppingList.py:145-159 | a spelled word gives exactly the capitalised joined letters and raises without Letters; otherwise the items are the shopItem values (none when the slot is missing) without "unknownword", with their multiplicities; a reprompt for `<answer>_what` in the intent's state comes exactly when no item remains |
| BringShoppingList.SpelledWordLength | PublishedModules/philipp2310/BringShoppingList/BringShoppingList.py:148-149 | the spelled item is as long as its letters together |
| BringShoppingList.GetTextForList | PublishedModules/philipp2310/BringShoppingList/BringShoppingList.py:226-234 | the talk is `<pref>_none`, `_one` or `_multi` by the number of items |
| BringShoppingList.ListedRoundTrip | PublishedModules/philipp2310/BringShoppingList/BringShoppingList.py:226-234 | the items, in order, can be read back from the answer when none holds a comma |
| BringShoppingList.SplitJoin | PublishedModules/philipp2310/BringShoppingList/BringShoppingList.py:233 | splitting the ", "-join gives back the parts when no part holds a comma |
| BringShoppingList.CombineLists | PublishedModules/philipp2310/BringShoppingList/BringShoppingList.py:218-223 | state_con joins both answers when both lists have items, the one non-empty list's answer otherwise, and nothing exactly when both are empty |
| AliceSatellite.SensorValue | PublishedModules/ProjectAlice/AliceSatellite/AliceSatellite.py:153-162 | the stored value, or "undefined" when the site or the key is missing |
| AliceSatellite.FeedbackReplacesSite | PublishedModules/ProjectAlice/AliceSatellite/AliceSatellite.py:131-135 | after a site's feedback, that site reads as the new data (undefined where the data has no such key) and every other site reads as before |
| AliceSatellite.Place | PublishedModules/ProjectAlice/AliceSatellite/AliceSatellite.py:70-73 | the Place slot when present, else the asking site |
| AliceSatellite.StripDotZero | PublishedModules/ProjectAlice/AliceSatellite/AliceSatellite.py:82-84 | `replace('.0', '')` never lengthens the value |
| AliceSatellite.StripDotZeroUnchanged | PublishedModules/ProjectAlice/AliceSatellite/AliceSatellite.py:82-84 | a value is spoken unchanged exactly when it holds no ".0" |
| AliceSatellite.StripWholeNumber | PublishedModules/ProjectAlice/AliceSatellite/AliceSatellite.py:82-84 | digits followed by ".0" are spoken as the digits |
| AliceSatellite.SpokenWholeTemperature | PublishedModules/ProjectAlice/AliceSatellite/AliceSatellite.py:82-84 | a whole-degree reading "n.0" is spoken as n |
| AliceSatellite.StripDecimalAsWritten | PublishedModules/ProjectAlice/AliceSatellite/AliceSatellite.py:82-84 | the reading "20.05" is spoken as "205" |
| AliceSatellite.DropWholeDecimal | PublishedModules/ProjectAlice/AliceSatellite/AliceSatellite.py:82-84 | the corrected spoken reading drops a trailing ".0" and leaves every other reading unchanged |
| AliceSatellite.DropWholeDecimalAgrees | PublishedModules/ProjectAlice/AliceSatellite/AliceSatellite.py:82-84 | the correction speaks whole numbers "n.0" and readings without ".0" exactly as the original does |
| AliceSatellite.Answer | PublishedModules/ProjectAlice/AliceSatellite/AliceSatellite.py:81-84 | the place-specific talk, naming the place, is used exactly when the place differs from the asking site |
| AliceSatellite.Co2LookupAsWritten | PublishedModules/ProjectAlice/AliceSatellite/AliceSatellite.py:109-112 | as written, the CO2 answer looks up the module's name as the talk key, among the talks of a "module" named co2 or co2PlaceSpecific |
| AliceSatellite.Co2LookupIntended | PublishedModules/ProjectAlice/AliceSatellite/AliceSatellite.py:109-112 | the intended CO2 lookup is the talk the CO2 query's answer uses, whatever the reading spoken (co2, with PlaceSpecific appended exactly when the place differs from the site), among this module's talks |
| AliceSatellite.Co2LookupMisses | PublishedModules/ProjectAlice/AliceSatellite/AliceSatellite.py:109-112 | as written, the key looked up is never a CO2 talk, the module searched is never this module, and the lookup always differs from the intended one |
| AliceSatellite.AliceSatellite.constructor | PublishedModules/ProjectAlice/AliceSatellite/AliceSatellite.py:32 | the readings table starts empty |
| AliceSatellite.AliceSatellite.GetSensorValue | PublishedModules/ProjectAlice/AliceSatellite/AliceSatellite.py:153-162 | reads the current table as SensorValue |
| AliceSatellite.AliceSatellite.TemperatureAt | PublishedModules/ProjectAlice/AliceSatellite/AliceSatellite.py:149-150 | the site's temperature is its "temperature" sensor value |
| AliceSatellite.AliceSatellite.OnMessage | PublishedModules/ProjectAlice/AliceSatellite/AliceSatellite.py:62-142 | feedback with data replaces only the sender's readings (without data nothing changes) and is handled; a query is handled and answered exactly when its reading is defined; a disconnection hands on the uid and is unhandled; nothing else changes the table |
| MiniGame.MiniGame.constructor | PublishedModules/Psychokiller1888/Minigames/model/MiniGame.py:14-16 | a new game is not started |
| MiniGame.MiniGame.Started | PublishedModules/Psychokiller1888/Minigames/model/MiniGame.py:19-21 | the property reads the flag |
| MiniGame.MiniGame.SetStarted | PublishedModules/Psychokiller1888/Minigames/model/MiniGame.py:24-26 | after the setter the property returns the value given, and only the flag changes |
| MiniGame.MiniGame.Start | PublishedModules/Psychokiller1888/Minigames/model/MiniGame.py:35-37 | after start the game is started, whatever it was before |
| Minigames.RegisteredIntentsOfLoaded | PublishedModules/Psychokiller1888/Minigames/Minigames.py:41-50 | an intent is registered exactly when a game that loaded lists it |
| Minigames.Minigames.constructor | PublishedModules/Psychokiller1888/Minigames/Minigames.py:35-52 | the games are exactly the supported ones that loaded, each new and not started, with the registered intents, and none selected |
| Minigames.Minigames.OnSessionEnd | PublishedModules/Psychokiller1888/Minigames/Minigames.py:55-62 | on a session timeout or a user cancel the selected game, if any, stops and stays selected; no other game changes |
| Minigames.Minigames.MinigameIntent | PublishedModules/Psychokiller1888/Minigames/Minigames.py:65-69 | outside the playing state it returns False and forwards nothing; inside, the selected game gets the intent |
| Minigames.Minigames.AnswerAnotherGame | PublishedModules/Psychokiller1888/Minigames/Minigames.py:72-86 | no ends the dialog, yes outside the play-again state asks which game, and yes in that state raises |
| Minigames.Minigames.AnswerAnotherGameIntended | PublishedModules/Psychokiller1888/Minigames/Minigames.py:72-86 | the corrected handler starts the selected game again on yes in the play-again state |
| Minigames.Minigames.PlayGameIntent | PublishedModules/Psychokiller1888/Minigames/Minigames.py:89-117 | a started game gets the message; a missing or unsupported game only reprompts; a supported game that did not load raises; otherwise that game becomes current and is started; no other game changes |
| Speller.WordOf | PublishedModules/Psychokiller1888/Speller/Speller.py:16 | a missing or empty RandomWord slot is "unknownword" |
| Speller.Letters | PublishedModules/Psychokiller1888/Speller/Speller.py:27 | `list(word)`: each character in order |
| Speller.SpellLength | PublishedModules/Psychokiller1888/Speller/Speller.py:27 | a word of n >= 1 characters is spelled in n + 21(n-1) characters |
| Speller.SpellOneLetter | PublishedModules/Psychokiller1888/Speller/Speller.py:27 | a one-character word is spelled as itself |
| Speller.SpellRoundTrip | PublishedModules/Psychokiller1888/Speller/Speller.py:27 | removing the pauses from the spelling gives back the word |
| Speller.SpellLayout | PublishedModules/Psychokiller1888/Speller/Speller.py:27 | the spelling puts letter i of the word at position 22i and the 21-character pause in each gap between letters |
| Speller.SpellIntent | PublishedModules/Psychokiller1888/Speller/Speller.py:13-29 | an unknown word (and only it) reprompts in state answerWord; any other word ends with the word and its spelling: letter i at position 22i, the pause between letters, so that removing the pauses gives the word back |
| Telemetry.Unit | PublishedModules/ProjectAlice/Telemetry/Telemetry.py:23-36 | each listed type has its fixed unit and any other type (or none) has "" |
| Telemetry.TargetSite | PublishedModules/ProjectAlice/Telemetry/Telemetry.py:40-44 | the Room slot's value when the slots hold a siteId key, else the asking site |
| Telemetry.TelemetryIntent | PublishedModules/ProjectAlice/Telemetry/Telemetry.py:39-61 | without a type it asks for one and still goes on to answer; data with a value is answered as the value followed by the unit, anything else with noData |
| Telemetry.RoomIgnoredAsWritten | PublishedModules/ProjectAlice/Telemetry/Telemetry.py:43-44 | a Room slot without a siteId slot leaves the asking site in place |
| Telemetry.TargetSiteIntended | PublishedModules/ProjectAlice/Telemetry/Telemetry.py:40-44 | the corrected site is the Room slot's value when there is one, else the asking site, and agrees with the original whenever siteId and Room are both present or both absent |
| Telemetry.TelemetryIntentIntended | PublishedModules/ProjectAlice/Telemetry/Telemetry.py:39-61 | the corrected handler only asks when the type is missing, and otherwise makes exactly the original's one answer whenever the two site tests agree |

## Left out

- Text.Lower: lower-cases ASCII letters only; Python's `str.lower` covers all of Unicode. Text.Capitalize likewise.
- `unidecode(...).lower()` in the slot-value search is the abstract `norm` parameter.
- `DialogTemplate` is not part of this model. A template is given as its slots, utterance slots and short utterances, as ordered lists of pairs.
- The order of keys inside the validator's report is not modelled; a report level is a map.
- JSON parsing, file reading and globbing: a file is given as its name and its parse result. The Draft 7 schema check is given as each file's list of schema errors.
- The snips builtin entity list is the `builtins` set. The published modules and their installers are the `Disk` value; the order in which a Python set of modules is walked is the order of the `modules` list.
- DialogValidation.DialogValidation.Validate: takes the modules getAllSlots reads as a given list (`modules`). As written, every getAllSlots call computes `getRequiredModules().union(getCoreModules())` (DialogValidation.py:61), modelled as SlotModules but not wired in: a RecursionError or KeyError of getRequiredModules, which ends validate with that exception, is not modelled, and neither is the `validateSyntax` of each installer file it reads, which records an installer that does not parse under syntax and raises the error flag. The order in which the Python set of modules is walked is the order of the list.
- DialogValidation.DialogValidation.GetAllSlots: the same; the module list is a parameter, so the crash and the installer syntax records of getRequiredModules are not modelled.
- DialogValidation.AllSlotsMembers: states the known slots for a given module list; which modules that is (the required and core modules) is stated separately by SlotModules and RequiredIsClosure.
- DialogValidation.LoadAllSlotsError: counts only the language templates of the given modules; installer files that do not parse are not counted.
- DialogValidation.ValidateFlag: "exactly when" is for a given module list; a broken installer file, which as written also raises the flag, is not among the problems counted, and a crash of getRequiredModules is not modelled.
- DialogValidation.ValidateFlagSound: the same; as written a broken installer file can raise the flag with none of the listed problems present.
- DialogValidation.RequiredModules: the syntax records written by `validateSyntax` while installers are read inside getRequiredModules are not modelled.
- DialogValidation.FromNames: a dependency entry without a 'name' key (a KeyError) is not modelled.
- DialogValidation.RequiredModules: an installer whose conditions lack 'module' counts as having no dependencies. The as-written model raises KeyError for an installer without 'conditions'.
- DialogValidation.Required: Python's recursion limit is the `fuel` argument. Exhausting it is the RecursionError result.
- SpokenTime: the wall clock (`datetime.now`) gives the hours and minutes as parameters. The date, day and year intents are not modelled.
- BringShoppingList.ShoppingList.RecentItem: the Bring! API is not part of this model. `recent_item` is taken to remove the first entry with that exact name; login, the online check and the authentication-failure decorator are not modelled.
- BringShoppingList.CombineLists: `randomTalk` is taken never to return an empty string, so Python's `or` picks the first answer that was composed.
- AliceSatellite.AliceSatellite.OnMessage: the rounding `int(round(float(v)))` of humidity and pressure is the `rounded` parameter. A value that is not a number (ValueError) is not modelled.
- AliceSatellite.AliceSatellite.OnMessage: `filterIntent` is taken to accept exactly the supported intents; every other intent already ends in `return False`. The CO2 answer's reply uses the intended talks co2 and co2PlaceSpecific; the lookup as written, with its arguments swapped, is under Findings.
- AliceSatellite: the MQTT broadcasts (`onSleep`, `onWakeup`, `onGoingBed`, `onFullMinute`, `getSensorReadings`, `restartDevice`, `onBooted`) and the device manager's side of a disconnection are host calls and are not modelled.
- Minigames.Minigames.constructor: `importlib` loading is the `load` parameter. The DATABASE schema is not modelled. `MiniGame.intents` is abstract and is the constructor's argument.
- Minigames.Minigames.constructor: the dialog states PLAYING_MINIGAME_STATE and ANSWERING_PLAY_AGAIN_STATE are not defined in MiniGame.py, so as written `minigameIntent` (Minigames.py:66) and `answerAnotherGame` (Minigames.py:79) raise AttributeError when they read them; the model takes them as parameters.
- MiniGame.MiniGame.constructor: the class header at MiniGame.py:10 passes the base `Logger` after the keyword `metaclass=ABCMeta`, which Python rejects as a syntax error; the model takes the evidently intended `class MiniGame(Logger, metaclass=ABCMeta)`.
- Minigames: a game's own `onMessage` and the host calls its `start` makes are not part of this model. They are the Forwarded and StartedGame outcomes.
- Telemetry.TelemetryIntent: the telemetry store is the `getData` parameter; the stored value is taken to be a string.

## Findings

| source | as written | input that shows it | evidently intended | confidence | as-written member | corrected member |
|---|---|---|---|---|---|---|
| PublishedModules/Psychokiller1888/DateDayTimeYear/DateDayTimeYear.py:30-36 | the English quarter-to tests the 12-hour value: 10:45 and 22:45 say "quarter to noon", 11:45 says "quarter to midnight", and at 0:45 and 12:45 `hours` is the word "midnight" or "noon", so `hours + 12` adds an int to a string (TypeError) | hours 10, minutes 45 | "quarter to 11"; "quarter to noon" only at 11:45 and "quarter to midnight" only at 23:45; "quarter to 1" at 0:45 and 12:45 | high, not executed | SpokenTime.EnglishQuarterToAsWritten | SpokenTime.EnglishFormIntended |
| PublishedModules/Psychokiller1888/DateDayTimeYear/DateDayTimeYear.py:96-101 | at 11:30 and 23:30 the German hour stays 11 or 23, so Alice says "halb 11" (which means 10:30) and "halb 23" | hours 11, minutes 30 | "halb 12" | high, not executed | SpokenTime.GermanHalfPastElevenAsWritten | SpokenTime.GermanFormIntended |
| Tools/JsonValidator/src/DialogValidation.py:50-52 | a dependency that is not published gives `path = None`, and `getRequiredModules(None)` starts again from the module under validation, so it recurses until RecursionError | Telemetry requiring AliceSatellite when AliceSatellite is not published | skip a dependency that was not found | high, not executed | DialogValidation.UnpublishedDependencyNeverReturns | DialogValidation.RequiredModules |
| Tools/JsonValidator/src/DialogValidation.py:42-53 | two published modules that require each other (neither the module under validation) make getRequiredModules recurse between them until RecursionError, since only the validated module's own name is skipped | modules A and B published, A's installer requiring B and B's requiring A, and the validated module requiring A | expand every module once | high, not executed | DialogValidation.CycleNeverReturns | DialogValidation.RequiredModules |
| PublishedModules/ProjectAlice/AliceSatellite/AliceSatellite.py:82-84 | `replace('.0', '')` removes every ".0" in the reading, so a reading whose decimals start with 0 loses its point | the temperature "20.05", spoken as "205" | drop only the ".0" of a whole number | medium, not executed | AliceSatellite.StripDecimalAsWritten | AliceSatellite.DropWholeDecimal |
| PublishedModules/ProjectAlice/AliceSatellite/AliceSatellite.py:109-112 | the CO2 answer calls `randomTalk(self.name, 'co2')`, but `randomTalk` takes the talk key first and the module second (FlipACoin.py:32 passes `talk=` and `module=`), so it looks up the key "AliceSatellite" among the talks of a module "co2" | a CO2 query with a defined gas reading | `randomTalk('co2')` (or `'co2PlaceSpecific'`), as the other three sensors do | medium, not executed | AliceSatellite.Co2LookupMisses | AliceSatellite.Co2LookupIntended |
| PublishedModules/ProjectAlice/Telemetry/Telemetry.py:43-44 | the site is switched when the slots hold "siteId" but is read from "Room", so a Room slot alone is ignored | slots {Room: kitchen} asked from the office | use the Room slot whenever there is one | medium, not executed | Telemetry.RoomIgnoredAsWritten | Telemetry.TargetSiteIntended |
| PublishedModules/ProjectAlice/Telemetry/Telemetry.py:46-61 | after asking for the missing type the handler does not return, so it goes on to fetch data for no type and ends the dialog it has just continued | a telemetry intent without a TelemetryType slot | return after asking | high, not executed | Telemetry.TelemetryIntent | Telemetry.TelemetryIntentIntended |
| PublishedModules/Psychokiller1888/Minigames/Minigames.py:85-86 | "yes" in the play-again state calls `start()` without the session that every game's `start` requires (FlipACoin.py:27), so it raises TypeError | "yes" in the play-again state with a game selected | start the selected game again with the session | medium, not executed | Minigames.Minigames.AnswerAnotherGame | Minigames.Minigames.AnswerAnotherGameIntended |
