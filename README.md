# CTFdX challenge deployer, modelled in Dafny

This project models the deployment pipeline of CTFdX. The pipeline takes every
challenge directory of a repository and does four things with it:
- it reads the directory's `.ctfdx.cfg` descriptor;
- it stages a copy with the redacted files overwritten and scans the copy for
  the flag;
- it builds a CTFd challenge record;
- it creates or patches that challenge on a CTFd instance, with its flag and
  its downloadable archive.

The model covers two versions of the driver and the embed helper:
- the current driver, `problem_deployer/problem_deployer.js`;
- the older driver, `problem_deployer.js`, which builds a docker image per
  target and never redacts;
- the own-field bookkeeping of `EmbedManager.js`.

The modules follow the source:

- `Js` (js.dfy): the JavaScript values a descriptor lookup returns
  (`null`, `undefined`, string, string list, boolean). It also holds
  truthiness, string coercion and the `String.prototype` calls the deployer
  makes: `split`, `indexOf`, `slice` with its index clamping, `startsWith`,
  `endsWith` and `replaceAll`.
- `Config` (config.dfy): `loadCfg` of both versions. It is a loop that fills a
  map line by line, with the getter closure as `Get`.
- `FileTree` (filetree.dfy): directory trees as values, with `rmSync`,
  `writeFileSync` at a relative path, and read-back.
- `Scanner` (scanner.dfy): `searchFlag` of both versions. It is a loop over a
  listing, a recursive visit of subdirectories, and an encoding loop per file.
  Each method is proved equal to a specification function.
- `Record` (record.dfy): the `register_config` construction, as a function.
- `Platform` (platform.dfy): the CTFd instance as a value, holding challenges,
  tags, flags and files with ids from one counter. The REST calls are
  functions on that value. `Upserted` and `Reconciled` are the tag-keyed
  create-or-patch and the file replacement.
- `Deployment` (deployer.dfy): the `Deployer` class. It holds `STATE`, the
  statuses shown and the platform. `Deploy` runs the target loop inside its
  single `try` and is proved against `RunAll`.
- `Legacy` (legacy.dfy): the older `deploy` loop. Its order is copy, docker
  build, `loadCfg`, redaction writes, then scan, and it is proved against
  `LegacyRun`.
- `Embeds` (embed.dfy): the `EmbedManager` class. Its fields and its nested
  `changeField` loops are proved against `ChangedGroups`.

The code and the design description of the repository disagree in places.
The model follows the code:
- The line filter at problem_deployer/problem_deployer.js:71 does not skip
  `__proto__=x`: it skips only a line that is exactly `__proto__` or
  `prototype`. The assignment that follows goes to the prototype setter of a
  plain object, so `__proto__` is never stored, while `prototype=x` is
  (`Config.ProtoOnlyDroppedAlone`, `Config.ProtoNeverStored`).
- Blank lines are not skipped. A trailing newline stores `undefined` under the
  empty key (`Config.TrailingNewlineStoresEmptyKey`).
- Carriage returns are not stripped.
- The getter has no list mode. A value is a list exactly when it contains a ",".
- There is no per-target failure isolation. One `try` wraps the whole loop, so
  the first error ends the run and no later target is processed
  (`Deployment.ErrorStopsRun`).
- No run summary is produced.
- No score is derived from a difficulty label.
- The tag set of a patched challenge is not replaced.
- The file replacement always runs, because `config("POST_FILE_FOR_USER") || true`
  is always truthy.

## Model

| member | source | states |
|---|---|---|
| Js.Split | problem_deployer/problem_deployer.js:67 | `split` on one character always yields at least one piece |
| Js.SplitJoin | problem_deployer/problem_deployer.js:67-77 | joining the pieces of a split with the separator gives the original text back |
| Js.SplitPieces | problem_deployer/problem_deployer.js:73-75 | no piece of a split contains the separator |
| Js.JoinSplit | problem_deployer/problem_deployer.js:75 | splitting a join of separator-free pieces gives the pieces back |
| Js.SplitNoSeparator | problem_deployer/problem_deployer.js:73 | a text without the separator splits into itself |
| Js.SplitAfter | problem_deployer/problem_deployer.js:73 | splitting `a + c + b` with no separator in `a` puts `a` first, then the pieces of `b` |
| Js.OrElse | problem_deployer/problem_deployer.js:200-203 | `v \|\| d` is one of its operands, and truthy exactly when `v` is truthy or `d` is non-empty |
| Js.IndexOf | problem_deployer/problem_deployer.js:96 | `indexOf` is the first occurrence, and -1 exactly when there is none |
| Js.ContainsEmpty | problem_deployer/problem_deployer.js:96 | the empty string occurs in every path |
| Js.ContainsInfix | problem_deployer/problem_deployer.js:104 | a text occurs in any text that extends it |
| Js.Slice | problem_deployer/problem_deployer.js:94-95 | `slice` always gives a piece of the text, never longer than it |
| Js.SliceInRange | problem_deployer/problem_deployer.js:94-95 | bounds inside the text select exactly the characters between them |
| Js.SliceFromEnd | problem_deployer/problem_deployer.js:94-95 | a negative start counts from the end: `slice(-k)` is the last `k` characters |
| Js.SliceDropsFirst | problem_deployer/problem_deployer.js:94 | `slice(1, n)` with `n` at least the length drops exactly the first character |
| Js.SliceSplit | problem_deployer/problem_deployer.js:94-95 | two adjacent slices make up the whole text |
| Js.ReplaceAllAbsent | problem_deployer/problem_deployer.js:106 | `replaceAll` leaves a text without the pattern unchanged |
| Config.ParseText | problem_deployer/problem_deployer.js:67-78 | the line loop leaves exactly the map `ParseLines` of the lines |
| Config.LoadCfg | problem_deployer/problem_deployer.js:61-84 | a missing file gives `null` and an existing one gives the parsed map, in both directions |
| Config.LoadCfgLegacy | problem_deployer.js:17-40 | a missing file throws "Could not find file" and an existing one gives the parsed map |
| Config.KeyPresence | problem_deployer/problem_deployer.js:67-78 | a key is present exactly when a line that is neither a comment nor denylisted stores it |
| Config.LastWriteWins | problem_deployer/problem_deployer.js:73-77 | a key holds the value of the last line that stores it |
| Config.GetNullIffAbsent | problem_deployer/problem_deployer.js:80-83 | the getter returns `null` exactly for keys no line stores |
| Config.NoNullStored | problem_deployer/problem_deployer.js:73-77 | no stored value is `null`, so `null` always means absent |
| Config.KeyValueLine | problem_deployer/problem_deployer.js:73-77 | for `key=value`, the key is the text before "=" and the value is a list exactly when it holds "," |
| Config.SecondEqualsTruncates | problem_deployer/problem_deployer.js:73-77 | only the text between the first and second "=" is kept |
| Config.ProtoOnlyDroppedAlone | problem_deployer/problem_deployer.js:71-77 | the filter skips only the bare `__proto__` line; `__proto__=x` gets past it but stores nothing, while `prototype=x` stores "x" |
| Config.ProtoNeverStored | problem_deployer/problem_deployer.js:73-83 | whatever the descriptor says, no `__proto__` key is stored and the getter returns `null` for it |
| Config.Assign | problem_deployer/problem_deployer.js:74-77 | an assignment stores its value under any key but `__proto__` and leaves every other key as it was |
| Config.NotComment | problem_deployer/problem_deployer.js:70 | a line not starting with "#" is not skipped as a comment |
| Config.ValueOf | problem_deployer/problem_deployer.js:73-75 | a stored value is `undefined`, a string, or a list of strings |
| Config.CommaLine | problem_deployer/problem_deployer.js:70-75 | the line `FOO=a,b,c` is kept, with key "FOO" and the list ["a", "b", "c"] |
| Config.CommaValueIsList | problem_deployer/problem_deployer.js:74-75 | `FOO=a,b,c` stores the list ["a", "b", "c"] |
| Config.SingleLine | problem_deployer/problem_deployer.js:68-78 | a one-line descriptor that is not skipped stores exactly that line's key and value |
| Config.TrailingNewlineStoresEmptyKey | problem_deployer/problem_deployer.js:67-77 | a trailing newline makes an empty last line that stores `undefined` under "" |
| Config.TrailingSeparatorSplit | problem_deployer/problem_deployer.js:67 | a text ending in the separator splits into an empty last piece |
| FileTree.Find | problem_deployer/problem_deployer.js:171 | the first entry with a name, or none when no entry has it |
| FileTree.Remove | problem_deployer/problem_deployer.js:171 | `rmSync` of the descriptor leaves no entry of that name, keeps every other entry whole, and changes no other name's lookup |
| FileTree.RemoveAppend | problem_deployer/problem_deployer.js:171 | removal distributes over concatenation, so the remaining entries keep their listing order |
| FileTree.RemoveOne | problem_deployer/problem_deployer.js:171 | on one entry, removal drops it exactly when it has the name |
| FileTree.RemoveAbsent | problem_deployer/problem_deployer.js:171 | with `force`, removing a name that is not there changes nothing |
| FileTree.Filter | problem_deployer/problem_deployer.js:174 | the path segments kept after `path.join` contain no empty or "." segment |
| FileTree.WriteThenRead | problem_deployer/problem_deployer.js:174-177 | a write that succeeds reads back as the data written |
| Scanner.FindSafe | problem_deployer/problem_deployer.js:93-97 | `find` returns a matching entry, and nothing exactly when no entry matches |
| Scanner.ScanFile | problem_deployer/problem_deployer.js:99-110 | the encoding loop equals `ScanForms`; without redaction it never changes the file, and with redaction it never throws |
| Scanner.VisitEntry | problem_deployer/problem_deployer.js:91-110 | one listing entry is handled as `Visit` says: recursion without `replace`, safe skip, then the scan |
| Scanner.Walk | problem_deployer/problem_deployer.js:89-113 | the listing loop equals `ScanEntries`, and the first throw stops it |
| Scanner.SearchFlag | problem_deployer/problem_deployer.js:86-114 | `searchFlag` redacts only when `replace` is "true" and otherwise leaves the tree unchanged |
| Scanner.SearchFlagLegacy | problem_deployer.js:42-68 | the older `searchFlag` is the scan with redaction off |
| Scanner.ScanStep | problem_deployer/problem_deployer.js:90-111 | one turn of the listing loop either throws with the rest untouched or moves on |
| Scanner.RedactingFormsPass | problem_deployer/problem_deployer.js:104-106 | a redacting encoding loop never throws |
| Scanner.PlainFormsPassIffNoMatch | problem_deployer.js:55-64 | without redaction, a file passes exactly when no decoding contains the flag, and it is never changed |
| Scanner.NoRedactKeepsTree | problem_deployer/problem_deployer.js:92 | a scan that cannot redact leaves every file as it was |
| Scanner.PlainScanPassesIffClean | problem_deployer.js:42-68 | without redaction, the scan returns `true` exactly when every file the safe list does not cover, at any depth, is free of the flag; otherwise it throws a leak error |
| Scanner.RedactingScanPassesIffSubdirsClean | problem_deployer/problem_deployer.js:92-113 | with redaction, the scan passes exactly when every subdirectory is clean, because the recursion drops `replace` |
| Scanner.ScanKeepsShape | problem_deployer/problem_deployer.js:89-113 | the scan keeps the listing's length, names and kinds, and leaves safe files unchanged |
| Scanner.SafeFileSkipped | problem_deployer/problem_deployer.js:93-97 | a file the safe list covers is passed over unread and cannot make the scan throw |
| Scanner.RootEntryCoversEverything | problem_deployer/problem_deployer.js:94-96 | the entry "/" trims to "" and makes every file safe |
| Scanner.EmptyFirstEntryDisablesList | problem_deployer/problem_deployer.js:93-97 | an empty first entry matches but is falsy, so no file is skipped |
| Scanner.PlainEntryUntrimmed | problem_deployer/problem_deployer.js:94-95 | an entry without a leading or trailing "/" is used as written |
| Scanner.TrimmingTruncates | problem_deployer/problem_deployer.js:94-95 | trimming a "/" also cuts the entry to less than the directory path's length |
| Scanner.LongDirTrim | problem_deployer/problem_deployer.js:94-95 | under a directory path longer than the entry, a leading "/" is removed but a trailing "/" stays |
| Scanner.NonArraySafeListFails | problem_deployer/problem_deployer.js:87-93 | a single-entry `SAFE_FLAG_FILE` is a string without `find`, so the scan throws at the first regular file |
| Scanner.MissingFlagFails | problem_deployer/problem_deployer.js:99-103 | without a `FLAG` line, the first file not skipped throws "Cannot read properties of null (reading 'normalize')" |
| Record.BaseFields | problem_deployer/problem_deployer.js:200-203 | every record has name, description, category and state |
| Record.StandardFields | problem_deployer/problem_deployer.js:205-208 | a standard challenge adds `type` "standard" and `value` |
| Record.ContainerFields | problem_deployer/problem_deployer.js:215-223 | a container challenge adds `type` "container" and its connection, score, decay and image fields |
| Record.DynamicFields | problem_deployer/problem_deployer.js:226-230 | a dynamic challenge adds `type` "dynamic" and its score and decay fields |
| Record.TypedFields | problem_deployer/problem_deployer.js:204-232 | the type switch adds exactly the keys of the type, and nothing for any other type |
| Record.BuildRecord | problem_deployer/problem_deployer.js:198-232 | the record fails exactly when `readme.md` is a directory or a container challenge's docker build fails; otherwise it has the base keys plus the type's keys, and a `type` field exactly for the three known types |
| Record.KeepsBase | problem_deployer/problem_deployer.js:199-232 | the type-specific fields never override a base field |
| Record.NameDefault | problem_deployer/problem_deployer.js:200 | the name is `CHALLENGE_NAME` when truthy and the directory name otherwise |
| Record.CategoryStateDefaults | problem_deployer/problem_deployer.js:202-203 | the category defaults to "" and the state to "hidden" |
| Record.BuildOnlyForContainer | problem_deployer/problem_deployer.js:209-214 | only a container challenge depends on the docker build |
| Record.ContainerImage | problem_deployer/problem_deployer.js:211-223 | a built container record names the image `<hash>:latest`, built in the target directory or `DOCKER_LOCATION` |
| Platform.FindTagged | problem_deployer/problem_deployer.js:238 | the first listed challenge carrying the tag, or none exactly when no challenge carries it |
| Platform.FlagsFor | problem_deployer/problem_deployer.js:242 | only the challenge's own flags are listed |
| Platform.PatchedFlags | problem_deployer/problem_deployer.js:246-251 | `PATCH /flags/<id>` turns that flag into a static flag with the new content and leaves the others |
| Platform.FilesFor | problem_deployer/problem_deployer.js:262 | only the challenge's own files are listed |
| Platform.Without | problem_deployer/problem_deployer.js:263-265 | after the deletes, a file remains exactly when it was there and its id was not deleted |
| Platform.UpsertFoundPatches | problem_deployer/problem_deployer.js:239-241 | with the tag found, no challenge is created, ids and tags stay, and the tagged challenge's fields are patched |
| Platform.UpsertFoundFlags | problem_deployer/problem_deployer.js:242-251 | with the tag found, a challenge that has flags keeps their number (its first is patched), and one without gets exactly one |
| Platform.UpsertLeavesOthers | problem_deployer/problem_deployer.js:237-257 | the upsert touches no file and leaves the flags of every other challenge as they were |
| Platform.PatchedFlagsFor | problem_deployer/problem_deployer.js:246-251 | patching a challenge's own flag keeps its number of flags and every other challenge's flags |
| Platform.UpsertNewCreates | problem_deployer/problem_deployer.js:253-256 | with the tag not found, exactly one challenge is created, carrying the record, the tag and one static flag |
| Platform.FirstFlagHoldsFlag | problem_deployer/problem_deployer.js:242-256 | after the upsert, the challenge's first flag is a static flag holding FLAG |
| Platform.FlagsForAppend | problem_deployer/problem_deployer.js:244 | a posted flag becomes the last flag of its challenge |
| Platform.FlagsForFresh | problem_deployer/problem_deployer.js:254-256 | a freshly created challenge has no flags |
| Platform.PatchFirst | problem_deployer/problem_deployer.js:246-251 | patching the first flag keeps it first and makes it the static flag |
| Platform.UpsertValid | problem_deployer/problem_deployer.js:237-257 | the upsert keeps every id below the server's counter and flag ids distinct |
| Platform.PatchedValid | problem_deployer/problem_deployer.js:243-252 | posting or patching a known challenge's flag keeps ids below the counter |
| Platform.SameTags | problem_deployer/problem_deployer.js:238 | listings that agree on tags agree on the tag lookup and count |
| Platform.CountTaggedAppend | problem_deployer/problem_deployer.js:254-255 | a created challenge adds one to the tag count exactly when it carries the tag |
| Platform.CountTaggedFound | problem_deployer/problem_deployer.js:238 | a found tag is counted at least once |
| Platform.CountTaggedNone | problem_deployer/problem_deployer.js:238 | a tag not found has count 0 |
| Platform.UpsertTags | problem_deployer/problem_deployer.js:238-256 | after an upsert, the tag finds the returned challenge, and the tag count stays the same, or becomes 1 if it was 0 |
| Platform.FindTaggedAppend | problem_deployer/problem_deployer.js:254-255 | a newly tagged challenge is found at the end of the listing |
| Platform.UpsertIdempotent | problem_deployer/problem_deployer.js:237-257 | a second upsert of the same target finds the first one's challenge, returns the same id, and creates no challenge and no flag |
| Platform.ReconciledFiles | problem_deployer/problem_deployer.js:261-280 | after the file replacement, the challenge has exactly one file: the uploaded archive |
| Platform.WithoutOwnFiles | problem_deployer/problem_deployer.js:262-265 | deleting every listed file of a challenge leaves it none |
| Platform.FilesForIds | problem_deployer/problem_deployer.js:262 | every file of the challenge has its id in the listed ids |
| Platform.WithoutCovered | problem_deployer/problem_deployer.js:263-265 | deleting every id of a challenge's files leaves it no file |
| Platform.FilesForAppend | problem_deployer/problem_deployer.js:266-280 | an uploaded file becomes the last file of its challenge |
| Platform.WithoutTwice | problem_deployer/problem_deployer.js:263-265 | deleting one file after others is deleting them all |
| Platform.WithoutNothing | problem_deployer/problem_deployer.js:263 | no deletes change nothing |
| Platform.ReconciledValid | problem_deployer/problem_deployer.js:261-280 | the replacement keeps ids below the counter and uses one new id |
| Platform.WithoutBelow | problem_deployer/problem_deployer.js:263-265 | deletes keep ids below the counter |
| Deployment.ConfigText | problem_deployer/problem_deployer.js:64-65 | there is no descriptor exactly when the target is a file or lacks `.ctfdx.cfg`; reading fails exactly when it is a directory |
| Deployment.Prepared | problem_deployer/problem_deployer.js:160-232 | a target is not prepared exactly when it has no descriptor |
| Deployment.TargetOutcome | problem_deployer/problem_deployer.js:162-163 | a target is skipped exactly when it has no descriptor |
| Deployment.ExtendsAppend | problem_deployer/problem_deployer.js:153-197 | each status shown for a target keeps the notices a running history of that target |
| Deployment.RunStep | problem_deployer/problem_deployer.js:152-284 | one turn of the target loop: a failure ends the run, any other outcome goes on from the new platform |
| Deployment.Redact | problem_deployer/problem_deployer.js:170-180 | the redaction writes equal `Redacted`: none for a falsy value, one for a string, one per item of a list, the first failing write ending them |
| Deployment.Deployer.constructor | problem_deployer/problem_deployer.js:120-122 | the status starts pending, with nothing shown |
| Deployment.Deployer.Notify | problem_deployer/problem_deployer.js:122 | `updateState` shows the current status and changes nothing else |
| Deployment.Deployer.Show | problem_deployer/problem_deployer.js:148-149 | sets `STATE.data` and shows it |
| Deployment.Deployer.Sync | problem_deployer/problem_deployer.js:237-257 | the create-or-patch requests leave the platform as `Upserted` says and return the challenge id |
| Deployment.Deployer.ReplaceFiles | problem_deployer/problem_deployer.js:261-281 | deleting each listed file and then uploading leaves the platform as `Reconciled` says |
| Deployment.Deployer.ShowStep | problem_deployer/problem_deployer.js:168-197 | a step change shows a running status for the target |
| Deployment.Deployer.Package | problem_deployer/problem_deployer.js:165-232 | redaction, scan, archive and record equal `Packaged`, with the platform untouched |
| Deployment.Deployer.Publish | problem_deployer/problem_deployer.js:234-283 | create-or-patch then file replacement, ending with the step cleared |
| Deployment.Deployer.ProcessTarget | problem_deployer/problem_deployer.js:153-284 | one iteration equals `TargetOutcome`; the platform changes only on success, and a skipped target shows exactly two statuses |
| Deployment.Deployer.RunTargets | problem_deployer/problem_deployer.js:151-293 | the loop inside the `try` equals `RunAll`, and the first error ends it |
| Deployment.Deployer.Deploy | problem_deployer/problem_deployer.js:116-307 | the run equals `RunAll` against the listing fetched once; it shows running statuses, then done, then pending |
| Deployment.RunningExtends | problem_deployer/problem_deployer.js:152-284 | statuses shown for a target extend the running history |
| Deployment.ErrorStopsRun | problem_deployer/problem_deployer.js:151-293 | once a target fails, no later target is processed |
| Deployment.RunSplits | problem_deployer/problem_deployer.js:152 | a run that gets through a prefix continues with the rest from the platform that prefix left |
| Deployment.MissingConfigSkipped | problem_deployer/problem_deployer.js:162-163 | a target without a descriptor is passed over with the platform untouched |
| Deployment.FailureTouchesNothing | problem_deployer/problem_deployer.js:151-293 | a failing target ends the run with its message and leaves the platform as it was |
| Deployment.DeployedChallenge | problem_deployer/problem_deployer.js:237-281 | a deployed challenge's first flag is static, and its only file is `<encoded name>.zip` |
| Deployment.RedeployCreatesNothing | problem_deployer/problem_deployer.js:238-257 | deploying the same target again patches the same challenge and creates no challenge and no flag |
| Deployment.RunValid | problem_deployer/problem_deployer.js:151-284 | a run keeps platform ids below the counter |
| Deployment.TargetValid | problem_deployer/problem_deployer.js:237-281 | one deployed target keeps platform ids below the counter |
| Deployment.RedactedFileReads | problem_deployer/problem_deployer.js:172-174 | a redacted path reads back as "[REDACTED]" |
| Legacy.Steps | problem_deployer.js:97-127 | one iteration per target, in listing order |
| Legacy.StopAtFirst | problem_deployer.js:97-127 | the loop stops at the first failure, after starting that iteration's build |
| Legacy.LegacyRun | problem_deployer.js:97-127 | no more builds than targets, and every target built when nothing failed |
| Legacy.LegacyTarget | problem_deployer.js:98-126 | one iteration equals `LegacyFailure`: build, descriptor, redaction, scan |
| Legacy.DeployLegacy | problem_deployer.js:96-127 | the loop equals `LegacyRun`: builds in order, with the first error ending the run |
| Legacy.MissingConfigStops | problem_deployer.js:98-110 | a target without a descriptor is still built, then the run ends with "Could not find file" |
| Legacy.BuildFailureStops | problem_deployer.js:103-106 | a failed build ends the run before the descriptor is read |
| Legacy.LegacyRunCompletes | problem_deployer.js:97-127 | the run completes exactly when no target fails, and then every target was built in order |
| Legacy.StopCompletes | problem_deployer.js:97-127 | stopping at the first failure completes exactly when nothing fails |
| Legacy.StopBuildsAll | problem_deployer.js:97-127 | a completed run has started every build, in order |
| Legacy.LegacyScanPassesIffClean | problem_deployer.js:113-126 | a built target passes exactly when its staged copy is clean, since nothing is redacted |
| Embeds.ChangedGroup | EmbedManager.js:45-52 | a group after the visit keeps its length and has each field changed |
| Embeds.ChangedGroups | EmbedManager.js:44-53 | the groups keep their number and lengths, and each field is changed by name |
| Embeds.ChangeOne | EmbedManager.js:46-51 | a matching field gets the new name or keeps `name`, gets the value, and gets `!!inline` only when `inline` is given; any other field is untouched |
| Embeds.ChangeGroup | EmbedManager.js:45-52 | the inner loop changes one group as `ChangedGroup` says |
| Embeds.EmbedManager.constructor | EmbedManager.js:4-7 | message, title, description and fields start out `null` |
| Embeds.EmbedManager.SetTitle | EmbedManager.js:9-13 | stores the title, returns `this`, and changes nothing else |
| Embeds.EmbedManager.SetDescription | EmbedManager.js:15-19 | stores the description, returns `this`, and changes nothing else |
| Embeds.EmbedManager.AddTitle | EmbedManager.js:21-25 | appends "\n" and then the argument, or "" when it is falsy, to the coerced title |
| Embeds.EmbedManager.AddDescription | EmbedManager.js:27-31 | appends "\n" and then the argument, or "" when it is falsy, to the coerced description |
| Embeds.EmbedManager.AddFields | EmbedManager.js:33-38 | starts from [] when there were no groups, then appends the whole argument list as one group |
| Embeds.EmbedManager.SetMessage | EmbedManager.js:63-66 | stores the message, returns `this`, and changes nothing else |
| Embeds.EmbedManager.ChangeField | EmbedManager.js:40-61 | with no groups, nothing changes; otherwise every group becomes `ChangedGroups` of the old ones, and `this` is returned |
| Embeds.ChangedNames | EmbedManager.js:46-48 | a field with another name is untouched; a matching one is renamed to `new_name` when truthy and gets the value |
| Embeds.ChangeIdempotent | EmbedManager.js:44-53 | a change that does not rename is idempotent |
| Embeds.ChangedTwice | EmbedManager.js:46-51 | applying a non-renaming change to one field twice equals applying it once |
| Embeds.RenameRemovesName | EmbedManager.js:47 | a rename to a different truthy name leaves no field called `name` |

## Left out

- The Discord client: login, commands, and the embed sends and edits of
  `updateState`. `Notify` records the status shown instead.
- The error embed built in the `catch`, and the edit of a message by
  `EmbedManager.edit`.
- The calls `EmbedManager` forwards to the embed builder it extends.
- The repository download and unpacking, with the zipball fetch, AdmZip and
  the flattening of the top directory. A download failure throws before the
  `try` and would leave the status running; this is not modelled, and
  `Deploy` starts from an unpacked listing.
- The wiping and re-creation of `packaging`, `for_user` and `repo`. Each
  target's staged copy is a fresh value, so no leftover files from a previous
  target or run are modelled.
- The zip archive. The uploaded archive is the staged tree itself.
- `Deployment.Deployer.ReplaceFiles`: the source does not await its deletes.
  The model treats them as finished, in listing order, before the upload, so
  it does not capture an upload racing the deletes.
- HTTP, including request failures and the multipart submit. Each request is
  a function on the platform value.
- Docker, SHA-1, base32, `encodeURIComponent`, the five text decodings, NFC
  normalisation and UTF-8 encoding. They are foreign code and are
  uninterpreted parameters.
- `path.join` is modelled as `dir + "/" + item` for scan paths. Write paths
  are split into segments with "" and "." dropped; ".." segments are not
  resolved.
- JavaScript object semantics beyond the `__proto__` setter: the descriptor
  object is a map, and `hasOwnProperty` is map membership.
- `Embeds.EmbedManager.ChangeField`: the nested `forEach` works on a copy of
  the groups that is stored back at the end. Field objects are values, so
  aliasing of one field object between groups is not captured.
- Comparison of field names by `===` is value equality of the modelled
  values. Objects compared by reference do not arise here.
- The error's name and stack trace, which the error embed also shows. A
  failed outcome carries only `err.message`; for a `TypeError` that is the
  text Node's V8 engine gives for the values a descriptor can produce.
- A descriptor key `hasOwnProperty` would shadow the method the getter calls
  and make every lookup throw. The getter is modelled as a map lookup, so
  this is not captured.
- The error embed in the `catch` is sent to the channel looked up by id. When
  that channel is missing the send throws, the rest of `deploy` does not run,
  and the status stays running. `Deploy` assumes the send succeeds.
- The webhook listener, the run scheduler and the commented-out cleanup and
  poller are outside this model.
