# AI File Organizer core, modelled in Dafny

The AI File Organizer sorts the files of a folder into a tree of category
folders. It classifies each file with a four-tier cascade:

1. it asks a local language model (Ollama) about the file's content;
2. failing that, it looks the extension up in a fixed table of nineteen categories;
3. failing that, it looks for category keywords in the file name;
4. failing that, it uses the catch-all category `misc`.

It then moves every file to `output/<category path>/<name>`. A numbered
name (`stem_1.ext`, `stem_2.ext`, …) avoids a collision with a file already
there. Each real run is recorded as a session in a JSON undo log, and the last
completed session can be undone: its files are moved back in reverse order,
the emptied folders are removed, and the session is dropped from the log.

The project models the three core files:

- `categories.py`: the category table and its lookups. Module `Categories`, file `categories.dfy`.
- `analyzer.py`: the cascade, the parsing of the model's reply and the cached availability probe. Module `Analyzer`, file `analyzer.dfy`.
- `mover.py`: the undo-log records and their JSON form (module `Ledger`, `ledger.dfy`), the session and log objects (module `UndoLogs`, `undologs.dfy`), and the `FileMover` with its pure specification (module `Mover`, `mover.dfy`).

Supporting modules give the Python built-ins the core relies on a meaning:

- `Text`: `str.lower`, `in`, `split`, `strip` and decimal formatting.
- `Paths`: `pathlib` names, parents, stems and suffixes.
- `Disks`: a file system with `mkdir(parents=True, exist_ok=True)`, `shutil.move` of a file, and `rmdir`.
- `Settings`: the `Config` record and `DEFAULT_CONFIG`.
- `Scanner`: the `FileInfo` record.
- `Wrappers`: `Option` and `Result`.

The objects that change in place are classes:

- `FileAnalyzer`, whose client and availability cache are set on first use;
- `Session` and `UndoLog`, whose session list and operation lists grow and shrink, and whose file is rewritten by `_save` after every change;
- `FileMover`;
- `FileSystem`, which holds the disk.

Each method is proved against a pure function that specifies it:

| method | specifying function |
|---|---|
| `analyze_file` | `Classify` |
| `move_file` | `MoveStep` |
| `organize_files` | `Organize` |
| `_get_unique_path` | `UniquePath` |
| the undo loop | `UndoAll` |

The lemmas about these functions carry the properties. The main ones:

- organizing and then undoing restores every file (`OrganizeThenUndo`), also on a second run whose files lie inside the output folder, provided no file's path is, or is an ancestor of, a category folder of the run;
- collision handling picks the first free numbered name (`UniquePathSmallest`);
- a real run never moves two files to the same destination (`RealRunDistinctDestinations`);
- every log record survives a write and a read (`LogRoundTrip`);
- the cascade's tiers are the table lookups (`RuleTiersOnRegistry`);
- the extension table is unambiguous (`ExtensionsDisjoint`).

Where the code and its design description disagree, the model follows the
code:

- **Confidence.** A model-reported confidence is only capped at 1.0 (`min(confidence, 1.0)`), so a negative value is kept, as `NegativeConfidenceKept` shows. The described behaviour clamps it into [0, 1].
- **Preview length.** The content preview is cut at a fixed 2000 characters. The configurable `max_content_chars` is not consulted (`PreviewIgnoresConfig`).
- **Dry runs.** Every dry-run plan is computed on the untouched disk. Two files with the same name bound for the same folder therefore get the same planned destination (`DryRunSharedDestination`). A real run gives the second one a numbered name (`RealRunDistinctDestinations`). A dry run is thus not always the plan of a real run.

Inputs stand in for the outside world:

- the chat call is a map from prompts to reply texts;
- `json.loads` of a reply is a map from texts to decoded replies;
- the availability probe's outcome is a boolean;
- whether the operating system refuses a move is a boolean per call (`fail`), or a set of call indices (`fails`);
- the clock's timestamps and session ids are parameters.

## Model

| member | source | states |
|---|---|---|
| Text.Lower | categories.py:182 | Lower-casing keeps the length and maps each character through `LowerChar`: A–Z to a–z, every other character kept. |
| Text.LowerIsLower | categories.py:182 | Lower-casing gives a lower-case string. |
| Text.LowerOfLower | analyzer.py:173 | Lower-casing a lower-case string changes nothing, so lower-case keys are found by a lower-cased name. |
| Text.Find | analyzer.py:181 | `pat in s`: the leftmost occurrence. It is found exactly when the pattern occurs, no occurrence starts earlier, and None means none starts anywhere. |
| Text.Before | analyzer.py:167 | `split(pat)[0]`: the prefix that ends where the first occurrence starts. It holds no occurrence, no occurrence of `s` starts inside it, and it is all of `s` when the pattern is absent. |
| Text.After | analyzer.py:167 | The suffix after the first occurrence: the pattern occurs just before it, and nowhere earlier. |
| Text.SecondPiece | analyzer.py:167 | `split(pat)[1]`: the text from the end of the first occurrence up to the start of the next one, or to the end of `s`. It holds no occurrence. |
| Text.BeforeAfterPrefix | analyzer.py:167 | When the pattern's first character is absent from `a`, splitting `a + pat + rest` gives `a` and `rest`. |
| Text.Strip | analyzer.py:171 | `strip()`: the slice of `s` left after dropping the leading and trailing white space. Everything dropped is white space, and the result neither starts nor ends with white space. |
| Text.Split | mover.py:225-226 | Splitting a path text on '/' gives at least one piece, none holding '/'. |
| Text.SplitJoin | mover.py:168-169 | Splitting a joined list of pieces without the separator gives the pieces back. |
| Text.JoinSplit | mover.py:225-226 | Joining the pieces of a split gives the text back. |
| Text.Decimal | mover.py:247-249 | `str(n)`: a non-empty string of decimal digits, "0" for zero and without a leading zero otherwise. It reads back as `n` (`DecimalRoundTrip`). |
| Text.DecimalRoundTrip | mover.py:247-249 | The decimal text of a count reads back as that count. |
| Text.DecimalInjective | mover.py:247-249 | Different counts give different messages. |
| Paths.FromText | mover.py:225-226 | The model reads a path text as its '/'-separated pieces, so a path always has at least one part. |
| Paths.TextRoundTrip | mover.py:168-169 | `Path(str(p))` is `p` for a path whose parts hold no separator. |
| Paths.PathRoundTrip | mover.py:225-226 | Joining the pieces of that reading with '/' gives the text back, so the model's reading of a recorded path loses nothing. |
| Paths.Parent | mover.py:200 | A path is its parent plus its name. |
| Paths.Under | mover.py:161 | `p / rel` lies strictly below `p`. |
| Paths.LastDot | mover.py:199 | The position of the last dot of a name, if any. |
| Paths.SuffixStart | mover.py:199 | A suffix starts at a dot that is neither first nor last in the name. |
| Paths.StemSuffix | mover.py:198-199 | The stem followed by the suffix is the name. |
| Disks.Disk.Move | mover.py:181 | `shutil.move` of a file succeeds exactly when the OS allows it, the source is a file, the target is not a folder and its parent exists; the content moves and folders stay. |
| Disks.MakeDirsEffect | mover.py:178 | `mkdir(parents=True, exist_ok=True)` succeeds exactly when no prefix is a file, and then adds every prefix as a folder and nothing else. |
| Disks.MakeDirsValid | mover.py:178 | Making folders keeps the file system well formed. |
| Disks.MoveValid | mover.py:181 | Moving a file keeps the file system well formed. |
| Disks.RemoveDirValid | mover.py:265 | Removing an empty folder keeps the file system well formed. |
| Disks.FileSystem.constructor | mover.py:132-137 | The file system starts with the given disk. |
| Disks.FileSystem.MakeDirs | mover.py:178 | The in-place `mkdir` reports success and changes the disk exactly as `MakeDirs` does. |
| Disks.FileSystem.Move | mover.py:181 | The in-place move reports success and changes the disk exactly as `Move` does. |
| Disks.FileSystem.RemoveDir | mover.py:265 | The in-place `rmdir` removes exactly that folder. |
| Categories.MakeCategory | categories.py:8-19 | `__post_init__`: an extension or keyword set left out becomes empty; the other fields are kept. |
| Categories.KeysDistinct | categories.py:23-177 | The nineteen keys are pairwise distinct. |
| Categories.KeysNonEmpty | categories.py:23-177 | No key is empty. |
| Categories.PathsDistinct | categories.py:23-177 | No two categories share a folder path. |
| Categories.ExtensionsDisjoint | categories.py:23-177 | No extension belongs to two categories, so the extension lookup's order never matters. |
| Categories.ExtensionIndex | categories.py:183-185 | The scan returns the first entry listing the extension, or reports that none does. |
| Categories.KeywordIndex | categories.py:192-195 | The scan returns the first entry with a keyword in the name, or reports that none has one. |
| Categories.KeyIndex | categories.py:211 | The scan finds an entry with the key, or reports that none has it. |
| Categories.LookupExtension | categories.py:180-186 | On any table: None exactly when no entry lists the lower-cased extension; otherwise the first entry that does. |
| Categories.LookupKeywords | categories.py:189-196 | On any table: None exactly when no entry's keyword occurs in the lower-cased name; otherwise the first entry with one. |
| Categories.GetCategoryByExtension | categories.py:180-186 | The same, on `CATEGORIES`, in declaration order. |
| Categories.GetCategoryByKeywords | categories.py:189-196 | The same, on `CATEGORIES`, in declaration order. |
| Categories.ExtensionLookupUnique | categories.py:180-186 | A category listing the lower-cased extension is the one the lookup returns. |
| Categories.ExtensionIndexOfDisjoint | categories.py:183-185 | On a table with disjoint extension sets, the scan stops at the only entry listing the extension. |
| Categories.InvoiceIsWork | categories.py:189-196 | "invoice" is a keyword of both `work` and `finance`; declaration order makes `work` win. |
| Categories.ContractIsWork | categories.py:189-196 | "contract" is a keyword of both `work` and `legal`; declaration order makes `work` win. |
| Categories.FallbackNeverLookedUp | categories.py:170-196 | Neither lookup ever returns the `misc` category. |
| Categories.GetFallbackCategory | categories.py:199-201 | The fallback is the last entry, key `misc`, with no extensions and no keywords. |
| Categories.FallbackKeyIsLast | categories.py:199-201 | The key lookup of `misc` finds the last entry. |
| Categories.GetAllCategories | categories.py:204-206 | The categories in declaration order, one per entry. |
| Categories.GetCategoryByName | categories.py:209-211 | None exactly when no key equals the lower-cased name; otherwise that key's category. |
| Categories.NameLookupFindsKey | categories.py:209-211 | A name whose lower-case form is a key finds that key's category. |
| Categories.KeyIndexOfKey | categories.py:209-211 | The key lookup of a table key finds its own entry. |
| Categories.KeyIndexOfDistinct | categories.py:211 | On a table with distinct keys, the key lookup finds the only entry with the key. |
| Categories.CategoryNames | categories.py:215 | `CATEGORY_NAMES` lists the keys in declaration order. |
| Categories.DescriptionLines | categories.py:216-219 | One description line per entry, in order. |
| Categories.CategoriesOf | categories.py:206 | One category per entry, in order. |
| Categories.KeysOf | categories.py:215 | One key per entry, in order. |
| Analyzer.MethodName | analyzer.py:22 | The method tag is one of "ai", "extension", "keyword", "fallback". |
| Analyzer.MethodNamesDistinct | analyzer.py:22 | Different tiers have different tags. |
| Analyzer.Preview | analyzer.py:142 | The preview is the content's first 2000 characters (all of a shorter content), or the placeholder when there is no content. |
| Analyzer.BuildPrompt | analyzer.py:140-159 | The prompt carries the model, name and extension, and the size in bytes. The preview is `Preview` of the file: its first 2000 characters, or the placeholder. The MIME type is "Unknown" when absent or empty. |
| Analyzer.PreviewIgnoresConfig | analyzer.py:142 | Even with a larger `max_content_chars`, a long content is cut at 2000 characters. |
| Analyzer.JsonFenceHasFence | analyzer.py:166-168 | A reply holding "```json" holds "```", so the second branch is only for bare fences. |
| Analyzer.StripFence | analyzer.py:166-169 | A reply without a fence is kept. With a fence, the result holds none. The exact pieces are given by `StripFenceJson` and `StripFenceBare`. |
| Analyzer.UpToFence | analyzer.py:167 | `split("```")[0]`: the text up to its first fence, or all of it. The result holds no fence. |
| Analyzer.StripFenceJson | analyzer.py:166-167 | With a "```json" marker: the text from the end of the first marker up to the next marker (or the end), cut at its first fence. |
| Analyzer.StripFenceBare | analyzer.py:168-169 | With fences and no "```json" marker: the text from the end of the first fence up to the next fence (or the end). |
| Analyzer.StripFenceOfJsonBlock | analyzer.py:166-167 | A "```json" block yields exactly its body. This holds when the marker is the reply's first, the closing fence is the first fence after the marker, and it is not followed by another backtick. The body and the text around it may hold backticks. |
| Analyzer.MarkerAfterBody | analyzer.py:166-167 | When the closing fence is the body's first fence and no backtick follows it, no "```json" marker starts inside the body or the closing fence. |
| Analyzer.StripFenceOfBareBlock | analyzer.py:168-169 | A bare "```" block in a reply without a "```json" marker yields exactly its body. This holds when the opening fence is the reply's first and the closing fence is the first fence after it. |
| Analyzer.RelatedIndex | analyzer.py:180-183 | The containment search returns the first key contained in, or containing, the name, or reports that none is. |
| Analyzer.ResolveCategory | analyzer.py:177-185 | An exact key wins. Otherwise the first related key in declaration order. None exactly when no key is related. |
| Analyzer.EmptyCategoryIsWork | analyzer.py:173-183 | A reply without a category names "", which every key contains, so it resolves to `work`. |
| Analyzer.CapConfidence | analyzer.py:190 | `min(c, 1.0)`: at most 1.0, and unchanged up to 1.0. |
| Analyzer.FromReply | analyzer.py:173-193 | A decoded reply gives None exactly when its lower-cased category ("" if absent) resolves to no key. Otherwise it gives an "ai" result for this file: the resolved key's category, `min(confidence, 1.0)` (0.8 if absent), and the reasoning ("AI classification" if absent). |
| Analyzer.ParseAiResponse | analyzer.py:161-195 | The reply is unwrapped by `StripFence`, stripped, and decoded. A text that does not decode gives None. Otherwise the result is `FromReply` of the decoded reply. |
| Analyzer.ReplyNamingKey | analyzer.py:173-193 | A reply naming a key in any case gives that key's category, the capped confidence (0.8 if absent) and the reasoning ("AI classification" if absent). |
| Analyzer.ReplyWithoutFields | analyzer.py:173-175 | An empty JSON object is accepted as `work` with confidence 0.8 and the default reasoning. |
| Analyzer.NegativeConfidenceKept | analyzer.py:190 | A negative confidence is passed through unchanged. |
| Analyzer.FallbackOf | analyzer.py:95 | The fallback category is the table's `misc` entry. |
| Analyzer.RegistryFallback | analyzer.py:95 | `CATEGORIES` has a `misc` entry, and it is `get_fallback_category()`. |
| Analyzer.AiTier | analyzer.py:101-138 | An unanswered prompt gives None. An answer gives `ParseAiResponse` of the stripped answer: None or an "ai" result for this file, with a table category and confidence at most 1.0. |
| Analyzer.RuleTiers | analyzer.py:70-99 | Extension tier (0.9) exactly when the extension is found; else keyword tier (0.7) exactly when a keyword is found; else fallback (0.3); with the matching category. |
| Analyzer.RuleTiersOnRegistry | analyzer.py:70-99 | On `CATEGORIES`, the three tiers are exactly the outcomes of the three lookup functions. |
| Analyzer.Classify | analyzer.py:54-99 | "ai" exactly when the file has content, the server is available and the AI tier answers; otherwise the rule tiers. |
| Analyzer.ClassifyWithoutContent | analyzer.py:65 | A file without content never reaches the model, so availability does not matter. |
| Analyzer.ClassifyInRegistry | analyzer.py:54-99 | Every result's category is one of the table's. |
| Analyzer.AfterProbe | analyzer.py:33-52 | After a probe the availability is known, and a known availability never changes. |
| Analyzer.FileAnalyzer.constructor | analyzer.py:28-31 | A missing config means `DEFAULT_CONFIG`; no client and no availability yet. |
| Analyzer.FileAnalyzer.GetClient | analyzer.py:33-45 | The first call probes once and caches the outcome. Later calls do not probe. The result is the client exactly when available. |
| Analyzer.FileAnalyzer.OllamaAvailable | analyzer.py:47-52 | Probes only while unknown, then reports the cached availability. |
| Analyzer.FileAnalyzer.AnalyzeWithAi | analyzer.py:101-138 | None when unavailable, otherwise the AI tier's outcome. |
| Analyzer.FileAnalyzer.AnalyzeFile | analyzer.py:54-99 | The result is `Classify` under the availability after the probe. A file without content leaves the availability as it was. Once availability is known, no further probe is made. |
| Analyzer.FileAnalyzer.AnalyzeFiles | analyzer.py:197-209 | One result per file, in order, each `Classify` of that file under the one probe outcome. |
| Analyzer.AnalyzeAll | analyzer.py:212-215 | A fresh analyzer on `CATEGORIES` classifies every file, in order. |
| Ledger.OperationToJson | mover.py:23-24 | `asdict` gives an object with exactly the five field names, all strings. |
| Ledger.OperationFromJson | mover.py:26-28 | Succeeds exactly on an object with exactly the five keys, all holding strings. Anything else is a shape error. What it reads is given by `OperationJsonRoundTrip`. |
| Ledger.OperationRoundTrip | mover.py:23-28 | `from_dict(to_dict(op)) == op`. |
| Ledger.OperationJsonRoundTrip | mover.py:23-28 | Every readable operation object is what `to_dict` writes for the operation read. |
| Ledger.OperationsToJson | mover.py:47 | One object per operation, in order. |
| Ledger.OperationsFromJson | mover.py:53 | The list reads exactly when every item does, giving the items' operations in order. |
| Ledger.OperationsRoundTrip | mover.py:47-53 | Operation lists survive a write and a read. |
| Ledger.SessionToJson | mover.py:41-49 | A session is written as an object with exactly the six keys. |
| Ledger.SessionFields | mover.py:41-49 | Each key holds its field's value, and `operations` holds the written operations. |
| Ledger.OperationsValue | mover.py:53 | An array reads as its operations. An empty string or empty object reads as no operations (they are iterable and empty). Any other value is a shape error. |
| Ledger.SessionFromJson | mover.py:51-61 | A non-object, a non-string identity field, a bad `operations` list or a non-boolean `completed` is a shape error. A missing identity key is a key error. On success, the four identity fields read back, and `operations` and `completed` are read from the document. Missing, they default to [] and false. |
| Ledger.SessionRoundTrip | mover.py:41-61 | `from_dict(to_dict(s)) == s`. |
| Ledger.LogToJson | mover.py:86-88 | The file holds an object whose only key `sessions` lists one item per session. |
| Ledger.SessionsToJson | mover.py:87 | One object per session, in order. |
| Ledger.SessionsFromJson | mover.py:78 | The list reads exactly when every session does. Otherwise the error is the first failing session's. |
| Ledger.SessionsValue | mover.py:78 | An array reads as its sessions. An empty string or empty object reads as none; it is iterable and empty. Anything else is a shape error. |
| Ledger.LoadLog | mover.py:72-80 | No file or unparseable text gives no sessions. A non-object document raises, and so does a `sessions` value that `SessionsValue` rejects as the wrong shape. An object without `sessions`, or one whose sessions miss a key, gives none. Otherwise the log holds `SessionsValue`'s sessions. |
| Ledger.SessionsRoundTrip | mover.py:78-88 | Session lists survive a write and a read. |
| Ledger.LogRoundTrip | mover.py:72-90 | Loading what `_save` wrote gives the saved sessions back. |
| Ledger.MissingKeyEmptiesLog | mover.py:78-80 | One session lacking a key (with every earlier one readable) empties the whole log. |
| UndoLogs.Session.constructor | mover.py:31-39 | A session object holds the record's fields. |
| UndoLogs.Session.Append | mover.py:108 | Appends one operation in place and keeps the flag. |
| UndoLogs.Session.Complete | mover.py:113 | Sets the flag in place and keeps the operations. |
| UndoLogs.RecordsOf | mover.py:87 | One record per session object, in order. |
| UndoLogs.NewSessions | mover.py:78 | Fresh session objects holding exactly the loaded records. |
| UndoLogs.Without | mover.py:125 | Keeps exactly the sessions with another id. |
| UndoLogs.WithoutKeepsOrder | mover.py:125 | The filter keeps the order of the list. |
| UndoLogs.WithoutOfOthers | mover.py:125 | A list with no session of that id is left as it is. |
| UndoLogs.LastCompleted | mover.py:116-121 | The last completed session in the list, or None when none is completed. |
| UndoLogs.UndoLog.Save | mover.py:82-90 | The file afterwards holds the current list. |
| UndoLogs.UndoLog.constructor | mover.py:67-70 | The log holds fresh sessions with the loaded records; the file is unchanged. |
| UndoLogs.UndoLog.CreateSession | mover.py:92-104 | A fresh, empty, uncompleted session is appended to the list, and the file is rewritten. |
| UndoLogs.UndoLog.AddOperation | mover.py:106-109 | The operation is appended to the session in place, the list is kept, and the file is rewritten. |
| UndoLogs.UndoLog.CompleteSession | mover.py:111-114 | The session is marked completed in place, and the file is rewritten. |
| UndoLogs.UndoLog.GetLastSession | mover.py:116-121 | Returns the last completed session. |
| UndoLogs.UndoLog.RemoveSession | mover.py:123-126 | Every session with that id is removed, and the file is rewritten. |
| UndoLogs.OpenUndoLog | mover.py:67-80 | Opening fails exactly when `_load` raises. Otherwise it holds the loaded sessions. |
| UndoLogs.ReopenSaved | mover.py:72-90 | A log reopened from what it saved holds the same sessions. |
| Mover.CandidateInjective | mover.py:203-205 | Different counters give different candidate paths. |
| Mover.CandidatesCard | mover.py:203-205 | The first `k` candidates are `k` distinct paths. |
| Mover.TakenCandidatesBound | mover.py:203-208 | Only finitely many candidates can be taken, so the `while True` loop ends. |
| Mover.FirstFree | mover.py:201-208 | The counter only grows. |
| Mover.FirstFreeSpec | mover.py:201-208 | The loop stops at a free candidate, and every smaller counter's candidate is taken. |
| Mover.UniquePathFree | mover.py:193-208 | The result is free, stays in the same folder, and is the path itself exactly when that is free. |
| Mover.UniquePathSmallest | mover.py:201-208 | For a taken path, the result is the candidate with the smallest free counter. |
| Mover.NumberedNameWellFormed | mover.py:204 | A numbered name holds no separator. |
| Mover.UniquePathWellFormed | mover.py:204-205 | The chosen path's parts hold no separator. |
| Mover.DestinationPlace | mover.py:159-165 | The destination is free, lies directly in the category folder, and lies inside the output folder. |
| Mover.DestinationWellFormed | mover.py:159-165 | The destination's parts hold no separator. |
| Mover.RelocationEffect | mover.py:175-189 | A move takes the source's content to the destination. A refused move leaves the files. Folders are only added, on the way to the category folder. |
| Mover.RelocationValid | mover.py:175-189 | A move keeps the file system well formed. |
| Mover.MoveStepEffect | mover.py:152-191 | The operation returned is the plan made before the call. A dry run always returns it and changes nothing. A real move takes the source's content to the planned destination. A None leaves every file in place. Folders are only added, on the way to the category folder. |
| Mover.StepKeeps | mover.py:152-191 | A call leaves in place every file that is not its source and lies outside the output folder. |
| Mover.StepKeepsPath | mover.py:152-191 | A call removes no file except its own source. |
| Mover.Organize | mover.py:269-290 | One entry per call made, and at most that many moves performed. |
| Mover.OrganizeDryRun | mover.py:269-290 | A dry run leaves the disk, and every entry is the plan made on the untouched disk. |
| Mover.DryRunSharedDestination | mover.py:269-290 | In a dry run, two files with the same name and category folder get the same destination. |
| Mover.OrganizeValid | mover.py:269-290 | Every disk of a run is well formed and keeps the folders it started with. |
| Mover.OrganizeDirs | mover.py:269-290 | A real run keeps every folder it started with. It only adds folders that are prefixes of the output folder or lie inside it, and each added folder is a prefix of some file's category folder. |
| Mover.Untouched | mover.py:269-290 | A file that is no source and lies outside the output folder keeps its content. |
| Mover.KeptThrough | mover.py:269-290 | A file present after one call of a real run is still there after later calls that do not have it as their source. |
| Mover.StillThere | mover.py:269-290 | The destination of a performed move still holds the file when the run reaches any later call, because later calls only remove their own sources, which were files before. |
| Mover.KeptAfterMove | mover.py:269-290 | A file moved to a path that was free before its call is no later call's source, so it stays through the rest of the run. |
| Mover.SourcesPresent | mover.py:269-290 | Every scanned file is still present when the run reaches its call, since earlier calls only remove their own sources. |
| Mover.OpsStable | mover.py:283-285 | The entry for a file is fixed once its call is made. |
| Mover.MovedAt | mover.py:152-191 | An operation's destination was free before its call, lies inside the output folder, and holds the file after the call. |
| Mover.OpsGrow | mover.py:283-285 | A call only appends its entry: the entries before it are unchanged. |
| Mover.OpsKept | mover.py:283-285 | An entry made before a call is the same after it. |
| Mover.DistinctTexts | mover.py:168-169 | Different well-formed paths have different texts. |
| Mover.RealRunDistinctDestinations | mover.py:269-290 | In a real run over distinct files present on the disk, no two performed operations share a destination. The files may lie inside the output folder, as on a second run over the same folder. |
| Mover.UndoStep | mover.py:224-239 | Each undone operation adds one (destination, source) move or one error. A step that moves nothing leaves the files. |
| Mover.UndoStepValid | mover.py:224-239 | Undoing one operation keeps the file system well formed. |
| Mover.UndoAllAccounts | mover.py:224-239 | Every operation ends as one move or one error, and nothing earlier is lost. Every move is some operation's (destination, source). |
| Mover.UndoAllCounts | mover.py:224-239 | The undo loop adds one move or one error per operation and keeps what was reported before. |
| Mover.UndoAllMoves | mover.py:224-239 | Every move the undo loop adds is the (destination, source) pair of one of the operations. |
| Mover.UndoAllValid | mover.py:224-239 | The undo loop keeps the file system well formed. |
| Mover.BacksOrder | mover.py:224-235 | The moves back of a full undo are the operations' pairs, last first. |
| Mover.BelowShrinks | mover.py:256-258 | The recursion into a child folder has fewer folders below it, so `_cleanup_empty_dirs` ends. |
| Mover.HasEntriesKept | mover.py:262 | Removing other folders does not empty a folder that keeps an entry. |
| Mover.CleanupStep | mover.py:256-258 | Cleaning one child keeps the loop invariant: files unchanged, only folders below the visited children (never the output root) removed, and every remaining visited folder non-empty. |
| Mover.CleanupFinish | mover.py:260-267 | After the children, the folder itself is removed exactly when empty and not the output root. |
| Mover.PrefixChild | mover.py:256-257 | A folder below `p` lies below one of `p`'s child folders. |
| Mover.NothingBelowMissing | mover.py:253-254 | A folder that does not exist has no folders below it. |
| Mover.MoveBack | mover.py:228-235 | Right after a move, the move back finds the destination, needs no new folder and restores the files. |
| Mover.UndoStepBack | mover.py:224-235 | Undoing a step's operation on what the step left restores the disk's files and records the move back. |
| Mover.UndoAllSnoc | mover.py:224 | Undoing a list ending in `op` undoes `op` first. |
| Mover.BacksSnoc | mover.py:224 | The moves back of a list ending in `op` start with `op`'s. |
| Mover.UndoOneStep | mover.py:224-235 | Undoing a run's operations is undoing the last step's operation, then those before it. |
| Mover.RunPrefix | mover.py:269-290 | The conditions of the undo induction hold for the run without its last step. |
| Mover.UndoLastStep | mover.py:224-235 | Undoing the first `n` steps' operations is undoing the `n`-th step's, then the first `n - 1`. |
| Mover.UndoOrganized | mover.py:210-290 | Undoing every operation of a real run, with the folders the run left, restores every file and reports each operation's move back, with no error. |
| Mover.OrganizeThenUndo | mover.py:210-290 | Organizing and then undoing the session, with no OS refusals, restores every file, reports no error, and reports the moves back last first. This holds when no source's path is, or is an ancestor of, a category folder of the run. Sources may lie inside the output folder. |
| Mover.FileMover.constructor | mover.py:132-137 | The mover starts with its output folder, config, mode and log, and no current session. |
| Mover.NewFileMover | mover.py:132-137 | A missing config means `DEFAULT_CONFIG`, and the log is opened at `undo_log_file` inside the output folder. Creation fails exactly when loading the log raises. |
| Mover.FileMover.StartSession | mover.py:139-145 | Outside dry-run, a fresh empty session is appended to the log and becomes current. In dry-run nothing changes. |
| Mover.FileMover.EndSession | mover.py:147-150 | Outside dry-run, the current session is marked completed and the log is saved. Otherwise nothing changes. |
| Mover.FileMover.OrganizeNextFile | mover.py:283-285 | One loop turn advances the run by one call and records a real move in the current session. |
| Mover.FileMover.OrganizeFiles | mover.py:269-290 | The disk and the returned list are those of `Organize`. The current session gains exactly the moves performed, in order. In dry-run the log is untouched. |
| Mover.FileMover.GetUniquePath | mover.py:193-208 | The loop returns `UniquePath` of the current disk. |
| Mover.FileMover.Relocate | mover.py:175-189 | The `mkdir` and `shutil.move` pair changes the disk as `Relocation` says. |
| Mover.FileMover.UndoOperation | mover.py:225-239 | One turn of the undo loop changes the disk, moves and errors as `UndoStep` says. |
| Mover.FileMover.CleanupEmptyDirs | mover.py:251-267 | Files are unchanged. Only folders at or below `directory` (never the output root) are removed. Every remaining such folder has an entry. |
| Mover.FileMover.MoveFile | mover.py:152-191 | The disk and the result are those of `MoveStep`. A real move is appended to the current session and the log is saved. Otherwise the log is untouched. |
| Mover.FileMover.UndoOperations | mover.py:224-239 | The loop over the reversed operations gives `UndoAll`'s disk, moves and errors. |
| Mover.FileMover.UndoLastSession | mover.py:210-249 | No completed session gives "No sessions to undo" and no change. Otherwise: the undo loop, the clean-up of the output folder, removal of the session from the log, and success exactly when no error occurred, with the matching message. |

## Left out

- **Language model and JSON text.** The model server, its wire format and `json.loads` are maps from prompts to replies and from texts to decoded replies. Floating-point confidences are exact reals.
- **Size formatting.** The prompt's `{size_mb:.2f}` size is the byte count. `CATEGORY_DESCRIPTIONS` is the same in every prompt and is left out of the prompt record.
- **System message and chat options.** The chat call's system message and options (temperature, length) are not modelled.
- **Undo log file.** `_save` and `_load` work on a JSON value, not on text. The `mkdir` of the log's folder in `_save` is not modelled, and neither is a failure to write the file.
- **Time.** `datetime.now()` timestamps and session ids are parameters.
- **Progress callbacks.** `progress_callback` in `analyze_files` and `organize_files` only reports progress and is left out.
- **Exception text.** The error texts of the undo loop omit the exception message appended after "Failed to restore name:".
- **A destination that is a folder.** `shutil.move` onto an existing folder moves the file into it. `Disks.Disk.Move` refuses instead. In `organize_files` this makes no difference, because the destination is always a free path.
- Mover.UndoStep: when undoing, the original source may by then be a folder that a later step created. Python would move the file into that folder; the model's move refuses, so the step records "Failed to restore name:" instead. `OrganizeThenUndo` excludes this case with its hypothesis.
- **Failing rmdir.** A failing `rmdir` in `_cleanup_empty_dirs` (other than on a non-empty folder) is not modelled; the call is treated as always succeeding.
- **Symbolic links.** The file system has no symbolic links, permissions or other processes. The OS's refusal of a move is an input.
- **Confidence lower bound.** The code keeps a negative confidence, and the model does too.
- Mover.FileMover.OrganizeFiles: does not restate the undo log's stored file after a real run, beyond it being the saved state after each recorded move (see `MoveFile`).
- Ledger.OperationFromJson: `cls(**data)` accepts any JSON value for a field; numbers, booleans, null, arrays and objects simply end up in the record. The model's records hold strings, so it reports such a value as a shape error instead.
- Ledger.SessionFromJson: for the same reason, a non-string identity field or a non-boolean `completed` is a shape error in the model, where Python builds the record.
- Ledger.LoadLog: a log holding such values therefore raises in the model (`Crashed`), where Python's `_load` reads it.
- UndoLogs.OpenUndoLog: for the same reason, opening fails on such a log, which Python opens.
- Mover.NewFileMover: for the same reason, creating a mover fails when its log holds such values, which Python accepts.
- Text.Lower: lower-cases ASCII letters only. Python's `str.lower` also maps other letters, e.g. U+212A (Kelvin sign) to 'k' and U+0130 to two characters, which can change the length.
- Paths.FromText: reads a path text as its '/'-separated pieces. `pathlib` normalises differently: `Path("")` has zero parts, and repeated separators and "." parts are folded. `Paths.PathRoundTrip` is about this reading only.
- `scanner.py`, `config.py` and `organizer.py` are not part of this model beyond the `FileInfo` and `Config` records: they are directory walking, file reading, content extraction and the command-line interface.
