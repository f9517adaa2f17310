# Prompt Vault core, modelled in Dafny

Prompt Vault is a small React application that keeps prompts in named profiles in browser
storage. It shows a profile's prompts grouped by category and exports them as a PDF. This
project models the decision logic behind that, and proves what it promises:

- **Profile store** (`store.dfy`, module `ProfileStore`): the persisted root `ProfilesData`,
  the five state updaters (add, delete, select, create, switch), the save guard and the
  construction of a new prompt, and the `currentPrompts` view (`CurrentPrompts`). Each updater
  is a pure function from the old root to the new one, as in the source.
- **Persistence** (`persistence.dfy`, module `Persistence`): browser storage is a class
  `Storage` over a key-to-text map with a `full` flag (a refused `setItem`). The application
  shell is a class `App` with the fields `data`, `isLoaded` and `error`.
  - `App.Load` is the mount-time load effect: current data, one-shot migration of the legacy
    flat list, or the empty default.
  - `App.Persist` is the write-back effect; `App.Mount` runs the load and then the write-back.
  - The methods are proved against the functions `LoadSpec`, `SaveSpec` and `MountSpec`, and
    the lemmas state the load cases and that loading again from what a load left behind changes nothing. With writable storage, migration therefore runs at most once; with full storage the legacy entry stays and each load migrates it again, to the same state.
- **Profile chooser** (`profile_manager.dfy`, module `ProfileManager`): name validation, the
  inline error, the Enter key and error clearing. Combined with the create updater, an accepted
  name never replaces a stored profile.
- **Grouping** (`grouping.dfy`, module `Grouping`): the `reduce` that groups prompts by
  category, as a loop (`GroupPrompts`) proved against a left-fold specification. Also the
  sorted category list and the order in which the export prints prompts.
- **PDF export** (`pdf_export.dfy`, module `PdfExport`): `handleDownloadPdf` and its
  `writeText` closure, as methods over a cursor, the font last set, and the list of drawing
  calls. They are proved equal to a run of a block program (`Run` over `Step`s). Lemmas state:
  - what is drawn, and in which order;
  - where the page breaks fall;
  - that every block stays between the margins when each block is measured in its own font.
- **Strings** (`strings.dfy`, module `Strings`): JavaScript's `trim` (ECMAScript white space and
  line terminators) and an ASCII `toLowerCase`. **Types** (`types.dfy`): the record shapes.

Behaviours of the code that the model keeps as they are:
- The create updater replaces an entry with the same name; it does not require the name to
  be new. Only the chooser's validation keeps names new (`CreateNeverOverwrites`).
- Delete removes every prompt carrying the id, not just one.
- Delete reads `profiles[currentUser]` without a fallback. When the signed-in user has no
  entry, it throws; `DeletePrompt` returns `None` in that case.
- A category that is empty, not only one that is absent, groups under "Uncategorized".
- An empty legacy list is left in storage.
- `writeText` measures a block before it sets the block's font (see Findings).

## Model

| member | source | states |
|---|---|---|
| ProfileStore.CurrentPrompts | App.tsx:183 | A signed-in user with a stored profile is shown exactly that profile's list. With nobody signed in, or with no stored profile for the user, the shown list is empty. On a well-formed root its ids are unique. |
| ProfileStore.AddPrompt | App.tsx:107-118 | With nobody signed in (null or ""), the state is returned unchanged. Otherwise the new prompt goes in front of the user's list (a missing list counts as empty), and `currentUser` is unchanged. The profile names gain only the user, and every other profile is unchanged. Unique ids are kept when the id is new. |
| ProfileStore.RemoveId | App.tsx:138 | A prompt is in the `filter` result exactly when it is in the input and does not carry the id. The result is no longer than the input, and it is the input itself when no prompt carries the id. |
| ProfileStore.RemoveIdAppend | App.tsx:138 | Filtering distributes over concatenation, so the kept prompts stay in their order. |
| ProfileStore.RemoveIdKeepsUnique | App.tsx:138 | Filtering keeps ids unique. |
| ProfileStore.DeletePrompt | App.tsx:130-142 | With nobody signed in, nothing changes. It fails (the updater throws) exactly when the signed-in user has no stored entry. Otherwise the user's list is filtered, and `currentUser`, the profile names and every other profile are unchanged. A well-formed root never fails and stays well-formed. |
| ProfileStore.SelectProfile | App.tsx:144-146 | Only `currentUser` changes. Selecting a stored name keeps the root well-formed. |
| ProfileStore.CreateProfile | App.tsx:148-157 | Signs the name in with an empty list, replacing any entry with that exact name. The names gain only this one, and every other profile is unchanged. |
| ProfileStore.SwitchProfile | App.tsx:159-162 | Signs out: `currentUser` becomes null (never the empty string), every profile is kept unchanged, the shown list is empty, and a well-formed root stays well-formed. |
| ProfileStore.NewPrompt | App.tsx:98-105 | The new record carries the given id. Its category and main category are the final category. Its text is the trimmed instructions: no white space at either end, and empty exactly when they are blank. The sub-category is the trimmed sub-category text, the image is passed through, and there are no legacy fields. |
| ProfileStore.NewPromptKeepsInstructions | App.tsx:85-104 | The stored text is what the user typed with only the white space at both ends cut off: the instructions are blank, then the text, then blank. |
| ProfileStore.FinalCategory | App.tsx:84 | The chosen category is used as is, unless it is "Other". Then the category is the trimmed custom text: no white space at either end, and empty exactly when that text is blank. |
| ProfileStore.CanSave | App.tsx:84-89 | A save goes ahead exactly when somebody is signed in, no save is in flight, the final category is non-empty, and the instructions are not blank. |
| ProfileStore.SavePrompt | App.tsx:84-118 | The save is refused exactly when nobody is signed in, a save is in flight, the final category is empty (the trimmed custom text for "Other"), or the trimmed instructions are empty. Otherwise the new prompt, with non-empty text and category, is put in front of the user's list. `currentUser` is unchanged, the profile names gain at most the user's, and every other profile is unchanged. A well-formed root stays well-formed when the id is new. |
| ProfileStore.AddThenDeleteRestores | App.tsx:114-138 | Deleting the fresh id of a prompt just added gives back the user's list exactly. When the user had a stored list, the whole root comes back. |
| ProfileStore.SaveThenDeleteRestores | App.tsx:84-138 | Saving a prompt and then deleting it restores the user's list, content and order. |
| ProfileStore.SwitchKeepsPrompts | App.tsx:148-162 | Create a profile, save a prompt, switch, then select the profile again: its list holds exactly that prompt. |
| Persistence.LoadSpec | App.tsx:29-56 | The only error the load sets is "Could not load your profile data.". Storage is either left alone or changed only by writing the loaded root under the current key and removing the legacy key, and that needs writable storage. When a root is loaded and an error is set as well, storage was full and is unchanged. |
| Persistence.LoadPassThrough | App.tsx:31-33 | Current-format data is used exactly as parsed. The legacy key is neither read nor removed, nothing is written, and no error is set. |
| Persistence.LoadMigrates | App.tsx:35-47 | With no current data and a non-empty legacy list, the state becomes the signed-in "Default Profile" holding the legacy prompts in their order. It is written under the current key, the legacy key is removed, and every other key is kept. |
| Persistence.LoadNoOp | App.tsx:35-50 | With neither key, or an empty legacy list, nothing is written or removed and the state stays the empty default. |
| Persistence.LoadFailureKeepsDefault | App.tsx:51-54 | A parse failure sets "Could not load your profile data.", keeps the empty default, and leaves storage alone. |
| Persistence.ReloadIsStable | App.tsx:31-47 | In every case, loading again from what a load left behind gives the same state and error, and writes and removes nothing. So with writable storage migration runs at most once. With full storage the `setItem` throws, the legacy key stays, and every load migrates it again to the same state. |
| Persistence.SaveSpec | App.tsx:58-67 | Before loading is over nothing is written. Afterwards the root is written under the current key and every other key is kept; with a lossless codec it reads back as the same root. A refused write changes nothing and sets "Could not save your profile data.". |
| Persistence.MountSpec | App.tsx:24-67 | With writable storage, after a mount the current key holds the encoding of the state shown, which reads back as that state with a lossless codec. With full storage, storage is unchanged and the save error is shown. |
| Persistence.RemountIsPassThrough | App.tsx:29-67 | With writable storage, after one mount the current key holds the loaded root, so a second mount changes nothing and shows no error. |
| Persistence.UnreadableDataIsReplaced | App.tsx:31-67 | Unparseable current data is overwritten with the empty default by the write-back that follows the failed load, and the load error is shown. |
| Persistence.Storage.GetItem | App.tsx:31 | Gives the stored text, or nothing when the key is absent. |
| Persistence.Storage.SetItem | App.tsx:46 | Stores the text, or throws and changes nothing when storage is full. |
| Persistence.Storage.RemoveItem | App.tsx:47 | Removes the key and nothing else. |
| Persistence.App.constructor | App.tsx:24-27 | The initial state: empty root, not loaded, no error. |
| Persistence.App.Load | App.tsx:29-56 | The load effect leaves storage, state and error exactly as `LoadSpec` says, and always ends with `isLoaded` set. |
| Persistence.App.Persist | App.tsx:58-67 | The write-back effect changes storage and error exactly as `SaveSpec` says. |
| Persistence.App.Mount | App.tsx:24-67 | Load followed by write-back from the initial state gives `MountSpec`. |
| ProfileManager.ValidateName | components/ProfileManager.tsx:15-26 | Empty name exactly when the input is blank. Duplicate exactly when it is not blank and its trim equals an existing name up to case; the emptiness test comes first. An accepted name is the trimmed input: non-empty, no white space at either end, and different up to case from every existing name. |
| ProfileManager.FoldAll | components/ProfileManager.tsx:21 | One entry per existing name. A string is in the list exactly when it is the lower-cased form of some existing name, which is what `includes` tests. |
| ProfileManager.Message | components/ProfileManager.tsx:17-24 | The error text is empty exactly when the name is accepted. |
| ProfileManager.HandleCreate | components/ProfileManager.tsx:15-26 | `onCreateProfile` is called, with the trimmed name, exactly when the name is accepted, and the form is left as it is. Otherwise only the error changes, to the empty-name or the duplicate message. |
| ProfileManager.HandleKeyPress | components/ProfileManager.tsx:28-32 | Enter does exactly what the Create button does; any other key does nothing. |
| ProfileManager.HandleInputChange | components/ProfileManager.tsx:50-53 | Typing replaces the input and clears the error. |
| ProfileManager.BlankNamesRejected | components/ProfileManager.tsx:16-20 | "" and "   " are rejected as empty. |
| ProfileManager.PaddedCaseVariantRejected | components/ProfileManager.tsx:21-24 | " Foo " against ["foo"] is a duplicate. |
| ProfileManager.NewNameAccepted | components/ProfileManager.tsx:21-25 | "Bar" against ["foo"] is accepted unchanged. |
| ProfileManager.CreateNeverOverwrites | components/ProfileManager.tsx:21-25 | When the chooser lists exactly the stored profiles, creating an accepted name adds exactly one new profile and keeps every stored one. |
| Strings.Trim | components/ProfileManager.tsx:16 | `trim` leaves no white space at either end, and its result is empty exactly when the input is blank. |
| Strings.TrimIsInfix | components/ProfileManager.tsx:16 | What `trim` keeps is one contiguous piece of the input, and what it removes on both sides is white space. |
| Strings.TrimPadded | components/ProfileManager.tsx:16 | Trimming a string padded with white space gives back the string, when it has none at its ends. |
| Strings.TrimIdempotent | components/ProfileManager.tsx:16 | Trimming twice is trimming once. |
| Strings.Lower | components/ProfileManager.tsx:21 | Lower-casing keeps the length. Each character becomes the variant of itself, up to ASCII letter case, that is not an upper-case letter. |
| Strings.LowerIdempotent | components/ProfileManager.tsx:21 | Lower-casing twice is lower-casing once. |
| Strings.LowerAlike | components/ProfileManager.tsx:21 | Two names lower-case alike exactly when they have the same length and differ at most in ASCII letter case at each position, so the duplicate test ignores exactly letter case. |
| Grouping.GroupKey | components/PromptVaultDisplay.tsx:26 | A prompt's group key is never empty. It is the prompt's category whenever that is not empty, and "Uncategorized" when the category is empty. |
| Grouping.KeyOrder | components/PromptVaultDisplay.tsx:24-33 | The key order lists no more keys than there are prompts. Its contents are stated by `KeyOrderKeys`. |
| Grouping.Bucket | components/PromptVaultDisplay.tsx:26-30 | A group is never longer than the input. Its contents are stated by `BucketKeys`, `BucketCount` and `BucketIsSubsequence`. |
| Grouping.GroupPrompts | components/PromptVaultDisplay.tsx:24-33 | The `reduce` loop builds the fold-defined grouping `Grouped` and the key order `KeyOrder` of the whole input. |
| Grouping.GroupStep | components/PromptVaultDisplay.tsx:26-30 | One pass of the `reduce` callback creates the key's array when the key is new and pushes the prompt. This turns the grouping and key order of the first i prompts into those of the first i + 1. |
| Grouping.GroupedSnoc | components/PromptVaultDisplay.tsx:26-30 | One prompt more pushes it onto its key's group, and creates the group when the key is new. |
| Grouping.GroupedKeys | components/PromptVaultDisplay.tsx:24-33 | The group keys are exactly the keys of the prompts (the category, or "Uncategorized" when it is empty), and no group is empty. |
| Grouping.KeyOrderKeys | components/PromptVaultDisplay.tsx:25-32 | The keys come without repetition and are exactly the prompts' keys. |
| Grouping.BucketKeys | components/PromptVaultDisplay.tsx:26-30 | Every member of a group carries the group's key. |
| Grouping.BucketCount | components/PromptVaultDisplay.tsx:25-32 | A group holds each prompt of its key as often as the input does, and nothing else. |
| Grouping.BucketIsSubsequence | components/PromptVaultDisplay.tsx:25-30 | A group keeps its prompts in input order (it is a subsequence of the input). |
| Grouping.GroupsPartition | components/PromptVaultDisplay.tsx:24-35 | Read in any order that lists each key once, the groups are a permutation of the input, so their sizes add up to its length. |
| Grouping.Insert | components/PromptVaultDisplay.tsx:35 | One insertion step adds exactly the new key and keeps a sorted list sorted. |
| Grouping.SortBy | components/PromptVaultDisplay.tsx:35 | The sort returns the same keys, ordered by the comparison. |
| Grouping.SortedCategories | components/PromptVaultDisplay.tsx:35 | The sorted categories are ordered, hold no key twice, and are exactly the group keys. |
| Grouping.FlattenCount | components/PromptVaultDisplay.tsx:63-79 | With distinct keys, the groups read in order hold a prompt as often as the input does if its key is listed, and not at all otherwise. |
| Grouping.ExportOrder | components/PromptVaultDisplay.tsx:63-79 | The order in which the export prints the prompts is a permutation of the input. |
| Grouping.GroupingExample | components/PromptVaultDisplay.tsx:24-35 | Prompts in categories B, A, B give the groups A: [second] and B: [first, third]. With A ordered before B, the categories are listed A, B. |
| PdfExport.ExecAppends | components/PromptVaultDisplay.tsx:44-76 | Each step keeps the calls made before and appends at most a new page and one text or rule. A gap draws nothing and moves the cursor down by its amount. A separator adds a page and draws its rule at the top margin exactly when the rule would cross the bottom margin; otherwise it draws the rule at the cursor. Either way the cursor ends 5 units below the rule. Only a text block changes the font, to its own. |
| PdfExport.RunAppends | components/PromptVaultDisplay.tsx:44-80 | Running a program only appends calls, at most two per step. It leaves set the font of the last text block, or the font set before when there is none. |
| PdfExport.BodyStepsShape | components/PromptVaultDisplay.tsx:68-79 | A category of n prompts gives 2n - 1 blocks: the prompts in order at the even positions, and a separator between each two. |
| PdfExport.CategoryStepsShape | components/PromptVaultDisplay.tsx:63-79 | The categories give blocks exactly when there is a category. The first block is the first category's heading, with no gap before it. |
| PdfExport.ProgramShape | components/PromptVaultDisplay.tsx:61-80 | The export begins with the title. An empty list writes the title alone. Any other list goes on with the heading of the first category in sorted order. |
| PdfExport.WriteText | components/PromptVaultDisplay.tsx:44-59 | `writeText` makes exactly one step of the block program. |
| PdfExport.WriteBreaksOnce | components/PromptVaultDisplay.tsx:47-58 | A block is never split. Its text is appended once, after exactly one new page when the reserved height would cross the bottom margin. It is drawn at the top margin after a break and at the cursor otherwise. The cursor moves to the drawing position plus the reserved height plus the space after the block. |
| PdfExport.OversizedBlockBreaks | components/PromptVaultDisplay.tsx:50-53 | A block taller than the usable height starts a new page even at the top of an empty one. Measured in its own font, it then runs past the bottom margin. |
| PdfExport.WriteGroup | components/PromptVaultDisplay.tsx:68-79 | The inner loop runs a category's prompts: a separator rule (with its own page-break check) before every prompt but the first. |
| PdfExport.WriteCategory | components/PromptVaultDisplay.tsx:63-79 | The outer loop body runs the 5-unit gap (not before the first category), the heading, then the prompts. |
| PdfExport.DownloadPdf | components/PromptVaultDisplay.tsx:37-83 | The export makes the calls of the program (the title, then every category in sorted order) as written, followed by the save. |
| PdfExport.RunDraws | components/PromptVaultDisplay.tsx:44-80 | However the pages break, the texts drawn in a font are the blocks the program writes in that font, each exactly once and in program order. |
| PdfExport.RunDrawsAll | components/PromptVaultDisplay.tsx:44-80 | However the pages break, the texts drawn, each with its font and across all fonts, are the program's text blocks in program order. |
| PdfExport.ExportOutline | components/PromptVaultDisplay.tsx:61-80 | Read across fonts, the document is the title, then each category in sorted order: its heading directly followed by its prompts in the body font. This holds for every page size and measurement. |
| PdfExport.HeadingsWritten | components/PromptVaultDisplay.tsx:63-66 | The headings written are the categories, in order. |
| PdfExport.BodiesWritten | components/PromptVaultDisplay.tsx:68-79 | The bodies written are the prompts' texts, category by category. |
| PdfExport.CategoriesWritten | components/PromptVaultDisplay.tsx:63-80 | The categories write the sorted headings in the heading font and the prompts in export order in the body font, and nothing else. |
| PdfExport.ExportContents | components/PromptVaultDisplay.tsx:61-80 | The document holds the title once in the title font, the headings in sorted order, and every prompt's text once in the body font, category by category; nothing else is written. This holds for every page size and measurement. |
| PdfExport.ExportEnabledIffCategories | components/PromptVaultDisplay.tsx:96 | The export is enabled (a non-empty list) exactly when there is a category to write. |
| PdfExport.OwnFontStaysInside | components/PromptVaultDisplay.tsx:44-80 | When every block is measured in its own font and fits on a page, every text and rule is drawn between the margins. |
| PdfExport.CorrectedExportInside | components/PromptVaultDisplay.tsx:37-83 | The export measured in each block's own font draws everything between the margins. |
| PdfExport.TwoCategorySteps | components/PromptVaultDisplay.tsx:63-79 | Two categories give the blocks: heading, prompt, gap, heading, prompt, rule, prompt. |
| PdfExport.ThreePromptProgram | components/PromptVaultDisplay.tsx:61-80 | The blocks of an export of three prompts in categories B, A, B. |
| PdfExport.StaleFontOverflows | components/PromptVaultDisplay.tsx:47-57 | Measured in the previous block's font, the heading "B" of that export is drawn past the bottom margin on a 125-high page, although every block fits. Measured in its own font, the same export stays inside. |

## Left out

- Date.now: a prompt's id is a parameter. Ids may collide; delete then removes every prompt with the id, which `RemoveId` states.
- ProfileStore.DeletePrompt: the source reads `currentUser` from the state at the time of the click and applies the updater to the latest state. The model uses one state for both, so updates queued in between are not modelled.
- ProfileStore.SavePrompt: the 300 ms delay and the `isSaving` flag are timing. A save is one atomic transition that keeps only the guard. Also left out: clearing the form, going to the vault page, clearing the error, and the catch around building the record (which cannot fail here).
- Persistence.Codec: `JSON.parse` and `JSON.stringify` are an abstract codec whose decode may fail. The shape of parsed data is not checked, so a decode gives a well-typed root or fails. `Lossless` is the only property assumed of it, and only by the lemmas that take it as a precondition.
- Persistence.Storage.GetItem: reads never throw. Storage that refuses reads (which the source's catch would also cover) is not modelled; refused writes are, through `full`.
- Grouping.SortBy: `localeCompare` is an abstract total relation `before`, and JavaScript's sort is replaced by an insertion sort with the same result: the same keys, ordered. The group keys are distinct, so for an antisymmetric relation any sort gives this list.
- Grouping.KeyOrder: the key order is the order in which the accumulator's keys are created. `Object.keys` reports keys that look like array indices (such as "1" or "2024") first, in numeric order. The model does not move those keys to the front. The key order is only the input of the sort, and for an antisymmetric comparison the sorted list does not depend on it (see the `Grouping.SortBy` line).
- Grouping.GroupPrompts: categories that name properties of `Object.prototype` (such as "constructor") make the source's `!acc[category]` test misbehave. The model treats every category as a plain key.
- Strings.Lower: folds only the ASCII letters A-Z; `toLowerCase` also folds other scripts.
- Strings.Trim: works on Dafny characters, not on UTF-16 code units.
- PdfExport.Page: `splitTextToSize` and `getTextDimensions` are one integer `measure` of a text in a font. Page width, x positions, draw colour and floating-point geometry are left out, and the document starts in jsPDF's default font, 16 pt normal. jsPDF's `text(lines, x, y)` puts the first baseline at y, so the ink of a block starts somewhat above y. The model's block extent from y to y + `measure` is the code's own cursor bookkeeping, not the ink on the page. "Between the margins" in `Inside`, and the overflow in the Findings, are statements in that bookkeeping.
- React plumbing: rendering, the loading screen, navigation, clipboard copy and its timer, and the `FileReader` image upload.
- `components/SavedPromptsList.tsx` and `components/PromptInput.tsx`: presentation only, with no decision logic.

## Findings

| source | as written | input that shows it | evidently intended | confidence | as-written member | corrected member |
|---|---|---|---|---|---|---|
| components/PromptVaultDisplay.tsx:47-57 | `writeText` wraps and measures a block before it sets the block's font size and style, so the break check reserves the height of the block in the font left by the previous block | Three prompts in categories "B", "A", "B"; page height 125, margin 15; text height equal to the font size. The heading "B" follows a body text (11 pt), so 11 is reserved at cursor 97 (97 + 11 <= 110). It is drawn in 16 pt and reaches 113, past the bottom margin at 110, although every block fits on a page | measure each block in its own font, so that a block that fits on a page never crosses the bottom margin | not executed; medium (the overflow is the font-size difference, a few millimetres on a real page) | PdfExport.StaleFontOverflows | PdfExport.CorrectedExportInside |
