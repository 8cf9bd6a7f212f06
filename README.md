# Lineage: Ancestral Legacies — a verified model of the game's sequential cores

Lineage: Ancestral Legacies is a Unity colony game (C#) with a small Python bridge that
lets a remote caller run whitelisted shell commands on the host. This project models, in
Dafny, the parts of both that can be stated without the engine, and proves what the code
promises about them:

- the command bridge: the whitelist and the `/command` handler of `command_server.py`
  (`command_server.dfy`), and the path translators, listing sort and exit codes of
  `ai-connector/connector.py` (`connector.dfy`);
- the containers: inventory with a total capacity (`inventory.dfy`), check-then-consume
  crafting (`crafting.dfy`), per-slot equipment (`equipment.dfy`,
  `advanced_equipment.dfy`);
- quests: objectives and quests as values (`objective.dfy`, `quest.dfy`) and their
  repository (`quest_repository.dfy`);
- the indexed repositories for items, entity templates and stats, each a primary map with
  secondary indices whose invariant the operations keep (`item.dfy`, `item_repository.dfy`,
  `entity_repository.dfy`, `stat.dfy`, `stat_collection.dfy`, `stat_repository.dfy`);
- stat, modifier, health, buff and skill arithmetic (`utility_structs.dfy`, `buff.dfy`,
  `skill_repository.dfy`, `database.dfy`, `entity_data_component.dfy`);
- the small game-state machines: calendar (`time_manager.dfy`), resource stock
  (`resource_manager.dfy`, `settlement_manager.dfy`), harvest and regrowth
  (`resource_node.dfy`) and need decay (`needs.dfy`);
- the two debug-console command-line parsers, with their history, log and suggestions
  (`console_common.dfy`, `console_scrapped.dfy`, `console_parser.dfy`).

`text.dfy`, `seqs.dfy`, `list_store.dfy`, `map_sum.dfy` and `wrappers.dfy` hold the
string, sequence, list and map helpers the models share.

Conventions. C# structs are values: they are datatypes, and a "mutating" struct method is
a function from the old value to the new one. A class whose fields the code updates is a
Dafny class with those fields and `modifies` clauses; its lists and dictionaries are `seq`
and `map` fields. `float` is `real`, `Mathf.Clamp` an explicit comparison, and `ToLower` /
`OrdinalIgnoreCase` in the C# code and Python's `str.lower()` in the bridge are ASCII case
folding (`Text.ToLower`): letters outside A to Z keep their case. White space is .NET's `Char.IsWhiteSpace` set in
the C# code and Python's `str.strip()` set (the same plus U+001C to U+001F) in the bridge.
The clock, randomness, Unity lookups, the selected entity, `float.TryParse` and the shell
are parameters of the operations that use them.

Three facts about the bridge are worth stating up front:

- `ai-connector/connector.py` sends an `X-API-Key` header with every request
  (connector.py:16-22), and `command_server.py` never reads any header
  (`CommandServer.HeadersIgnored`);
- `check=True` (command_server.py:50-56) turns a command that exits non-zero into a 500
  reply carrying its output (`CommandServer.AllowedCommandOutcome`);
- `connector.py` exits 1 for a placeholder configuration, a failed connection check, or an
  exception other than a network error escaping a request branch (a 200 reply without a
  key it indexes), and 0 for an answered request even when the server replied with an
  error status (connector.py:169-234, `Connector.ExitCode`).

Some structs are defined twice, in `Assets/Scripts/Systems/Data/Database.cs` and in the
`Assets/Scripts/Systems/Data/Database/` files, and the model has one of each:

- `Health` is defined identically in `Database.cs` and `UtilityStructs.cs`; the model's
  `UtilityStructs.Health` rows cite `Database.cs`;
- `StatModifiers` in `Database.cs:198` (flat and percentage fields only) and the one in
  `UtilityStructs.cs:199` (with a multiplier as well) are merged into
  `UtilityStructs.StatModifiers`, which is also the type of the model's
  `LevelingSystem.modifiers` field (`Database.cs:1148`), where the two definitions are in
  the same namespace;
- `Stat` in `Database.cs:938` is merged into `Stats.Stat`.

## Model

| member | source | states |
|---|---|---|
| CommandServer.FirstAllowing | command_server.py:21-24 | the scan returns true iff some whitelist entry is a prefix of the stripped command |
| CommandServer.IsCommandAllowed | command_server.py:17-24 | an allowed command strips to at least five characters, the length of the shortest whitelist entry |
| CommandServer.AllowedIffSomePrefix | command_server.py:17-24 | `is_command_allowed(c)` holds iff some entry of `ALLOWED_COMMANDS` is a prefix of `c.strip()`, where Python's strip removes the Unicode white space and U+001C to U+001F |
| CommandServer.StripPadded | command_server.py:22 | `strip()` removes exactly the spaces around a core that neither starts nor ends with one |
| CommandServer.StripOfClean | command_server.py:22 | a string with no space at either end is its own strip |
| CommandServer.StripEdges | command_server.py:22 | a non-empty strip neither starts nor ends with a space, and stripping is idempotent |
| CommandServer.StripIsTrim | command_server.py:22 | around a core, padding of .NET white space is removed alike by Python's strip and .NET's Trim |
| CommandServer.Occurs | command_server.py:33 | Python's substring test: true iff `p` is a prefix of some suffix of `s` |
| CommandServer.HasCommandKey | command_server.py:33 | `'command' in data` is a key test on an object and raises (`None`) exactly on null, booleans and numbers |
| CommandServer.Handle | command_server.py:27-75 | 400 with the fixed error iff the body is falsy or the key test finds no "command"; an uncaught 500 with nothing run iff the body gets past that but is not an object whose "command" is a string (the key test, the subscript or `strip()` raises outside the `try`); for a string command, 403 iff it is not allowed, echoing it and running nothing; the shell only ever receives an allowed string command, unstripped; only 400, 403, 200 and 500 occur |
| CommandServer.MalformedBodies | command_server.py:30-39 | null, 0 and "abc" give 400; the bodies 5, "xcommandx", ["command"], {"command": null} and {"command": 5} make the handler raise, so Flask answers 500 and nothing runs |
| CommandServer.AllowedCommandOutcome | command_server.py:45-75 | exit 0 gives 200 with {command, stdout, stderr}; a non-zero exit gives 500 with the fixed error text, the command, stdout and stderr; any other exception gives 500 with its message |
| CommandServer.HeadersIgnored | command_server.py:27-75 | two requests with the same body get the same reply: no header (credential) is ever consulted |
| CommandServer.RefusedByFirstChar | command_server.py:10-24 | a stripped command whose first character is not `g`, `l` or `e` is refused by the shipped whitelist |
| CommandServer.ArgumentsMayFollow | command_server.py:10-22 | "git status --short" is allowed: arguments may follow a whitelisted prefix |
| CommandServer.SurroundingBlanksStripped | command_server.py:14-22 | "  echo Hello  " is allowed: the command is stripped before matching |
| CommandServer.OtherCommandsRefused | command_server.py:10-24 | "rm -rf /" is refused |
| CommandServer.NotWordBounded | command_server.py:22 | "ls -lart" and "git pulldown" are allowed: the match stops at no word boundary |
| CommandServer.CaseSensitive | command_server.py:22 | every command that strips to text starting with an upper-case letter (such as "GIT STATUS") is refused: the match is case-sensitive and every entry starts in lower case |
| CommandServer.UnicodeBlanksStripped | command_server.py:22 | a leading no-break space and a trailing ideographic space are stripped, so "git status" between them is allowed |
| CommandServer.SeparatorStripped | command_server.py:22 | a leading U+001F is stripped by Python, so "\U{1F}ls -l" is allowed, though .NET's Trim would keep it |
| Connector.ToWindowsPath | ai-connector/connector.py:25-30 | a path starting with "/" gains the "C:" drive, is two characters longer, holds no "/" afterwards and keeps every other character in place; any other path is returned unchanged |
| Connector.ToWindowsIdempotent | ai-connector/connector.py:28-31 | translating an already translated path changes nothing |
| Connector.FromWindowsPath | ai-connector/connector.py:32-38 | the result holds no "\"; with a ":" it starts with "/" and keeps, in place, every character after the first ":" other than "\"; without one it has the same length and keeps every non-"\" character in place; in both cases each "\" becomes "/" at its place |
| Connector.RoundTripDoublesSlash | ai-connector/connector.py:25-38 | for a path starting with "/" and holding no "\", translating there and back gives "/" + path, so the pair is not an inverse |
| Connector.RoundTripExample | ai-connector/connector.py:25-38 | "/a" becomes "C:\a" and comes back as "//a" |
| Connector.CommandPayload | ai-connector/connector.py:40-47 | the payload holds the command, and a translated "cwd" exactly when a non-empty cwd was given |
| Connector.CommandOutput | ai-connector/connector.py:59-66 | a 200 reply shows stdout, followed by the stderr marker and stderr only when stderr is non-empty |
| Connector.WriteFilePayload | ai-connector/connector.py:92-100 | the write request carries the content unchanged and the translated path (a "C:" path for a Linux path) |
| Connector.ListDirectoryUrl | ai-connector/connector.py:118-125 | the listing URL gets a "?path=" query with the translated path only for a non-empty path |
| Connector.SortEntries | ai-connector/connector.py:139 | the sorted listing is a permutation of the contents, ordered by the key (directories first, then ASCII-lower-cased name; see "## Left out") |
| Connector.DirectoriesFirst | ai-connector/connector.py:139 | in the sorted listing every directory comes before every file |
| Connector.NamesOrderedWithinKind | ai-connector/connector.py:139 | among entries of the same kind the ASCII-lower-cased names are in lexicographic order |
| Connector.SizeColumn | ai-connector/connector.py:143 | the size column is empty iff the entry's size is None |
| Connector.ListingText | ai-connector/connector.py:130-145 | the listing text starts with the two header lines naming the path translated back to Linux form |
| Connector.EntryLineIsOneLine | ai-connector/connector.py:141-144 | an entry whose name holds no line break is printed as one line: it starts with "  [" and ends with its only line break |
| Connector.LinesConcat | ai-connector/connector.py:141-144 | the lines of two entry lists one after the other are the lines of the first followed by those of the second |
| Connector.LinesCount | ai-connector/connector.py:141-144 | entries without line breaks in their names print exactly one line each |
| Connector.LinesAt | ai-connector/connector.py:141-144 | the `i`-th entry's line sits between the lines of the entries before it and those after it |
| Connector.ListingLineAt | ai-connector/connector.py:130-145 | the listing is the header followed by the sorted entries' lines: the `i`-th sorted entry's line follows the header and the lines of the sorted entries before it |
| Connector.HeaderIsTwoLines | ai-connector/connector.py:134-136 | the header is two lines when the shown path holds no line break |
| Connector.SortedNamesFromReply | ai-connector/connector.py:139 | every sorted entry comes from the reply, so a property of all reply names holds of all listed names |
| Connector.ListingLineCount | ai-connector/connector.py:130-145 | with no line break in the shown path or in any name, the listing has exactly the two header lines plus one line per entry of the reply |
| Connector.ChooseAction | ai-connector/connector.py:183-232 | the placeholder check comes first, then the connection check (no arguments or --check), then the first truthy option in the order --cmd, --read, --write with --content, --list (where "." means the root, no path), and help only when none applies; each branch carries the argument it was chosen by |
| Connector.ExitCode | ai-connector/connector.py:169-234 | `main` returns 1 iff the configuration still holds a placeholder, the connection check (no arguments or --check) failed, or a request branch let an exception other than a network error escape; otherwise 0, and always 0 after printing help |
| Connector.ShippedExitCodes | ai-connector/connector.py:183-234 | with the shipped host and key, the placeholder check never fires: 1 comes only from a failed connection check or from an exception escaping the --cmd, --read, --write or --list branch; an answered request exits 0 whatever its status |
| Connector.ListDefaultIsRoot | ai-connector/connector.py:222-226 | `--list` given as "." lists the workspace root, with no query string |
| MapSum.SumValues | Assets/Scripts/Systems/Inventory/InventoryComponent.cs:87-95 | the summing loop over the dictionary's entries returns the sum of all counts, whatever order it visits them in |
| Inventory.CountOf | Assets/Scripts/Systems/Inventory/InventoryComponent.cs:63-69 | the stored count for a present item and 0 for an absent one |
| Inventory.AfterRemove | Assets/Scripts/Systems/Inventory/InventoryComponent.cs:40-51 | a refused removal (absent item, or fewer than `count`) changes nothing; otherwise only the item's count changes, it falls by exactly `count`, the entry stays only while the count is positive, the total falls by `count`, and positive counts stay positive |
| Inventory.AddThenRemoveRestores | Assets/Scripts/Systems/Inventory/InventoryComponent.cs:18-51 | a successful `AddItem(id, n)` followed by `RemoveItem(id, n)` gives back the original dictionary (when the entry was absent or positive) |
| Inventory.RemoveLowersTotal | Assets/Scripts/Systems/Inventory/InventoryComponent.cs:40-51 | with non-negative counts, removal keeps counts non-negative and never raises the total |
| Inventory.AddKeepsPositive | Assets/Scripts/Systems/Inventory/InventoryComponent.cs:18-28 | adding a positive count keeps every entry positive |
| Inventory.RemoveKeepsPositive | Assets/Scripts/Systems/Inventory/InventoryComponent.cs:45-48 | removal never leaves an entry with a count of 0 or below |
| Inventory.InventoryComponent.constructor | Assets/Scripts/Systems/Inventory/InventoryComponent.cs:12-13 | a new inventory has capacity 10 and no items |
| Inventory.InventoryComponent.GetTotalItemCount | Assets/Scripts/Systems/Inventory/InventoryComponent.cs:87-95 | the total is the sum of all counts |
| Inventory.InventoryComponent.AddItem | Assets/Scripts/Systems/Inventory/InventoryComponent.cs:18-28 | fails and changes nothing iff total + count exceeds the capacity; on success only that item's count rises, by `count`, and the total rises by `count`; total ≤ capacity is kept for non-negative counts |
| Inventory.InventoryComponent.RemoveItem | Assets/Scripts/Systems/Inventory/InventoryComponent.cs:40-51 | succeeds iff the item is present with at least `count`; the new dictionary is the old one with the count lowered and a non-positive entry deleted; the invariant is kept for non-negative counts |
| Inventory.InventoryComponent.GetItemCount | Assets/Scripts/Systems/Inventory/InventoryComponent.cs:63-69 | 0 for an absent item, the stored count otherwise |
| Inventory.InventoryComponent.IsInventoryFull | Assets/Scripts/Systems/Inventory/InventoryComponent.cs:100-103 | full iff the total is at least the capacity |
| Inventory.InventoryComponent.ClearInventory | Assets/Scripts/Systems/Inventory/InventoryComponent.cs:108-111 | the dictionary becomes empty, so the total is 0; the capacity is unchanged |
| Crafting.ConsumeDistinct | Assets/Scripts/Systems/Crafting/CraftingComponent.cs:42-45 | when the check passed and the ingredients name distinct items, each ingredient's count drops by exactly its quantity and every other item keeps its count |
| Crafting.RepeatedIngredientConsumedOnce | Assets/Scripts/Systems/Crafting/CraftingComponent.cs:24-45 | a recipe listing the same item twice passes the per-entry check, but the second removal finds too few and is silently skipped (3 items, two entries of 2: one item is left) |
| Crafting.ResultMayNotFit | Assets/Scripts/Systems/Crafting/CraftingComponent.cs:42-48 | the check covers only the ingredients: with 10 of item 1 and a capacity of 10, a recipe taking 2 of item 1 for 3 of item 2 consumes the ingredient, leaving 8, and the result does not fit and is lost |
| Crafting.CraftingComponent.CanCraft | Assets/Scripts/Systems/Crafting/CraftingComponent.cs:24-32 | true iff for every ingredient entry the inventory count is at least its quantity |
| Crafting.CraftingComponent.PerformCraft | Assets/Scripts/Systems/Crafting/CraftingComponent.cs:37-49 | returns true iff `CanCraft` passed; on failure the inventory is unchanged; on success each ingredient is removed in turn and the result item then added under the capacity rule, even if that add fails |
| Equipment.CapacityMap | Assets/Scripts/Systems/Inventory/EquipmentComponent.cs:18-25 | the configured slots are exactly the slots named in the list |
| Equipment.CapacityMapLastWins | Assets/Scripts/Systems/Inventory/EquipmentComponent.cs:21-24 | when a slot is listed several times, its last entry decides the capacity |
| Equipment.EquipmentComponent.constructor | Assets/Scripts/Systems/Inventory/EquipmentComponent.cs:12-13 | a new component has no configured slots and nothing equipped |
| Equipment.EquipmentComponent.ConfigureSlots | Assets/Scripts/Systems/Inventory/EquipmentComponent.cs:18-25 | the whole capacity map is replaced by the one built from the list; equipped items are untouched |
| Equipment.EquipmentComponent.EquipItem | Assets/Scripts/Systems/Inventory/EquipmentComponent.cs:30-43 | fails for an unconfigured slot (nothing changes) or a slot already holding `capacity` items (an empty list may be created); on success the item is appended to its slot's list and no other slot changes; per-slot count ≤ capacity is kept |
| Equipment.EquipmentComponent.UnequipItem | Assets/Scripts/Systems/Inventory/EquipmentComponent.cs:48-55 | removes the first equal item from its slot's list and returns whether there was one; the capacity invariant is kept |
| Equipment.EquipmentComponent.GetEquippedItems | Assets/Scripts/Systems/Inventory/EquipmentComponent.cs:57-60 | a never-used slot gives the empty list; a non-empty list is within its slot's capacity |
| AdvancedEquipment.CanEquipInSlot | Assets/Scripts/Systems/Inventory/AdvancedEquipmentComponent.cs:88-91 | true iff some entry of `allowedSlots` names the slot |
| AdvancedEquipment.GetSlotCapacity | Assets/Scripts/Systems/Inventory/AdvancedEquipmentComponent.cs:96-100 | 0 (the zero struct's capacity) for a slot the profile does not list; otherwise the capacity of the first entry naming the slot |
| AdvancedEquipment.CapacityAtFirstEntry | Assets/Scripts/Systems/Inventory/AdvancedEquipmentComponent.cs:88-100 | the lookup answers with an entry's capacity when it is the first entry for its slot |
| AdvancedEquipment.AnimalProfile | Assets/Scripts/Systems/Inventory/AdvancedEquipmentComponent.cs:45-56 | the default Animal profile allows exactly Neck and Accessory, with capacity 1 each |
| AdvancedEquipment.HumanoidRings | Assets/Scripts/Systems/Inventory/AdvancedEquipmentComponent.cs:33-41 | the default Humanoid profile gives Ring capacity 2 |
| AdvancedEquipment.HumanoidWeapons | Assets/Scripts/Systems/Inventory/AdvancedEquipmentComponent.cs:33-41 | the default Humanoid profile gives Weapon capacity 2 |
| AdvancedEquipment.HumanoidProfile | Assets/Scripts/Systems/Inventory/AdvancedEquipmentComponent.cs:26-44 | the Humanoid default profile allows the head and has two ring and two weapon places |
| AdvancedEquipment.DefaultProfileKinds | Assets/Scripts/Systems/Inventory/AdvancedEquipmentComponent.cs:24-83 | exactly Humanoid, Animal, Construct and Undead have a default profile, each tagged with its own kind |
| AdvancedEquipment.DuplicateSlotDisagreement | Assets/Scripts/Systems/Inventory/AdvancedEquipmentComponent.cs:96-100 | a profile listing a slot twice answers the first capacity through `GetSlotCapacity` and the last through the capacity dictionary |
| AdvancedEquipment.AdvancedEquipmentComponent.constructor | Assets/Scripts/Systems/Inventory/AdvancedEquipmentComponent.cs:108-116 | a new component holds the given profile, kind and flag, and nothing equipped |
| AdvancedEquipment.AdvancedEquipmentComponent.InitializeEquipmentProfile | Assets/Scripts/Systems/Inventory/AdvancedEquipmentComponent.cs:134-157 | with the flag set and a default for the kind, the default profile is taken; then exactly the allowed slots get an empty list |
| AdvancedEquipment.AdvancedEquipmentComponent.SetEntityType | Assets/Scripts/Systems/Inventory/AdvancedEquipmentComponent.cs:272-276 | records the new kind and re-initialises profile and slot lists: the default profile of the kind when asked for and known, the old profile otherwise; exactly the allowed slots get a list, and every list is empty, so all equipped items are dropped; the default-profile flag and the equipment log are kept |
| AdvancedEquipment.AdvancedEquipmentComponent.EquipItem | Assets/Scripts/Systems/Inventory/AdvancedEquipmentComponent.cs:162-193 | succeeds iff `CanEquip` held; a disallowed slot changes nothing; on success the slot list and `currentEquipment` each gain exactly that one entry; the profile capacities stay respected |
| AdvancedEquipment.AdvancedEquipmentComponent.CanEquip | Assets/Scripts/Systems/Inventory/AdvancedEquipmentComponent.cs:237-241 | an item can be equipped only in a slot the profile allows, and only when that slot has a positive capacity |
| AdvancedEquipment.AdvancedEquipmentComponent.UnequipItem | Assets/Scripts/Systems/Inventory/AdvancedEquipmentComponent.cs:198-211 | removes the first equal item from its slot list and, only if one was removed, every `currentEquipment` entry with that item id; returns whether one was removed |
| AdvancedEquipment.AdvancedEquipmentComponent.GetEquippedItems | Assets/Scripts/Systems/Inventory/AdvancedEquipmentComponent.cs:216-219 | empty for a slot without a list; a non-empty list is within the slot's profile capacity |
| AdvancedEquipment.AdvancedEquipmentComponent.GetSlotCapacities | Assets/Scripts/Systems/Inventory/AdvancedEquipmentComponent.cs:259-267 | the keys are exactly the allowed slots, and later duplicates overwrite earlier ones |
| Objectives.NewObjective | Assets/Scripts/Systems/Data/Database/Quests/ObjectiveStruct.cs:59-74 | a new objective has progress 0 and is not completed; with a positive target all of it remains and it is not partially done |
| Objectives.Objective.UpdateProgress | Assets/Scripts/Systems/Data/Database/Quests/ObjectiveStruct.cs:81-94 | a completed objective is left alone and reports false; otherwise it reports true exactly when progress reaches the target, then sits at the target completed; below the target only the progress grows |
| Objectives.Objective.CompleteObjective | Assets/Scripts/Systems/Data/Database/Quests/ObjectiveStruct.cs:99-103 | the objective becomes completed at its target, with nothing remaining |
| Objectives.Objective.ResetObjective | Assets/Scripts/Systems/Data/Database/Quests/ObjectiveStruct.cs:108-112 | progress returns to 0 and the objective is open again |
| Objectives.Objective.RemainingProgress | Assets/Scripts/Systems/Data/Database/Quests/ObjectiveStruct.cs:122 | never negative; 0 exactly when progress reached the target; otherwise progress plus remainder is the target |
| Objectives.Objective.ProgressPercentage | Assets/Scripts/Systems/Data/Database/Quests/ObjectiveStruct.cs:117 | 0 for a non-positive target; within [0,1] for progress within the target, and 1 at the target |
| Objectives.MutatorsKeepConsistent | Assets/Scripts/Systems/Data/Database/Quests/ObjectiveStruct.cs:81-112 | "completed implies progress equals target" is preserved by `UpdateProgress`, `CompleteObjective` and `ResetObjective` |
| Objectives.UpdateProgressMeaning | Assets/Scripts/Systems/Data/Database/Quests/ObjectiveStruct.cs:81-94 | an update that reports completion leaves nothing remaining; one that does not leaves an open objective open |
| Objectives.PartialIsOpen | Assets/Scripts/Systems/Data/Database/Quests/ObjectiveStruct.cs:127 | a consistent, partially completed objective is not completed and has progress left |
| Objectives.CompletedIgnoresUpdates | Assets/Scripts/Systems/Data/Database/Quests/ObjectiveStruct.cs:83 | after an update completed the objective, a further update changes nothing and reports false |
| Objectives.DifficultyMultiplier | Assets/Scripts/Systems/Data/Database/Quests/ObjectiveStruct.cs:137-151 | the multiplier is at least 1, and exactly 1 for Easy only |
| Objectives.MultiplierIncreasing | Assets/Scripts/Systems/Data/Database/Quests/ObjectiveStruct.cs:141-149 | a harder difficulty pays a strictly larger multiplier |
| Quests.NewQuest | Assets/Scripts/Systems/Data/Database/Quests/QuestStruct.cs:78-89 | a new quest is NotStarted at 0 percent, can start, has no objectives, type GatherResources and no experience reward |
| Quests.Quest.StartQuest | Assets/Scripts/Systems/Data/Database/Quests/QuestStruct.cs:94-100 | NotStarted or Available moves to InProgress; any other status leaves the quest unchanged |
| Quests.Quest.CompleteQuest | Assets/Scripts/Systems/Data/Database/Quests/QuestStruct.cs:105-109 | from any status the quest becomes Completed at 100 percent |
| Quests.Quest.FailQuest | Assets/Scripts/Systems/Data/Database/Quests/QuestStruct.cs:114-117 | the quest becomes Failed, so it has failed; nothing else changes |
| Quests.Quest.AbandonQuest | Assets/Scripts/Systems/Data/Database/Quests/QuestStruct.cs:122-125 | the quest becomes Abandoned, so it has failed; nothing else changes |
| Quests.StatusPredicatesExclusive | Assets/Scripts/Systems/Data/Database/Quests/QuestStruct.cs:157-172 | `CanStart`, `IsActive`, `IsCompleted` and `HasFailed` are pairwise exclusive |
| Quests.TransitionsLandInOneState | Assets/Scripts/Systems/Data/Database/Quests/QuestStruct.cs:94-117 | a startable quest becomes active and no longer startable; completing or failing it then leaves it completed or failed and no longer active |
| Quests.CountCompletedAll | Assets/Scripts/Systems/Data/Database/Quests/QuestStruct.cs:138-143 | the counting loop counts every objective exactly when every objective is completed |
| Quests.CompletionPercent | Assets/Scripts/Systems/Data/Database/Quests/QuestStruct.cs:132-145 | the stored percentage always lies in [0,100] |
| Quests.CompletionPercentFull | Assets/Scripts/Systems/Data/Database/Quests/QuestStruct.cs:145-148 | the percentage is 100 iff there is at least one objective and all are completed |
| Quests.PercentBelowFull | Assets/Scripts/Systems/Data/Database/Quests/QuestStruct.cs:145 | `completed * 100 / count` in integer division is 100 exactly when every objective is completed |
| Quests.UpdateCompletionPercentage | Assets/Scripts/Systems/Data/Database/Quests/QuestStruct.cs:130-152 | stores the percentage, in [0,100], which is 100 iff all of at least one objective are done; an InProgress quest at 100 becomes Completed, any other status is left alone |
| QuestRepositories.DefaultsWellFormed | Assets/Scripts/Systems/Data/Database/Quests/QuestRepository.cs:271-293 | the default quests and objectives have unique IDs; every default quest can start and every default objective is open with no progress |
| QuestRepositories.QuestRepository.constructor | Assets/Scripts/Systems/Data/Database/Quests/QuestRepository.cs:13-14 | both lists start empty |
| QuestRepositories.QuestRepository.GetQuestByID | Assets/Scripts/Systems/Data/Database/Quests/QuestRepository.cs:23-26 | the first quest with the ID, or the default quest when none has it |
| ListStore.Filter | Assets/Scripts/Systems/Data/Database/Quests/QuestRepository.cs:33-36 | the `Where(...).ToList()` result holds only elements of the list that satisfy the test, holds every such element, and keeps their order (a subsequence of the list) |
| ListStore.FilterConcat | Assets/Scripts/Systems/Data/Database/Quests/QuestRepository.cs:33-36 | filtering a concatenation is the concatenation of the filtered parts |
| ListStore.FilterSingleton | Assets/Scripts/Systems/Data/Database/Quests/QuestRepository.cs:33-36 | a one-element list is kept exactly when its element passes the test; with `FilterConcat` this fixes the result uniquely |
| ListStore.FilterCounts | Assets/Scripts/Systems/Data/Database/Quests/QuestRepository.cs:33-36 | every element that passes is kept as many times as it occurs, every other is dropped |
| QuestRepositories.QuestRepository.GetQuestsByStatus | Assets/Scripts/Systems/Data/Database/Quests/QuestRepository.cs:33-36 | exactly the quests with that status, drawn from the list, kept in list order (a subsequence of the list) |
| QuestRepositories.QuestRepository.QuestsByStatusAfterAppend | Assets/Scripts/Systems/Data/Database/Quests/QuestRepository.cs:33-36 | a quest appended to the list comes last among the quests of its status, after every quest listed before, and changes no other status's result |
| QuestRepositories.QuestRepository.GetQuestsByType | Assets/Scripts/Systems/Data/Database/Quests/QuestRepository.cs:43-46 | exactly the quests of that type (also `GetMainQuests` and `GetSideQuests`), kept in list order (a subsequence of the list) |
| QuestRepositories.QuestRepository.GetActiveQuests | Assets/Scripts/Systems/Data/Database/Quests/QuestRepository.cs:52-55 | exactly the InProgress quests, kept in list order (a subsequence of the list) |
| QuestRepositories.QuestRepository.GetCompletedQuests | Assets/Scripts/Systems/Data/Database/Quests/QuestRepository.cs:61-64 | exactly the Completed and TurnedIn quests, kept in list order (a subsequence of the list) |
| QuestRepositories.QuestRepository.GetAvailableQuests | Assets/Scripts/Systems/Data/Database/Quests/QuestRepository.cs:70-73 | exactly the Available and NotStarted quests, kept in list order (a subsequence of the list) |
| QuestRepositories.QuestRepository.AddOrUpdateQuest | Assets/Scripts/Systems/Data/Database/Quests/QuestRepository.cs:97-108 | replaces the first quest with the same ID in place (length unchanged) or appends; unique IDs stay unique and the quest is then found by its ID |
| QuestRepositories.QuestRepository.RemoveQuest | Assets/Scripts/Systems/Data/Database/Quests/QuestRepository.cs:115-118 | returns true iff some quest had the ID, and removes all of them, keeping the others in order |
| QuestRepositories.QuestRepository.StartQuest | Assets/Scripts/Systems/Data/Database/Quests/QuestRepository.cs:125-136 | false and nothing changes when the quest is missing or cannot start; otherwise only that entry becomes InProgress |
| QuestRepositories.QuestRepository.CompleteQuest | Assets/Scripts/Systems/Data/Database/Quests/QuestRepository.cs:143-154 | true iff the ID is found; only that entry becomes Completed at 100 percent |
| QuestRepositories.QuestRepository.FailQuest | Assets/Scripts/Systems/Data/Database/Quests/QuestRepository.cs:161-172 | true iff the ID is found; only that entry becomes Failed |
| QuestRepositories.QuestRepository.GetObjectiveByID | Assets/Scripts/Systems/Data/Database/Quests/QuestRepository.cs:181-184 | the first objective with the ID, or the default objective |
| QuestRepositories.QuestRepository.GetObjectivesByDifficulty | Assets/Scripts/Systems/Data/Database/Quests/QuestRepository.cs:191-194 | exactly the objectives of that difficulty, kept in list order (a subsequence of the list) |
| QuestRepositories.QuestRepository.GetCompletedObjectives | Assets/Scripts/Systems/Data/Database/Quests/QuestRepository.cs:200-203 | only completed objectives of the list, kept in list order (a subsequence of the list) |
| QuestRepositories.QuestRepository.GetIncompleteObjectives | Assets/Scripts/Systems/Data/Database/Quests/QuestRepository.cs:209-212 | only open objectives of the list, kept in list order (a subsequence of the list) |
| QuestRepositories.QuestRepository.ObjectivesPartition | Assets/Scripts/Systems/Data/Database/Quests/QuestRepository.cs:200-212 | completed and incomplete objectives together are exactly the list, element for element |
| QuestRepositories.QuestRepository.AddOrUpdateObjective | Assets/Scripts/Systems/Data/Database/Quests/QuestRepository.cs:218-229 | replaces the first objective with the same ID or appends; unique IDs stay unique and the objective is then found by its ID |
| QuestRepositories.QuestRepository.RemoveObjective | Assets/Scripts/Systems/Data/Database/Quests/QuestRepository.cs:236-239 | returns true iff some objective had the ID, and removes all of them |
| QuestRepositories.QuestRepository.UpdateObjectiveProgress | Assets/Scripts/Systems/Data/Database/Quests/QuestRepository.cs:247-258 | false and nothing changes when no objective has the ID; otherwise the first match's `UpdateProgress` result is returned and its updated copy written back at the same index |
| QuestRepositories.QuestRepository.Initialize | Assets/Scripts/Systems/Data/Database/Quests/QuestRepository.cs:265-293 | both lists are replaced by the five defaults each, with unique IDs |
| Items.RarityRank | Assets/Scripts/Systems/Data/Database/Items/ItemStruct.cs:112-126 | the rarity's position in declaration order, below 8 |
| Items.GetDefaultValue | Assets/Scripts/Systems/Data/Database/Items/ItemStruct.cs:112-126 | every rarity's default value is at least 1 |
| Items.DefaultValueIncreasing | Assets/Scripts/Systems/Data/Database/Items/ItemStruct.cs:112-126 | the default value is strictly increasing in rarity order from Broken to Artifact (both directions) |
| Items.NewItem | Assets/Scripts/Systems/Data/Database/Items/ItemStruct.cs:80-107 | a new item has quantity 1, stack size 1 (so it cannot stack) and Good quality, no tags, base and current value equal to `GetDefaultValue(rarity)`; consumable iff of type Consumable, quest item iff of type QuestItem |
| Items.Item.AddQuantity | Assets/Scripts/Systems/Data/Database/Items/ItemStruct.cs:133-142 | a non-stackable item or a non-positive amount hands the whole amount back unchanged; otherwise min(amount, room) is added; leftover plus new quantity equals old quantity plus amount, and quantity ≤ max stack is preserved |
| Items.Item.CanStack | Assets/Scripts/Systems/Data/Database/Items/ItemStruct.cs:73 | an item stacks exactly when its stack holds at least two |
| Items.Item.IsStackFull | Assets/Scripts/Systems/Data/Database/Items/ItemStruct.cs:74 | a stack at its maximum is full, and one that is not full has room for at least one more |
| Items.Item.RemoveQuantity | Assets/Scripts/Systems/Data/Database/Items/ItemStruct.cs:149-156 | removes and returns min(amount, quantity) for a positive amount and 0 otherwise; a non-negative quantity stays non-negative |
| Items.Item.AddTag | Assets/Scripts/Systems/Data/Database/Items/ItemStruct.cs:252-262 | afterwards the item has the tag iff it is non-empty; other tags are unaffected; an empty or present tag changes nothing, otherwise it is appended |
| Items.Item.RemoveTag | Assets/Scripts/Systems/Data/Database/Items/ItemStruct.cs:269-274 | returns whether the tag was present; if so only its first occurrence is removed, otherwise nothing changes |
| Items.AddRemoveQuantityInverse | Assets/Scripts/Systems/Data/Database/Items/ItemStruct.cs:133-156 | adding an amount that fits leaves nothing over, and removing the same amount gives the original stack back |
| Items.CombineTakesSome | Assets/Scripts/Systems/Data/Database/Items/ItemStruct.cs:133-142 | a stack that can combine with a non-empty one takes at least one unit of it; the check is not symmetric: the other way round holds iff the other stack is not full |
| Items.TagRoundTrip | Assets/Scripts/Systems/Data/Database/Items/ItemStruct.cs:252-274 | `AddTag` never creates a duplicate; removing a freshly added tag gives the item back; on distinct tags a removed tag is gone |
| ItemRepositories.ExactAfterAdd | Assets/Scripts/Systems/Data/Database/Items/ItemRepository.cs:197-205 | appending a new item's ID under its type (rarity) keeps every list repeat-free and holding exactly the IDs of the items with that key |
| ItemRepositories.ExactAfterRemove | Assets/Scripts/Systems/Data/Database/Items/ItemRepository.cs:294-296 | removing a present item's ID from its key's list keeps the index exact for the remaining items |
| ItemRepositories.ExactAfterReplace | Assets/Scripts/Systems/Data/Database/Items/ItemRepository.cs:255-271 | moving a replaced item's ID to its new key's list (or leaving it when the key is unchanged) keeps the index exact |
| ItemRepositories.IndexAdd | Assets/Scripts/Systems/Data/Database/Items/ItemRepository.cs:418-440 | after tagging, the case-folded tag has a list holding the ID, no other list changes, nothing is lost, and an ID already listed leaves the index as it was |
| ItemRepositories.IndexRemove | Assets/Scripts/Systems/Data/Database/Items/ItemRepository.cs:299-304 | with a missing entry skipped: other tags' lists are untouched, the tag's list loses the ID, and a list left empty is dropped |
| ItemRepositories.IndexRemoveAsWritten | Assets/Scripts/Systems/Data/Database/Items/ItemRepository.cs:301-303 | the dictionary indexer throws exactly when the case-folded tag has no entry; otherwise the result is the corrected removal |
| ItemRepositories.AsWrittenAgrees | Assets/Scripts/Systems/Data/Database/Items/ItemRepository.cs:299-304 | when every tag of the item has an entry, the as-written tag loop does not throw and agrees with the corrected one |
| ItemRepositories.UnindexTagsClears | Assets/Scripts/Systems/Data/Database/Items/ItemRepository.cs:577-585 | after the removal pass no dropped tag's list holds the ID, lists stay repeat-free, and tags not dropped keep their lists |
| ItemRepositories.IndexTagsCovers | Assets/Scripts/Systems/Data/Database/Items/ItemRepository.cs:587-598 | after the adding pass every gained tag's list holds the ID exactly once and lists stay repeat-free |
| ItemRepositories.NamesAfterAdd | Assets/Scripts/Systems/Data/Database/Items/ItemRepository.cs:194-195 | adding a new item under its case-folded name keeps every name entry pointing at an item of that name |
| ItemRepositories.NamesAfterRemove | Assets/Scripts/Systems/Data/Database/Items/ItemRepository.cs:294 | dropping a deleted item's name entry leaves no entry pointing at it |
| ItemRepositories.NamesAfterReplace | Assets/Scripts/Systems/Data/Database/Items/ItemRepository.cs:248-253 | re-pointing a renamed item's entry keeps every name entry pointing at an item of that name |
| ItemRepositories.ItemStore.GetItem | Assets/Scripts/Systems/Data/Database/Items/ItemRepository.cs:216-219 | the stored item for a known ID, the default item for an unknown one |
| ItemRepositories.ItemStore.GetItemByName | Assets/Scripts/Systems/Data/Database/Items/ItemRepository.cs:226-231 | the default item for the empty or unknown name; otherwise a stored item whose name equals the argument ignoring case |
| ItemRepositories.EmptyStoreValid | Assets/Scripts/Systems/Data/Database/Items/ItemRepository.cs:16-22 | the initial (and cleared) state satisfies the repository invariant, with the counter at 1 and not initialised |
| ItemRepositories.CreateItemKeepsValid | Assets/Scripts/Systems/Data/Database/Items/ItemRepository.cs:174-209 | `CreateItem` keeps the invariant (names, type and rarity lists point at items; IDs below the counter) and never lowers the counter |
| ItemRepositories.CreateItemExisting | Assets/Scripts/Systems/Data/Database/Items/ItemRepository.cs:177-187 | the empty name returns the default item and a name already taken (ignoring case) returns the stored item of that name; the store is unchanged |
| ItemRepositories.CreateItemFresh | Assets/Scripts/Systems/Data/Database/Items/ItemRepository.cs:189-208 | a new name gets the counter's unused ID, the counter moves up by one, the item is found by ID and by name, and every earlier item is unchanged |
| ItemRepositories.UpdateItemKeepsValid | Assets/Scripts/Systems/Data/Database/Items/ItemRepository.cs:238-278 | `UpdateItem` keeps the invariant and the counter |
| ItemRepositories.UpdateItemOutcome | Assets/Scripts/Systems/Data/Database/Items/ItemRepository.cs:238-278 | refused exactly for an unknown ID, changing nothing; otherwise the item is replaced, other items are unchanged, a new name finds it and each gained tag's list holds it |
| ItemRepositories.DeleteItemKeepsValid | Assets/Scripts/Systems/Data/Database/Items/ItemRepository.cs:285-309 | `DeleteItem` keeps the invariant and the counter |
| ItemRepositories.DeleteItemOutcome | Assets/Scripts/Systems/Data/Database/Items/ItemRepository.cs:285-309 | refused exactly for an unknown ID; otherwise the ID leaves the items, no name maps to it, no list of its tags holds it and every other item is unchanged |
| ItemRepositories.AddTagKeepsValid | Assets/Scripts/Systems/Data/Database/Items/ItemRepository.cs:418-440 | `AddTagToItem` keeps the invariant and the counter |
| ItemRepositories.RemoveTagKeepsValid | Assets/Scripts/Systems/Data/Database/Items/ItemRepository.cs:456-473 | `RemoveTagFromItem` keeps the invariant and the counter |
| ItemRepositories.CounterNeverReused | Assets/Scripts/Systems/Data/Database/Items/ItemRepository.cs:21 | every ID lies below the counter; a creation that moves the counter takes its old value as a new, unused ID; the counter never decreases |
| ItemRepositories.CounterKept | Assets/Scripts/Systems/Data/Database/Items/ItemRepository.cs:238-473 | update, delete and the tag operations never move the counter, so only `ClearAll` lets an ID come back |
| ItemRepositories.AddTagOutcome | Assets/Scripts/Systems/Data/Database/Items/ItemRepository.cs:418-440 | refused exactly for an unknown ID or the empty tag; otherwise the item has the tag and the case-folded tag's list holds the ID |
| ItemRepositories.RemoveTagOutcome | Assets/Scripts/Systems/Data/Database/Items/ItemRepository.cs:456-473 | succeeds exactly when the item has the tag; then its first copy leaves the item and the ID leaves the tag's list |
| ItemRepositories.CaseVariantTagBreaksDelete | Assets/Scripts/Systems/Data/Database/Items/ItemRepository.cs:20 | creating "Sword", tagging it "Melee", then "melee", then removing "melee" leaves a valid store whose item keeps "Melee" with no list; as written, deleting it or removing "Melee" throws, and the corrected deletion succeeds |
| ItemRepositories.CaseVariantTagBreaksUpdate | Assets/Scripts/Systems/Data/Database/Items/ItemRepository.cs:574-584 | an item tagged "Melee" and "melee" (reached by creating "Sword" and tagging it twice) in a valid store, updated to have no tags: as written, the first dropped tag empties and deletes the shared list and the second throws; the corrected update succeeds |
| ItemRepositories.ItemRepository.constructor | Assets/Scripts/Systems/Data/Database/Items/ItemRepository.cs:16-22 | the static fields start empty with the counter at 1, not initialised |
| ItemRepositories.ItemRepository.CreateItem | Assets/Scripts/Systems/Data/Database/Items/ItemRepository.cs:174-209 | the fields and the returned item are those of `ItemStore.CreateItem`; the invariant holds and the counter does not go down |
| ItemRepositories.ItemRepository.UnindexItemTags | Assets/Scripts/Systems/Data/Database/Items/ItemRepository.cs:577-585 | the loop leaves the tag index equal to the removal pass over all the tags |
| ItemRepositories.ItemRepository.IndexItemTags | Assets/Scripts/Systems/Data/Database/Items/ItemRepository.cs:587-598 | the loop leaves the tag index equal to the adding pass over all the tags |
| ItemRepositories.ItemRepository.UpdateTagMappings | Assets/Scripts/Systems/Data/Database/Items/ItemRepository.cs:574-599 | the tag index after removing the dropped tags and then adding the gained ones |
| ItemRepositories.ItemRepository.UpdateItem | Assets/Scripts/Systems/Data/Database/Items/ItemRepository.cs:238-278 | the fields and result are those of `ItemStore.UpdateItem`, and the invariant is kept; a dropped tag whose list is already gone is skipped, where the code throws (`ItemStore.UpdateItemAsWritten`, Findings row 7) |
| ItemRepositories.ItemRepository.DeleteItem | Assets/Scripts/Systems/Data/Database/Items/ItemRepository.cs:285-309 | the fields and result are those of `ItemStore.DeleteItem` (missing tag entries skipped), and the invariant is kept |
| ItemRepositories.ItemRepository.AddTagToItem | Assets/Scripts/Systems/Data/Database/Items/ItemRepository.cs:418-440 | the fields and result are those of `ItemStore.AddTagToItem`, and the invariant is kept |
| ItemRepositories.ItemRepository.AddTagToItemByName | Assets/Scripts/Systems/Data/Database/Items/ItemRepository.cs:442-448 | refused for a name without an entry; otherwise `AddTagToItem` on the ID it maps to; the invariant is kept |
| ItemRepositories.ItemRepository.RemoveTagFromItem | Assets/Scripts/Systems/Data/Database/Items/ItemRepository.cs:456-473 | the fields and result are those of `ItemStore.RemoveTagFromItem` (missing tag entry skipped), and the invariant is kept |
| ItemRepositories.ItemRepository.ClearAll | Assets/Scripts/Systems/Data/Database/Items/ItemRepository.cs:529-538 | every map is empty, the counter is 1 and the repository is not initialised |
| EntityRepositories.AddToTypesCount | Assets/Scripts/Systems/Data/Database/Entities/EntityRepository.cs:239-245 | after the registration's type loop each existing list holds the ID once more per listing of its type; other entries are unchanged and no list is created |
| EntityRepositories.RemoveFromTypesCount | Assets/Scripts/Systems/Data/Database/Entities/EntityRepository.cs:298-304 | after the removal's type loop each existing list holds one copy fewer per listing of its type, down to none; other entries are unchanged |
| EntityRepositories.EveryTypeListed | Assets/Scripts/Systems/Data/Database/Entities/EntityRepository.cs:63-66 | `Initialize` gives every entity type an empty list |
| EntityRepositories.EntityStore.GetEntityByID | Assets/Scripts/Systems/Data/Database/Entities/EntityRepository.cs:328-331 | the stored template for a known ID, the default entity otherwise |
| EntityRepositories.EntityStore.GetEntityByName | Assets/Scripts/Systems/Data/Database/Entities/EntityRepository.cs:338-345 | the default entity for a case-folded name without an entry; otherwise a stored template whose name matches ignoring case |
| EntityRepositories.EntityStore.Initialize | Assets/Scripts/Systems/Data/Database/Entities/EntityRepository.cs:49-71 | a second call changes nothing; the first starts with no templates, an empty list per entity type, no factions, and sets the flag |
| EntityRepositories.EntityStore.CreateEntityTemplate | Assets/Scripts/Systems/Data/Database/Entities/EntityRepository.cs:208-218 | the new entity has the counter's ID, the given name, type list [type], faction, rarity Common, spawn chance 100 and level 1; only the counter moves, up by one |
| EntityRepositories.EntityStore.ClearAllTemplates | Assets/Scripts/Systems/Data/Database/Entities/EntityRepository.cs:470-479 | every map is empty (the type lists too), the counter is 1, and the initialised flag is untouched |
| EntityRepositories.ValidPassesValidation | Assets/Scripts/Systems/Data/Database/Entities/EntityRepository.cs:510-556 | the repository invariant implies what `ValidateRepository` checks |
| EntityRepositories.InitializeAndClearValid | Assets/Scripts/Systems/Data/Database/Entities/EntityRepository.cs:49-71 | initialising and clearing leave a valid store; clearing keeps the flag set; after a clear a registration joins no type list |
| EntityRepositories.RegisterKeepsValid | Assets/Scripts/Systems/Data/Database/Entities/EntityRepository.cs:225-256 | registering a new ID, or re-registering with the stored types and faction, keeps the invariant |
| EntityRepositories.RegisterKeepsTypes | Assets/Scripts/Systems/Data/Database/Entities/EntityRepository.cs:239-245 | a new registration keeps every type-list entry consistent with its template's types |
| EntityRepositories.RegisterKeepsFactions | Assets/Scripts/Systems/Data/Database/Entities/EntityRepository.cs:247-254 | a new registration keeps every faction-list entry consistent with its template's faction |
| EntityRepositories.RegisterOutcome | Assets/Scripts/Systems/Data/Database/Entities/EntityRepository.cs:233-256 | a new ID is stored and found by ID and by name, its ID joins each existing type list once per listing and its faction's list, other templates and the counter are unchanged |
| EntityRepositories.UpdateKeepsValid | Assets/Scripts/Systems/Data/Database/Entities/EntityRepository.cs:263-283 | an update that keeps types and faction keeps the invariant |
| EntityRepositories.UpdateOutcome | Assets/Scripts/Systems/Data/Database/Entities/EntityRepository.cs:227-231 | refused exactly for an unknown ID; otherwise the template is replaced, found under a new name, the type and faction lists and the counter untouched; a registration of a known ID is this update |
| EntityRepositories.RemoveKeepsValid | Assets/Scripts/Systems/Data/Database/Entities/EntityRepository.cs:290-317 | removal keeps the invariant |
| EntityRepositories.RemoveOutcome | Assets/Scripts/Systems/Data/Database/Entities/EntityRepository.cs:290-317 | refused exactly for an unknown ID; otherwise the ID leaves the templates, every type and faction list and the name map; other templates unchanged |
| EntityRepositories.RegisterThenRemove | Assets/Scripts/Systems/Data/Database/Entities/EntityRepository.cs:225-317 | registering a new ID then removing it restores the templates, the type lists up to order, the faction lists (bar an emptied new list) and, for a new name, the name map |
| EntityRepositories.TypesRoundTrip | Assets/Scripts/Systems/Data/Database/Entities/EntityRepository.cs:239-304 | the registration and removal type loops cancel up to order for an ID no list held |
| EntityRepositories.CreateThenRegister | Assets/Scripts/Systems/Data/Database/Entities/EntityRepository.cs:208-256 | a created-then-registered template is found by ID and by name, its type's list holds it, the counter moved by one and the store stays valid |
| EntityRepositories.TypeChangingUpdateFailsValidation | Assets/Scripts/Systems/Data/Database/Entities/EntityRepository.cs:263-283 | registering a Boss-typed template passes validation, and updating it to Minion makes validation fail, since updates leave type lists alone |
| EntityRepositories.EntityRepository.constructor | Assets/Scripts/Systems/Data/Database/Entities/EntityRepository.cs:16-21 | the fields before `Initialize`, with null maps read as empty (the code throws on them instead; see "## Left out") |
| EntityRepositories.EntityRepository.Initialize | Assets/Scripts/Systems/Data/Database/Entities/EntityRepository.cs:49-71 | the fields become those of `EntityStore.Initialize` |
| EntityRepositories.EntityRepository.CreateEntityTemplate | Assets/Scripts/Systems/Data/Database/Entities/EntityRepository.cs:208-218 | the fields and returned entity are those of `EntityStore.CreateEntityTemplate` |
| EntityRepositories.EntityRepository.AddToTypeLists | Assets/Scripts/Systems/Data/Database/Entities/EntityRepository.cs:239-245 | the loop leaves the type index equal to `AddToTypes` over all the types |
| EntityRepositories.EntityRepository.RemoveFromTypeLists | Assets/Scripts/Systems/Data/Database/Entities/EntityRepository.cs:298-304 | the loop leaves the type index equal to `RemoveFromTypes` over all the types |
| EntityRepositories.EntityRepository.AddToFactionList | Assets/Scripts/Systems/Data/Database/Entities/EntityRepository.cs:247-254 | a non-empty faction's list (created if missing) gains the ID; the empty faction changes nothing |
| EntityRepositories.EntityRepository.RemoveFromFactionList | Assets/Scripts/Systems/Data/Database/Entities/EntityRepository.cs:306-309 | a non-empty faction with a list loses the ID from it; otherwise nothing changes |
| EntityRepositories.EntityRepository.UpdateEntityTemplate | Assets/Scripts/Systems/Data/Database/Entities/EntityRepository.cs:263-283 | the fields and result are those of `EntityStore.UpdateEntityTemplate`; an update keeping types and faction keeps the invariant |
| EntityRepositories.EntityRepository.RegisterEntityTemplate | Assets/Scripts/Systems/Data/Database/Entities/EntityRepository.cs:225-256 | the fields and result are those of `EntityStore.RegisterEntityTemplate`; the invariant is kept for a new ID or unchanged types and faction |
| EntityRepositories.EntityRepository.RemoveEntityTemplate | Assets/Scripts/Systems/Data/Database/Entities/EntityRepository.cs:290-317 | the fields and result are those of `EntityStore.RemoveEntityTemplate`; the invariant is kept |
| EntityRepositories.EntityRepository.ClearAllTemplates | Assets/Scripts/Systems/Data/Database/Entities/EntityRepository.cs:470-479 | the fields become those of `EntityStore.ClearAllTemplates` |
| EntityRepositories.EntityRepository.ValidateRepository | Assets/Scripts/Systems/Data/Database/Entities/EntityRepository.cs:510-556 | returns true exactly when every name entry names a template and every type-list entry is a template listing that type |
| Stats.Clamp | Assets/Scripts/Systems/Data/Database/Stats/StatStruct.cs:116 | `Mathf.Clamp`: the result lies in an ordered range, and a value already inside is kept |
| Stats.ClampIdempotent | Assets/Scripts/Systems/Data/Database/Stats/StatStruct.cs:123-126 | clamping twice into an ordered range is clamping once |
| Stats.Stat.GetPercentage | Assets/Scripts/Systems/Data/Database/Stats/StatStruct.cs:96-99 | with a positive max the percentage times max is the current value; otherwise 0 |
| Stats.Stat.ModifyStat | Assets/Scripts/Systems/Data/Database/Stats/StatStruct.cs:114-117 | current becomes current + amount clamped into [min, max], nothing else changes, and the stat is in range whenever min <= max |
| Stats.Stat.SetCurrentValue | Assets/Scripts/Systems/Data/Database/Stats/StatStruct.cs:123-126 | current becomes the clamped value, a value in range is kept exactly, and the stat is in range whenever min <= max |
| Stats.Stat.SetBaseValue | Assets/Scripts/Systems/Data/Database/Stats/StatStruct.cs:133-140 | without the flag only the base changes; with it the base changes and current is set to the clamped value |
| Stats.Stat.RestoreToMax | Assets/Scripts/Systems/Data/Database/Stats/StatStruct.cs:145-148 | after restoring, the stat is at max and its missing amount is 0 |
| Stats.Stat.RestoreToBase | Assets/Scripts/Systems/Data/Database/Stats/StatStruct.cs:153-156 | current becomes the base value and nothing else changes |
| Stats.Stat.GetMissingAmount | Assets/Scripts/Systems/Data/Database/Stats/StatStruct.cs:198-201 | zero exactly when the stat is at max, and never negative while current <= max |
| Stats.Stat.CalculateModifiedValue | Assets/Scripts/Systems/Data/Database/Stats/StatStruct.cs:209-212 | the identity modifiers give back the base value |
| Stats.Stat.ApplyModifiers | Assets/Scripts/Systems/Data/Database/Stats/StatStruct.cs:218-222 | current becomes the modified current value, clamped; in range when min <= max; the identity modifiers leave an in-range stat unchanged |
| Stats.Stat.WithName | Assets/Scripts/Systems/Data/Database/Stats/StatStruct.cs:257-261 | a new stat through the constructor with the new name, so current resets to base |
| Stats.Stat.WithRange | Assets/Scripts/Systems/Data/Database/Stats/StatStruct.cs:268-272 | a new stat through the constructor with the new range, so current resets to base |
| Stats.NewStat | Assets/Scripts/Systems/Data/Database/Stats/StatStruct.cs:52-63 | current starts at base without clamping, so the stat is in range exactly when base lies in [min, max] |
| Stats.ConstructorDoesNotClamp | Assets/Scripts/Systems/Data/Database/Stats/StatStruct.cs:75-86 | a base of 150 with range [0, 100] yields a stat out of range |
| Stats.SettersRestoreRange | Assets/Scripts/Systems/Data/Database/Stats/StatStruct.cs:114-140 | every setter brings a stat with an ordered range back into it, and setting the same value twice equals setting it once |
| Stats.ModifyStatInverse | Assets/Scripts/Systems/Data/Database/Stats/StatStruct.cs:114-117 | modifying by an amount and back restores the stat while neither step hits a bound |
| Stats.CreateResource | Assets/Scripts/Systems/Data/Database/Stats/StatStruct.cs:282-309 | Health, Mana and Stamina start full at max with min 0, in range for a non-negative max |
| StatCollections.ValueOr | Assets/Scripts/Systems/Data/Database/Stats/StatCollection.cs:281-282 | `GetValueOrDefault`: the stored value for a present key, the fallback otherwise |
| StatCollections.Accumulate | Assets/Scripts/Systems/Data/Database/Stats/StatCollection.cs:228-255 | the key's modifier becomes the stored one combined with the new one (the identity when absent); other keys keep theirs |
| StatCollections.AccumulateTwice | Assets/Scripts/Systems/Data/Database/Stats/StatCollection.cs:228-255 | adding two modifiers one after the other equals adding their combination once |
| StatCollections.ApplyModifiersToStat | Assets/Scripts/Systems/Data/Database/Stats/StatCollection.cs:292-309 | the base becomes the modified base; current keeps its ratio to the base (1 for a non-positive base), clamped; range, identifier, name and type are kept; the result is in range for an ordered range |
| StatCollections.IdentityLeavesStat | Assets/Scripts/Systems/Data/Database/Stats/StatCollection.cs:292-309 | the identity modifiers leave an in-range stat with a positive base unchanged |
| StatCollections.ZeroModifiersZeroStat | Assets/Scripts/Systems/Data/Database/Stats/StatCollection.cs:292-309 | the all-zero modifiers turn the base into 0 and current into 0 clamped into the range |
| StatCollections.Merge | Assets/Scripts/Systems/Data/Database/Stats/StatCollection.cs:417-441 | the union of both key sets; the source wins on overwrite or a missing key, the destination otherwise |
| StatCollections.CopyEntries | Assets/Scripts/Systems/Data/Database/Stats/StatCollection.cs:421-427 | the loop over the source's entries yields `Merge` of the two maps |
| StatCollections.SoundIffNoDefect | Assets/Scripts/Systems/Data/Database/Stats/StatCollection.cs:487-518 | a stat is in range with an ordered range and a name exactly when it has none of the four defects |
| StatCollections.StatIssues | Assets/Scripts/Systems/Data/Database/Stats/StatCollection.cs:495-515 | the issues for one stat are exactly its defects |
| StatCollections.StatCollection.constructor | Assets/Scripts/Systems/Data/Database/Stats/StatCollection.cs:53-58 | an empty collection without modifiers |
| StatCollections.StatCollection.FromStats | Assets/Scripts/Systems/Data/Database/Stats/StatCollection.cs:64-74 | a copy of the given stats, or none for a null dictionary, without modifiers |
| StatCollections.StatCollection.SetStat | Assets/Scripts/Systems/Data/Database/Stats/StatCollection.cs:113-116 | the stat is stored, overwriting; modifiers are untouched |
| StatCollections.StatCollection.AddStat | Assets/Scripts/Systems/Data/Database/Stats/StatCollection.cs:124-133 | succeeds exactly for an absent identifier, then stores the stat; a present one is never overwritten |
| StatCollections.StatCollection.RemoveStat | Assets/Scripts/Systems/Data/Database/Stats/StatCollection.cs:140-150 | reports whether the stat was present; a removed stat takes both its modifier entries with it; otherwise nothing changes |
| StatCollections.StatCollection.ModifyStatValue | Assets/Scripts/Systems/Data/Database/Stats/StatCollection.cs:171-178 | a present stat is modified by the amount; an absent identifier changes nothing |
| StatCollections.StatCollection.SetStatValue | Assets/Scripts/Systems/Data/Database/Stats/StatCollection.cs:185-192 | a present stat's current value is set (clamped); an absent identifier changes nothing |
| StatCollections.StatCollection.RestoreStatToMax | Assets/Scripts/Systems/Data/Database/Stats/StatCollection.cs:198-205 | a present stat is restored to max; an absent identifier changes nothing |
| StatCollections.StatCollection.RestoreAllStatsToMax | Assets/Scripts/Systems/Data/Database/Stats/StatCollection.cs:210-217 | every stat, and no other entry, is restored, so every stat is at max |
| StatCollections.StatCollection.AddTemporaryModifier | Assets/Scripts/Systems/Data/Database/Stats/StatCollection.cs:228-238 | the temporary map accumulates the modifier; stats and permanent modifiers are untouched |
| StatCollections.StatCollection.AddPermanentModifier | Assets/Scripts/Systems/Data/Database/Stats/StatCollection.cs:245-255 | the permanent map accumulates the modifier; stats and temporary modifiers are untouched |
| StatCollections.StatCollection.ClearTemporaryModifiers | Assets/Scripts/Systems/Data/Database/Stats/StatCollection.cs:261-264 | only the identifier's temporary entry goes |
| StatCollections.StatCollection.ClearAllTemporaryModifiers | Assets/Scripts/Systems/Data/Database/Stats/StatCollection.cs:269-272 | the temporary map is emptied and nothing else changes |
| StatCollections.StatCollection.CombinedModifiersAsWritten | Assets/Scripts/Systems/Data/Database/Stats/StatCollection.cs:279-284 | as written, a stat with no modifiers combines to the all-zero struct |
| StatCollections.StatCollection.CombinedModifiers | Assets/Scripts/Systems/Data/Database/Stats/StatCollection.cs:279-284 | with the struct constructor's defaults, no modifiers combine to the identity and a single entry is returned as it is |
| StatCollections.StatCollection.UnmodifiedStatReportedAsZero | Assets/Scripts/Systems/Data/Database/Stats/StatCollection.cs:96-106 | as written, a stored stat with no modifiers is reported with base 0 and current 0 clamped into its range |
| StatCollections.StatCollection.GetStat | Assets/Scripts/Systems/Data/Database/Stats/StatCollection.cs:96-106 | a stored stat comes back with its combined modifiers applied, the identity modifiers when it has none (the corrected reading, Findings row 2); otherwise the repository's template, which initialises the repository first if needed |
| StatCollections.StatCollection.UnmodifiedStatReportedAsStored | Assets/Scripts/Systems/Data/Database/Stats/StatCollection.cs:96-106 | with identity defaults, a stored in-range stat with a positive base and no modifiers is reported as stored |
| StatCollections.StatCollection.GetStatBaseValue | Assets/Scripts/Systems/Data/Database/Stats/StatCollection.cs:393-400 | the stored base value before modifiers, or 0 for an absent stat |
| StatCollections.StatCollection.CopyFrom | Assets/Scripts/Systems/Data/Database/Stats/StatCollection.cs:417-441 | a null source changes nothing; otherwise stats are merged (overwrite wins or only missing added) and modifiers are copied only on overwrite |
| StatCollections.StatCollection.ValidateIntegrity | Assets/Scripts/Systems/Data/Database/Stats/StatCollection.cs:487-518 | an issue is reported exactly for each defect of each stat, so the report is empty exactly when every stat is sound |
| StatRepositories.Register | Assets/Scripts/Systems/Data/Database/Stats/StatRepository.cs:166-177 | refused, changing nothing, exactly for a known identifier; otherwise the template is stored and its lowercase name points at it |
| StatRepositories.Lookup | Assets/Scripts/Systems/Data/Database/Stats/StatRepository.cs:184-196 | the stored template, or for an unknown identifier a fresh in-range stat named after the identifier with base 0 and range [0, 100] |
| StatRepositories.LookupByName | Assets/Scripts/Systems/Data/Database/Stats/StatRepository.cs:202-215 | nothing for the empty name; a found template has the query's name ignoring case; a known lowercase name is always found |
| StatRepositories.Update | Assets/Scripts/Systems/Data/Database/Stats/StatRepository.cs:223-242 | refused exactly for an unknown identifier; otherwise the template is replaced, its old lowercase name leaves the index and the new one points at it |
| StatRepositories.Remove | Assets/Scripts/Systems/Data/Database/Stats/StatRepository.cs:249-261 | refused exactly for an unknown identifier; otherwise the template and its lowercase name entry both go |
| StatRepositories.RegisterKeepsConsistent | Assets/Scripts/Systems/Data/Database/Stats/StatRepository.cs:174-176 | registration keeps every name entry pointing at a template with that lowercase name |
| StatRepositories.UpdateKeepsConsistent | Assets/Scripts/Systems/Data/Database/Stats/StatRepository.cs:233-239 | an update keeps the name index consistent, since the old name goes before the new one is added |
| StatRepositories.RemoveKeepsConsistent | Assets/Scripts/Systems/Data/Database/Stats/StatRepository.cs:257-259 | a removal keeps the name index consistent |
| StatRepositories.RegisterThenFind | Assets/Scripts/Systems/Data/Database/Stats/StatRepository.cs:162-215 | after a registration both lookups find the new template |
| StatRepositories.RemoveThenMissing | Assets/Scripts/Systems/Data/Database/Stats/StatRepository.cs:184-261 | after a removal the identifier falls back to the fresh stat and no name points at it |
| StatRepositories.LookupByNameIgnoresCase | Assets/Scripts/Systems/Data/Database/Stats/StatRepository.cs:202-215 | names equal ignoring case find the same template |
| StatRepositories.RegisterAllDistinct | Assets/Scripts/Systems/Data/Database/Stats/StatRepository.cs:81-155 | registering distinct unknown identifiers stores each one, keeps what was there and keeps the index consistent |
| StatRepositories.DefaultIdsDistinct | Assets/Scripts/Systems/Data/Database/Stats/StatRepository.cs:81-155 | the 21 default templates have pairwise distinct identifiers |
| StatRepositories.DefaultRegistry | Assets/Scripts/Systems/Data/Database/Stats/StatRepository.cs:66-76 | a completed initialisation holds exactly the defaults, each under its identifier, with a consistent index and the flag set |
| StatRepositories.FirstRegistrationStuck | Assets/Scripts/Systems/Data/Database/Stats/StatRepository.cs:162-164 | a registration whose first `EnsureInitialized` does not return does not get past it |
| StatRepositories.InitializeNeverReturns | Assets/Scripts/Systems/Data/Database/Stats/StatRepository.cs:55-76 | as written, initialisation never returns at any call depth: the first default registration re-enters `EnsureInitialized` while the flag is still clear |
| StatRepositories.StatRepository.constructor | Assets/Scripts/Systems/Data/Database/Stats/StatRepository.cs:16-18 | both maps start empty (null read as empty) and the flag clear |
| StatRepositories.StatRepository.Initialize | Assets/Scripts/Systems/Data/Database/Stats/StatRepository.cs:66-76 | with the flag set first, the fields become `DefaultRegistry()` |
| StatRepositories.StatRepository.RegisterEach | Assets/Scripts/Systems/Data/Database/Stats/StatRepository.cs:81-155 | the registration loop leaves the state of registering the whole list in order |
| StatRepositories.StatRepository.RegisterStep | Assets/Scripts/Systems/Data/Database/Stats/StatRepository.cs:166-177 | the fields and result are those of `Register` |
| StatRepositories.StatRepository.EnsureInitialized | Assets/Scripts/Systems/Data/Database/Stats/StatRepository.cs:55-61 | an initialised repository is unchanged; otherwise it becomes `DefaultRegistry()`; afterwards the flag is set |
| StatRepositories.StatRepository.RegisterStat | Assets/Scripts/Systems/Data/Database/Stats/StatRepository.cs:162-177 | `Register` applied to the state after initialisation; a consistent name index stays consistent |
| StatRepositories.StatRepository.GetStat | Assets/Scripts/Systems/Data/Database/Stats/StatRepository.cs:184-196 | initialises if needed, then returns `Lookup` on the resulting state |
| StatRepositories.StatRepository.GetStatByName | Assets/Scripts/Systems/Data/Database/Stats/StatRepository.cs:202-215 | initialises if needed, then returns `LookupByName` on the resulting state |
| StatRepositories.StatRepository.UpdateStat | Assets/Scripts/Systems/Data/Database/Stats/StatRepository.cs:223-242 | `Update` applied to the state after initialisation; a consistent name index stays consistent |
| StatRepositories.StatRepository.UpdateStep | Assets/Scripts/Systems/Data/Database/Stats/StatRepository.cs:227-241 | the fields and result are those of `Update` |
| StatRepositories.StatRepository.RemoveStat | Assets/Scripts/Systems/Data/Database/Stats/StatRepository.cs:249-261 | `Remove` applied to the state after initialisation; a consistent name index stays consistent |
| StatRepositories.StatRepository.RemoveStep | Assets/Scripts/Systems/Data/Database/Stats/StatRepository.cs:253-260 | the fields and result are those of `Remove` |
| StatRepositories.StatRepository.Clear | Assets/Scripts/Systems/Data/Database/Stats/StatRepository.cs:446-451 | both maps empty and the flag cleared, which is a consistent state |
| UtilityStructs.Health.Percentage | Assets/Scripts/Systems/Data/Database.cs:65 | with a positive max the percentage times max is current; otherwise 0 |
| UtilityStructs.Health.TakeDamage | Assets/Scripts/Systems/Data/Database.cs:84-87 | max is kept and current becomes current - damage floored at 0, so non-negative damage keeps health within [0, max] |
| UtilityStructs.Health.Heal | Assets/Scripts/Systems/Data/Database.cs:94-97 | max is kept; a non-negative capped value becomes current, and non-negative healing keeps health within [0, max] |
| UtilityStructs.NewHealth | Assets/Scripts/Systems/Data/Database.cs:56-60 | a negative current means "start at max"; otherwise current is kept |
| UtilityStructs.HealthyAndCriticalExclusive | Assets/Scripts/Systems/Data/Database.cs:65-77 | no health is both above half and below a quarter |
| UtilityStructs.DamageHealInverse | Assets/Scripts/Systems/Data/Database.cs:84-97 | damage not reaching zero is undone by healing the same amount, and healing not reaching max by the same damage |
| UtilityStructs.HealBelowZeroRestoresFull | Assets/Scripts/Systems/Data/Database.cs:56-97 | healing by an amount that leaves the value below zero yields full health, because the constructor reads a negative value as not given |
| UtilityStructs.StatModifiers.ApplyTo | Assets/Scripts/Systems/Data/Database/UtilityStructs.cs:227-230 | the identity modifiers return the base unchanged and a zero multiplier gives 0 |
| UtilityStructs.StatModifiers.CombineWith | Assets/Scripts/Systems/Data/Database/UtilityStructs.cs:237-244 | the identity is a unit on either side |
| UtilityStructs.CombineMonoid | Assets/Scripts/Systems/Data/Database/UtilityStructs.cs:215-244 | combining is commutative and associative with the default-argument constructor as unit |
| UtilityStructs.ZeroAbsorbs | Assets/Scripts/Systems/Data/Database/UtilityStructs.cs:200-244 | the all-zero struct keeps multiplier 0 in any combination, and applying it gives 0 |
| UtilityStructs.Age.Percentage | Assets/Scripts/Systems/Data/Database/UtilityStructs.cs:102 | with a positive maximum the percentage times the maximum is the current age; otherwise 0 |
| UtilityStructs.NewAge | Assets/Scripts/Systems/Data/Database/UtilityStructs.cs:92-97 | a negative current age becomes 0; the maximum and modifiers are kept |
| UtilityStructs.ExactlyOneLifeStage | Assets/Scripts/Systems/Data/Database/UtilityStructs.cs:106-114 | exactly one of young, adult and elderly holds |
| UtilityStructs.NewbornIsYoung | Assets/Scripts/Systems/Data/Database/UtilityStructs.cs:92-106 | an age built without a current age and with a positive maximum is young |
| UtilityStructs.EntitySize.Volume | Assets/Scripts/Systems/Data/Database/UtilityStructs.cs:194 | the volume of non-negative dimensions is non-negative |
| UtilityStructs.CategoryDimension | Assets/Scripts/Systems/Data/Database/UtilityStructs.cs:141-169 | every category's side length is positive |
| UtilityStructs.SizeOfCategory | Assets/Scripts/Systems/Data/Database/UtilityStructs.cs:141-169 | a cube of the category's side length, keeping the category |
| UtilityStructs.CategoryOf | Assets/Scripts/Systems/Data/Database/UtilityStructs.cs:182-188 | Tiny exactly up to 0.5 and Gargantuan exactly above 3 |
| UtilityStructs.SizeOfDimensions | Assets/Scripts/Systems/Data/Database/UtilityStructs.cs:176-189 | the dimensions are kept and the category is that of the largest dimension |
| UtilityStructs.CategoryMonotone | Assets/Scripts/Systems/Data/Database/UtilityStructs.cs:182-188 | a larger largest dimension never gives a smaller category |
| UtilityStructs.SizeConstructorsAgree | Assets/Scripts/Systems/Data/Database/UtilityStructs.cs:141-189 | rebuilding a category's cube from its dimensions gives back the same size |
| Buffs.Buff.Update | Assets/Scripts/Systems/Data/Database/Skills/BuffStruct.cs:97-103 | a permanent buff is unchanged and active; a timed one counts down by deltaTime and is active exactly when it is not expired afterwards |
| Buffs.Buff.AddStack | Assets/Scripts/Systems/Data/Database/Skills/BuffStruct.cs:109-115 | succeeds exactly for a stackable buff below its maximum, adding one stack; otherwise the buff is unchanged |
| Buffs.Buff.IsExpired | Assets/Scripts/Systems/Data/Database/Skills/BuffStruct.cs:125 | only a timed buff whose remaining time has run out is expired; a permanent buff never is |
| Buffs.Buff.EffectiveMagnitude | Assets/Scripts/Systems/Data/Database/Skills/BuffStruct.cs:120 | one magnitude per stack: a single stack is the bare magnitude, no stack is 0, and more stacks of a non-negative magnitude never weaken it |
| Buffs.Buff.RemainingTimePercentage | Assets/Scripts/Systems/Data/Database/Skills/BuffStruct.cs:130 | 1 for a permanent buff; otherwise the percentage times the duration is the remaining time |
| Buffs.NewBuff | Assets/Scripts/Systems/Data/Database/Skills/BuffStruct.cs:74-90 | one stack, the full duration remaining, all-zero modifiers, no tags; stacks are in range, the buff is not expired and its remaining-time percentage is 1 |
| Buffs.StacksStayInRange | Assets/Scripts/Systems/Data/Database/Skills/BuffStruct.cs:86-115 | `AddStack` and `Update` keep the stack count in [1, max(1, maxStacks)] |
| Buffs.StackAddsMagnitude | Assets/Scripts/Systems/Data/Database/Skills/BuffStruct.cs:109-120 | a successful stack raises the effective magnitude by one magnitude; a refused one leaves it |
| Buffs.UpdatesCompose | Assets/Scripts/Systems/Data/Database/Skills/BuffStruct.cs:97-103 | two updates count down as one update by their sum, and a permanent buff stays active with its remaining time unchanged |
| SkillRepositories.NewSkill | Assets/Scripts/Systems/Data/Database/Skills/SkillStruct.cs:63-72 | the name is the type, experience and level as given, no description and no tags |
| SkillRepositories.DefaultSkillsWellFormed | Assets/Scripts/Systems/Data/Database/Skills/SkillRepository.cs:212-227 | ten default skills with distinct IDs, each at level 1 with no experience |
| SkillRepositories.DefaultBuffsWellFormed | Assets/Scripts/Systems/Data/Database/Skills/SkillRepository.cs:229-240 | the default buffs have distinct IDs and are freshly built |
| SkillRepositories.DefaultStatsWellFormed | Assets/Scripts/Systems/Data/Database/Skills/SkillRepository.cs:242-255 | the default stats have distinct IDs and are in range |
| SkillRepositories.SkillRepository.constructor | Assets/Scripts/Systems/Data/Database/Skills/SkillRepository.cs:13-15 | all three lists start empty |
| SkillRepositories.SkillRepository.GetSkillByID | Assets/Scripts/Systems/Data/Database/Skills/SkillRepository.cs:24-27 | the first skill with the ID, or the default skill when none has it |
| SkillRepositories.SkillRepository.GetSkillsByType | Assets/Scripts/Systems/Data/Database/Skills/SkillRepository.cs:34-37 | every returned skill has the type and is in the list, and every skill of that type is returned, kept in list order (a subsequence of the list) |
| SkillRepositories.SkillRepository.GetSkillsByMinLevel | Assets/Scripts/Systems/Data/Database/Skills/SkillRepository.cs:44-47 | exactly the skills at or above the level are returned, and all of them exactly when every skill qualifies, kept in list order (a subsequence of the list) |
| SkillRepositories.SkillRepository.AddOrUpdateSkill | Assets/Scripts/Systems/Data/Database/Skills/SkillRepository.cs:53-65 | the first skill with the ID is replaced in place, or the skill is appended; the length grows only for a new ID; unique IDs stay unique and the lookup then finds the skill |
| SkillRepositories.SkillRepository.RemoveSkill | Assets/Scripts/Systems/Data/Database/Skills/SkillRepository.cs:71-74 | every skill with the ID goes; true exactly when there was one; none remains |
| SkillRepositories.SkillRepository.GetBuffByID | Assets/Scripts/Systems/Data/Database/Skills/SkillRepository.cs:83-86 | the first buff with the ID, or the default buff |
| SkillRepositories.SkillRepository.GetBuffsByType | Assets/Scripts/Systems/Data/Database/Skills/SkillRepository.cs:93-96 | exactly the buffs of that type from the list, kept in list order (a subsequence of the list) |
| SkillRepositories.SkillRepository.GetBeneficialBuffs | Assets/Scripts/Systems/Data/Database/Skills/SkillRepository.cs:102-105 | exactly the beneficial buffs from the list, kept in list order (a subsequence of the list) |
| SkillRepositories.SkillRepository.GetDetrimentalBuffs | Assets/Scripts/Systems/Data/Database/Skills/SkillRepository.cs:111-114 | exactly the non-beneficial buffs from the list, kept in list order (a subsequence of the list) |
| SkillRepositories.SkillRepository.BuffsPartition | Assets/Scripts/Systems/Data/Database/Skills/SkillRepository.cs:102-114 | beneficial and detrimental buffs split the list: as multisets they add up to it, and no buff is in both; both keep list order |
| SkillRepositories.SkillRepository.BuffsAfterAppend | Assets/Scripts/Systems/Data/Database/Skills/SkillRepository.cs:102-114 | a buff appended to the list goes to the end of exactly one of the two queries, after everything they returned before |
| SkillRepositories.SkillRepository.AddOrUpdateBuff | Assets/Scripts/Systems/Data/Database/Skills/SkillRepository.cs:120-132 | replace-or-append by ID, as for skills |
| SkillRepositories.SkillRepository.RemoveBuff | Assets/Scripts/Systems/Data/Database/Skills/SkillRepository.cs:138-141 | every buff with the ID goes; true exactly when there was one |
| SkillRepositories.SkillRepository.GetStatByID | Assets/Scripts/Systems/Data/Database/Skills/SkillRepository.cs:150-153 | the first stat with the ID, or the default stat |
| SkillRepositories.SkillRepository.AddOrUpdateStat | Assets/Scripts/Systems/Data/Database/Skills/SkillRepository.cs:177-189 | replace-or-append by ID, as for skills |
| SkillRepositories.SkillRepository.RemoveStat | Assets/Scripts/Systems/Data/Database/Skills/SkillRepository.cs:195-198 | every stat with the ID goes; true exactly when there was one |
| SkillRepositories.SkillRepository.Initialize | Assets/Scripts/Systems/Data/Database/Skills/SkillRepository.cs:205-255 | each list is cleared and refilled with its defaults, all with unique IDs |
| Entities.RarityIndex | Assets/Scripts/Systems/Data/Database.cs:1950-1957 | every rarity's enumerator value lies in [0,4] |
| Entities.GetRarityByIndex | Assets/Scripts/Systems/Data/Database.cs:1950-1957 | an index in [0,4] gives the rarity with that value; any index outside it gives Common |
| Entities.RarityIndexRoundTrip | Assets/Scripts/Systems/Data/Database.cs:1950-1957 | every rarity is recovered from its index, and the result is Common exactly for index 0 and the out-of-range indices |
| Entities.NewState | Assets/Scripts/Systems/Data/Database.cs:836-845 | the constructor keeps the identifier, name, description, priority and interruptibility, and starts with no time spent in the state |
| Entities.BasicState | Assets/Scripts/Systems/Data/Database.cs:836 | the default arguments are priority 1, interruptible, no energy cost |
| Entities.TransitionRules | Assets/Scripts/Systems/Data/Database.cs:852-862 | `CanTransitionTo` is false for the same identifier; true out of an interruptible state; otherwise true iff the new priority is higher; two uninterruptible states never allow each other |
| Entities.FindState | Assets/Scripts/Systems/Data/Database.cs:512 | `Find` returns the first state with the identifier when there is one (an element of the list), and `default(State)` otherwise |
| Entities.NewBuff | Assets/Scripts/Systems/Data/Database.cs:923-932 | the buff constructor keeps identifier, strength and duration and starts with no tags |
| Entities.SizeOf | Assets/Scripts/Systems/Data/Database.cs:164-191 | each fixed entity size keeps its class, has a positive radius and twice the radius as height |
| Entities.Entity.ApplyBuff | Assets/Scripts/Systems/Data/Database.cs:397-419 | the buff is appended; health regeneration heals, mana regeneration, the speed, strength and defense boosts apply `ModifyStat` to mana, speed, attack and defense; any other identifier changes nothing else |
| Entities.Entity.WithoutBuff | Assets/Scripts/Systems/Data/Database.cs:426-451 | every buff with the identifier is gone and the others stay in order; the boosts they gave are taken back and nothing else changes |
| Entities.RemoveBuff | Assets/Scripts/Systems/Data/Database.cs:426-451 | the backward `RemoveAt` walk leaves exactly `WithoutBuff(id)` |
| Entities.Boosts.UnapplyEffects | Assets/Scripts/Systems/Data/Database.cs:426-451 | the stat changes of removing the buffs with one identifier: none when no entry has that identifier, or when it is none of the three boosts |
| Entities.RemoveBuffNoOpAndIdempotent | Assets/Scripts/Systems/Data/Database.cs:426-451 | removing an identifier no buff has changes nothing, and removing twice is the same as removing once |
| Entities.ApplyThenRemoveList | Assets/Scripts/Systems/Data/Database.cs:397-451 | applying a buff with a fresh identifier and removing that identifier restores the list, and takes back exactly that buff's boost |
| Entities.ApplyThenRemove | Assets/Scripts/Systems/Data/Database.cs:397-451 | apply then remove gives the buff list back; healing from regeneration stays; an unclamped speed boost is undone exactly |
| Entities.Entity.ChangeStateAsWritten | Assets/Scripts/Systems/Data/Database.cs:508-518 | as written: only the current state may change, and nothing happens without a state list |
| Entities.Entity.ChangeState | Assets/Scripts/Systems/Data/Database.cs:508-518 | the first available state with the identifier becomes current; with no such state the entity is unchanged |
| Entities.ChangeStateAgrees | Assets/Scripts/Systems/Data/Database.cs:508-518 | for every identifier except Idle, the source's `ChangeState` and the corrected one agree |
| Entities.NewEntityLosesIdleState | Assets/Scripts/Systems/Data/Database.cs:508-518 | on a new entity, the source's `ChangeState(Idle)` replaces the Idle state by the nameless, uninterruptible default state, while the corrected one leaves the entity unchanged |
| Entities.ChangeStateIdempotent | Assets/Scripts/Systems/Data/Database.cs:508-518 | the state reached is the first one listed with the identifier, and changing to it again changes nothing |
| Entities.Entity.Heal | Assets/Scripts/Systems/Data/Database.cs:487-490 | only the health changes, by `Health.Heal` |
| Entities.Entity.TakeDamage | Assets/Scripts/Systems/Data/Database.cs:494-506 | the damage less current defense, never negative, is taken; at zero health the entity is no longer alive and changes to the Dead state (to the first available state with the Dead identifier, or keeps its state when none is available), and nothing besides health, liveness and the current state changes; above zero only the health changes; damage within the defense leaves non-negative health as it was |
| Entities.NewEntity | Assets/Scripts/Systems/Data/Database.cs:566-615 | the constructor keeps the identity, uses Medium size and 100 health by default, starts with empty lists, the Idle state and full needs within range, and level stat equal to the level with minimum 1 |
| Entities.BasicEntity | Assets/Scripts/Systems/Data/Database.cs:566 | `new Entity(name, id)` has 100 of 100 health and Medium size |
| Entities.NewLevelingSystem | Assets/Scripts/Systems/Data/Database.cs:1158-1168 | the constructor sets maximum level 100, 100 experience per level and zero modifiers |
| Entities.Settle | Assets/Scripts/Systems/Data/Database.cs:1179-1183 | the level-up loop never lowers the level, never passes a maximum the level was within, and ends where `CanLevelUp` is false; only the level and remaining experience change |
| Entities.LevelingSystem.CanLevelUp | Assets/Scripts/Systems/Data/Database.cs:1192-1195 | ready to level up only below the maximum level with no experience left to earn; never at or above the maximum |
| Entities.AddExperience | Assets/Scripts/Systems/Data/Database.cs:1174-1195 | experience is subtracted, then the loop levels up: the result says whether the level rose, the level never drops or exceeds the maximum, and afterwards `CanLevelUp` is false |
| Entities.Triangle | Assets/Scripts/Systems/Data/Database.cs:1204-1207 | twice 1 + … + n is n(n+1) |
| Entities.GetTotalExperience | Assets/Scripts/Systems/Data/Database.cs:1201-1209 | the loop's total plus the remaining requirement is experiencePerLevel·L·(L+1)/2 |
| Entities.TotalExperience | Assets/Scripts/Systems/Data/Database.cs:1201-1209 | for a non-negative level L the total is the requirements of levels 1..L (experiencePerLevel·(1+…+L)) minus what is left to earn; at level 1 it is experiencePerLevel minus the remaining requirement |
| Entities.TotalClosedForm | Assets/Scripts/Systems/Data/Database.cs:1201-1209 | the total experience has the closed form experiencePerLevel·L·(L+1)/2 − experienceToNextLevel |
| Entities.LevelUpKeepsTotal | Assets/Scripts/Systems/Data/Database.cs:1181-1209 | one level-up step keeps the total experience |
| Entities.SettleKeepsTotal | Assets/Scripts/Systems/Data/Database.cs:1179-1209 | the whole level-up loop keeps the total experience |
| Entities.AddExperienceAddsTotal | Assets/Scripts/Systems/Data/Database.cs:1174-1209 | `AddExperience(x)` raises the total experience by exactly x however many levels it gains |
| EntityStats.GetStatOf | Assets/Scripts/Components/EntityDataComponent.cs:94-126 | Health reads as a fresh stat holding the current health with maximum 100, whatever the health's maximum; an undeclared identifier reads as a fresh zero stat named by its number |
| EntityStats.LensGetPut | Assets/Scripts/Components/EntityDataComponent.cs:94-168 | reading a stat field back after writing it gives the written stat |
| EntityStats.LensPutGet | Assets/Scripts/Components/EntityDataComponent.cs:94-168 | writing back what was read changes nothing |
| EntityStats.LensPutPut | Assets/Scripts/Components/EntityDataComponent.cs:134-168 | a second write to the same stat field overrides the first |
| EntityStats.LensIndependent | Assets/Scripts/Components/EntityDataComponent.cs:134-174 | writing one stat field leaves every other identifier's reading, the health and the level unchanged |
| EntityStats.NewEntityStatIds | Assets/Scripts/Components/EntityDataComponent.cs:94-126 | on a new entity, the stat read for each declared identifier carries that identifier |
| EntityStats.RoundHalfEven | Assets/Scripts/Components/EntityDataComponent.cs:167 | `RoundToInt` gives an integer within a half of its argument, and the even one on a tie |
| EntityStats.RoundHalfEvenUnique | Assets/Scripts/Components/EntityDataComponent.cs:167 | the rounding is the only integer with those two properties |
| EntityStats.RoundHalfEvenTies | Assets/Scripts/Components/EntityDataComponent.cs:167 | 2.5 rounds to 2, 3.5 to 4, -2.5 to -2, 2.4 to 2 and 2.6 to 3 |
| EntityStats.ModifiedEntity | Assets/Scripts/Components/EntityDataComponent.cs:134-174 | an identifier outside the declared ones leaves the record unchanged |
| EntityStats.ModifiedIsLensUpdate | Assets/Scripts/Components/EntityDataComponent.cs:134-168 | each stat-field case reads the stat, applies `ModifyStat` and writes it back; Level also sets the level number to the rounded level stat |
| EntityStats.ModifyStatEffect | Assets/Scripts/Components/EntityDataComponent.cs:134-174 | `ModifyStat` changes the named stat by its clamped addition; it changes no other stat and not health; a well-formed range is kept; for Level the level number follows the rounded stat |
| EntityStats.ModifyHealthEffect | Assets/Scripts/Components/EntityDataComponent.cs:140-143 | a positive amount heals, capped at the maximum; any other amount damages by its negation, floored at 0; nothing but health changes |
| EntityStats.ModifyStatUndo | Assets/Scripts/Components/EntityDataComponent.cs:134-174 | a change that stays within range, followed by the negated change, gives the record back |
| EntityStats.ModifyHunger | Assets/Scripts/Components/EntityDataComponent.cs:158 | `ModifyStat(Hunger)` changes the hunger field alone |
| EntityStats.ModifyThirst | Assets/Scripts/Components/EntityDataComponent.cs:159 | `ModifyStat(Thirst)` changes the thirst field alone |
| EntityStats.ModifyEnergy | Assets/Scripts/Components/EntityDataComponent.cs:160 | `ModifyStat(Energy)` changes the energy field alone |
| EntityStats.ModifyRest | Assets/Scripts/Components/EntityDataComponent.cs:161 | `ModifyStat(Rest)` changes the rest field alone |
| EntityStats.DecayedIsFourChanges | Assets/Scripts/Components/EntityDataComponent.cs:297-306 | the needs decay is the four `ModifyStat` calls on hunger, thirst, energy and rest, in turn |
| EntityStats.DecayEffect | Assets/Scripts/Components/EntityDataComponent.cs:297-306 | each need loses its amount, clamped into its range; no other stat changes, nor health, level or life |
| EntityStats.DecayBounds | Assets/Scripts/Components/EntityDataComponent.cs:297-306 | with non-negative decay no need rises and each stays in range; decaying hunger by at least its value, on a range from 0, leaves critical needs |
| EntityStats.EatingRelievesHunger | Assets/Scripts/Components/EntityDataComponent.cs:311-366 | eating a positive amount clears critical needs unless thirst is at or below 0, and only then |
| EntityStats.HealthyAfterHealing | Assets/Scripts/Components/EntityDataComponent.cs:140-143 | healing by at least the maximum makes a living record healthy; damage of at least the current health makes it unhealthy |
| EntityStats.CombatPower | Assets/Scripts/Components/EntityDataComponent.cs:250-254 | four times the combat power is attack + defense + strength + agility |
| EntityStats.SocialPower | Assets/Scripts/Components/EntityDataComponent.cs:259-263 | three times the social power is charisma + intelligence + luck |
| EntityStats.PowersBounded | Assets/Scripts/Components/EntityDataComponent.cs:250-263 | each mean lies within the bounds of the stats it averages |
| EntityStats.AgeOf | Assets/Scripts/Components/EntityDataComponent.cs:268-273 | the age is a non-negative multiple of 5 for a non-negative level |
| EntityStats.AvailableStates | Assets/Scripts/Components/EntityDataComponent.cs:206-209 | the record's state list, or an empty one when it has none |
| EntityComponents.EntityDataComponent.constructor | Assets/Scripts/Components/EntityDataComponent.cs:14-61 | the component starts with an empty record, is not initialized, and has needs decay on at rates 1, 1.5, 0.8 and 0.5 |
| EntityComponents.EntityDataComponent.SetEntityData | Assets/Scripts/Components/EntityDataComponent.cs:64-73 | the setter stores the record and marks the component initialized |
| EntityComponents.EntityDataComponent.ModifyStat | Assets/Scripts/Components/EntityDataComponent.cs:134-174 | the written-back record is `ModifiedEntity` of the old one; a need's change touches that need's field alone |
| EntityComponents.EntityDataComponent.ChangeState | Assets/Scripts/Components/EntityDataComponent.cs:185-193 | the record's (corrected) `ChangeState` is applied, and the result is always true |
| EntityComponents.EntityDataComponent.ApplyBuff | Assets/Scripts/Components/EntityDataComponent.cs:218-223 | the record's `ApplyBuff` is applied and written back |
| EntityComponents.EntityDataComponent.RemoveBuff | Assets/Scripts/Components/EntityDataComponent.cs:228-233 | the record's `RemoveBuff` is applied and written back |
| EntityComponents.EntityDataComponent.UpdateNeeds | Assets/Scripts/Components/EntityDataComponent.cs:297-306 | with decay off nothing changes; otherwise each need decays by its rate times the elapsed time |
| EntityComponents.EntityDataComponent.EatFood | Assets/Scripts/Components/EntityDataComponent.cs:311-314 | hunger rises by the amount, through `ModifyStat` |
| EntityComponents.EntityDataComponent.DrinkWater | Assets/Scripts/Components/EntityDataComponent.cs:319-322 | thirst rises by the amount, through `ModifyStat` |
| EntityComponents.EntityDataComponent.RestoreEnergy | Assets/Scripts/Components/EntityDataComponent.cs:327-330 | energy rises by the amount, through `ModifyStat` |
| EntityComponents.EntityDataComponent.Sleep | Assets/Scripts/Components/EntityDataComponent.cs:335-338 | rest rises by the amount, through `ModifyStat` |
| GameTime.CsRem | Assets/Scripts/Managers/TimeManager.cs:147 | the truncating remainder has the dividend's sign and is smaller than the divisor, and agrees with the mathematical one for non-negative operands |
| GameTime.ClampInt | Assets/Scripts/Managers/TimeManager.cs:295 | `Mathf.Clamp` on integers stays within a well-formed range and keeps a value already in it |
| GameTime.MaxInt | Assets/Scripts/Managers/TimeManager.cs:293-294 | `Mathf.Max` on integers is one of its arguments and at least both |
| GameTime.SeasonNames | Assets/Scripts/Managers/TimeManager.cs:264-274 | exactly the seasons 0 to 3 have a name other than "Unknown", and these names are distinct |
| GameTime.SeasonalGrowthModifier | Assets/Scripts/Managers/TimeManager.cs:303-313 | the growth modifier lies in [0.3, 1.2], and is 1 for a season outside the four |
| GameTime.SeasonAdvanced | Assets/Scripts/Managers/TimeManager.cs:156-170 | the day is kept; the season advances modulo 4; the year rises exactly when the new season is spring |
| GameTime.FourSeasonsMakeAYear | Assets/Scripts/Managers/TimeManager.cs:156-170 | four season advances return to the same day and season one year later |
| GameTime.DayAdvanced | Assets/Scripts/Managers/TimeManager.cs:142-154 | the day rises by one; when the new day starts a season the season advances too; otherwise season and year stay |
| GameTime.SeasonTurnsEveryPeriod | Assets/Scripts/Managers/TimeManager.cs:142-154 | with seasons on, the season changes exactly when the ending day is a multiple of the season length |
| GameTime.StepsKeepValid | Assets/Scripts/Managers/TimeManager.cs:142-170 | advancing a day or a season keeps day and year at least 1 and the season within the four |
| GameTime.DateSet | Assets/Scripts/Managers/TimeManager.cs:291-301 | the date set is always valid, and it equals the request exactly when the request is valid |
| GameTime.ClockAdvanced | Assets/Scripts/Managers/TimeManager.cs:130-136 | the hours are added and 24 is taken off once, exactly when the sum reaches a full day |
| GameTime.ClockBounds | Assets/Scripts/Managers/TimeManager.cs:130-136 | a step of at most a day keeps a clock within [0, 24); a 50-hour step from 0 leaves the clock at 26 |
| GameTime.TimeManager.constructor | Assets/Scripts/Managers/TimeManager.cs:14-36 | a game day lasts a real minute; speed starts at 1 of at most 4; seasons of 30 days are on; the clock starts at hour 0 of day 1, spring, year 1 |
| GameTime.TimeManager.AdvanceSeason | Assets/Scripts/Managers/TimeManager.cs:156-170 | the date becomes `SeasonAdvanced` of the old one |
| GameTime.TimeManager.AdvanceDay | Assets/Scripts/Managers/TimeManager.cs:142-154 | the date becomes `DayAdvanced` of the old one |
| GameTime.TimeManager.UpdateGameTime | Assets/Scripts/Managers/TimeManager.cs:125-140 | the clock advances by frame seconds × speed × 24 / ratio hours, and a rollover advances the day |
| GameTime.TimeManager.Update | Assets/Scripts/Managers/TimeManager.cs:71-80 | while paused nothing changes; otherwise the clock runs as in `UpdateGameTime` |
| GameTime.TimeManager.TogglePause | Assets/Scripts/Managers/TimeManager.cs:222-227 | the paused flag flips |
| GameTime.TimeManager.SetPaused | Assets/Scripts/Managers/TimeManager.cs:229-233 | the paused flag takes the given value |
| GameTime.TimeManager.SetGameSpeed | Assets/Scripts/Managers/TimeManager.cs:235-240 | the speed is the request clamped into [0.1, maxGameSpeed], and a request already in range is kept |
| GameTime.TimeManager.IncreaseSpeed | Assets/Scripts/Managers/TimeManager.cs:242-245 | the speed rises by 0.5, clamped |
| GameTime.TimeManager.DecreaseSpeed | Assets/Scripts/Managers/TimeManager.cs:247-250 | the speed falls by 0.5, clamped |
| GameTime.TimeManager.SkipToNextDay | Assets/Scripts/Managers/TimeManager.cs:276-280 | the clock goes to midnight and the next day begins |
| GameTime.TimeManager.SkipToTime | Assets/Scripts/Managers/TimeManager.cs:282-289 | an hour in [0, 24) is taken and any other is ignored |
| GameTime.TimeManager.SetDate | Assets/Scripts/Managers/TimeManager.cs:291-301 | the date becomes `DateSet(year, day, season)`, which is valid |
| GameTime.TimeManager.ProductivityModifier | Assets/Scripts/Managers/TimeManager.cs:315-322 | the productivity is 1 exactly by day and 0.5 at night |
| GameTime.TimeManager.SleepingHours | Assets/Scripts/Managers/TimeManager.cs:54-327 | pops are told to sleep by day only at exactly six o'clock; every other sleeping hour is at night |
| Resources.Consumed | Assets/Scripts/Managers/ResourceManager.cs:49-58 | a spend succeeds exactly when the stock covers the amount and then takes off exactly that amount; otherwise the stock is kept |
| Resources.FoodGained | Assets/Scripts/Managers/ResourceManager.cs:60-68 | gathered food is the amount, or 1.5 times it once efficient gathering is researched, and never less than a non-negative amount |
| Resources.AddThenConsume | Assets/Scripts/Managers/ResourceManager.cs:49-68 | spending what was just added succeeds and gives a non-negative stock back; spending never leaves a non-negative stock negative |
| Resources.ResourceManager.constructor | Assets/Scripts/Managers/ResourceManager.cs:13-21 | the stock starts at 50 food, 10 faith and no wood, without the research |
| Resources.ResourceManager.ConsumeFood | Assets/Scripts/Managers/ResourceManager.cs:49-58 | the food stock and the result are `Consumed` of the old stock, and non-negative stocks stay non-negative |
| Resources.ResourceManager.AddFood | Assets/Scripts/Managers/ResourceManager.cs:60-68 | the food stock rises by `FoodGained` |
| Resources.ResourceManager.ConsumeFaith | Assets/Scripts/Managers/ResourceManager.cs:70-79 | the faith stock and the result are `Consumed` of the old stock |
| Resources.ResourceManager.AddFaith | Assets/Scripts/Managers/ResourceManager.cs:81-85 | the faith stock rises by the amount |
| Resources.ResourceManager.AddWood | Assets/Scripts/Managers/ResourceManager.cs:87-91 | the wood stock rises by the amount |
| Resources.ResourceManager.ConsumeWood | Assets/Scripts/Managers/ResourceManager.cs:93-102 | the wood stock and the result are `Consumed` of the old stock |
| Resources.ResourceManager.PerformGiftOfSustenance | Assets/Scripts/Managers/ResourceManager.cs:107-116 | succeeds iff the faith covers the cost; then the cost is paid and the food is gained as gathered food; otherwise nothing changes |
| Resources.ResourceManager.ResearchEfficientGathering | Assets/Scripts/Managers/ResourceManager.cs:119-128 | succeeds iff not yet researched and the faith covers the cost; then the flag is set and the cost paid; a repeat spends nothing |
| Resources.ResourceManager.SetFood | Assets/Scripts/Managers/ResourceManager.cs:133-137 | the food stock takes the given value |
| Resources.ResourceManager.SetFaith | Assets/Scripts/Managers/ResourceManager.cs:139-143 | the faith stock takes the given value |
| Resources.ResourceManager.SetWood | Assets/Scripts/Managers/ResourceManager.cs:145-149 | the wood stock takes the given value |
| Settlements.Trunc | Assets/Scripts/Managers/SettlementManager.cs:326 | the `(int)` cast of a float truncates toward zero: the whole part for a non-negative value, its negation's whole part negated for a negative one |
| Settlements.StartingStockUsage | Assets/Scripts/Managers/SettlementManager.cs:118-126 | the six starting resources fill 200 units of storage |
| Settlements.SettlementManager.constructor | Assets/Scripts/Managers/SettlementManager.cs:22-49 | an empty settlement named "New Settlement" for 20 pops and 1000 units, with no pops registered |
| Settlements.SettlementManager.StorageUsed | Assets/Scripts/Managers/SettlementManager.cs:63 | the summing loop returns the sum of the stock's values |
| Settlements.SettlementManager.InitializeStock | Assets/Scripts/Managers/SettlementManager.cs:118-126 | the six starting resources are set over the old stock, and an empty stock then holds 200 units |
| Settlements.SettlementManager.GetResourceStock | Assets/Scripts/Managers/SettlementManager.cs:355-358 | a resource's stock, or 0 for one never stocked |
| Settlements.SettlementManager.AddResource | Assets/Scripts/Managers/SettlementManager.cs:324-338 | refused, changing nothing, iff the whole units would overfill the storage; otherwise they are added to the resource (created at 0), the storage used rises by them and stays within capacity |
| Settlements.SettlementManager.ConsumeResource | Assets/Scripts/Managers/SettlementManager.cs:340-353 | refused, changing nothing, for an unstocked resource or one below the amount; otherwise the whole units are taken off, floored at 0; non-negative stocks and the capacity bound are kept |
| Settlements.SettlementManager.RegisterPop | Assets/Scripts/Managers/SettlementManager.cs:415-424 | the pop and its component are appended in step and the population counter rises by one, keeping counter and lists in agreement |
| Settlements.SettlementManager.SpawnPop | Assets/Scripts/Managers/SettlementManager.cs:369-391 | nothing happens at the cap, without a prefab, or when the new object has no pop; otherwise the pop is registered; the population never passes the cap |
| Settlements.SettlementManager.KillPop | Assets/Scripts/Managers/SettlementManager.cs:426-443 | a null or unregistered pop changes nothing; otherwise its first entry goes from both lists and the counter falls by one |
| Settlements.SettlementManager.RemoveNullPop | Assets/Scripts/Managers/SettlementManager.cs:445-452 | the entry at the index goes from both lists and the counter falls by one |
| Settlements.SettlementManager.SetSettlementName | Assets/Scripts/Managers/SettlementManager.cs:482-486 | the name takes the given value |
| Settlements.SettlementManager.UpgradePopulationCap | Assets/Scripts/Managers/SettlementManager.cs:488-492 | the cap rises by the increase |
| Settlements.SettlementManager.UpgradeStorageCapacity | Assets/Scripts/Managers/SettlementManager.cs:494-497 | the capacity rises by the increase, and a non-negative increase keeps the storage within capacity |
| Settlements.FractionAddsNothing | Assets/Scripts/Managers/SettlementManager.cs:324-338 | a fraction of a unit truncates to 0, so it is accepted but adds nothing, though a new resource then appears at 0 |
| ResourceNodes.Min | Assets/Scripts/Systems/Resource/ResourceNode.cs:39 | `Mathf.Min` is one of its arguments and at most both |
| ResourceNodes.Harvested | Assets/Scripts/Systems/Resource/ResourceNode.cs:35-42 | a harvest succeeds iff the node holds something; it then takes the amount, or everything left when the amount is at least that; a refused harvest changes nothing |
| ResourceNodes.Regrown | Assets/Scripts/Systems/Resource/ResourceNode.cs:22-33 | a node with units left is untouched; a count within `0..quantity` stays within it; the count changes only by refilling to the full quantity, which restarts the timer; an empty node either refills or adds the frame time; the timer restarts exactly when the regrowth time is reached (or the frame leaves it at zero), and stays below a positive regrowth time |
| ResourceNodes.HarvestThenRegrow | Assets/Scripts/Systems/Resource/ResourceNode.cs:22-42 | a non-negative harvest keeps the node between empty and full; harvesting a full node by its quantity empties it, and one regrowth period refills it |
| ResourceNodes.ResourceNode.constructor | Assets/Scripts/Systems/Resource/ResourceNode.cs:10-15 | ten units regrowing after thirty seconds; the node holds nothing until `Start` |
| ResourceNodes.ResourceNode.Start | Assets/Scripts/Systems/Resource/ResourceNode.cs:17-20 | the node fills to its quantity |
| ResourceNodes.ResourceNode.Update | Assets/Scripts/Systems/Resource/ResourceNode.cs:22-33 | the quantity and timer become `Regrown` of the old ones, and the node stays between empty and full |
| ResourceNodes.ResourceNode.Harvest | Assets/Scripts/Systems/Resource/ResourceNode.cs:35-42 | the quantity and result are `Harvested` of the old quantity, and a non-negative harvest keeps the node between empty and full |
| Needs.NeedDecayed | Assets/Scripts/Systems/Needs/NeedsComponent.cs:26-28 | a decayed need lies within [0, 100], and is the need minus rate × time whenever that is in range |
| Needs.DecayNeverRaises | Assets/Scripts/Systems/Needs/NeedsComponent.cs:24-31 | decay at a non-negative rate over non-negative time never raises an in-scale need, and zero time leaves it unchanged |
| Needs.NeedsComponent.constructor | Assets/Scripts/Systems/Needs/NeedsComponent.cs:12-19 | all needs start full and decay at 1, 1.2 and 0.5 per second |
| Needs.NeedsComponent.UpdateNeeds | Assets/Scripts/Systems/Needs/NeedsComponent.cs:24-31 | each need becomes `NeedDecayed` by its own rate, independently of the others, and all end within the scale |
| ConsoleCommon.ParseBool | Assets/Scripts/Debug/DebugConsoleManagerSCRAPPED.cs:795 | the reading is true exactly for "true" and false exactly for "false", letter case ignored |
| ConsoleCommon.ParseInt32 | Assets/Scripts/Debug/DebugConsoleManager.cs:798 | `int.TryParse`: a reading lies in the 32-bit range, and text that is empty or does not start with a digit or a sign has none |
| ConsoleCommon.IntTextRoundTrip | Assets/Scripts/Debug/DebugConsoleManager.cs:798 | every 32-bit integer's decimal text reads back as that integer |
| ConsoleCommon.IntTextEdges | Assets/Scripts/Debug/DebugConsoleManager.cs:798 | an integer's decimal text is non-empty, starts with a digit or '-' and ends with a digit |
| ConsoleCommon.DigitsOfNatural | Assets/Scripts/Debug/DebugConsoleManager.cs:798 | the decimal text of a natural number is all digits and denotes that number |
| ConsoleCommon.Capped | Assets/Scripts/Debug/DebugConsoleManager.cs:829-835 | `Add` and then `RemoveAt(0)` beyond the bound: the list grows by one until it exceeds the bound, is a suffix of the old list plus the new element, ends with the new element, and a list within the bound stays within it |
| ConsoleCommon.Appended | Assets/Scripts/Debug/DebugConsoleManager.cs:537-544 | the history after a command stays within the bound and ends with the command |
| ConsoleCommon.AppendedNoStutter | Assets/Scripts/Debug/DebugConsoleManager.cs:537-544 | a history with no entry repeating its predecessor keeps that property after a command |
| ConsoleCommon.AppendedIdempotent | Assets/Scripts/Debug/DebugConsoleManager.cs:537-544 | executing the same command twice records it once |
| ConsoleCommon.ClampIndex | Assets/Scripts/Debug/DebugConsoleManager.cs:465 | `Mathf.Clamp` on ints: the result lies in [lo, hi] and a value inside is unchanged |
| ConsoleCommon.Navigated | Assets/Scripts/Debug/DebugConsoleManager.cs:460-466 | an empty history leaves the index alone; otherwise the index ends in [-1, count-1], and a move that stays inside is taken exactly |
| ConsoleCommon.Recalled | Assets/Scripts/Debug/DebugConsoleManager.cs:467-474 | the input shown is the history entry at the index, or empty at index -1 |
| ConsoleCommon.NavigateBackAndForth | Assets/Scripts/Debug/DebugConsoleManager.cs:460-475 | one step back and one step forward return to the same entry |
| ConsoleCommon.JoinGrowLast | Assets/Scripts/Debug/DebugConsoleManager.cs:676 | appending a character to the piece being built appends it to the joined text |
| ConsoleCommon.JoinNewPiece | Assets/Scripts/Debug/DebugConsoleManager.cs:671-672 | starting a new piece at a separator appends the separator to the joined text |
| ConsoleCommon.FoldStep | Assets/Scripts/Debug/DebugConsoleManager.cs:707-718 | each pair either sets its key to its value (`data[key] = value`) or leaves the dictionary unchanged |
| ConsoleCommon.FoldKeys | Assets/Scripts/Debug/DebugConsoleManager.cs:707-718 | a key is in the dictionary iff some pair yields it |
| ConsoleCommon.FoldLastWins | Assets/Scripts/Debug/DebugConsoleManager.cs:716 | a key holds the value of its last pair: later duplicates overwrite earlier ones |
| ScrappedConsole.FirstClose | Assets/Scripts/Debug/DebugConsoleManagerSCRAPPED.cs:677-704 | the scan returns -1 or an index past the start, inside the text |
| ScrappedConsole.FirstCloseIsFirst | Assets/Scripts/Debug/DebugConsoleManagerSCRAPPED.cs:677-704 | a found index is where the depth outside quotes returns to 0 at a closing character, and no earlier index is; -1 means there is none |
| ScrappedConsole.MatchingBracket | Assets/Scripts/Debug/DebugConsoleManagerSCRAPPED.cs:671-705 | the result is -1 or an index after the start |
| ScrappedConsole.BracketMatched | Assets/Scripts/Debug/DebugConsoleManagerSCRAPPED.cs:671-705 | a result holds the closing character, the quotes are closed and the depth is back to 0 there, and it is the first such index; -1 only when none exists |
| ScrappedConsole.FindMatchingBracket | Assets/Scripts/Debug/DebugConsoleManagerSCRAPPED.cs:671-705 | the loop with its depth, quote flag and quote character computes the matching-bracket index |
| ScrappedConsole.Cuts | Assets/Scripts/Debug/DebugConsoleManagerSCRAPPED.cs:810-838 | the top-level delimiter positions are increasing and lie before the scanned prefix |
| ScrappedConsole.CutsAreSplits | Assets/Scripts/Debug/DebugConsoleManagerSCRAPPED.cs:824-836 | a position is cut iff it holds the delimiter outside quotes at depth 0 |
| ScrappedConsole.CutsStep | Assets/Scripts/Debug/DebugConsoleManagerSCRAPPED.cs:831-836 | one more character adds its position to the cuts exactly when it splits |
| ScrappedConsole.CutsInRange | Assets/Scripts/Debug/DebugConsoleManagerSCRAPPED.cs:831-836 | the cuts are strictly increasing positions inside the text |
| ScrappedConsole.ValidCutsWeaken | Assets/Scripts/Debug/DebugConsoleManagerSCRAPPED.cs:831-836 | cuts within a prefix are cuts within any longer prefix |
| ScrappedConsole.CutsHoldDelimiter | Assets/Scripts/Debug/DebugConsoleManagerSCRAPPED.cs:831-836 | every cut position holds the delimiter |
| ScrappedConsole.Pieces | Assets/Scripts/Debug/DebugConsoleManagerSCRAPPED.cs:834 | one token per cut |
| ScrappedConsole.PiecesSnoc | Assets/Scripts/Debug/DebugConsoleManagerSCRAPPED.cs:834-835 | a new cut adds the text from the last start to it as one token |
| ScrappedConsole.SplitterStep | Assets/Scripts/Debug/DebugConsoleManagerSCRAPPED.cs:812-837 | one character's step of the quote and depth scan, and whether it cuts: a delimiter outside quotes and brackets at depth 0 |
| ScrappedConsole.SplitRespectingDelimiters | Assets/Scripts/Debug/DebugConsoleManagerSCRAPPED.cs:802-847 | the loop returns the tokens between top-level delimiters plus a non-empty remainder |
| ScrappedConsole.JoinPieces | Assets/Scripts/Debug/DebugConsoleManagerSCRAPPED.cs:802-847 | joining the tokens before the last cut, with the delimiter after them, gives the text up to and including that cut |
| ScrappedConsole.RoundTripWithRemainder | Assets/Scripts/Debug/DebugConsoleManagerSCRAPPED.cs:841-844 | with text after the last cut, joining the tokens with the delimiter gives back the text |
| ScrappedConsole.RoundTripWithoutRemainder | Assets/Scripts/Debug/DebugConsoleManagerSCRAPPED.cs:841-844 | when the text ends at a cut, joining the tokens and adding the delimiter gives back the text |
| ScrappedConsole.SplitRoundTrip | Assets/Scripts/Debug/DebugConsoleManagerSCRAPPED.cs:802-847 | joining the tokens with the delimiter gives back the text, minus a final top-level delimiter if there was one |
| ScrappedConsole.Unquote | Assets/Scripts/Debug/DebugConsoleManagerSCRAPPED.cs:720-723 | a quoted token is the quote, the result and the same quote; anything else is kept (the corrected reading, applied only to tokens of length two or more) |
| ScrappedConsole.UnquoteAsWritten | Assets/Scripts/Debug/DebugConsoleManagerSCRAPPED.cs:749-752 | the source's unquoting fails (`Substring(1, -1)`) exactly on a lone quote character and otherwise agrees with `Unquote` |
| ScrappedConsole.Cleaned | Assets/Scripts/Debug/DebugConsoleManagerSCRAPPED.cs:715-727 | one argument per token |
| ScrappedConsole.CleanedTokens | Assets/Scripts/Debug/DebugConsoleManagerSCRAPPED.cs:715-727 | each argument is its token trimmed and unquoted |
| ScrappedConsole.PositionalArgsShape | Assets/Scripts/Debug/DebugConsoleManagerSCRAPPED.cs:707-730 | blank input gives no arguments; otherwise one argument per token, trimmed and with one pair of outer quotes removed |
| ScrappedConsole.ParsePositionalArguments | Assets/Scripts/Debug/DebugConsoleManagerSCRAPPED.cs:707-730 | the loop computes the positional arguments |
| ScrappedConsole.ReadingsInOrder | Assets/Scripts/Debug/DebugConsoleManagerSCRAPPED.cs:762-800 | a value is tried in order as [array], quoted string, int, float, bool, and raw string otherwise |
| ScrappedConsole.TypedValue | Assets/Scripts/Debug/DebugConsoleManagerSCRAPPED.cs:762-800 | a list exactly for bracketed text; an int only for unquoted text that reads as a 32-bit integer; a float only when the int reading fails; a bool only when both numeric readings fail |
| ScrappedConsole.ParseDataValue | Assets/Scripts/Debug/DebugConsoleManagerSCRAPPED.cs:762-800 | the method computes the typed reading of the trimmed value |
| ScrappedConsole.ReadValue | Assets/Scripts/Debug/DebugConsoleManagerSCRAPPED.cs:766-799 | the branch chain computes the typed reading |
| ScrappedConsole.PairEntry | Assets/Scripts/Debug/DebugConsoleManagerSCRAPPED.cs:742-756 | a pair without ':' is skipped; otherwise its key is the trimmed, unquoted text before the first ':' |
| ScrappedConsole.ReadPair | Assets/Scripts/Debug/DebugConsoleManagerSCRAPPED.cs:742-756 | the method computes the pair's entry |
| ScrappedConsole.DataBlockKeys | Assets/Scripts/Debug/DebugConsoleManagerSCRAPPED.cs:732-760 | a key is in the data block iff the input is not blank and some token yields it |
| ScrappedConsole.DataBlockLastWins | Assets/Scripts/Debug/DebugConsoleManagerSCRAPPED.cs:756 | a key holds the value of its last pair |
| ScrappedConsole.DataBlock | Assets/Scripts/Debug/DebugConsoleManagerSCRAPPED.cs:732-760 | blank text gives the empty dictionary, and there are never more keys than top-level pieces |
| ScrappedConsole.ParseDataBlock | Assets/Scripts/Debug/DebugConsoleManagerSCRAPPED.cs:732-760 | the loop computes the data block |
| ScrappedConsole.Enclosed | Assets/Scripts/Debug/DebugConsoleManagerSCRAPPED.cs:645-665 | the text between a bracket and its match is shorter than the line |
| ScrappedConsole.EnclosedAt | Assets/Scripts/Debug/DebugConsoleManagerSCRAPPED.cs:645-665 | the enclosed text runs from after the first opening bracket to its matching close |
| ScrappedConsole.Parsed | Assets/Scripts/Debug/DebugConsoleManagerSCRAPPED.cs:625-669 | the parse wherever it does not throw (see `ParsedAsWritten`): a line without '[' or '{' gives its trimmed lower-cased text as the name and nothing else; otherwise the name is the lower-cased trimmed text before the first '[' or '{' |
| ScrappedConsole.ParseCommandLine | Assets/Scripts/Debug/DebugConsoleManagerSCRAPPED.cs:625-669 | the method computes the parsed command |
| ScrappedConsole.ParsedAsWritten | Assets/Scripts/Debug/DebugConsoleManagerSCRAPPED.cs:625-787 | the parse as written fails exactly when a positional argument, a key, a value or a list item trims to a lone quote (where `Substring(1, Length - 2)` throws); otherwise it is `Parsed`; a line without '[' or '{' never fails |
| ScrappedConsole.LoneQuoteValue | Assets/Scripts/Debug/DebugConsoleManagerSCRAPPED.cs:785-787 | a value that is a lone `"` makes `ParseDataValue` throw as written, and the source's unquoting of it fails |
| ScrappedConsole.LoneQuoteValueScan | Assets/Scripts/Debug/DebugConsoleManagerSCRAPPED.cs:671-705 | in `c {x":"}` the quotation opens and closes and the brace matching the `{` is the last character |
| ScrappedConsole.ThrowsByPair | Assets/Scripts/Debug/DebugConsoleManagerSCRAPPED.cs:625-756 | a line whose data block is one pair that throws makes the whole parse throw |
| ScrappedConsole.LoneQuoteValuePair | Assets/Scripts/Debug/DebugConsoleManagerSCRAPPED.cs:742-787 | the pair `x":"` is one token whose first ':' sits inside the quotation, so its value is a lone `"` and the pair throws |
| ScrappedConsole.LoneQuoteValueLine | Assets/Scripts/Debug/DebugConsoleManagerSCRAPPED.cs:631-664 | `c {x":"}` is its own trim and its braces enclose `x":"` |
| ScrappedConsole.LoneQuoteValueThrows | Assets/Scripts/Debug/DebugConsoleManagerSCRAPPED.cs:625-787 | the parse of `c {x":"}` throws as written |
| ScrappedConsole.LoneQuoteKeyPair | Assets/Scripts/Debug/DebugConsoleManagerSCRAPPED.cs:742-752 | the pair `": "x` is one token whose key is a lone quote, so the pair throws |
| ScrappedConsole.LoneQuoteKeyLine | Assets/Scripts/Debug/DebugConsoleManagerSCRAPPED.cs:631-664 | `c {": "x}` is its own trim and its braces enclose `": "x` |
| ScrappedConsole.LoneQuoteKeyParseThrows | Assets/Scripts/Debug/DebugConsoleManagerSCRAPPED.cs:625-752 | the parse of `c {": "x}` throws as written |
| ScrappedConsole.DebugConsoleManager.constructor | Assets/Scripts/Debug/DebugConsoleManagerSCRAPPED.cs:44-97 | fifty history entries at most, empty history, index -1, nothing typed |
| ScrappedConsole.DebugConsoleManager.NavigateHistory | Assets/Scripts/Debug/DebugConsoleManagerSCRAPPED.cs:576-591 | nothing on an empty history; otherwise the index is the clamped move, in [-1, count-1], and the input shows that entry (empty at -1); the history invariant is kept |
| ScrappedConsole.DebugConsoleManager.ExecuteCommand | Assets/Scripts/Debug/DebugConsoleManagerSCRAPPED.cs:593-625 | blank input changes nothing; otherwise the trimmed command is appended unless it repeats the last entry, the oldest entry goes beyond the bound and the index returns to -1; then the parse as written: where it throws, nothing is returned and the input and suggestions are kept; otherwise the parsed command is returned and the input and suggestions are cleared |
| ScrappedConsole.DebugConsoleManager.RecordCommand | Assets/Scripts/Debug/DebugConsoleManagerSCRAPPED.cs:599-609 | the history step of `ExecuteCommand`: the entry is appended unless it repeats the last one, the oldest goes beyond the bound, the index returns to -1, and the history invariant is kept |
| ScrappedConsole.LoneQuoteScan | Assets/Scripts/Debug/DebugConsoleManagerSCRAPPED.cs:671-705 | in `c {": "x}` the quotation opens and closes and the brace depth stays 1 up to the last '}' |
| ScrappedConsole.LoneQuoteBlock | Assets/Scripts/Debug/DebugConsoleManagerSCRAPPED.cs:657-664 | the data block of `c {": "x}` is `": "x` |
| ScrappedConsole.NoDelimiterNoCuts | Assets/Scripts/Debug/DebugConsoleManagerSCRAPPED.cs:831-836 | text without the delimiter has no cuts |
| ScrappedConsole.SingleToken | Assets/Scripts/Debug/DebugConsoleManagerSCRAPPED.cs:841-844 | non-empty text without the delimiter is one token |
| ScrappedConsole.LoneQuoteKey | Assets/Scripts/Debug/DebugConsoleManagerSCRAPPED.cs:742-745 | the pair `": "x` has its first ':' at index 1 and the trimmed key is a lone quote |
| ScrappedConsole.LoneQuoteData | Assets/Scripts/Debug/DebugConsoleManagerSCRAPPED.cs:738-756 | in the corrected model the pair `": "x` is one token and its key is kept as a lone quote |
| ScrappedConsole.LoneQuoteKeyThrows | Assets/Scripts/Debug/DebugConsoleManagerSCRAPPED.cs:745-752 | on `c {": "x}` the key is a lone quote, and the source's unquoting of it fails |
| ConsoleParser.LineStop | Assets/Scripts/Debug/DebugConsoleManager.cs:627 | the scan for the lazy `]` returns -1 or a position inside the text |
| ConsoleParser.LineStopMeaning | Assets/Scripts/Debug/DebugConsoleManager.cs:627 | the scan stops at the first `]` or line break, and -1 means neither occurs (`.` matches no line break) |
| ConsoleParser.LineEnd | Assets/Scripts/Debug/DebugConsoleManager.cs:635 | the end of the line lies between the start and the end of the text |
| ConsoleParser.LineEndMeaning | Assets/Scripts/Debug/DebugConsoleManager.cs:635 | the line ends at the first line break or at the end of the text |
| ConsoleParser.LastIn | Assets/Scripts/Debug/DebugConsoleManager.cs:635 | the search for the greedy `}` returns -1 or a position in the range |
| ConsoleParser.LastInMeaning | Assets/Scripts/Debug/DebugConsoleManager.cs:635 | the result is the last occurrence in the range, and -1 means there is none |
| ConsoleParser.LazyFrom | Assets/Scripts/Debug/DebugConsoleManager.cs:627 | a match of `\[(.*?)\]` has its `[` before its `]`, both at or after the start |
| ConsoleParser.LazyAt | Assets/Scripts/Debug/DebugConsoleManager.cs:627 | from a given start, the pattern matches iff that position holds `[` and some `]` follows on its line, and then it ends at the first such `]` |
| ConsoleParser.LazyFromMeaning | Assets/Scripts/Debug/DebugConsoleManager.cs:627 | the match found is the leftmost start with a viable bracket pair, ending at the first `]` after it; no match means no viable pair exists |
| ConsoleParser.GreedyFrom | Assets/Scripts/Debug/DebugConsoleManager.cs:635 | a match of `\{(.*)\}` has its `{` before its `}`, both at or after the start |
| ConsoleParser.GreedyAt | Assets/Scripts/Debug/DebugConsoleManager.cs:635 | from a given start, the pattern matches iff that position holds `{` and some `}` follows on its line, and then it ends at the last such `}` |
| ConsoleParser.GreedyFromMeaning | Assets/Scripts/Debug/DebugConsoleManager.cs:635 | the match found is the leftmost start with a viable brace pair, ending at the last `}` on its line; no match means no viable pair exists |
| ConsoleParser.CsvStepCases | Assets/Scripts/Debug/DebugConsoleManager.cs:663-677 | a quote flips the quotation and is dropped, a comma outside quotes ends the piece, and every other character is kept |
| ConsoleParser.CsvAdvance | Assets/Scripts/Debug/DebugConsoleManager.cs:661-678 | one more character advances the scanner's state by that step |
| ConsoleParser.Trims | Assets/Scripts/Debug/DebugConsoleManager.cs:671 | one trimmed piece per piece |
| ConsoleParser.TrimsSnoc | Assets/Scripts/Debug/DebugConsoleManager.cs:671 | trimming one more piece appends its trimmed text |
| ConsoleParser.TrimsAt | Assets/Scripts/Debug/DebugConsoleManager.cs:671 | each trimmed piece is its piece trimmed |
| ConsoleParser.CleanParts | Assets/Scripts/Debug/DebugConsoleManager.cs:686-694 | one argument per part |
| ConsoleParser.CleanPartsStep | Assets/Scripts/Debug/DebugConsoleManager.cs:686-694 | cleaning one more part appends its cleaned text |
| ConsoleParser.Dequoted | Assets/Scripts/Debug/DebugConsoleManager.cs:665-668 | the text with its quotes removed holds no double quote |
| ConsoleParser.CsvRoundTrip | Assets/Scripts/Debug/DebugConsoleManager.cs:661-678 | joining the pieces and the last piece with commas gives back the input less its double quotes: nothing else is lost, and cuts fall only on commas |
| ConsoleParser.CsvQuoteParity | Assets/Scripts/Debug/DebugConsoleManager.cs:665-668 | the scanner is inside quotes exactly when it has seen an odd number of double quotes |
| ConsoleParser.CommaInQuotesKept | Assets/Scripts/Debug/DebugConsoleManager.cs:669 | a comma after an odd number of quotes does not split and is kept in the piece |
| ConsoleParser.CsvDropsQuotes | Assets/Scripts/Debug/DebugConsoleManager.cs:665-677 | no piece holds a double quote |
| ConsoleParser.TrimKeepsOut | Assets/Scripts/Debug/DebugConsoleManager.cs:671 | trimming adds no character |
| ConsoleParser.ArgsCarryNoQuotes | Assets/Scripts/Debug/DebugConsoleManager.cs:651-697 | no positional argument holds a double quote, and the clean-up leaves the scanned parts unchanged |
| ConsoleParser.CleanPartsFixed | Assets/Scripts/Debug/DebugConsoleManager.cs:686-694 | parts that are already clean are left as they are |
| ConsoleParser.ParsePositionalArguments | Assets/Scripts/Debug/DebugConsoleManager.cs:651-697 | the method returns the arguments: none for blank input, otherwise the scanned parts trimmed, with only an empty last piece dropped |
| ConsoleParser.SplitArguments | Assets/Scripts/Debug/DebugConsoleManager.cs:657-683 | the character loop computes the scanned parts |
| ConsoleParser.CleanArguments | Assets/Scripts/Debug/DebugConsoleManager.cs:686-694 | the clean-up loop computes the cleaned arguments |
| ConsoleParser.SplitterSane | Assets/Scripts/Debug/DebugConsoleManager.cs:728-765 | the bracket depth never goes negative, the splitter is inside a list exactly when the depth is positive, and never inside quotes and a list at once |
| ConsoleParser.DataSplitRoundTrip | Assets/Scripts/Debug/DebugConsoleManager.cs:731-765 | joining the pieces and the last piece with commas gives back the text: cuts fall only on commas and nothing is dropped |
| ConsoleParser.SplitStepShape | Assets/Scripts/Debug/DebugConsoleManager.cs:756-763 | a comma outside quotes and lists ends the piece; every other character is appended to it |
| ConsoleParser.SplitKeeps | Assets/Scripts/Debug/DebugConsoleManager.cs:735-763 | text inside open quotes (with no quote) or an open list (with no bracket) is appended to the piece without a split |
| ConsoleParser.WholeValues | Assets/Scripts/Debug/DebugConsoleManager.cs:735-763 | a quoted string or a flat list that starts outside quotes and lists stays in one piece, commas included |
| ConsoleParser.SplitDataBlock | Assets/Scripts/Debug/DebugConsoleManager.cs:723-773 | the character loop computes the trimmed pieces, with only an empty last piece dropped |
| ConsoleParser.DataValueReadings | Assets/Scripts/Debug/DebugConsoleManager.cs:775-803 | readings are taken in order: a list exactly for bracketed text, a quoted string, a bool (case-insensitive) which is never int text, a 32-bit int, a float only for text that is no int, and otherwise the text itself |
| ConsoleParser.ValueOf | Assets/Scripts/Debug/DebugConsoleManager.cs:775-803 | a list exactly for bracketed text; a bool only when the text reads as a bool and not as an integer; an int only when it reads as a 32-bit integer and not as a bool; a float only when both fail |
| ConsoleParser.BoolWordNoInt | Assets/Scripts/Debug/DebugConsoleManager.cs:794-798 | "true" and "false" in any case are not int text, so testing bools first takes nothing from ints |
| ConsoleParser.QuotedTextRoundTrip | Assets/Scripts/Debug/DebugConsoleManager.cs:788-791 | any text in double quotes reads back as that text |
| ConsoleParser.IntTextReads | Assets/Scripts/Debug/DebugConsoleManager.cs:798 | the decimal text of every 32-bit integer reads back as that integer |
| ConsoleParser.NumberTextReads | Assets/Scripts/Debug/DebugConsoleManager.cs:794-798 | trimmed integer text that starts with a digit or '-' reads as an int, never as a list, string or bool |
| ConsoleParser.CleanNumberReads | Assets/Scripts/Debug/DebugConsoleManager.cs:794-798 | integer text with no space at either end reads as that int |
| ConsoleParser.ParseDataValue | Assets/Scripts/Debug/DebugConsoleManager.cs:775-803 | the method computes the typed reading of the trimmed value |
| ConsoleParser.ReadValue | Assets/Scripts/Debug/DebugConsoleManager.cs:779-802 | the branch chain computes the reading |
| ConsoleParser.DataEntry | Assets/Scripts/Debug/DebugConsoleManager.cs:709-716 | a pair has an entry iff its first ':' is after index 0, and the key is the trimmed text before it |
| ConsoleParser.DataBlockKeys | Assets/Scripts/Debug/DebugConsoleManager.cs:699-721 | a key is in the data block iff the text is not blank and some piece has an entry with that key |
| ConsoleParser.DataBlockLastWins | Assets/Scripts/Debug/DebugConsoleManager.cs:716 | a key holds the value of its last pair: later duplicates overwrite earlier ones |
| ConsoleParser.DataBlock | Assets/Scripts/Debug/DebugConsoleManager.cs:699-721 | blank text gives the empty dictionary, and there are never more keys than top-level pieces |
| ConsoleParser.DataPartTrimmed | Assets/Scripts/Debug/DebugConsoleManager.cs:758-769 | every piece is trimmed |
| ConsoleParser.KeyOfTrimmed | Assets/Scripts/Debug/DebugConsoleManager.cs:709-712 | the key of a trimmed pair is non-empty, trimmed and free of ':' |
| ConsoleParser.DataKeysClean | Assets/Scripts/Debug/DebugConsoleManager.cs:699-721 | every data-block key is non-empty, trimmed and free of ':' |
| ConsoleParser.ParseDataBlock | Assets/Scripts/Debug/DebugConsoleManager.cs:699-721 | the loop computes the data block: an empty map for blank text, otherwise each piece's entry in order |
| ConsoleParser.Earlier | Assets/Scripts/Debug/DebugConsoleManager.cs:612-615 | the earlier of two `IndexOf` results, -1 only when both are -1 |
| ConsoleParser.FirstSeparator | Assets/Scripts/Debug/DebugConsoleManager.cs:607-617 | the separator is -1 or a position in the trimmed line |
| ConsoleParser.FirstSeparatorIsFirst | Assets/Scripts/Debug/DebugConsoleManager.cs:607-617 | the separator is the first space, `[` or `{` |
| ConsoleParser.BeforeData | Assets/Scripts/Debug/DebugConsoleManager.cs:627 | the text before the data block holds no `{`, is a prefix of the arguments, and is all of them when there is no `{` |
| ConsoleParser.ParsedAsWritten | Assets/Scripts/Debug/DebugConsoleManager.cs:600-649 | the parse as written: the trimmed, lower-cased name before the separator, and no arguments and no data without a separator |
| ConsoleParser.Parsed | Assets/Scripts/Debug/DebugConsoleManager.cs:600-649 | the corrected parse (Findings row 5) has the name and the data block of the code as written |
| ConsoleParser.CorrectionAgrees | Assets/Scripts/Debug/DebugConsoleManager.cs:624-640 | wherever the arguments part holds no `{`, the corrected parse equals the one as written |
| ConsoleParser.LazySkipsRun | Assets/Scripts/Debug/DebugConsoleManager.cs:627 | the lazy match skips a run without `[` |
| ConsoleParser.LineStopReaches | Assets/Scripts/Debug/DebugConsoleManager.cs:627 | the scan reaches the first `]` that no line break precedes |
| ConsoleParser.CsvPlain | Assets/Scripts/Debug/DebugConsoleManager.cs:661-678 | text without quotes or commas scans as a single piece |
| ConsoleParser.ArgsOfPlain | Assets/Scripts/Debug/DebugConsoleManager.cs:651-697 | non-blank text without quotes or commas is one trimmed argument |
| ConsoleParser.SpaceEndsName | Assets/Scripts/Debug/DebugConsoleManager.cs:607-615 | a name without space, `[` or `{` followed by a space ends at that space |
| ConsoleParser.NameThenBlock | Assets/Scripts/Debug/DebugConsoleManager.cs:607-624 | `name {…}` has the block as its arguments part |
| ConsoleParser.SpaceThenBlock | Assets/Scripts/Debug/DebugConsoleManager.cs:624 | trimming a space before a block leaves the block |
| ConsoleParser.ListInBlock | Assets/Scripts/Debug/DebugConsoleManager.cs:627 | in `{key:[v]}` the lazy bracket pattern matches the list value `v` |
| ConsoleParser.ListValueTakenForArguments | Assets/Scripts/Debug/DebugConsoleManager.cs:627-640 | as written, `name {key:[v]}` gets `v` as its positional argument; the corrected parse gets none |
| ConsoleParser.NoArgumentsBeforeData | Assets/Scripts/Debug/DebugConsoleManager.cs:624-632 | in the corrected parse, arguments that start with the data block give no positional arguments |
| ConsoleParser.ToLowerKeepsOut | Assets/Scripts/Debug/DebugConsoleManager.cs:619-623 | lower-casing adds no non-letter character |
| ConsoleParser.CommandNameShape | Assets/Scripts/Debug/DebugConsoleManager.cs:607-623 | the command name holds no space, `[`, `{` or upper-case letter |
| ConsoleParser.ParsedClean | Assets/Scripts/Debug/DebugConsoleManager.cs:600-649 | no positional argument holds a double quote, and every data-block key is non-empty, trimmed and free of ':' |
| ConsoleParser.ParseCommandLine | Assets/Scripts/Debug/DebugConsoleManager.cs:600-649 | the method computes the corrected parse: the lower-cased name before the first space, `[` or `{`, the positional list and the data block |
| ConsoleParser.SuggestionsSound | Assets/Scripts/Debug/DebugConsoleManager.cs:477-521 | every suggestion starts with the input, ignoring case, and is a registered name or the part of one before a dot |
| ConsoleParser.NamespaceSuggested | Assets/Scripts/Debug/DebugConsoleManager.cs:497-510 | typing a namespace suggests it, and every registered name under it |
| ConsoleParser.LogEntry | Assets/Scripts/Debug/DebugConsoleManager.cs:825-827 | a log line starts with the bracketed timestamp and ends with the message, and it is an error line iff its tag is `[ERROR]` |
| ConsoleParser.CappedAllLength | Assets/Scripts/Debug/DebugConsoleManager.cs:829-835 | the log grows by one line per entry until it reaches its bound, then keeps its length |
| ConsoleParser.CappedAllEndsWith | Assets/Scripts/Debug/DebugConsoleManager.cs:829-835 | the newest lines of the log are the entries just written, in order |
| ConsoleParser.CappedAllNewest | Assets/Scripts/Debug/DebugConsoleManager.cs:829-835 | the line written last is the newest line of the log |
| ConsoleParser.CappedAllOlder | Assets/Scripts/Debug/DebugConsoleManager.cs:829-835 | a line written earlier moves down by one with each later line |
| ConsoleParser.CappedShifts | Assets/Scripts/Debug/DebugConsoleManager.cs:832-835 | a line that survives the cap moves one place further from the newest |
| ConsoleParser.CappedAllConcat | Assets/Scripts/Debug/DebugConsoleManager.cs:829-835 | writing two runs of lines is writing them one after the other |
| ConsoleParser.Lines | Assets/Scripts/Debug/DebugConsoleManager.cs:825-827 | one stamped line per entry |
| ConsoleParser.LoggedOne | Assets/Scripts/Debug/DebugConsoleManager.cs:823-835 | logging one entry is one capped append |
| ConsoleParser.LoggedConcat | Assets/Scripts/Debug/DebugConsoleManager.cs:823-835 | logging two runs of entries is logging them one after the other |
| ConsoleParser.Dispatch | Assets/Scripts/Debug/DebugConsoleManager.cs:552-570 | a call happens iff the parsed name is non-empty and registered; it carries that name and the data block, and it gains one argument, the selected entity, only for a command that needs a target and got none |
| ConsoleParser.Responses | Assets/Scripts/Debug/DebugConsoleManager.cs:568-589 | at most one reply line follows the echo; an unknown or empty name always gives an error line; an informational line is always the command's own reply |
| ConsoleParser.UpperCaseNameNeverCalled | Assets/Scripts/Debug/DebugConsoleManager.cs:554-623 | a registered name with an upper-case letter is never called, whatever is typed: the parsed name is lowered before the lookup |
| ConsoleParser.ExecutionLogged | Assets/Scripts/Debug/DebugConsoleManager.cs:547-589 | the executed command is echoed first, and an unknown or empty name leaves an error line last |
| ConsoleParser.DebugConsoleManager.constructor | Assets/Scripts/Debug/DebugConsoleManager.cs:22-61 | fifty history entries and a hundred log lines at most, all lists and the registry empty, indices at -1 |
| ConsoleParser.DebugConsoleManager.NavigateHistory | Assets/Scripts/Debug/DebugConsoleManager.cs:460-475 | nothing on an empty history; otherwise the index is the clamped move, in [-1, count-1], and the input shows that entry (empty at -1); the invariant is kept |
| ConsoleParser.DebugConsoleManager.HandleUpArrow | Assets/Scripts/Debug/DebugConsoleManager.cs:217-232 | with suggestions shown, the selection moves up but not below 0; otherwise the history moves back |
| ConsoleParser.DebugConsoleManager.HandleDownArrow | Assets/Scripts/Debug/DebugConsoleManager.cs:234-249 | with suggestions shown, the selection moves down but not past the last; otherwise the history moves forward |
| ConsoleParser.DebugConsoleManager.UpdateSuggestions | Assets/Scripts/Debug/DebugConsoleManager.cs:477-521 | empty input hides the list; otherwise the list holds every registered name and every namespace the input starts, ignoring case; it is shown iff it is non-empty, with the first item selected |
| ConsoleParser.DebugConsoleManager.HandleAutoComplete | Assets/Scripts/Debug/DebugConsoleManager.cs:523-530 | a shown suggestion replaces the input and the list is hidden; otherwise nothing changes |
| ConsoleParser.DebugConsoleManager.FindMatching | Assets/Scripts/Debug/DebugConsoleManager.cs:488-495 | the first loop collects exactly the registered names the input starts, each once |
| ConsoleParser.DebugConsoleManager.FindNamespaces | Assets/Scripts/Debug/DebugConsoleManager.cs:497-512 | the second loop collects exactly the namespace prefixes the input starts, each once |
| ConsoleParser.DebugConsoleManager.AddNamespacesOf | Assets/Scripts/Debug/DebugConsoleManager.cs:501-509 | the inner loop adds exactly the dot-prefixes of one name that the input starts |
| ConsoleParser.NamespacesGrow | Assets/Scripts/Debug/DebugConsoleManager.cs:498-510 | the namespaces of one more name are those of its dot positions |
| ConsoleParser.NamespacesBeforeStep | Assets/Scripts/Debug/DebugConsoleManager.cs:502-508 | one more position adds its prefix exactly when it holds a dot the input starts |
| ConsoleParser.SetToSeq | Assets/Scripts/Debug/DebugConsoleManager.cs:512 | `AddRange` of a set adds each element once |
| ConsoleParser.DebugConsoleManager.RegisterCommand | Assets/Scripts/Debug/DebugConsoleManager.cs:906-909 | the exact name (case kept) maps to the new command, replacing any earlier one |
| ConsoleParser.DebugConsoleManager.LogToConsole | Assets/Scripts/Debug/DebugConsoleManager.cs:823-835 | one stamped line is appended and the oldest line goes beyond the bound, so the log stays within its bound |
| ConsoleParser.DebugConsoleManager.ExecuteCommand | Assets/Scripts/Debug/DebugConsoleManager.cs:532-597 | empty input changes nothing; otherwise the input as typed is appended unless it repeats the last entry, the log gets the echo and the reply, the dispatched call is the registered command with the arguments of the corrected parse (Findings row 5), and the input, history index and suggestions are reset; the invariant is kept |
| ConsoleParser.DebugConsoleManager.RecordInput | Assets/Scripts/Debug/DebugConsoleManager.cs:537-544 | the history step: appended unless repeating the last entry, capped, with no repeated neighbours |
| ConsoleParser.DebugConsoleManager.Respond | Assets/Scripts/Debug/DebugConsoleManager.cs:552-589 | the dispatch step: the call made and the reply lines logged |
| ConsoleParser.DebugConsoleManager.Exchange | Assets/Scripts/Debug/DebugConsoleManager.cs:546-589 | the log step: the echo "> input" followed by the reply lines, capped at the log bound, and the call dispatched |

## Left out

- Integer overflow: C# `int` arithmetic (counts, quantities, experience, stock) is modelled unbounded; no code path near the 32-bit limit is modelled.
- Floating point: `float` is `real`, so rounding and NaN/infinity are not modelled; `Mathf.Approximately` is read as equality.
- I/O and the engine: Unity lifecycle methods, rendering, GUI layout, input devices, events and logging to the Unity console are not modelled; `DateTime.Now` is a timestamp parameter, `subprocess.run` and `requests` are oracles.
- InventoryComponent: the overloads taking item names as strings (`Enum.TryParse`) are not modelled.
- EquipmentComponent.GetEquippedItems: the returned list aliases the component's own list; the model returns its value, so a caller's change to it is not modelled.
- Gear: an equipped item holds the subset of the item fields the equipment code reads.
- AdvancedEquipmentComponent: the null-profile fallback, `GetAllEquippedItems` and `GetAvailableSlots` are not modelled.
- Quests: rewards and the objective fields no operation reads are not modelled.
- Item: the float durability, quality and value helpers (ItemStruct.cs:162-231) are not modelled.
- ItemRepository: the default items of `Initialize`, the query methods, `GetAllTags`, `ItemExists*`, `GetNextItemID`, `GetAllItems` and `GetRepositoryStats` are not modelled; `CreateItem` ignores the arguments the code does not store.
- EntityRepository: the default templates, the queries and random lookups, `EntityExists`, `GetNextEntityID` and the statistics are not modelled.
- Stat: `CreateAttribute` and the display strings are not modelled.
- StatCollection: the query helpers, `GetSummary`, `CreateDefault` and `GetStatValue`/`GetStatPercentage` are not modelled.
- StatRepository: the queries, `CreateStatInstance`, `CreateEntityStatSet` and the long default descriptions are not modelled.
- SkillRepository: `GetVisibleStats`/`GetModifiableStats` are not modelled (the visibility flags are not part of the model).
- Entity: `UpdateStats` (Database.cs:456-485) and the reward lists of `LevelingSystem` are not modelled.
- TimeManager: day/night lighting, input handling, formatted strings and events are not modelled.
- TimeManager.AdvanceDay: requires a non-zero `daysPerSeason` when seasons are on, because the code would throw `DivideByZeroException` there.
- ResourceManager: events are not modelled, and the default argument values (5, 20, 15) are not part of the signatures.
- SettlementManager: the per-frame processing (needs, breeding, resource generation, state transitions) and the random names and positions are not modelled; pops are opaque handles.
- SettlementManager.RemoveNullPop: requires a valid index, which the code's callers always pass.
- SettlementManager.ConsumeResource: the code compares an `int` stock with a `float` amount; the model compares them as reals.
- EntityDataComponent: events are not modelled.
- `float.TryParse`: the console parsers take it as a parameter (`parseFloat`), since its culture-dependent grammar is not modelled.
- ConsoleParser.DebugConsoleManager.UpdateSuggestions: states the suggestions as a multiset; the order of `OrderBy(s => s)` (a culture-sensitive string comparison) is not modelled.
- ConsoleParser.DebugConsoleManager.ExecuteCommand: the command delegate is not modelled; what it returned or threw is a parameter, and the call it would receive is returned. Its arguments are those of the corrected parse `Parsed`, not of `ParsedAsWritten` (Findings row 5).
- StatCollections.StatCollection.GetStat: applies the identity modifiers to a stat without any (Findings row 2); the all-zero modifiers the code as written uses are `CombinedModifiersAsWritten`.
- ConsoleParser.DebugConsoleManager: the command implementations registered by `RegisterCommands` (population, resources, entities) and `GetSelectedEntityTarget` (a parameter) are not modelled.
- ScrappedConsole: `ProcessCommand`, `HandleNamespacedCommand`, the built-in commands, log filtering and the suggestion list of the earlier console are not modelled; `ExecuteCommand` returns the parsed command it would process.
- Connector.ExitCode: a malformed command line makes `argparse` exit with 2 before `main` runs; `argparse` is not part of this model, and whether a request branch raised is a parameter (`escaped`) rather than derived from the reply's JSON.
- Connector.ShippedExitCodes: the same `argparse` exit 2 is not covered.
- Connector.SortEntries: the key lower-cases names with ASCII folding (`Text.ToLower`), while Python's `str.lower()` (connector.py:139) folds every Unicode letter; two names whose first difference is a non-ASCII letter in different case, such as "éa" and "Éb", can sort in the opposite order.
- Connector.NamesOrderedWithinKind: the order it states is that of the ASCII-folded names, for the same reason.
- Connector: whether an undecodable 200 reply is a network error depends on the `requests` version; the model leaves it to the `escaped` parameter.
- CommandServer.Handle: the body is the value `request.get_json()` returns (`JNull` when there is none); how Flask itself treats a non-JSON content type or an undecodable body, which depends on its version, is not modelled, nor is the content of its 500 page.
- ScrappedConsole.ReadingsInOrder: states the reading that does not throw; a lone quote value or list item throws as written, which `ScrappedConsole.ValueThrows` and `ScrappedConsole.ParsedAsWritten` capture (Findings row 6).
- ScrappedConsole.TypedValue: gives a lone quote value or list item the corrected reading; the throw is captured by `ValueThrows` (Findings row 6).
- ScrappedConsole.ParseDataValue: computes the corrected reading; where the source throws, see `ValueThrows` (Findings row 6).
- ScrappedConsole.ReadValue: computes the corrected reading; where the source throws, see `ValueThrows` (Findings row 6).
- ScrappedConsole.ReadPair: computes the corrected entry; a pair whose key or value is a lone quote throws as written, which `PairThrows` captures (Findings row 6).
- ScrappedConsole.ParseDataBlock: computes the corrected data block; where a pair throws as written, see `PairThrows` (Findings row 6).
- ScrappedConsole.Parsed: the corrected parse; the parse as written, which throws on a lone quote, is `ParsedAsWritten` (Findings row 6).
- ScrappedConsole.ParseCommandLine: computes `Parsed`, the corrected parse; `ExecuteCommand` runs it only where `ParseThrows` is false, and stops with the input kept where it is true.
- ScrappedConsole.DebugConsoleManager.ExecuteCommand: the echo `LogToConsole($"> {command}", ...)` (DebugConsoleManagerSCRAPPED.cs:612) is not modelled, because the earlier console's log (its entry types, colours and filtering) is not part of this model; the exception of a throwing parse leaves the method after the history step and the echo; what `ProcessCommand` and Unity's handling of the exception do next is not modelled.
- ItemRepositories.ItemRepository.UpdateItem: items are values in the model, but the C# `Item` struct shares its tag `List<string>` between copies, so after `GetItem` and `AddTag` the stored item already holds the new tag and `UpdateItem` sees no difference and never indexes it; that aliasing is not modelled.
- ItemRepositories.ItemRepository.UpdateItem: computes the corrected update, which skips a dropped tag whose list is already gone; as written, `UpdateTagMappings` then throws `KeyNotFoundException` (an item tagged "Melee" and "melee" updated to have no tags), which `ItemStore.UpdateItemAsWritten` and `CaseVariantTagBreaksUpdate` capture (Findings row 7).
- EntityRepositories.EntityRepository.constructor: the four dictionaries are null until `Initialize` (EntityRepository.cs:16-19), so before it `RegisterEntityTemplate`, `UpdateEntityTemplate`, `RemoveEntityTemplate`, `GetEntityByID`, `GetEntityByName` and `ValidateRepository` throw `NullReferenceException` (for example EntityRepository.cs:227); the model reads the null dictionaries as empty maps, so those operations succeed there. `ClearAllTemplates` uses `?.` and does not throw, as modelled.
- EntityComponents.EntityDataComponent.ChangeState: applies the corrected `Entities.Entity.ChangeState`; the code (EntityDataComponent.cs:185-193) calls the record's `ChangeState` as written, which `Entities.Entity.ChangeStateAsWritten` models, so `ChangeState(Idle)` on an entity without an Idle state installs the nameless default state (Findings row 4, `Entities.NewEntityLosesIdleState`).
- ConsoleParser.ParseCommandLine: computes the corrected parse `Parsed`; the code (DebugConsoleManager.cs:627-632) looks for the positional list in the whole arguments part, which `ConsoleParser.ParsedAsWritten` models, so `give {items:[a]}` gets the positional argument "a" there and none here (Findings row 5, `ConsoleParser.ListValueTakenForArguments`).
- The exception handler of DebugConsoleManager.cs `ParseCommandLine` (a null result) is not modelled: no step of the parse can throw.

## Findings

| source | as written | input that shows it | evidently intended | confidence | as-written member | corrected member |
|---|---|---|---|---|---|---|
| Assets/Scripts/Systems/Data/Database/Stats/StatRepository.cs:55-76 | `Initialize` registers the default stats through `RegisterStat`, which calls `EnsureInitialized` before the initialised flag is set, so initialisation re-enters itself without end | the first call to any repository operation | set the flag before registering the defaults | not executed | StatRepositories.InitializeNeverReturns | StatRepositories.StatRepository.Initialize |
| Assets/Scripts/Systems/Data/Database/Stats/StatCollection.cs:279-284 | with no modifiers, `new StatModifiers()` is the all-zero struct (multiplier 0), so every stat without modifiers is reported with base 0 | a stat stored with base 10 and no modifiers is reported with base 0 | the identity modifiers of the constructor's default arguments | not executed | StatCollections.StatCollection.UnmodifiedStatReportedAsZero | StatCollections.StatCollection.UnmodifiedStatReportedAsStored |
| Assets/Scripts/Systems/Data/Database/Items/ItemRepository.cs:299-304 | tags are kept case-sensitively on the item but indexed case-insensitively; removing "melee" from an item tagged "Melee" and "melee" drops the shared index list, and a later `DeleteItem` or `RemoveTagFromItem("Melee")` throws `KeyNotFoundException` | create "Sword", tag it "Melee", then "melee", remove "melee", delete the item | skip a tag whose index entry is already gone | not executed | ItemRepositories.CaseVariantTagBreaksDelete | ItemRepositories.IndexRemove |
| Assets/Scripts/Systems/Data/Database.cs:508-518 | `List.Find` returns `default(State)` when no state matches, and its identifier 0 is Idle's, so the check passes and the default state, nameless and uninterruptible, becomes current | `ChangeState(Idle)` on a new entity, whose list of available states is empty | leave the entity unchanged when no state matches | not executed | Entities.NewEntityLosesIdleState | Entities.Entity.ChangeState |
| Assets/Scripts/Debug/DebugConsoleManager.cs:627-640 | `\[(.*?)\]` is searched in the whole arguments part, so a list value inside the data block is taken for the positional arguments | `give {items:[a]}` gets the positional argument "a" | look for the positional list before the data block only | not executed | ConsoleParser.ListValueTakenForArguments, ConsoleParser.ParsedAsWritten | ConsoleParser.Parsed |
| Assets/Scripts/Debug/DebugConsoleManagerSCRAPPED.cs:745-787 | a key, a value or a list item that trims to a lone quote character both starts and ends with a quote, and `Substring(1, Length - 2)` is called with length -1 and throws | `c {": "x}` (a key), `c {x":"}` (a value) | unquote only text of length two or more | not executed | ScrappedConsole.ParsedAsWritten, ScrappedConsole.LoneQuoteKeyParseThrows, ScrappedConsole.LoneQuoteValueThrows | ScrappedConsole.Unquote, ScrappedConsole.Parsed |
| Assets/Scripts/Systems/Data/Database/Items/ItemRepository.cs:574-584 | `UpdateTagMappings` removes the item from `_itemsByTag[tag]` for every dropped tag, and the two case variants of a tag share one list: the first removal empties and deletes it, and the indexer throws `KeyNotFoundException` on the second | an item tagged "Melee" and "melee" updated to have no tags | skip a tag whose index entry is already gone | not executed | ItemRepositories.CaseVariantTagBreaksUpdate | ItemRepositories.UnindexTagsClears |
