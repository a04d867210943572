# Recipe catalog loader — a Dafny model

This project models `CraftingManagerFromDataHelper`, the loader that builds a
`CraftingManager` from a decoded recipe catalog. The catalog has five sections:
`shapeless`, `shaped`, `smelting`, `potion_type` and `potion_container_change`.
For every record, in file order, the loader does three things:

- **classify** the record by its `block` (closed lookups to a shapeless kind or a furnace kind);
- **decode and validate** the items against the item registry. Inputs and
  ingredients are checked *tolerantly*: a wildcard meta is looked up as meta 0.
  Outputs are checked *strictly*: a wildcard meta throws;
- **register** the typed recipe into the right store, or skip the record silently.

Files and modules:

- `results.dfy` — `Results`: `Option`, `Result` and `LoadError`. The error values
  stand for `AssumptionFailedError`, `InvalidArgumentException` and a failure of
  `Item::jsonDeserialize`.
- `items.dfy` — `Items`: the `Item` record (id, meta, count, wildcard flag) and the
  `Registry` with its two questions, `IsRegistered(id, meta)` and `IsRegisteredId(id)`.
  Also the item data before decoding, and `array_map` of the decoder over plain and
  keyed lists.
- `unknown_items.dfy` — `UnknownItems`: `containsUnknownItems` in both modes, and the
  `input || output` check shared by four sections.
- `recipes.dfy` — `Recipes`: block-name lookups, the typed recipes, and the
  `CraftingManager` stores. The furnace stores are a map from `FurnaceType` to a sequence.
- `section_fold.dfy` — `SectionFold`: one `foreach` loop of `make`, generic in the
  section. Each record aborts, is skipped, or registers one recipe. `Accepted`
  (a filter) and `SelectedFrom` (the positions kept) are its reference definitions.
- `recipe_loader.dfy` — `RecipeLoader`: the decoded root, the five loop bodies, and `Make`.
- `loader_properties.dfy` — `LoaderProperties`: what each store holds after a load.
- `scenarios.dfy` — `Scenarios`: concrete catalogs and their results.

Where the code behaves differently from what a skip-on-bad-data loader would suggest,
the model follows the code:

- A wildcard-meta output that comes from the data aborts the whole load with
  `InvalidArgumentException`. The record is not skipped. This happens only when the
  record's inputs all pass, because the `||` at lines 78, 93, 115 and 127
  short-circuits on an unknown input.
- Items are decoded before they are checked. For shapeless, shaped and smelting
  records this happens after the block lookup. For potion records it happens first of
  all. So a malformed item aborts the load unless its record was already skipped by
  its block.
- The code reads each section with a plain index (lines 66, 87, 102, 123 and 136).
  Under PHP 8, a missing key yields null with a warning, and `foreach` over null warns
  and runs zero times. So a missing section acts as an empty one unless the host turns
  warnings into exceptions, in which case it aborts the load. The model does not pick
  either outcome: every section is present, possibly empty.

## Model

| member | source | states |
|---|---|---|
| UnknownItems.ContainsUnknownItems | src/crafting/CraftingManagerFromDataHelper.php:39-55 | in tolerant mode it never throws and answers exactly whether some item, looked up with meta 0 when it is a wildcard, is unregistered; only strict mode throws, with InvalidArgumentException |
| UnknownItems.StrictScan | src/crafting/CraftingManagerFromDataHelper.php:41-54 | strict mode answers false exactly when every item is a registered non-wildcard variant; it throws exactly when a wildcard comes before any unregistered item; otherwise it answers true |
| UnknownItems.UnknownInputsOrOutputs | src/crafting/CraftingManagerFromDataHelper.php:78 | the record passes exactly when inputs pass the tolerant check and outputs the strict one; it throws exactly when inputs pass and the strict scan of outputs meets a wildcard first; an unknown input answers true and rules out the throw |
| Items.Deserialize | src/crafting/CraftingManagerFromDataHelper.php:113-114 | decoding one item succeeds exactly when its data is well formed and yields the encoded item; otherwise it fails with the decoder's error |
| Items.DecodeAll | src/crafting/CraftingManagerFromDataHelper.php:76-77 | decoding a list succeeds exactly when every entry is well formed, and yields the encoded items position by position; otherwise it fails with the decoder's error |
| Items.DecodeKeyed | src/crafting/CraftingManagerFromDataHelper.php:91 | decoding a keyed list keeps every key and order and yields the encoded items; it fails exactly when some entry is malformed |
| Recipes.ShapelessKind | src/crafting/CraftingManagerFromDataHelper.php:67-72 | a shapeless kind is found exactly when the block is that kind's name ("crafting_table" or "stonecutter"); any other block finds none |
| Recipes.FurnaceKind | src/crafting/CraftingManagerFromDataHelper.php:103-109 | a furnace kind is found exactly when the block is that kind's name ("furnace", "blast_furnace" or "smoker"); any other block finds none |
| Recipes.EmptyManager | src/crafting/CraftingManagerFromDataHelper.php:62 | a fresh registry has all three furnace stores, every furnace store is empty, and the shapeless, shaped, potion-type and container-change stores are empty |
| Recipes.AddFurnace | src/crafting/CraftingManagerFromDataHelper.php:118-121 | registering a furnace recipe appends it to the store of its furnace kind only; the other furnace stores and all other stores are unchanged, and every store stays present |
| RecipeLoader.ShapelessOutcome | src/crafting/CraftingManagerFromDataHelper.php:66-86 | an unknown block skips before decoding; the record aborts exactly on a malformed item or on a known-input wildcard output; it is registered exactly when inputs pass tolerantly and outputs strictly, with the decoded items unchanged and the looked-up kind |
| RecipeLoader.ShapedOutcome | src/crafting/CraftingManagerFromDataHelper.php:87-101 | any block but "crafting_table" skips, whatever the items; otherwise the same abort and register conditions as shapeless records, and the stored shape, keyed ingredients and outputs are the record's own |
| RecipeLoader.SmeltingOutcome | src/crafting/CraftingManagerFromDataHelper.php:102-122 | an unknown block skips; the record aborts exactly on a malformed item or on a tolerated input with a wildcard output; it is registered exactly when the input is tolerated and the output strictly known, as (output, input) bound for the block's furnace kind |
| RecipeLoader.PotionTypeOutcome | src/crafting/CraftingManagerFromDataHelper.php:123-135 | all three items are decoded first; the record aborts exactly on a malformed item or on tolerated input and ingredient with a wildcard output; it is registered exactly when input and ingredient are tolerated and the output strictly known, storing all three unchanged |
| RecipeLoader.ContainerChangeOutcome | src/crafting/CraftingManagerFromDataHelper.php:136-148 | the record aborts exactly when its ingredient is malformed; it is registered exactly when both bare ids are registered and the ingredient is tolerated, with both ids unchanged |
| RecipeLoader.Make | src/crafting/CraftingManagerFromDataHelper.php:57-151 | a decoded root that is not an array aborts the load with AssumptionFailedError; a catalog loads exactly when no record of any section aborts, and a failed load reports the first abort in file order |
| SectionFold.Run | src/crafting/CraftingManagerFromDataHelper.php:66-148 | a section loop completes exactly when none of its records aborts, and then the registry has received the accepted recipes in file order; otherwise its error is that of the first aborting record |
| SectionFold.Accepted | src/crafting/CraftingManagerFromDataHelper.php:66-148 | a section yields no more recipes than it has records |
| SectionFold.AcceptedMembers | src/crafting/CraftingManagerFromDataHelper.php:66-148 | every yielded recipe is the recipe of some record of the section, and every registered record's recipe is yielded |
| SectionFold.AcceptedInFileOrder | src/crafting/CraftingManagerFromDataHelper.php:66-148 | the yielded recipes are, one for one, those of the registered records at strictly increasing positions, and every registered position is among them |
| SectionFold.AllAdmittedKeepsEveryRecord | src/crafting/CraftingManagerFromDataHelper.php:66-148 | when every record of a section is registered, the store holds one recipe per record, in record order |
| LoaderProperties.ReplayShapeless | src/crafting/CraftingManagerFromDataHelper.php:81-85 | registering shapeless recipes appends them to the shapeless store and changes no other store |
| LoaderProperties.ReplayShaped | src/crafting/CraftingManagerFromDataHelper.php:96-100 | registering shaped recipes appends them to the shaped store and changes no other store |
| LoaderProperties.ReplayFurnaces | src/crafting/CraftingManagerFromDataHelper.php:118-121 | registering furnace recipes appends to each furnace kind's store exactly the recipes bound for it, keeps all three stores present, and changes nothing outside the furnace stores |
| LoaderProperties.ReplayPotionTypes | src/crafting/CraftingManagerFromDataHelper.php:130-134 | registering potion-type recipes appends them to their store and changes no other store |
| LoaderProperties.ReplayContainerChanges | src/crafting/CraftingManagerFromDataHelper.php:143-147 | registering container-change recipes appends them to their store and changes no other store |
| LoaderProperties.MakeRegistersAcceptedRecords | src/crafting/CraftingManagerFromDataHelper.php:57-151 | a completed load holds in each store exactly the accepted records of its section in file order, and in each furnace store exactly the accepted smelting records of that kind |
| LoaderProperties.StoresNoLargerThanSections | src/crafting/CraftingManagerFromDataHelper.php:66-148 | after a completed load no store holds more recipes than its section has records |
| LoaderProperties.SmeltingRecordGrowsOneStore | src/crafting/CraftingManagerFromDataHelper.php:102-122 | one smelting record grows only the store of its block's furnace kind, by exactly the recipe (output, input), and only when its items pass; every other store is unchanged |
| Scenarios.CraftingTableRecordIsStored | src/crafting/CraftingManagerFromDataHelper.php:66-86 | a crafting-table record with registered items leaves exactly that recipe in the shapeless store |
| Scenarios.UnknownShapelessBlockIsSkipped | src/crafting/CraftingManagerFromDataHelper.php:67-75 | a record for an unknown block is skipped before its items are decoded, so even a malformed item does not abort |
| Scenarios.FurnaceRecordFillsOnlyFurnaceStore | src/crafting/CraftingManagerFromDataHelper.php:102-122 | a furnace record fills the furnace store and leaves the blast-furnace and smoker stores empty |
| Scenarios.UnknownContainerIdIsSkipped | src/crafting/CraftingManagerFromDataHelper.php:136-142 | a container-change record whose input id alone is unregistered (its output id and ingredient are known) is skipped and the load completes |
| Scenarios.KnownContainerIdsAreStored | src/crafting/CraftingManagerFromDataHelper.php:136-148 | the same record with both ids registered is stored, with both ids and the ingredient unchanged |
| Scenarios.StonecutterShapedRecordIsSkipped | src/crafting/CraftingManagerFromDataHelper.php:88-90 | a shaped record for the stonecutter is skipped whatever its items |
| Scenarios.WildcardOutputAborts | src/crafting/CraftingManagerFromDataHelper.php:43-46 | a wildcard-meta output from the data, behind known inputs, aborts the load with InvalidArgumentException |
| Scenarios.UnknownInputShieldsWildcardOutput | src/crafting/CraftingManagerFromDataHelper.php:78 | with an unknown input, the same wildcard output is never checked and the record is skipped |
| Scenarios.WildcardInputIsStoredVerbatim | src/crafting/CraftingManagerFromDataHelper.php:43-49 | a wildcard-meta input is looked up as meta 0 and stored with its wildcard intact |

## Left out

- Reading the file and `json_decode` (line 58) are I/O. The model takes the decoded
  root as its input. A decode that yields `null` or a scalar is the `NonArray` root.
- `Item::jsonDeserialize` is not part of this model. An item's data is either a
  well-formed encoding of an `Item` or malformed, and a malformed one aborts the load.
  Item NBT is not modelled.
- `ItemFactory` is not part of this model. The registry is two sets: known
  (id, meta) variants and known bare ids. The model does not relate the bare-id
  question at line 138 to the (id, meta) one.
- `CraftingManager`, `ShapedRecipe`, `FurnaceRecipeManager` and the other recipe
  classes are not part of this model. Their stores are append-only sequences. Any
  validation their constructors do, such as checking a shape, is not modelled.
- A missing section key is not modelled, because the outcome depends on how the host
  handles PHP warnings (see above). Every section is present.
- A missing record field is not modelled. Every record has typed fields.
- A `block` that is not a string is skipped by the code exactly like an unrecognised
  name. Both `match` lookups compare strictly and fall to `default` (lines 67-74 and
  103-112), and the shaped filter uses `!==` (line 88). So `block: string` loses no
  behaviour: any non-string value acts like a string outside the lookup tables.
- src/world/particle/BlockPunchParticle.php is a one-line packet encoding with no
  state. It is outside the loader.
