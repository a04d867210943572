/** Concrete catalogs and what loading them leaves in the registry. */
module Scenarios {
  import opened Results
  import opened Items
  import opened UnknownItems
  import opened Recipes
  import opened SectionFold
  import opened RecipeLoader
  import opened LoaderProperties

  const Wood: Item := Item(17, 0, 2, false)
  const Planks: Item := Item(5, 0, 4, false)
  const IronOre: Item := Item(15, 0, 1, false)
  const IronIngot: Item := Item(265, 0, 1, false)

  /** A registry that knows wood, planks, iron ore and iron ingots, and no bare ids. */
  const Known: Registry := Registry({(17, 0), (5, 0), (15, 0), (265, 0)}, {})

  function ShapelessOnly(rs: seq<RawShapeless>): Sections {
    Sections(rs, [], [], [], [])
  }

  /** A crafting-table shapeless record with registered items is stored as is. */
  lemma CraftingTableRecordIsStored()
    ensures var r := Make(Known, Catalog(ShapelessOnly([RawShapeless("crafting_table", [Wellformed(Wood)], [Wellformed(Planks)])])));
      r.Ok? && r.value.shapeless == [ShapelessRecipe([Wood], [Planks], Crafting)]
  {
    var raw := RawShapeless("crafting_table", [Wellformed(Wood)], [Wellformed(Planks)]);
    MakeRegistersAcceptedRecords(Known, ShapelessOnly([raw]));
    assert Payload(raw.input) == [Wood] && Payload(raw.output) == [Planks];
    SingletonChecks(Known, Wood);
    SingletonChecks(Known, Planks);
    assert ShapelessOutcome(Known, raw) == Ok(Some(ShapelessRecipe([Wood], [Planks], Crafting)));
    assert Accepted(ShapelessStep(Known), [raw]) == [ShapelessRecipe([Wood], [Planks], Crafting)];
  }

  /** A shapeless record for an unknown block is skipped, even with malformed items. */
  lemma UnknownShapelessBlockIsSkipped()
    ensures Make(Known, Catalog(ShapelessOnly([RawShapeless("campfire", [Malformed], [Wellformed(Planks)])])))
         == Ok(EmptyManager())
  {
  }

  /** A furnace record goes to the furnace store only. */
  lemma FurnaceRecordFillsOnlyFurnaceStore()
    ensures var r := Make(Known, Catalog(Sections([], [], [RawSmelting("furnace", Wellformed(IronOre), Wellformed(IronIngot))], [], [])));
      && r.Ok?
      && r.value.FurnaceStore(Furnace) == [FurnaceRecipe(IronIngot, IronOre)]
      && r.value.FurnaceStore(BlastFurnace) == []
      && r.value.FurnaceStore(Smoker) == []
  {
  }

  /** Known, plus the bare id 374 (and not 373). */
  const KnownOutputId: Registry := Known.(ids := {374})

  /** A container-change record whose input id alone is unregistered is skipped and
      the load completes. */
  lemma UnknownContainerIdIsSkipped()
    ensures Make(KnownOutputId, Catalog(Sections([], [], [], [], [RawContainerChange(373, Wellformed(Wood), 374)])))
         == Ok(EmptyManager())
  {
  }

  /** The same record is stored, ids unchanged, once its input id is registered too. */
  lemma KnownContainerIdsAreStored()
    ensures var r := Make(Known.(ids := {373, 374}), Catalog(Sections([], [], [], [], [RawContainerChange(373, Wellformed(Wood), 374)])));
      r.Ok? && r.value.containerChanges == [PotionContainerChangeRecipe(373, Wood, 374)]
  {
  }

  /** A shaped record for the stonecutter is skipped, whatever its items. */
  lemma StonecutterShapedRecordIsSkipped()
    ensures Make(Known, Catalog(Sections([], [RawShaped("stonecutter", ["A"], [("A", Wellformed(Wood))], [Wellformed(Planks)])], [], [], [])))
         == Ok(EmptyManager())
  {
  }

  /** A wildcard-meta output coming from the data aborts the load rather than being
      skipped, once the inputs are known. */
  lemma WildcardOutputAborts()
    ensures Make(Known, Catalog(ShapelessOnly([RawShapeless("crafting_table", [Wellformed(Wood)], [Wellformed(Planks.(anyDamage := true))])])))
         == Err(InvalidArgument)
  {
  }

  /** With an unknown input, the same wildcard output never reaches the strict check. */
  lemma UnknownInputShieldsWildcardOutput()
    ensures Make(Known, Catalog(ShapelessOnly([RawShapeless("crafting_table", [Wellformed(Item(1, 0, 1, false))], [Wellformed(Planks.(anyDamage := true))])])))
         == Ok(EmptyManager())
  {
  }

  /** A wildcard-meta input is checked as meta 0 and stored with its wildcard. */
  lemma WildcardInputIsStoredVerbatim()
    ensures var wild := Wood.(meta := -1, anyDamage := true);
      var r := Make(Known, Catalog(ShapelessOnly([RawShapeless("stonecutter", [Wellformed(wild)], [Wellformed(Planks)])])));
      r.Ok? && r.value.shapeless == [ShapelessRecipe([wild], [Planks], Stonecutter)]
  {
    var wild := Wood.(meta := -1, anyDamage := true);
    var raw := RawShapeless("stonecutter", [Wellformed(wild)], [Wellformed(Planks)]);
    MakeRegistersAcceptedRecords(Known, ShapelessOnly([raw]));
    assert Payload(raw.input) == [wild] && Payload(raw.output) == [Planks];
    SingletonChecks(Known, wild);
    SingletonChecks(Known, Planks);
    assert ShapelessOutcome(Known, raw) == Ok(Some(ShapelessRecipe([wild], [Planks], Stonecutter)));
    assert Accepted(ShapelessStep(Known), [raw]) == [ShapelessRecipe([wild], [Planks], Stonecutter)];
  }
}
