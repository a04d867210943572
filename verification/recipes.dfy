/** Recipe kinds, the block names that select them, and the typed recipes the
    loader builds. */
module Recipes {
  import opened Results
  import opened Items

  /** The block name of the primary crafting surface. */
  const CraftingTable: string := "crafting_table"

  datatype ShapelessRecipeType = Crafting | Stonecutter

  datatype FurnaceType = Furnace | BlastFurnace | Smoker

  /** The block name each shapeless kind is read from. */
  function ShapelessBlock(k: ShapelessRecipeType): string {
    match k
    case Crafting => CraftingTable
    case Stonecutter => "stonecutter"
  }

  /** The block name each furnace kind is read from. */
  function FurnaceBlock(t: FurnaceType): string {
    match t
    case Furnace => "furnace"
    case BlastFurnace => "blast_furnace"
    case Smoker => "smoker"
  }

  /** The closed lookup of a shapeless record's block: a kind exactly when the block
      is the name of that kind, nothing for any other block. */
  function ShapelessKind(block: string): (k: Option<ShapelessRecipeType>)
    ensures k.Some? ==> ShapelessBlock(k.value) == block
    ensures k.None? ==> forall kind :: ShapelessBlock(kind) != block
  {
    if block == CraftingTable then Some(Crafting)
    else if block == "stonecutter" then Some(Stonecutter)
    else None
  }

  /** The closed lookup of a smelting record's block: a furnace kind exactly when the
      block is the name of that kind, nothing for any other block. */
  function FurnaceKind(block: string): (t: Option<FurnaceType>)
    ensures t.Some? ==> FurnaceBlock(t.value) == block
    ensures t.None? ==> forall kind :: FurnaceBlock(kind) != block
  {
    if block == "furnace" then Some(Furnace)
    else if block == "blast_furnace" then Some(BlastFurnace)
    else if block == "smoker" then Some(Smoker)
    else None
  }

  datatype ShapelessRecipe = ShapelessRecipe(inputs: seq<Item>, outputs: seq<Item>, kind: ShapelessRecipeType)

  /** A shaped recipe: the rows of the pattern, the ingredients keyed by the symbol
      the pattern uses, and the outputs. */
  datatype ShapedRecipe = ShapedRecipe(shape: seq<string>, ingredients: seq<(string, Item)>, outputs: seq<Item>)

  datatype FurnaceRecipe = FurnaceRecipe(result: Item, input: Item)

  /** A furnace recipe together with the furnace kind whose store receives it. */
  datatype Smelt = Smelt(furnace: FurnaceType, recipe: FurnaceRecipe)

  datatype PotionTypeRecipe = PotionTypeRecipe(input: Item, ingredient: Item, output: Item)

  datatype PotionContainerChangeRecipe = PotionContainerChangeRecipe(inputItemId: int, ingredient: Item, outputItemId: int)

  /** The destination registry: one append-only store per recipe kind, and one
      furnace store per furnace kind. */
  datatype CraftingManager = CraftingManager(
    shapeless: seq<ShapelessRecipe>,
    shaped: seq<ShapedRecipe>,
    furnaces: map<FurnaceType, seq<FurnaceRecipe>>,
    potionTypes: seq<PotionTypeRecipe>,
    containerChanges: seq<PotionContainerChangeRecipe>)
  {
    /** Every furnace kind has a store. */
    predicate Valid() {
      Furnace in furnaces && BlastFurnace in furnaces && Smoker in furnaces
    }

    /** getFurnaceRecipeManager: the store of one furnace kind. */
    function FurnaceStore(t: FurnaceType): seq<FurnaceRecipe> {
      if t in furnaces then furnaces[t] else []
    }
  }

  /** A fresh registry: every store exists and is empty. */
  function EmptyManager(): (m: CraftingManager)
    ensures m.Valid()
    ensures forall t :: m.FurnaceStore(t) == []
    ensures m.shapeless == [] && m.shaped == [] && m.potionTypes == [] && m.containerChanges == []
  {
    CraftingManager([], [], map[Furnace := [], BlastFurnace := [], Smoker := []], [], [])
  }

  function AddShapeless(m: CraftingManager, x: ShapelessRecipe): CraftingManager {
    m.(shapeless := m.shapeless + [x])
  }

  function AddShaped(m: CraftingManager, x: ShapedRecipe): CraftingManager {
    m.(shaped := m.shaped + [x])
  }

  /** Registers a furnace recipe into the store of its furnace kind: that store
      grows by the recipe, the other furnace stores and all other stores are unchanged,
      and every store present stays present. */
  function AddFurnace(m: CraftingManager, s: Smelt): (m': CraftingManager)
    ensures m'.FurnaceStore(s.furnace) == m.FurnaceStore(s.furnace) + [s.recipe]
    ensures forall t :: t != s.furnace ==> m'.FurnaceStore(t) == m.FurnaceStore(t)
    ensures m' == m.(furnaces := m'.furnaces)
    ensures m.Valid() ==> m'.Valid()
  {
    m.(furnaces := m.furnaces[s.furnace := m.FurnaceStore(s.furnace) + [s.recipe]])
  }

  function AddPotionType(m: CraftingManager, x: PotionTypeRecipe): CraftingManager {
    m.(potionTypes := m.potionTypes + [x])
  }

  function AddContainerChange(m: CraftingManager, x: PotionContainerChangeRecipe): CraftingManager {
    m.(containerChanges := m.containerChanges + [x])
  }
}
