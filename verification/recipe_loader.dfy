/** CraftingManagerFromDataHelper::make: the decoded catalog, the five per-record
    loop bodies (classify, decode, validate, register or skip), and the whole load. */
module RecipeLoader {
  import opened Results
  import opened Items
  import opened UnknownItems
  import opened Recipes
  import opened SectionFold

  datatype RawShapeless = RawShapeless(block: string, input: seq<ItemJson>, output: seq<ItemJson>)

  /** A shaped record; its input is keyed by the symbols the shape uses. */
  datatype RawShaped = RawShaped(block: string, shape: seq<string>, input: seq<(string, ItemJson)>, output: seq<ItemJson>)

  datatype RawSmelting = RawSmelting(block: string, input: ItemJson, output: ItemJson)

  datatype RawPotionType = RawPotionType(input: ItemJson, ingredient: ItemJson, output: ItemJson)

  datatype RawContainerChange = RawContainerChange(inputItemId: int, ingredient: ItemJson, outputItemId: int)

  /** The five sections of the catalog, each a list of records in file order. */
  datatype Sections = Sections(
    shapeless: seq<RawShapeless>,
    shaped: seq<RawShaped>,
    smelting: seq<RawSmelting>,
    potionType: seq<RawPotionType>,
    potionContainerChange: seq<RawContainerChange>)

  /** The decoded root of the catalog file: either something other than an array,
      or the catalog's sections. */
  datatype Root = NonArray | Catalog(sections: Sections)

  /** A shapeless record: an unknown block skips it before any decoding; otherwise
      its inputs and outputs are decoded, then checked (tolerant, then strict), and
      the recipe stores the decoded items unchanged. */
  function ShapelessOutcome(reg: Registry, raw: RawShapeless): (r: Result<Option<ShapelessRecipe>>)
    ensures ShapelessKind(raw.block).None? ==> r == Ok(None)
    ensures r.Err? <==>
      && ShapelessKind(raw.block).Some?
      && (|| !AllWellformed(raw.input)
          || !AllWellformed(raw.output)
          || (AllTolerated(reg, Payload(raw.input)) && StrictThrows(reg, Payload(raw.output))))
    ensures r.Err? ==>
      r.error == (if AllWellformed(raw.input) && AllWellformed(raw.output) then InvalidArgument else ItemDecodeFailure)
    ensures r.Ok? && r.value.Some? <==>
      && ShapelessKind(raw.block).Some?
      && AllWellformed(raw.input) && AllWellformed(raw.output)
      && AllTolerated(reg, Payload(raw.input)) && AllStrict(reg, Payload(raw.output))
    ensures r.Ok? && r.value.Some? ==>
      r.value.value == ShapelessRecipe(Payload(raw.input), Payload(raw.output), ShapelessKind(raw.block).value)
  {
    match ShapelessKind(raw.block)
    case None => Ok(None)
    case Some(kind) =>
      var inputs :- DecodeAll(raw.input);
      var outputs :- DecodeAll(raw.output);
      var unknown :- UnknownInputsOrOutputs(reg, inputs, outputs);
      if unknown then Ok(None) else Ok(Some(ShapelessRecipe(inputs, outputs, kind)))
  }

  /** A shaped record: any block but the crafting table skips it, whatever its items;
      otherwise as for shapeless records, and the shape is passed through unchanged. */
  function ShapedOutcome(reg: Registry, raw: RawShaped): (r: Result<Option<ShapedRecipe>>)
    ensures raw.block != CraftingTable ==> r == Ok(None)
    ensures r.Err? <==>
      && raw.block == CraftingTable
      && (|| !AllWellformedKeyed(raw.input)
          || !AllWellformed(raw.output)
          || (AllTolerated(reg, Values(KeyedPayload(raw.input))) && StrictThrows(reg, Payload(raw.output))))
    ensures r.Err? ==>
      r.error == (if AllWellformedKeyed(raw.input) && AllWellformed(raw.output) then InvalidArgument else ItemDecodeFailure)
    ensures r.Ok? && r.value.Some? <==>
      && raw.block == CraftingTable
      && AllWellformedKeyed(raw.input) && AllWellformed(raw.output)
      && AllTolerated(reg, Values(KeyedPayload(raw.input))) && AllStrict(reg, Payload(raw.output))
    ensures r.Ok? && r.value.Some? ==>
      r.value.value == ShapedRecipe(raw.shape, KeyedPayload(raw.input), Payload(raw.output))
  {
    if raw.block != CraftingTable then Ok(None)
    else
      var ingredients :- DecodeKeyed(raw.input);
      var outputs :- DecodeAll(raw.output);
      var unknown :- UnknownInputsOrOutputs(reg, Values(ingredients), outputs);
      if unknown then Ok(None) else Ok(Some(ShapedRecipe(raw.shape, ingredients, outputs)))
  }

  /** A smelting record: an unknown block skips it before any decoding; otherwise
      the one input and one output are decoded and checked, and the recipe
      (output, input) goes to the store of the block's furnace kind. */
  function SmeltingOutcome(reg: Registry, raw: RawSmelting): (r: Result<Option<Smelt>>)
    ensures FurnaceKind(raw.block).None? ==> r == Ok(None)
    ensures r.Err? <==>
      && FurnaceKind(raw.block).Some?
      && (|| raw.input.Malformed?
          || raw.output.Malformed?
          || (Tolerated(reg, raw.input.item) && raw.output.item.anyDamage))
    ensures r.Err? ==>
      r.error == (if raw.input.Wellformed? && raw.output.Wellformed? then InvalidArgument else ItemDecodeFailure)
    ensures r.Ok? && r.value.Some? <==>
      && FurnaceKind(raw.block).Some?
      && raw.input.Wellformed? && raw.output.Wellformed?
      && Tolerated(reg, raw.input.item) && StrictlyKnown(reg, raw.output.item)
    ensures r.Ok? && r.value.Some? ==>
      r.value.value == Smelt(FurnaceKind(raw.block).value, FurnaceRecipe(raw.output.item, raw.input.item))
  {
    match FurnaceKind(raw.block)
    case None => Ok(None)
    case Some(furnace) =>
      var input :- Deserialize(raw.input);
      var output :- Deserialize(raw.output);
      SingletonChecks(reg, input);
      SingletonChecks(reg, output);
      var unknown :- UnknownInputsOrOutputs(reg, [input], [output]);
      if unknown then Ok(None) else Ok(Some(Smelt(furnace, FurnaceRecipe(output, input))))
  }

  /** A potion-type record: all three items are decoded first; input and ingredient
      are checked tolerantly, the output strictly, and all three are stored unchanged. */
  function PotionTypeOutcome(reg: Registry, raw: RawPotionType): (r: Result<Option<PotionTypeRecipe>>)
    ensures r.Err? <==>
      || raw.input.Malformed? || raw.ingredient.Malformed? || raw.output.Malformed?
      || (Tolerated(reg, raw.input.item) && Tolerated(reg, raw.ingredient.item) && raw.output.item.anyDamage)
    ensures r.Err? ==>
      r.error == (if raw.input.Wellformed? && raw.ingredient.Wellformed? && raw.output.Wellformed?
                  then InvalidArgument else ItemDecodeFailure)
    ensures r.Ok? && r.value.Some? <==>
      && raw.input.Wellformed? && raw.ingredient.Wellformed? && raw.output.Wellformed?
      && Tolerated(reg, raw.input.item) && Tolerated(reg, raw.ingredient.item)
      && StrictlyKnown(reg, raw.output.item)
    ensures r.Ok? && r.value.Some? ==>
      r.value.value == PotionTypeRecipe(raw.input.item, raw.ingredient.item, raw.output.item)
  {
    var input :- Deserialize(raw.input);
    var ingredient :- Deserialize(raw.ingredient);
    var output :- Deserialize(raw.output);
    PairTolerated(reg, input, ingredient);
    SingletonChecks(reg, output);
    var unknown :- UnknownInputsOrOutputs(reg, [input, ingredient], [output]);
    if unknown then Ok(None) else Ok(Some(PotionTypeRecipe(input, ingredient, output)))
  }

  /** A potion-container-change record: the ingredient is decoded first; the record
      is kept when both bare ids are registered and the ingredient passes the
      tolerant check, and the ids are stored unchanged. */
  function ContainerChangeOutcome(reg: Registry, raw: RawContainerChange): (r: Result<Option<PotionContainerChangeRecipe>>)
    ensures r.Err? <==> raw.ingredient.Malformed?
    ensures r.Err? ==> r.error == ItemDecodeFailure
    ensures r.Ok? && r.value.Some? <==>
      && raw.ingredient.Wellformed?
      && reg.IsRegisteredId(raw.inputItemId) && reg.IsRegisteredId(raw.outputItemId)
      && Tolerated(reg, raw.ingredient.item)
    ensures r.Ok? && r.value.Some? ==>
      r.value.value == PotionContainerChangeRecipe(raw.inputItemId, raw.ingredient.item, raw.outputItemId)
  {
    var ingredient :- Deserialize(raw.ingredient);
    if !reg.IsRegisteredId(raw.inputItemId) || !reg.IsRegisteredId(raw.outputItemId) then Ok(None)
    else
      SingletonChecks(reg, ingredient);
      match ContainsUnknownItems(reg, [ingredient], false)
      case Err(e) => Err(e)
      case Ok(unknown) =>
        if unknown then Ok(None)
        else Ok(Some(PotionContainerChangeRecipe(raw.inputItemId, ingredient, raw.outputItemId)))
  }

  function ShapelessStep(reg: Registry): Step<RawShapeless, ShapelessRecipe> {
    raw => ShapelessOutcome(reg, raw)
  }

  function ShapedStep(reg: Registry): Step<RawShaped, ShapedRecipe> {
    raw => ShapedOutcome(reg, raw)
  }

  function SmeltingStep(reg: Registry): Step<RawSmelting, Smelt> {
    raw => SmeltingOutcome(reg, raw)
  }

  function PotionTypeStep(reg: Registry): Step<RawPotionType, PotionTypeRecipe> {
    raw => PotionTypeOutcome(reg, raw)
  }

  function ContainerChangeStep(reg: Registry): Step<RawContainerChange, PotionContainerChangeRecipe> {
    raw => ContainerChangeOutcome(reg, raw)
  }

  /** Every section loads without aborting. */
  predicate SectionsLoad(reg: Registry, sections: Sections) {
    && NoThrow(ShapelessStep(reg), sections.shapeless)
    && NoThrow(ShapedStep(reg), sections.shaped)
    && NoThrow(SmeltingStep(reg), sections.smelting)
    && NoThrow(PotionTypeStep(reg), sections.potionType)
    && NoThrow(ContainerChangeStep(reg), sections.potionContainerChange)
  }

  /** e is the error of the first aborting record of the first section that aborts. */
  predicate FirstAbort(reg: Registry, sections: Sections, e: LoadError) {
    if !NoThrow(ShapelessStep(reg), sections.shapeless) then FirstThrow(ShapelessStep(reg), sections.shapeless, e)
    else if !NoThrow(ShapedStep(reg), sections.shaped) then FirstThrow(ShapedStep(reg), sections.shaped, e)
    else if !NoThrow(SmeltingStep(reg), sections.smelting) then FirstThrow(SmeltingStep(reg), sections.smelting, e)
    else if !NoThrow(PotionTypeStep(reg), sections.potionType) then FirstThrow(PotionTypeStep(reg), sections.potionType, e)
    else FirstThrow(ContainerChangeStep(reg), sections.potionContainerChange, e)
  }

  /** make(): a root that is not an array aborts; otherwise the five sections are
      loaded one after another into a fresh registry. The load completes exactly when
      no record of any section aborts, and otherwise reports the first abort in file
      order. */
  function Make(reg: Registry, root: Root): (r: Result<CraftingManager>)
    ensures root.NonArray? ==> r == Err(AssumptionFailed)
    ensures root.Catalog? ==> (r.Ok? <==> SectionsLoad(reg, root.sections))
    ensures root.Catalog? && r.Err? ==> FirstAbort(reg, root.sections, r.error)
  {
    match root
    case NonArray => Err(AssumptionFailed)
    case Catalog(Sections(shapeless, shaped, smelting, potionType, containerChange)) =>
      var m1 :- Run(ShapelessStep(reg), AddShapeless, EmptyManager(), shapeless);
      var m2 :- Run(ShapedStep(reg), AddShaped, m1, shaped);
      var m3 :- Run(SmeltingStep(reg), AddFurnace, m2, smelting);
      var m4 :- Run(PotionTypeStep(reg), AddPotionType, m3, potionType);
      var m5 :- Run(ContainerChangeStep(reg), AddContainerChange, m4, containerChange);
      Ok(m5)
  }
}
