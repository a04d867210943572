/** What a load leaves in each store, stated against the per-section reference
    (the accepted records, in file order). */
module LoaderProperties {
  import opened Results
  import opened Items
  import opened UnknownItems
  import opened Recipes
  import opened SectionFold
  import opened RecipeLoader

  /** The furnace recipes, in order, of the smelts bound for furnace kind t. */
  function OfType(xs: seq<Smelt>, t: FurnaceType): (rs: seq<FurnaceRecipe>)
    ensures |rs| <= |xs|
    decreases |xs|
  {
    if xs == [] then []
    else (if xs[0].furnace == t then [xs[0].recipe] else []) + OfType(xs[1..], t)
  }

  /** Registering shapeless recipes appends them to the shapeless store and changes
      nothing else. */
  lemma {:induction false} ReplayShapeless(m: CraftingManager, xs: seq<ShapelessRecipe>)
    ensures Replay(AddShapeless, m, xs) == m.(shapeless := m.shapeless + xs)
    decreases |xs|
  {
    if xs != [] {
      ReplayShapeless(AddShapeless(m, xs[0]), xs[1..]);
      assert m.shapeless + [xs[0]] + xs[1..] == m.shapeless + xs;
    }
  }

  /** Registering shaped recipes appends them to the shaped store and changes
      nothing else. */
  lemma {:induction false} ReplayShaped(m: CraftingManager, xs: seq<ShapedRecipe>)
    ensures Replay(AddShaped, m, xs) == m.(shaped := m.shaped + xs)
    decreases |xs|
  {
    if xs != [] {
      ReplayShaped(AddShaped(m, xs[0]), xs[1..]);
      assert m.shaped + [xs[0]] + xs[1..] == m.shaped + xs;
    }
  }

  /** Registering potion-type recipes appends them to their store and changes
      nothing else. */
  lemma {:induction false} ReplayPotionTypes(m: CraftingManager, xs: seq<PotionTypeRecipe>)
    ensures Replay(AddPotionType, m, xs) == m.(potionTypes := m.potionTypes + xs)
    decreases |xs|
  {
    if xs != [] {
      ReplayPotionTypes(AddPotionType(m, xs[0]), xs[1..]);
      assert m.potionTypes + [xs[0]] + xs[1..] == m.potionTypes + xs;
    }
  }

  /** Registering container-change recipes appends them to their store and changes
      nothing else. */
  lemma {:induction false} ReplayContainerChanges(m: CraftingManager, xs: seq<PotionContainerChangeRecipe>)
    ensures Replay(AddContainerChange, m, xs) == m.(containerChanges := m.containerChanges + xs)
    decreases |xs|
  {
    if xs != [] {
      ReplayContainerChanges(AddContainerChange(m, xs[0]), xs[1..]);
      assert m.containerChanges + [xs[0]] + xs[1..] == m.containerChanges + xs;
    }
  }

  /** Registering furnace recipes appends to each furnace kind's store exactly the
      recipes bound for it, keeps every store present, and changes nothing outside
      the furnace stores. */
  lemma {:induction false} ReplayFurnaces(m: CraftingManager, xs: seq<Smelt>)
    ensures var m' := Replay(AddFurnace, m, xs);
      && m' == m.(furnaces := m'.furnaces)
      && (m.Valid() ==> m'.Valid())
      && forall t :: m'.FurnaceStore(t) == m.FurnaceStore(t) + OfType(xs, t)
    decreases |xs|
  {
    if xs != [] {
      var m1 := AddFurnace(m, xs[0]);
      ReplayFurnaces(m1, xs[1..]);
      var m' := Replay(AddFurnace, m, xs);
      forall t
        ensures m'.FurnaceStore(t) == m.FurnaceStore(t) + OfType(xs, t)
      {
        var head := if xs[0].furnace == t then [xs[0].recipe] else [];
        assert m1.FurnaceStore(t) == m.FurnaceStore(t) + head;
        assert OfType(xs, t) == head + OfType(xs[1..], t);
        assert m.FurnaceStore(t) + head + OfType(xs[1..], t) == m.FurnaceStore(t) + OfType(xs, t);
      }
    }
  }

  /** A completed load holds in each store exactly the accepted records of its
      section, in file order, and in each furnace store exactly the accepted smelting
      records of that kind. */
  lemma MakeRegistersAcceptedRecords(reg: Registry, sections: Sections)
    ensures Make(reg, Catalog(sections)).Ok? ==>
      var m := Make(reg, Catalog(sections)).value;
      && m.Valid()
      && m.shapeless == Accepted(ShapelessStep(reg), sections.shapeless)
      && m.shaped == Accepted(ShapedStep(reg), sections.shaped)
      && (forall t :: m.FurnaceStore(t) == OfType(Accepted(SmeltingStep(reg), sections.smelting), t))
      && m.potionTypes == Accepted(PotionTypeStep(reg), sections.potionType)
      && m.containerChanges == Accepted(ContainerChangeStep(reg), sections.potionContainerChange)
  {
    var e := EmptyManager();
    var r1 := Run(ShapelessStep(reg), AddShapeless, e, sections.shapeless);
    if r1.Ok? {
      var m1 := r1.value;
      ReplayShapeless(e, Accepted(ShapelessStep(reg), sections.shapeless));
      var r2 := Run(ShapedStep(reg), AddShaped, m1, sections.shaped);
      if r2.Ok? {
        var m2 := r2.value;
        ReplayShaped(m1, Accepted(ShapedStep(reg), sections.shaped));
        var r3 := Run(SmeltingStep(reg), AddFurnace, m2, sections.smelting);
        if r3.Ok? {
          var m3 := r3.value;
          ReplayFurnaces(m2, Accepted(SmeltingStep(reg), sections.smelting));
          var r4 := Run(PotionTypeStep(reg), AddPotionType, m3, sections.potionType);
          if r4.Ok? {
            var m4 := r4.value;
            ReplayPotionTypes(m3, Accepted(PotionTypeStep(reg), sections.potionType));
            ReplayContainerChanges(m4, Accepted(ContainerChangeStep(reg), sections.potionContainerChange));
          }
        }
      }
    }
  }

  /** No store ends up with more recipes than its section has records. */
  lemma StoresNoLargerThanSections(reg: Registry, sections: Sections)
    ensures Make(reg, Catalog(sections)).Ok? ==>
      var m := Make(reg, Catalog(sections)).value;
      && |m.shapeless| <= |sections.shapeless|
      && |m.shaped| <= |sections.shaped|
      && (forall t :: |m.FurnaceStore(t)| <= |sections.smelting|)
      && |m.potionTypes| <= |sections.potionType|
      && |m.containerChanges| <= |sections.potionContainerChange|
  {
    MakeRegistersAcceptedRecords(reg, sections);
  }

  /** One smelting record grows at most one furnace store, that of its block's kind,
      by exactly the recipe (output, input), and leaves every other store as it was. */
  lemma SmeltingRecordGrowsOneStore(reg: Registry, m: CraftingManager, raw: RawSmelting)
    ensures var r := Run(SmeltingStep(reg), AddFurnace, m, [raw]);
      r.Ok? ==>
        var m' := r.value;
        && m' == m.(furnaces := m'.furnaces)
        && (m.Valid() ==> m'.Valid())
        && forall t :: m'.FurnaceStore(t) ==
             if && FurnaceKind(raw.block) == Some(t)
                && raw.input.Wellformed? && raw.output.Wellformed?
                && Tolerated(reg, raw.input.item) && StrictlyKnown(reg, raw.output.item)
             then m.FurnaceStore(t) + [FurnaceRecipe(raw.output.item, raw.input.item)]
             else m.FurnaceStore(t)
  {
    var step := SmeltingStep(reg);
    var acc := Accepted(step, [raw]);
    ReplayFurnaces(m, acc);
    assert [raw][1..] == [];
    forall t
      ensures OfType(acc, t) ==
        if && FurnaceKind(raw.block) == Some(t)
           && raw.input.Wellformed? && raw.output.Wellformed?
           && Tolerated(reg, raw.input.item) && StrictlyKnown(reg, raw.output.item)
        then [FurnaceRecipe(raw.output.item, raw.input.item)]
        else []
    {
      if Admits(step, raw) {
        assert acc == [step(raw).value.value];
      } else {
        assert acc == [];
      }
    }
  }
}
