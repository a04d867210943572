/** The registry check of CraftingManagerFromDataHelper::containsUnknownItems, in
    its tolerant mode (recipe inputs) and its strict mode (recipe outputs). */
module UnknownItems {
  import opened Results
  import opened Items

  /** The meta a registry lookup uses: a wildcard stands for meta 0. */
  function LookupMeta(it: Item): int {
    if it.anyDamage then 0 else it.meta
  }

  /** An input passes the tolerant check: its id with the looked-up meta is known. */
  predicate Tolerated(reg: Registry, it: Item) {
    reg.IsRegistered(it.id, LookupMeta(it))
  }

  /** An output passes the strict check: a concrete meta, and that variant is known. */
  predicate StrictlyKnown(reg: Registry, it: Item) {
    !it.anyDamage && reg.IsRegistered(it.id, it.meta)
  }

  predicate AllTolerated(reg: Registry, items: seq<Item>) {
    forall i :: 0 <= i < |items| ==> Tolerated(reg, items[i])
  }

  predicate AllStrict(reg: Registry, items: seq<Item>) {
    forall i :: 0 <= i < |items| ==> StrictlyKnown(reg, items[i])
  }

  /** A strict scan meets a wildcard before any unknown item: some item is a
      wildcard and every item before it passes the strict check. */
  predicate StrictThrows(reg: Registry, items: seq<Item>) {
    exists k :: 0 <= k < |items| && items[k].anyDamage && AllStrict(reg, items[..k])
  }

  /** containsUnknownItems($items, $wildcardCheck): scans left to right; a wildcard
      throws when wildcardCheck is set and is looked up as meta 0 otherwise; the
      first unknown item answers true. */
  function ContainsUnknownItems(reg: Registry, items: seq<Item>, wildcardCheck: bool): (r: Result<bool>)
    ensures !wildcardCheck ==> r == Ok(!AllTolerated(reg, items))
    ensures r.Err? ==> wildcardCheck && r.error == InvalidArgument
    decreases |items|
  {
    if items == [] then Ok(false)
    else
      var it := items[0];
      if it.anyDamage && wildcardCheck then Err(InvalidArgument)
      else if !reg.IsRegistered(it.id, LookupMeta(it)) then Ok(true)
      else ContainsUnknownItems(reg, items[1..], wildcardCheck)
  }

  /** The strict mode in full: false exactly when every item is a registered
      concrete variant, a throw exactly when a wildcard comes before any unknown
      item, and true otherwise. */
  lemma {:induction false} StrictScan(reg: Registry, items: seq<Item>)
    ensures ContainsUnknownItems(reg, items, true) ==
      if AllStrict(reg, items) then Ok(false)
      else if StrictThrows(reg, items) then Err(InvalidArgument)
      else Ok(true)
    decreases |items|
  {
    if items != [] {
      var it := items[0];
      if it.anyDamage {
        assert items[..0] == [];
        assert StrictThrows(reg, items);
      } else if !reg.IsRegistered(it.id, it.meta) {
        assert !StrictlyKnown(reg, items[0]);
      } else {
        var rest := items[1..];
        StrictScan(reg, rest);
        assert AllStrict(reg, items) <==> AllStrict(reg, rest) by {
          assert forall i :: 0 < i < |items| ==> items[i] == rest[i - 1];
        }
        assert StrictThrows(reg, items) <==> StrictThrows(reg, rest) by {
          if StrictThrows(reg, items) {
            var k :| 0 <= k < |items| && items[k].anyDamage && AllStrict(reg, items[..k]);
            assert k > 0;
            assert rest[..k - 1] == items[..k][1..];
            assert rest[k - 1].anyDamage && AllStrict(reg, rest[..k - 1]);
          }
          if StrictThrows(reg, rest) {
            var k :| 0 <= k < |rest| && rest[k].anyDamage && AllStrict(reg, rest[..k]);
            assert items[..k + 1] == [items[0]] + rest[..k];
            assert items[k + 1].anyDamage && AllStrict(reg, items[..k + 1]);
          }
        }
      }
    }
  }

  /** The two strict outcomes that answer are exclusive: a list that passes the
      strict check holds no wildcard to throw on. */
  lemma StrictPassExcludesThrow(reg: Registry, items: seq<Item>)
    ensures AllStrict(reg, items) ==> !StrictThrows(reg, items)
  {
  }

  /** `containsUnknownItems($input, false) || containsUnknownItems($output)`: the
      strict output check runs only when every input is known, so an unknown input
      rules out the throw. */
  function UnknownInputsOrOutputs(reg: Registry, inputs: seq<Item>, outputs: seq<Item>): (r: Result<bool>)
    ensures r == Ok(false) <==> AllTolerated(reg, inputs) && AllStrict(reg, outputs)
    ensures r.Err? <==> AllTolerated(reg, inputs) && StrictThrows(reg, outputs)
    ensures r.Err? ==> r.error == InvalidArgument
    ensures !AllTolerated(reg, inputs) ==> r == Ok(true)
  {
    var unknownInput := ContainsUnknownItems(reg, inputs, false);
    if unknownInput != Ok(false) then unknownInput
    else
      StrictScan(reg, outputs);
      StrictPassExcludesThrow(reg, outputs);
      ContainsUnknownItems(reg, outputs, true)
  }

  /** The checks on a one-item list are the checks on the item. */
  lemma SingletonChecks(reg: Registry, it: Item)
    ensures AllTolerated(reg, [it]) <==> Tolerated(reg, it)
    ensures AllStrict(reg, [it]) <==> StrictlyKnown(reg, it)
    ensures StrictThrows(reg, [it]) <==> it.anyDamage
  {
    assert [it][..0] == [];
    assert [it][0] == it;
  }

  /** The tolerant check on a two-item list is the check on each item. */
  lemma PairTolerated(reg: Registry, a: Item, b: Item)
    ensures AllTolerated(reg, [a, b]) <==> Tolerated(reg, a) && Tolerated(reg, b)
  {
    assert [a, b][0] == a && [a, b][1] == b;
  }
}
