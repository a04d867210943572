/** One `foreach` loop of the loader, for any section: every record, in file order,
    aborts the load, is skipped, or yields one recipe that is registered. */
module SectionFold {
  import opened Results
  import opened Recipes

  /** What the loop body does with one record: an error aborts, None skips,
      Some(x) registers x. */
  type Step<!R, T> = R -> Result<Option<T>>

  /** The loop body registers this record. */
  predicate Admits<R, T>(step: Step<R, T>, r: R) {
    step(r).Ok? && step(r).value.Some?
  }

  /** No record of the section aborts the load. */
  predicate NoThrow<R, T>(step: Step<R, T>, rs: seq<R>) {
    forall i :: 0 <= i < |rs| ==> step(rs[i]).Ok?
  }

  /** e is the error of the first record that aborts. */
  predicate FirstThrow<R, T>(step: Step<R, T>, rs: seq<R>, e: LoadError) {
    exists i :: 0 <= i < |rs| && NoThrow(step, rs[..i]) && step(rs[i]) == Err(e)
  }

  /** The recipes of the admitted records, in file order: never more than there
      are records. */
  function Accepted<R, T>(step: Step<R, T>, rs: seq<R>): (xs: seq<T>)
    ensures |xs| <= |rs|
    decreases |rs|
  {
    if rs == [] then []
    else
      var rest := Accepted(step, rs[1..]);
      match step(rs[0])
      case Ok(Some(x)) => [x] + rest
      case _ => rest
  }

  /** Every accepted recipe is the recipe of some record, and the recipe of every
      admitted record is accepted. */
  lemma {:induction false} AcceptedMembers<R, T>(step: Step<R, T>, rs: seq<R>)
    ensures forall j :: 0 <= j < |Accepted(step, rs)| ==>
      exists i :: 0 <= i < |rs| && step(rs[i]) == Ok(Some(Accepted(step, rs)[j]))
    ensures forall i :: 0 <= i < |rs| && Admits(step, rs[i]) ==> step(rs[i]).value.value in Accepted(step, rs)
    decreases |rs|
  {
    if rs != [] {
      var rest := rs[1..];
      AcceptedMembers(step, rest);
      assert forall i :: 1 <= i < |rs| ==> rs[i] == rest[i - 1];
      var acc, acc' := Accepted(step, rs), Accepted(step, rest);
      if Admits(step, rs[0]) {
        assert acc == [step(rs[0]).value.value] + acc';
        forall j | 0 <= j < |acc|
          ensures exists i :: 0 <= i < |rs| && step(rs[i]) == Ok(Some(acc[j]))
        {
          if j == 0 {
            assert step(rs[0]) == Ok(Some(acc[0]));
          } else {
            assert acc[j] == acc'[j - 1];
            var i' :| 0 <= i' < |rest| && step(rest[i']) == Ok(Some(acc'[j - 1]));
            assert step(rs[i' + 1]) == Ok(Some(acc[j]));
          }
        }
      } else {
        assert acc == acc';
        forall j | 0 <= j < |acc|
          ensures exists i :: 0 <= i < |rs| && step(rs[i]) == Ok(Some(acc[j]))
        {
          var i' :| 0 <= i' < |rest| && step(rest[i']) == Ok(Some(acc'[j]));
          assert step(rs[i' + 1]) == Ok(Some(acc[j]));
        }
      }
    } else {
      assert Accepted(step, rs) == [];
    }
  }

  /** The positions, from k on, of the admitted records: increasing, and holding
      every admitted position. */
  function SelectedFrom<R, T>(step: Step<R, T>, rs: seq<R>, k: nat): (idx: seq<nat>)
    requires k <= |rs|
    ensures forall j :: 0 <= j < |idx| ==> k <= idx[j] < |rs| && Admits(step, rs[idx[j]])
    ensures forall j, j' :: 0 <= j < j' < |idx| ==> idx[j] < idx[j']
    ensures forall i :: k <= i < |rs| && Admits(step, rs[i]) ==> i in idx
    decreases |rs| - k
  {
    if k == |rs| then []
    else if Admits(step, rs[k]) then [k] + SelectedFrom(step, rs, k + 1)
    else SelectedFrom(step, rs, k + 1)
  }

  /** Registers the recipes one after another, starting from m. */
  function Replay<T>(register: (CraftingManager, T) -> CraftingManager, m: CraftingManager, xs: seq<T>): CraftingManager
    decreases |xs|
  {
    if xs == [] then m else Replay(register, register(m, xs[0]), xs[1..])
  }

  /** The loop over one section, started from the registry m. It completes exactly
      when no record aborts, and then the registry has received the accepted recipes
      in file order; otherwise the error is that of the first aborting record. */
  function Run<R, T>(step: Step<R, T>, register: (CraftingManager, T) -> CraftingManager,
                     m: CraftingManager, rs: seq<R>): (r: Result<CraftingManager>)
    ensures r.Ok? <==> NoThrow(step, rs)
    ensures r.Ok? ==> r.value == Replay(register, m, Accepted(step, rs))
    ensures r.Err? ==> FirstThrow(step, rs, r.error)
    decreases |rs|
  {
    if rs == [] then Ok(m)
    else
      var rest := rs[1..];
      assert forall i :: 1 <= i < |rs| ==> rs[i] == rest[i - 1];
      assert NoThrow(step, rs) <==> step(rs[0]).Ok? && NoThrow(step, rest);
      match step(rs[0])
      case Err(e) =>
        assert NoThrow(step, rs[..0]);
        Err(e)
      case Ok(None) =>
        var r := Run(step, register, m, rest);
        FirstThrowShifts(step, rs, r);
        r
      case Ok(Some(x)) =>
        var r := Run(step, register, register(m, x), rest);
        FirstThrowShifts(step, rs, r);
        r
  }

  /** A first throw in the tail of a section whose head does not throw is a first
      throw of the whole section. */
  lemma FirstThrowShifts<R, T>(step: Step<R, T>, rs: seq<R>, r: Result<CraftingManager>)
    requires |rs| > 0 && step(rs[0]).Ok?
    requires r.Err? ==> FirstThrow(step, rs[1..], r.error)
    ensures r.Err? ==> FirstThrow(step, rs, r.error)
  {
    if r.Err? {
      var i :| 0 <= i < |rs[1..]| && NoThrow(step, rs[1..][..i]) && step(rs[1..][i]) == Err(r.error);
      assert rs[..i + 1] == [rs[0]] + rs[1..][..i];
      assert NoThrow(step, rs[..i + 1]);
      assert rs[i + 1] == rs[1..][i];
    }
  }

  /** The accepted recipes are those of the selected positions, position by
      position. */
  lemma {:induction false} AcceptedFollowsSelection<R, T>(step: Step<R, T>, rs: seq<R>, k: nat)
    requires k <= |rs|
    ensures |Accepted(step, rs[k..])| == |SelectedFrom(step, rs, k)|
    ensures forall j :: 0 <= j < |SelectedFrom(step, rs, k)| ==>
      Accepted(step, rs[k..])[j] == step(rs[SelectedFrom(step, rs, k)[j]]).value.value
    decreases |rs| - k
  {
    if k < |rs| {
      var tail := rs[k + 1..];
      AcceptedFollowsSelection(step, rs, k + 1);
      assert rs[k..][1..] == tail;
      assert rs[k..][0] == rs[k];
      var acc, idx := Accepted(step, rs[k..]), SelectedFrom(step, rs, k);
      var acc', idx' := Accepted(step, tail), SelectedFrom(step, rs, k + 1);
      if Admits(step, rs[k]) {
        assert acc == [step(rs[k]).value.value] + acc';
        assert idx == [k] + idx';
        forall j | 0 <= j < |idx|
          ensures acc[j] == step(rs[idx[j]]).value.value
        {
          if j > 0 {
            assert acc[j] == acc'[j - 1] && idx[j] == idx'[j - 1];
          }
        }
      } else {
        assert acc == acc';
        assert idx == idx';
      }
    }
  }

  /** Each store receives exactly the admitted records of its section, in file
      order: the j-th accepted recipe is the recipe of the j-th admitted record. */
  lemma AcceptedInFileOrder<R, T>(step: Step<R, T>, rs: seq<R>)
    ensures var idx := SelectedFrom(step, rs, 0);
      && |Accepted(step, rs)| == |idx|
      && (forall j :: 0 <= j < |idx| ==> Accepted(step, rs)[j] == step(rs[idx[j]]).value.value)
      && (forall j, j' :: 0 <= j < j' < |idx| ==> idx[j] < idx[j'])
      && (forall i :: 0 <= i < |rs| ==> (i in idx <==> Admits(step, rs[i])))
  {
    AcceptedFollowsSelection(step, rs, 0);
    assert rs[0..] == rs;
  }

  /** When every record is admitted, the store holds one recipe per record, in
      record order. */
  lemma {:induction false} AllAdmittedKeepsEveryRecord<R, T>(step: Step<R, T>, rs: seq<R>)
    requires forall i :: 0 <= i < |rs| ==> Admits(step, rs[i])
    ensures |Accepted(step, rs)| == |rs|
    ensures forall i :: 0 <= i < |rs| ==> step(rs[i]) == Ok(Some(Accepted(step, rs)[i]))
    decreases |rs|
  {
    if rs != [] {
      var rest := rs[1..];
      assert forall i :: 0 <= i < |rest| ==> rest[i] == rs[i + 1];
      AllAdmittedKeepsEveryRecord(step, rest);
      var acc, acc' := Accepted(step, rs), Accepted(step, rest);
      assert acc == [step(rs[0]).value.value] + acc';
      forall i | 0 <= i < |rs|
        ensures step(rs[i]) == Ok(Some(acc[i]))
      {
        if i > 0 {
          assert acc[i] == acc'[i - 1] && rs[i] == rest[i - 1];
        }
      }
    }
  }
}
