/**
 * Both loops of `transformObject` have the same shape: walk a list of keys and,
 * for each, either skip it or convert a value and assign it with `result[k] = v`,
 * stopping at the first conversion that throws.  The array case is the simpler
 * shape of the same thing: convert each element and append it; a union tries
 * its members in order and keeps the first that converts.  This module states
 * these shapes once, over the already-computed outcome of each step, and
 * proves what such a loop returns.
 */
module StoreSteps {
  import opened Util
  import opened JsonValue
  import opened Engine

  /** One iteration: nothing to assign, or assign the converted value (or throw) under `key`. */
  datatype Step = Skip | Store(key: string, result: Result)

  /** The loop from step `i` on, with `acc` holding the assignments made so far. */
  function StoreFrom(steps: seq<Step>, i: nat, acc: seq<Field>): (r: Result)
    requires i <= |steps|
    ensures r.Ok? ==> r.value.Obj?
    decreases |steps| - i
  {
    if i == |steps| then Ok(Obj(acc))
    else match steps[i]
      case Skip => StoreFrom(steps, i + 1, acc)
      case Store(k, res) =>
        match res
        case Err(f) => Err(f)
        case Ok(w) => StoreFrom(steps, i + 1, Put(acc, k, w))
  }

  /** The keys assigned by the steps from `i` on. */
  ghost function StoredKeys(steps: seq<Step>, i: int): set<string>
  {
    set k | 0 <= i <= k < |steps| && steps[k].Store? :: steps[k].key
  }

  /** No key is assigned twice. */
  predicate DistinctStores(steps: seq<Step>)
  {
    forall a, b :: 0 <= a < b < |steps| && steps[a].Store? && steps[b].Store? ==> steps[a].key != steps[b].key
  }

  /** Step `j` is the first conversion from `i` on that throws. */
  ghost predicate FirstFailingStep(steps: seq<Step>, i: int, j: int)
  {
    0 <= i <= j < |steps| && steps[j].Store? && steps[j].result.Err? &&
    forall k :: i <= k < j && steps[k].Store? ==> steps[k].result.Ok?
  }

  lemma StoredKeysStep(steps: seq<Step>, i: nat)
    requires i < |steps|
    ensures StoredKeys(steps, i) == (if steps[i].Store? then {steps[i].key} else {}) + StoredKeys(steps, i + 1)
    ensures DistinctStores(steps) && steps[i].Store? ==> steps[i].key !in StoredKeys(steps, i + 1)
  {
  }

  /** A loop whose remaining steps all skip returns the assignments made so far. */
  lemma {:induction false} StoreFromAllSkip(steps: seq<Step>, i: nat, acc: seq<Field>)
    requires i <= |steps| && forall k :: i <= k < |steps| ==> steps[k].Skip?
    ensures StoreFrom(steps, i, acc) == Ok(Obj(acc))
    decreases |steps| - i
  {
    if i < |steps| {
      StoreFromAllSkip(steps, i + 1, acc);
    }
  }

  /** The loop completes iff no conversion from `i` on throws. */
  lemma {:induction false} StoreFromOk(steps: seq<Step>, i: nat, acc: seq<Field>)
    requires i <= |steps|
    ensures StoreFrom(steps, i, acc).Ok? <==> forall k :: i <= k < |steps| && steps[k].Store? ==> steps[k].result.Ok?
    decreases |steps| - i
  {
    if i < |steps| {
      match steps[i]
      case Skip => StoreFromOk(steps, i + 1, acc);
      case Store(k, res) =>
        if res.Ok? {
          StoreFromOk(steps, i + 1, Put(acc, k, res.value));
        }
    }
  }

  /** A completed loop adds exactly the keys its steps assign. */
  lemma {:induction false} StoreFromKeys(steps: seq<Step>, i: nat, acc: seq<Field>)
    requires i <= |steps|
    ensures var r := StoreFrom(steps, i, acc);
            r.Ok? ==> KeysOf(r.value.fields) == KeysOf(acc) + StoredKeys(steps, i)
    decreases |steps| - i
  {
    if i < |steps| {
      StoredKeysStep(steps, i);
      match steps[i]
      case Skip => StoreFromKeys(steps, i + 1, acc);
      case Store(k, res) =>
        if res.Ok? {
          PutFacts(acc, k, res.value);
          StoreFromKeys(steps, i + 1, Put(acc, k, res.value));
        }
    }
  }

  /** A completed loop leaves every key it does not assign as it was. */
  lemma {:induction false} StoreFromKeeps(steps: seq<Step>, i: nat, acc: seq<Field>)
    requires i <= |steps|
    ensures var r := StoreFrom(steps, i, acc);
            r.Ok? ==> forall x :: x !in StoredKeys(steps, i) ==> Lookup(r.value.fields, x) == Lookup(acc, x)
    decreases |steps| - i
  {
    if i < |steps| {
      StoredKeysStep(steps, i);
      match steps[i]
      case Skip => StoreFromKeeps(steps, i + 1, acc);
      case Store(k, res) =>
        if res.Ok? {
          PutFacts(acc, k, res.value);
          StoreFromKeeps(steps, i + 1, Put(acc, k, res.value));
        }
    }
  }

  /** When no key is assigned twice, a completed loop holds each step's converted value under its key. */
  lemma {:induction false} StoreFromStores(steps: seq<Step>, i: nat, acc: seq<Field>)
    requires i <= |steps| && DistinctStores(steps)
    ensures var r := StoreFrom(steps, i, acc);
            r.Ok? ==>
              forall k :: i <= k < |steps| && steps[k].Store? ==>
                steps[k].result.Ok? && Lookup(r.value.fields, steps[k].key) == Some(steps[k].result.value)
    decreases |steps| - i
  {
    if i < |steps| {
      StoredKeysStep(steps, i);
      match steps[i]
      case Skip => StoreFromStores(steps, i + 1, acc);
      case Store(k, res) =>
        if res.Ok? {
          var acc' := Put(acc, k, res.value);
          PutFacts(acc, k, res.value);
          StoreFromKeeps(steps, i + 1, acc');
          StoreFromStores(steps, i + 1, acc');
        }
    }
  }

  /** A loop that throws throws the error of its first failing conversion. */
  lemma {:induction false} StoreFromFailure(steps: seq<Step>, i: nat, acc: seq<Field>, j: int)
    requires i <= |steps| && FirstFailingStep(steps, i, j)
    ensures StoreFrom(steps, i, acc) == steps[j].result
    decreases |steps| - i
  {
    if j > i {
      assert FirstFailingStep(steps, i + 1, j);
      match steps[i]
      case Skip => StoreFromFailure(steps, i + 1, acc, j);
      case Store(k, res) => StoreFromFailure(steps, i + 1, Put(acc, k, res.value), j);
    }
  }

  // ----- the array loop -----

  /** The array loop from element `i` on, with `acc` holding the converted elements so far. */
  function CollectFrom(rs: seq<Result>, i: nat, acc: seq<Value>): (r: Result)
    requires i <= |rs|
    ensures r.Ok? ==> r.value.Arr?
    decreases |rs| - i
  {
    if i == |rs| then Ok(Arr(acc))
    else match rs[i]
      case Err(f) => Err(f)
      case Ok(w) => CollectFrom(rs, i + 1, acc + [w])
  }

  /** Element `j` is the first from `i` on whose conversion throws. */
  ghost predicate FirstFailing(rs: seq<Result>, i: int, j: int)
  {
    0 <= i <= j < |rs| && rs[j].Err? && forall k :: i <= k < j ==> rs[k].Ok?
  }

  /**
   * The array loop succeeds iff every remaining conversion does, then holds the
   * elements so far followed by the converted ones in order; a failing loop
   * fails with its first failing conversion.
   */
  lemma {:induction false} CollectFromFacts(rs: seq<Result>, i: nat, acc: seq<Value>)
    requires i <= |rs|
    ensures var r := CollectFrom(rs, i, acc);
            (r.Ok? <==> forall k :: i <= k < |rs| ==> rs[k].Ok?) &&
            (r.Ok? ==> |r.value.elems| == |acc| + |rs| - i &&
                       r.value.elems[..|acc|] == acc &&
                       forall k :: i <= k < |rs| ==> r.value.elems[|acc| + k - i] == rs[k].value) &&
            (forall j :: FirstFailing(rs, i, j) ==> r == rs[j])
    decreases |rs| - i
  {
    if i < |rs| && rs[i].Ok? {
      var acc' := acc + [rs[i].value];
      CollectFromFacts(rs, i + 1, acc');
      var r := CollectFrom(rs, i, acc);
      if r.Ok? {
        assert r.value.elems[..|acc'|] == acc';
        assert r.value.elems[..|acc|] == acc'[..|acc|];
      }
      forall j | FirstFailing(rs, i, j) ensures r == rs[j] {
        assert FirstFailing(rs, i + 1, j);
      }
    }
  }

  // ----- the union loop -----

  /** The union loop from member `i` on: the first successful conversion, else `fallback`. */
  function FirstOkFrom(rs: seq<Result>, i: nat, fallback: Result): (r: Result)
    requires i <= |rs|
    decreases |rs| - i
  {
    if i == |rs| then fallback
    else if rs[i].Ok? then rs[i]
    else FirstOkFrom(rs, i + 1, fallback)
  }

  /** Conversion `j` is the first from `i` on that succeeds. */
  ghost predicate FirstOk(rs: seq<Result>, i: int, j: int)
  {
    0 <= i <= j < |rs| && rs[j].Ok? && forall k :: i <= k < j ==> rs[k].Err?
  }

  /**
   * The union loop succeeds iff some member from `i` on converts (given a failing
   * fallback), then returns the first such conversion; otherwise it is the fallback.
   */
  lemma {:induction false} FirstOkFacts(rs: seq<Result>, i: nat, fallback: Result)
    requires i <= |rs| && fallback.Err?
    ensures var r := FirstOkFrom(rs, i, fallback);
            (r.Ok? <==> exists k :: i <= k < |rs| && rs[k].Ok?) &&
            (forall j :: FirstOk(rs, i, j) ==> r == rs[j]) &&
            (r.Err? ==> r == fallback)
    decreases |rs| - i
  {
    if i < |rs| {
      FirstOkFacts(rs, i + 1, fallback);
      forall j | FirstOk(rs, i, j) ensures FirstOkFrom(rs, i, fallback) == rs[j] {
        if j > i {
          assert FirstOk(rs, i + 1, j);
        }
      }
    }
  }

  /** Conversions that all succeed with the values `ws` collect into the array `ws`. */
  lemma CollectFromAllOk(rs: seq<Result>, ws: seq<Value>)
    requires |rs| == |ws| && forall k :: 0 <= k < |rs| ==> rs[k] == Ok(ws[k])
    ensures CollectFrom(rs, 0, []) == Ok(Arr(ws))
  {
    CollectFromFacts(rs, 0, []);
    assert CollectFrom(rs, 0, []).value.elems == ws;
  }
}
