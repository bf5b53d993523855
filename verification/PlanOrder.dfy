/** Neither the order of a plan's modules nor that of the exported instances shows in the record. */
module PlanOrder {
  import opened Bytes
  import opened Text
  import opened VariantSelection
  import opened PlanCoverage

  /** The same elements and as many of them: what is left of a list under every permutation. */
  predicate Alike<T(==)>(xs: seq<T>, ys: seq<T>) {
    |xs| == |ys| && Elements(xs) == Elements(ys)
  }

  lemma PermutedAlike<T>(xs: seq<T>, ys: seq<T>)
    requires multiset(xs) == multiset(ys)
    ensures Alike(xs, ys)
  {
    assert |multiset(xs)| == |xs| && |multiset(ys)| == |ys|;
    forall x ensures x in Elements(xs) <==> x in Elements(ys) {
      assert x in xs <==> x in multiset(xs);
      assert x in ys <==> x in multiset(ys);
    }
  }

  function Images<T, U>(f: T -> U, xs: seq<T>): (us: seq<U>)
    ensures |us| == |xs| && forall i :: 0 <= i < |xs| ==> us[i] == f(xs[i])
  {
    seq(|xs|, i requires 0 <= i < |xs| => f(xs[i]))
  }

  lemma ImagesAlike<T, U>(f: T -> U, xs: seq<T>, ys: seq<T>)
    requires Alike(xs, ys)
    ensures Alike(Images(f, xs), Images(f, ys))
  {
    ImagesWithin(f, xs, ys);
    ImagesWithin(f, ys, xs);
  }

  lemma ImagesWithin<T, U>(f: T -> U, xs: seq<T>, ys: seq<T>)
    requires Elements(xs) <= Elements(ys)
    ensures Elements(Images(f, xs)) <= Elements(Images(f, ys))
  {
    forall u | u in Elements(Images(f, xs)) ensures u in Elements(Images(f, ys)) {
      var i :| 0 <= i < |xs| && Images(f, xs)[i] == u;
      assert xs[i] in Elements(xs);
      var j :| 0 <= j < |ys| && ys[j] == xs[i];
      assert Images(f, ys)[j] == u;
    }
  }

  ghost predicate Distinct<T, U>(f: T -> U, xs: seq<T>) {
    forall i, j :: 0 <= i < j < |xs| ==> f(xs[i]) != f(xs[j])
  }

  /** Whether images repeat is decided by how many there are. */
  lemma DistinctAlike<T, U>(f: T -> U, xs: seq<T>, ys: seq<T>)
    requires Alike(xs, ys)
    ensures Distinct(f, xs) <==> Distinct(f, ys)
  {
    ImagesAlike(f, xs, ys);
    CountDistinct(Images(f, xs));
    CountDistinct(Images(f, ys));
    DistinctIs(f, xs);
    DistinctIs(f, ys);
  }

  lemma DistinctIs<T, U>(f: T -> U, xs: seq<T>)
    ensures Distinct(f, xs) <==> forall i, j :: 0 <= i < j < |xs| ==> Images(f, xs)[i] != Images(f, xs)[j]
  {
    if !Distinct(f, xs) {
      var i, j :| 0 <= i < j < |xs| && f(xs[i]) == f(xs[j]);
      assert Images(f, xs)[i] == Images(f, xs)[j];
    }
  }

  // ---------------------------------------------------------------- modules

  lemma ChecksAre(ms: seq<Option<Module>>)
    ensures Checks(ms) == Images(Check, ms)
  {
  }

  lemma CheckAllAlike(ms: seq<Option<Module>>, ns: seq<Option<Module>>)
    requires Alike(ms, ns) && CheckAll(ms).Some?
    ensures CheckAll(ns).Some? && Alike(CheckAll(ms).value, CheckAll(ns).value)
  {
    ChecksAre(ms);
    ChecksAre(ns);
    ImagesAlike(Check, ms, ns);
    CollectAlike(Checks(ms), Checks(ns));
  }

  lemma CollectAlike(cs: seq<Option<Bound>>, ds: seq<Option<Bound>>)
    requires Alike(cs, ds) && Collect(cs).Some?
    ensures Collect(ds).Some? && Alike(Collect(cs).value, Collect(ds).value)
  {
    forall i | 0 <= i < |ds| ensures ds[i].Some? {
      assert ds[i] in Elements(cs);
    }
    CollectWithin(cs, ds);
    CollectWithin(ds, cs);
  }

  lemma CollectWithin(cs: seq<Option<Bound>>, ds: seq<Option<Bound>>)
    requires Elements(cs) <= Elements(ds) && Collect(cs).Some? && Collect(ds).Some?
    ensures Elements(Collect(cs).value) <= Elements(Collect(ds).value)
  {
    var bs, es := Collect(cs).value, Collect(ds).value;
    forall b | b in Elements(bs) ensures b in Elements(es) {
      var i :| 0 <= i < |bs| && bs[i] == b;
      assert cs[i] in Elements(ds);
      var j :| 0 <= j < |ds| && ds[j] == cs[i];
      assert es[j] == b;
    }
  }

  lemma NamesAlike(bs: seq<Bound>, es: seq<Bound>)
    requires Alike(bs, es)
    ensures DistinctNames(bs) <==> DistinctNames(es)
    ensures DistinctIdentities(bs) <==> DistinctIdentities(es)
  {
    var name, identity := (b: Bound) => b.name, (b: Bound) => b.identity;
    DistinctAlike(name, bs, es);
    DistinctAlike(identity, bs, es);
    assert forall b: Bound :: name(b) == b.name && identity(b) == b.identity;
  }

  lemma RowSetAlike(bs: seq<Bound>, es: seq<Bound>)
    requires Alike(bs, es)
    ensures RowSet(bs) == RowSet(es)
  {
    ImagesAlike(RowOf, bs, es);
    assert RowSet(bs) == Elements(Images(RowOf, bs));
    assert RowSet(es) == Elements(Images(RowOf, es));
  }

  lemma ExpectedAlike(bs: seq<Bound>, es: seq<Bound>, variant: Variant)
    requires Alike(bs, es) && DistinctNames(bs) && DistinctNames(es)
    ensures ExpectedMap(bs, variant) == ExpectedMap(es, variant)
  {
    ExpectedWithin(bs, es, variant);
    ExpectedWithin(es, bs, variant);
  }

  lemma ExpectedWithin(bs: seq<Bound>, es: seq<Bound>, variant: Variant)
    requires Elements(bs) <= Elements(es) && DistinctNames(bs) && DistinctNames(es)
    ensures forall name :: name in ExpectedMap(bs, variant) ==>
      name in ExpectedMap(es, variant) && ExpectedMap(es, variant)[name] == ExpectedMap(bs, variant)[name]
  {
    ExpectedMapIs(bs, variant);
    ExpectedMapIs(es, variant);
    forall name | name in ExpectedMap(bs, variant)
      ensures name in ExpectedMap(es, variant) && ExpectedMap(es, variant)[name] == ExpectedMap(bs, variant)[name]
    {
      var i :| 0 <= i < |bs| && bs[i].name == name;
      assert bs[i] in Elements(es);
      var j :| 0 <= j < |es| && es[j] == bs[i];
    }
  }

  // ---------------------------------------------------------------- export

  lemma ExportAlike(infos: seq<Info>, others: seq<Info>, planId: string, expected: map<string, Expected>)
    requires Alike(infos, others)
    ensures ExportBound(infos, planId, expected) <==> ExportBound(others, planId, expected)
    ensures ExportedNames(infos) == ExportedNames(others)
  {
    var name := (info: Info) => info.testName;
    DistinctAlike(name, infos, others);
    assert forall info: Info :: name(info) == info.testName;
    if ExportBound(infos, planId, expected) {
      MatchesWithin(others, infos, planId, expected);
    }
    if ExportBound(others, planId, expected) {
      MatchesWithin(infos, others, planId, expected);
    }
    ExportedWithin(infos, others);
    ExportedWithin(others, infos);
  }

  lemma MatchesWithin(infos: seq<Info>, others: seq<Info>, planId: string, expected: map<string, Expected>)
    requires Elements(infos) <= Elements(others)
    requires forall i :: 0 <= i < |others| ==> InfoMatches(others[i], planId, expected)
    ensures forall i :: 0 <= i < |infos| ==> InfoMatches(infos[i], planId, expected)
  {
    forall i | 0 <= i < |infos| ensures InfoMatches(infos[i], planId, expected) {
      assert infos[i] in Elements(others);
    }
  }

  lemma ExportedWithin(infos: seq<Info>, others: seq<Info>)
    requires Elements(infos) <= Elements(others)
    ensures ExportedNames(infos) <= ExportedNames(others)
  {
    forall name | name in ExportedNames(infos) ensures name in ExportedNames(others) {
      var i :| 0 <= i < |infos| && infos[i].testName == Some(name);
      assert infos[i] in Elements(others);
      var j :| 0 <= j < |others| && others[j] == infos[i];
    }
  }

  // ---------------------------------------------------------------- plans and records

  lemma BoundAlike(plan: Plan, other: Plan)
    requires plan.modules.Some? && other == plan.(modules := other.modules) && other.modules.Some?
    requires Alike(plan.modules.value, other.modules.value) && ModulesBound(plan)
    ensures ModulesBound(other)
    ensures RowSet(CheckAll(plan.modules.value).value) == RowSet(CheckAll(other.modules.value).value)
    ensures plan.variant.Some? ==> PlanExpects(plan) == PlanExpects(other)
  {
    CheckAllAlike(plan.modules.value, other.modules.value);
    var bs, es := CheckAll(plan.modules.value).value, CheckAll(other.modules.value).value;
    NamesAlike(bs, es);
    RowSetAlike(bs, es);
    if plan.variant.Some? {
      ExpectedAlike(bs, es, plan.variant.value);
    }
  }

  lemma CoversAlike(infos: seq<Info>, others: seq<Info>, plan: Plan, other: Plan, selection: string)
    requires plan.modules.Some? && other == plan.(modules := other.modules) && other.modules.Some?
    requires Alike(plan.modules.value, other.modules.value) && Alike(infos, others)
    requires Covers(infos, Some(plan), selection)
    ensures Covers(others, Some(other), selection)
  {
    BoundAlike(plan, other);
    ExportAlike(infos, others, plan.id.value, PlanExpects(plan));
  }

  /** Whether an export covers a plan, and the record it gets, are the same for every order of the plan's modules and
      every order of the exported instances. */
  lemma RecordForgetsOrder(hash: BindingHash, infos: seq<Info>, others: seq<Info>, plan: Plan,
                           modules: seq<Option<Module>>, selection: string, a: Record, b: Record)
    requires plan.modules.Some? && multiset(plan.modules.value) == multiset(modules)
    requires multiset(infos) == multiset(others)
    ensures Covers(infos, Some(plan), selection) <==> Covers(others, Some(plan.(modules := Some(modules))), selection)
    ensures Covers(infos, Some(plan), selection) ==>
      (Records(hash, infos, plan, selection, a) && Records(hash, others, plan.(modules := Some(modules)), selection, b)
       ==> a == b)
  {
    var other := plan.(modules := Some(modules));
    PermutedAlike(plan.modules.value, modules);
    PermutedAlike(infos, others);
    if Covers(infos, Some(plan), selection) {
      CoversAlike(infos, others, plan, other, selection);
      BoundAlike(plan, other);
      ExportAlike(infos, others, plan.id.value, PlanExpects(plan));
      if Records(hash, infos, plan, selection, a) && Records(hash, others, other, selection, b) {
        RowsUnique(a.moduleBindings, b.moduleBindings);
      }
    }
    if Covers(others, Some(other), selection) {
      CoversAlike(others, infos, other, plan, selection);
    }
  }

  // ---------------------------------------------------------------- the order within a record

  function TestNames(rows: seq<Row>): (names: seq<string>)
    ensures |names| == |rows| && forall i :: 0 <= i < |rows| ==> names[i] == rows[i].testName
  {
    seq(|rows|, i requires 0 <= i < |rows| => rows[i].testName)
  }

  /** Every list of a record, and the keys of every label in it, are in Python's order. */
  lemma {:induction false} RecordIncreases(hash: BindingHash, infos: seq<Info>, plan: Plan, selection: string,
                                           record: Record)
    requires Covers(infos, Some(plan), selection) && Records(hash, infos, plan, selection, record)
    ensures Increasing(record.expectedModules) && Increasing(record.missingModules)
    ensures Increasing(TestNames(record.moduleBindings))
    ensures forall row :: row in record.moduleBindings ==>
      exists b :: b in CheckAll(plan.modules.value).value && row == RowOf(b)
                  && row.interactionName == b.name + Groups(SortedPairs(b.extra))
                  && Increasing(KeysOf(SortedPairs(b.extra)))
  {
    IncreasingExact(record.expectedModules);
    IncreasingExact(record.missingModules);
    IncreasingExact(TestNames(record.moduleBindings));
    var bs := CheckAll(plan.modules.value).value;
    forall row | row in record.moduleBindings
      ensures exists b :: b in bs && row == RowOf(b) && row.interactionName == b.name + Groups(SortedPairs(b.extra))
                          && Increasing(KeysOf(SortedPairs(b.extra)))
    {
      assert row in Elements(record.moduleBindings);
      var i :| 0 <= i < |bs| && RowOf(bs[i]) == row;
      SortedPairsIncrease(bs[i].extra);
      assert bs[i] in bs;
    }
  }
}
