/** Binding an official export to its live plan, and checking the saved binding again without the plan.
    A field is `None` when it is absent or not of the type the code asks for. */
module PlanCoverage {
  import opened Bytes
  import opened Text
  import opened VariantSelection

  datatype Module = Module(testModule: Option<string>, instances: Option<seq<Option<string>>>, variant: Option<Variant>)

  datatype Plan = Plan(id: Option<string>, planName: Option<string>, variant: Option<Variant>,
                       modules: Option<seq<Option<Module>>>)

  datatype Info = Info(testName: Option<string>, planId: Option<string>, testId: Option<string>,
                       instanceId: Option<string>, variant: Option<Variant>)

  /** What a module is expected to export. */
  datatype Expected = Expected(identity: string, variant: Variant)

  datatype Row = Row(testName: string, testId: string, interactionName: string)

  /** Hash of the plan identity, the selection and the expected map, written with sorted keys. */
  type BindingHash = (string, string, map<string, Expected>) -> string

  datatype Record = Record(complete: bool, expectedModules: seq<string>, missingModules: seq<string>,
                           exportedModuleCount: nat, moduleBindings: seq<Row>, bindingSha256: string)

  predicate IsIdentity(s: string) {
    1 <= |s| <= 180 && All(s, IsAlnum)
  }

  predicate IsSafeModule(s: string) {
    1 <= |s| <= 180 && All(s, IsValueChar)
  }

  predicate BoundedVariant(variant: Variant) {
    && AdmissibleVariant(variant)
    && forall k :: k in variant ==> |k| <= 80 && |variant[k]| <= 120
  }

  /** A module's name, its one instance and its own variant, once they have been checked. */
  datatype Bound = Bound(name: string, identity: string, extra: Variant)

  function Check(m: Option<Module>): (b: Option<Bound>) {
    match m
    case Some(Module(Some(name), Some(instances), Some(extra))) =>
      if IsSafeModule(name) && BoundedVariant(extra) && |instances| == 1
         && instances[0].Some? && IsIdentity(instances[0].value)
      then Some(Bound(name, instances[0].value, extra)) else None
    case _ => None
  }

  /** Everything was there, or nothing is returned. */
  function Collect(cs: seq<Option<Bound>>): (bs: Option<seq<Bound>>)
    ensures bs.Some? ==> |bs.value| == |cs| && forall i :: 0 <= i < |cs| ==> cs[i] == Some(bs.value[i])
    ensures bs.None? ==> exists i :: 0 <= i < |cs| && cs[i].None?
  {
    if cs == [] then Some([])
    else
      var front, last := Collect(cs[..|cs| - 1]), cs[|cs| - 1];
      if front.None? || last.None? then None else Some(front.value + [last.value])
  }

  function Checks(ms: seq<Option<Module>>): (cs: seq<Option<Bound>>)
    ensures |cs| == |ms| && forall i :: 0 <= i < |ms| ==> cs[i] == Check(ms[i])
  {
    seq(|ms|, i requires 0 <= i < |ms| => Check(ms[i]))
  }

  function CheckAll(ms: seq<Option<Module>>): Option<seq<Bound>> {
    Collect(Checks(ms))
  }

  function RowOf(b: Bound): Row {
    Row(b.name, b.identity, Label(b.name, b.extra))
  }

  /** The expected map after the first modules have been entered. */
  function ExpectedMap(bs: seq<Bound>, variant: Variant): map<string, Expected> {
    if bs == [] then map[]
    else
      var b := bs[|bs| - 1];
      ExpectedMap(bs[..|bs| - 1], variant)[b.name := Expected(b.identity, variant + b.extra)]
  }

  ghost predicate DistinctNames(bs: seq<Bound>) {
    forall i, j :: 0 <= i < j < |bs| ==> bs[i].name != bs[j].name
  }

  ghost predicate DistinctIdentities(bs: seq<Bound>) {
    forall i, j :: 0 <= i < j < |bs| ==> bs[i].identity != bs[j].identity
  }

  // ---------------------------------------------------------------- what is accepted, and what it yields

  ghost predicate PlanSelected(plan: Option<Plan>, selection: string) {
    && ParseVariantSelection(selection).Some?
    && plan.Some?
    && plan.value.planName == Some(ParseVariantSelection(selection).value.0)
    && plan.value.variant == Some(ParseVariantSelection(selection).value.1)
    && plan.value.id.Some? && IsIdentity(plan.value.id.value)
  }

  ghost predicate ModulesBound(plan: Plan) {
    && plan.modules.Some? && plan.modules.value != []
    && CheckAll(plan.modules.value).Some?
    && DistinctNames(CheckAll(plan.modules.value).value)
    && DistinctIdentities(CheckAll(plan.modules.value).value)
  }

  function PlanExpects(plan: Plan): map<string, Expected>
    requires plan.modules.Some? && CheckAll(plan.modules.value).Some? && plan.variant.Some?
  {
    ExpectedMap(CheckAll(plan.modules.value).value, plan.variant.value)
  }

  predicate InfoMatches(info: Info, planId: string, expected: map<string, Expected>) {
    && info.testName.Some? && info.testName.value in expected
    && info.planId == Some(planId)
    && info.testId == Some(expected[info.testName.value].identity)
    && info.instanceId == Some(expected[info.testName.value].identity)
    && info.variant == Some(expected[info.testName.value].variant)
  }

  ghost predicate ExportBound(infos: seq<Info>, planId: string, expected: map<string, Expected>) {
    && (forall i :: 0 <= i < |infos| ==> InfoMatches(infos[i], planId, expected))
    && forall i, j :: 0 <= i < j < |infos| ==> infos[i].testName != infos[j].testName
  }

  function ExportedNames(infos: seq<Info>): set<string> {
    set i | 0 <= i < |infos| && infos[i].testName.Some? :: infos[i].testName.value
  }

  ghost predicate Covers(infos: seq<Info>, plan: Option<Plan>, selection: string) {
    && PlanSelected(plan, selection)
    && ModulesBound(plan.value)
    && ExportBound(infos, plan.value.id.value, PlanExpects(plan.value))
  }

  ghost function RowSet(bs: seq<Bound>): set<Row> {
    set i | 0 <= i < |bs| :: RowOf(bs[i])
  }

  /** Rows in the order of their test names. */
  ghost predicate RowsSorted(rows: seq<Row>) {
    forall i, j :: 0 <= i < j < |rows| ==> Less(rows[i].testName, rows[j].testName)
  }

  /** The record determined by a covered plan: nothing in it depends on the order of modules or infos. */
  ghost predicate Records(hash: BindingHash, infos: seq<Info>, plan: Plan, selection: string, record: Record)
    requires Covers(infos, Some(plan), selection)
  {
    var expected := PlanExpects(plan);
    && record.expectedModules == Sorted(expected.Keys)
    && record.missingModules == Sorted(expected.Keys - ExportedNames(infos))
    && record.complete == (record.missingModules == [])
    && record.exportedModuleCount == |infos|
    && RowsSorted(record.moduleBindings)
    && Elements(record.moduleBindings) == RowSet(CheckAll(plan.modules.value).value)
    && record.bindingSha256 == hash(plan.id.value, selection, expected)
  }

  lemma {:induction false} ExpectedNames(bs: seq<Bound>, variant: Variant)
    ensures forall name :: name in ExpectedMap(bs, variant) <==> exists i :: 0 <= i < |bs| && bs[i].name == name
  {
    if bs != [] {
      var front := bs[..|bs| - 1];
      ExpectedNames(front, variant);
      assert forall i :: 0 <= i < |front| ==> front[i] == bs[i];
    }
  }

  lemma {:induction false} ExpectedValue(bs: seq<Bound>, variant: Variant, i: nat)
    requires DistinctNames(bs) && i < |bs|
    ensures bs[i].name in ExpectedMap(bs, variant)
    ensures ExpectedMap(bs, variant)[bs[i].name] == Expected(bs[i].identity, variant + bs[i].extra)
  {
    if i < |bs| - 1 {
      ExpectedValue(bs[..|bs| - 1], variant, i);
    }
  }

  lemma ExpectedMapIs(bs: seq<Bound>, variant: Variant)
    requires DistinctNames(bs)
    ensures forall name :: name in ExpectedMap(bs, variant) <==> exists i :: 0 <= i < |bs| && bs[i].name == name
    ensures forall i :: 0 <= i < |bs| ==>
      ExpectedMap(bs, variant)[bs[i].name] == Expected(bs[i].identity, variant + bs[i].extra)
  {
    ExpectedNames(bs, variant);
    forall i | 0 <= i < |bs|
      ensures ExpectedMap(bs, variant)[bs[i].name] == Expected(bs[i].identity, variant + bs[i].extra)
    {
      ExpectedValue(bs, variant, i);
    }
  }

  lemma FirstRow(a: seq<Row>, b: seq<Row>)
    requires RowsSorted(a) && RowsSorted(b) && Elements(a) == Elements(b) && a != [] && b != []
    ensures a[0] == b[0]
  {
    assert a[0] in Elements(b) && b[0] in Elements(a);
    var i :| 0 <= i < |a| && a[i] == b[0];
    var j :| 0 <= j < |b| && b[j] == a[0];
    if i > 0 && j > 0 {
      LessEqAntisymmetric(a[0].testName, b[0].testName);
    }
  }

  lemma LaterRows(a: seq<Row>)
    requires RowsSorted(a) && a != []
    ensures Elements(a[1..]) == Elements(a) - {a[0]}
  {
    assert a == [a[0]] + a[1..];
    assert forall i :: 0 < i < |a| ==> a[i] != a[0];
  }

  lemma {:induction false} RowsUnique(a: seq<Row>, b: seq<Row>)
    requires RowsSorted(a) && RowsSorted(b) && Elements(a) == Elements(b)
    ensures a == b
    decreases |a|
  {
    EmptyElements(a);
    EmptyElements(b);
    if a != [] {
      FirstRow(a, b);
      LaterRows(a);
      LaterRows(b);
      RowsUnique(a[1..], b[1..]);
      assert a == [a[0]] + a[1..] && b == [b[0]] + b[1..];
    }
  }

  /** A covered plan has exactly one record. */
  lemma RecordUnique(hash: BindingHash, infos: seq<Info>, plan: Plan, selection: string, a: Record, b: Record)
    requires Covers(infos, Some(plan), selection)
    requires Records(hash, infos, plan, selection, a) && Records(hash, infos, plan, selection, b)
    ensures a == b
  {
    RowsUnique(a.moduleBindings, b.moduleBindings);
  }

  // ---------------------------------------------------------------- comparing with the live plan

  function InsertRow(row: Row, rows: seq<Row>): (r: seq<Row>)
    ensures Elements(r) == Elements(rows) + {row}
  {
    if rows == [] || LessEq(row.testName, rows[0].testName) then
      assert Elements([row] + rows) == Elements(rows) + {row};
      [row] + rows
    else
      var rest := InsertRow(row, rows[1..]);
      assert rows == [rows[0]] + rows[1..];
      assert Elements([rows[0]] + rest) == Elements(rest) + {rows[0]};
      [rows[0]] + rest
  }

  /** `sorted` by test name. */
  function SortRows(rows: seq<Row>): (r: seq<Row>)
    ensures Elements(r) == Elements(rows)
  {
    if rows == [] then [] else
      assert rows == [rows[0]] + rows[1..];
      InsertRow(rows[0], SortRows(rows[1..]))
  }

  lemma {:induction false} InsertRowSorted(row: Row, rows: seq<Row>)
    requires RowsSorted(rows) && forall r :: r in rows ==> r.testName != row.testName
    ensures RowsSorted(InsertRow(row, rows))
    decreases |rows|
  {
    if rows == [] {
    } else if LessEq(row.testName, rows[0].testName) {
      forall j | 0 <= j < |rows| ensures LessEq(row.testName, rows[j].testName) {
        LessEqTotal(rows[0].testName, rows[0].testName);
        LessEqTransitive(row.testName, rows[0].testName, rows[j].testName);
      }
    } else {
      LessEqTotal(row.testName, rows[0].testName);
      InsertRowSorted(row, rows[1..]);
      var rest := InsertRow(row, rows[1..]);
      forall j | 0 <= j < |rest| ensures Less(rows[0].testName, rest[j].testName) {
        assert rest[j] in Elements(rest);
        if rest[j] != row {
          var k :| 0 <= k < |rows[1..]| && rows[1..][k] == rest[j];
          assert rows[k + 1] == rest[j];
        }
      }
    }
  }

  lemma {:induction false} SortRowsSorted(rows: seq<Row>)
    requires forall i, j :: 0 <= i < j < |rows| ==> rows[i].testName != rows[j].testName
    ensures RowsSorted(SortRows(rows))
    decreases |rows|
  {
    if rows != [] {
      SortRowsSorted(rows[1..]);
      forall r | r in SortRows(rows[1..]) ensures r.testName != rows[0].testName {
        assert r in Elements(rows[1..]);
        var k :| 0 <= k < |rows[1..]| && rows[1..][k] == r;
        assert rows[k + 1] == r;
      }
      InsertRowSorted(rows[0], SortRows(rows[1..]));
    }
  }

  /** One more module: its name must be new. */
  lemma BindStep(bs: seq<Bound>, b: Bound, variant: Variant)
    requires DistinctNames(bs)
    ensures DistinctNames(bs + [b]) <==> b.name !in ExpectedMap(bs, variant)
    ensures ExpectedMap(bs + [b], variant)
         == ExpectedMap(bs, variant)[b.name := Expected(b.identity, variant + b.extra)]
  {
    ExpectedMapIs(bs, variant);
    assert (bs + [b])[..|bs|] == bs;
    if b.name in ExpectedMap(bs, variant) {
      var i :| 0 <= i < |bs| && bs[i].name == b.name;
      assert (bs + [b])[i].name == (bs + [b])[|bs|].name;
    }
  }

  lemma AllBound(cs: seq<Option<Bound>>, bs: seq<Bound>)
    requires |bs| == |cs| && forall k :: 0 <= k < |bs| ==> cs[k] == Some(bs[k])
    ensures Collect(cs) == Some(bs)
  {
    var all := Collect(cs);
    if all.Some? {
      assert forall k :: 0 <= k < |bs| ==> Some(all.value[k]) == cs[k];
      assert all.value == bs;
    }
  }

  lemma RepeatedName(bs: seq<Bound>, longer: seq<Bound>)
    requires bs <= longer && !DistinctNames(bs)
    ensures !DistinctNames(longer)
  {
    var i, j :| 0 <= i < j < |bs| && bs[i].name == bs[j].name;
    assert longer[i].name == longer[j].name;
  }

  lemma CollectPrefix(cs: seq<Option<Bound>>, n: nat)
    requires n <= |cs| && Collect(cs).Some?
    ensures Collect(cs[..n]) == Some(Collect(cs).value[..n])
  {
    var all := Collect(cs).value;
    assert forall k :: 0 <= k < n ==> cs[..n][k] == Some(all[k]);
    AllBound(cs[..n], all[..n]);
  }

  /** A bad module, or a repeated name, anywhere spoils the whole list. */
  lemma NeverBound(cs: seq<Option<Bound>>, n: nat)
    requires n <= |cs| && (Collect(cs[..n]).Some? ==> !DistinctNames(Collect(cs[..n]).value))
    ensures Collect(cs).Some? ==> !DistinctNames(Collect(cs).value)
  {
    if Collect(cs).Some? {
      CollectPrefix(cs, n);
      RepeatedName(Collect(cs).value[..n], Collect(cs).value);
    }
  }

  lemma {:induction false} RepeatedModule(cs: seq<Option<Bound>>, bs: seq<Bound>, b: Bound)
    requires |bs| < |cs| && (forall k :: 0 <= k < |bs| ==> cs[k] == Some(bs[k])) && cs[|bs|] == Some(b)
    requires !DistinctNames(bs + [b])
    ensures Collect(cs).Some? ==> !DistinctNames(Collect(cs).value)
  {
    AllBound(cs[..|bs| + 1], bs + [b]);
    NeverBound(cs, |bs| + 1);
  }

  /** What the loop over the modules has made of those before it. */
  ghost predicate BoundSoFar(cs: seq<Option<Bound>>, variant: Variant, bs: seq<Bound>, rows: seq<Row>,
                             expected: map<string, Expected>) {
    && |bs| == |rows| <= |cs|
    && (forall k :: 0 <= k < |bs| ==> cs[k] == Some(bs[k]))
    && (forall k :: 0 <= k < |bs| ==> rows[k] == RowOf(bs[k]))
    && DistinctNames(bs) && expected == ExpectedMap(bs, variant)
  }

  lemma BoundOneMore(cs: seq<Option<Bound>>, variant: Variant, bs: seq<Bound>, rows: seq<Row>,
                     expected: map<string, Expected>, b: Bound)
    requires BoundSoFar(cs, variant, bs, rows, expected) && |bs| < |cs| && cs[|bs|] == Some(b)
    ensures b.name in expected ==> (Collect(cs).Some? ==> !DistinctNames(Collect(cs).value))
    ensures b.name !in expected ==>
      BoundSoFar(cs, variant, bs + [b], rows + [RowOf(b)], expected[b.name := Expected(b.identity, variant + b.extra)])
  {
    BindStep(bs, b, variant);
    if b.name in expected {
      RepeatedModule(cs, bs, b);
    } else {
      RowsSnoc(bs, rows, b);
    }
  }

  lemma RowsSnoc(bs: seq<Bound>, rows: seq<Row>, b: Bound)
    requires |rows| == |bs| && forall k :: 0 <= k < |bs| ==> rows[k] == RowOf(bs[k])
    ensures forall k :: 0 <= k < |bs + [b]| ==> (rows + [RowOf(b)])[k] == RowOf((bs + [b])[k])
  {
  }

  /** Keys and values as a module may have them. */
  predicate PlainVariant(variant: Variant) {
    forall k :: k in variant ==>
      && 1 <= |k| <= 80 && All(k, IsKeyChar)
      && 1 <= |variant[k]| <= 120 && All(variant[k], IsValueChar)
  }

  /** The checks on one module. */
  method CheckModule(m: Option<Module>) returns (checked: Option<Bound>)
    ensures checked == Check(m)
  {
    if m.None? || m.value.testModule.None? || m.value.instances.None? || m.value.variant.None? {
      return None;
    }
    var name, instances, extra := m.value.testModule.value, m.value.instances.value, m.value.variant.value;
    if !(1 <= |name| <= 180 && All(name, IsValueChar)) || !PlainVariant(extra)
       || |instances| != 1 || instances[0].None?
       || !(1 <= |instances[0].value| <= 180 && All(instances[0].value, IsAlnum))
    {
      return None;
    }
    return Some(Bound(name, instances[0].value, extra));
  }

  /** The loop over the plan's modules. */
  method BindModules(modules: seq<Option<Module>>, variant: Variant)
    returns (r: Result<(map<string, Expected>, seq<Row>)>)
    ensures r.Success? <==> CheckAll(modules).Some? && DistinctNames(CheckAll(modules).value)
    ensures r.Success? ==>
      var bs := CheckAll(modules).value;
      && r.value.0 == ExpectedMap(bs, variant)
      && |r.value.1| == |bs| && forall i :: 0 <= i < |bs| ==> r.value.1[i] == RowOf(bs[i])
  {
    var expected: map<string, Expected> := map[];
    var rows: seq<Row> := [];
    ghost var bs: seq<Bound> := [];
    ghost var cs := Checks(modules);
    while |rows| < |modules|
      invariant BoundSoFar(cs, variant, bs, rows, expected)
    {
      var checked := CheckModule(modules[|rows|]);
      assert checked == cs[|bs|];
      if checked.None? {
        return Failure("official plan has missing or ambiguous module instances");
      }
      var b := checked.value;
      BoundOneMore(cs, variant, bs, rows, expected, b);
      if b.name in expected {
        return Failure("official plan has missing or ambiguous module instances");
      }
      expected := expected[b.name := Expected(b.identity, variant + b.extra)];
      rows, bs := rows + [Row(b.name, b.identity, b.name + Groups(SortedPairs(b.extra)))], bs + [b];
    }
    AllBound(cs, bs);
    return Success((expected, rows));
  }

  lemma ExportStep(infos: seq<Info>, i: nat, planId: string, expected: map<string, Expected>)
    requires i < |infos| && ExportBound(infos[..i], planId, expected)
    ensures ExportBound(infos[..i + 1], planId, expected)
      <==> InfoMatches(infos[i], planId, expected) && infos[i].testName.value !in ExportedNames(infos[..i])
    ensures infos[i].testName.Some? ==>
      ExportedNames(infos[..i + 1]) == ExportedNames(infos[..i]) + {infos[i].testName.value}
  {
    var front, longer := infos[..i], infos[..i + 1];
    assert longer == front + [infos[i]];
    assert longer[i] == infos[i];
    if infos[i].testName.Some? && infos[i].testName.value in ExportedNames(front) {
      var k :| 0 <= k < i && front[k].testName == infos[i].testName;
      assert longer[k].testName == longer[i].testName;
    }
  }

  lemma ExportPrefix(infos: seq<Info>, i: nat, planId: string, expected: map<string, Expected>)
    requires i <= |infos| && ExportBound(infos, planId, expected)
    ensures ExportBound(infos[..i], planId, expected)
  {
  }

  /** One more exported instance is bound, or the whole export is not. */
  lemma ExportOneMore(infos: seq<Info>, i: nat, planId: string, expected: map<string, Expected>)
    requires i < |infos| && ExportBound(infos[..i], planId, expected)
    ensures
      if InfoMatches(infos[i], planId, expected) && infos[i].testName.value !in ExportedNames(infos[..i])
      then
        && ExportBound(infos[..i + 1], planId, expected)
        && ExportedNames(infos[..i + 1]) == ExportedNames(infos[..i]) + {infos[i].testName.value}
      else !ExportBound(infos, planId, expected)
  {
    ExportStep(infos, i, planId, expected);
    if ExportBound(infos, planId, expected) {
      ExportPrefix(infos, i + 1, planId, expected);
    }
  }

  /** The loop over the export. */
  method BindExport(infos: seq<Info>, planId: string, expected: map<string, Expected>) returns (r: Result<set<string>>)
    ensures r.Success? <==> ExportBound(infos, planId, expected)
    ensures r.Success? ==> r.value == ExportedNames(infos) && |r.value| == |infos|
  {
    var exported: set<string> := {};
    var i := 0;
    assert infos[..|infos|] == infos;
    while i < |infos|
      invariant 0 <= i <= |infos|
      invariant ExportBound(infos[..i], planId, expected)
      invariant exported == ExportedNames(infos[..i]) && |exported| == i
    {
      var info := infos[i];
      ExportOneMore(infos, i, planId, expected);
      if info.testName.None? || info.testName.value !in expected || info.testName.value in exported {
        return Failure("official export has unexpected or duplicate modules");
      }
      var bound := expected[info.testName.value];
      if info.planId != Some(planId) || info.testId != Some(bound.identity) || info.instanceId != Some(bound.identity)
         || info.variant != Some(bound.variant)
      {
        return Failure("official export does not match its live plan instance");
      }
      exported := exported + {info.testName.value};
      i := i + 1;
    }
    return Success(exported);
  }

  /** The checks on the plan as a whole. */
  method SelectPlan(plan: Option<Plan>, selection: string) returns (r: Result<seq<Option<Module>>>)
    ensures r.Success? <==>
      PlanSelected(plan, selection) && plan.value.modules.Some? && plan.value.modules.value != []
    ensures r.Success? ==> plan.value.modules == Some(r.value)
  {
    var selected := ParseVariantSelection(selection);
    if selected.None? {
      return Failure("invalid official plan selection");
    }
    if plan.None? || plan.value.planName != Some(selected.value.0) || plan.value.variant != Some(selected.value.1) {
      return Failure("live official plan does not match the selected profile");
    }
    if plan.value.id.None? || !IsIdentity(plan.value.id.value) {
      return Failure("invalid official plan identity");
    }
    if plan.value.modules.None? || plan.value.modules.value == [] {
      return Failure("official plan contains no modules");
    }
    return Success(plan.value.modules.value);
  }

  lemma RowSetIs(bs: seq<Bound>, rows: seq<Row>)
    requires |rows| == |bs| && forall i :: 0 <= i < |bs| ==> rows[i] == RowOf(bs[i])
    ensures Elements(rows) == RowSet(bs)
  {
    forall row | row in RowSet(bs) ensures row in rows {
      var i :| 0 <= i < |bs| && RowOf(bs[i]) == row;
      assert rows[i] == row;
    }
  }

  method ComparePlanCoverage(hash: BindingHash, infos: seq<Info>, plan: Option<Plan>, selection: string)
    returns (r: Result<Record>)
    ensures r.Success? <==> Covers(infos, plan, selection)
    ensures r.Success? ==> Records(hash, infos, plan.value, selection, r.value)
  {
    var modules := SelectPlan(plan, selection);
    if modules.Failure? {
      return Failure(modules.reason);
    }
    var bound := BindModules(modules.value, plan.value.variant.value);
    if bound.Failure? {
      return Failure(bound.reason);
    }
    var (expected, rows) := bound.value;
    ghost var bs := CheckAll(modules.value).value;
    IdentityCount(bs, plan.value.variant.value);
    if |Identities(expected)| != |expected| {
      return Failure("official plan reuses an instance identity");
    }
    var exported := BindExport(infos, plan.value.id.value, expected);
    if exported.Failure? {
      return Failure(exported.reason);
    }
    var missing := Sorted(expected.Keys - exported.value);
    RowSetIs(bs, rows);
    SortRowsSorted(rows);
    return Success(Record(missing == [], Sorted(expected.Keys), missing, |exported.value|, SortRows(rows),
                          hash(plan.value.id.value, selection, expected)));
  }

  function Identities(expected: map<string, Expected>): set<string> {
    set name | name in expected :: expected[name].identity
  }

  lemma NamesAre(bs: seq<Bound>, variant: Variant, names: seq<string>)
    requires DistinctNames(bs) && |names| == |bs| && forall i :: 0 <= i < |bs| ==> names[i] == bs[i].name
    ensures Elements(names) == ExpectedMap(bs, variant).Keys
  {
    ExpectedMapIs(bs, variant);
    forall name | name in ExpectedMap(bs, variant) ensures name in Elements(names) {
      var i :| 0 <= i < |bs| && bs[i].name == name;
      assert names[i] == name;
    }
  }

  lemma IdentitiesAre(bs: seq<Bound>, variant: Variant, identities: seq<string>)
    requires DistinctNames(bs) && |identities| == |bs| && forall i :: 0 <= i < |bs| ==> identities[i] == bs[i].identity
    ensures Elements(identities) == Identities(ExpectedMap(bs, variant))
  {
    ExpectedMapIs(bs, variant);
    var expected := ExpectedMap(bs, variant);
    forall id | id in identities ensures id in Identities(expected) {
      var i :| 0 <= i < |bs| && identities[i] == id;
      assert bs[i].name in expected;
    }
    forall name | name in expected ensures expected[name].identity in Elements(identities) {
      var i :| 0 <= i < |bs| && bs[i].name == name;
      assert identities[i] == expected[name].identity;
    }
  }

  lemma IdentityCount(bs: seq<Bound>, variant: Variant)
    requires DistinctNames(bs)
    ensures |Identities(ExpectedMap(bs, variant))| == |ExpectedMap(bs, variant)| <==> DistinctIdentities(bs)
  {
    var names := seq(|bs|, i requires 0 <= i < |bs| => bs[i].name);
    var identities := seq(|bs|, i requires 0 <= i < |bs| => bs[i].identity);
    CountDistinct(names);
    CountDistinct(identities);
    NamesAre(bs, variant, names);
    IdentitiesAre(bs, variant, identities);
    assert |ExpectedMap(bs, variant)| == |ExpectedMap(bs, variant).Keys|;
  }

  // ---------------------------------------------------------------- rechecking a saved record

  datatype StoredRow = StoredRow(testName: Option<string>, testId: Option<string>, interactionName: Option<string>)

  /** A record as it is read back from saved evidence, where any field may be missing or malformed. */
  datatype Stored = Stored(complete: Option<bool>, expectedModules: Option<seq<string>>,
                           missingModules: Option<seq<string>>, exportedModuleCount: Option<int>,
                           moduleBindings: Option<seq<Option<StoredRow>>>, bindingSha256: Option<string>)

  function StoreRow(row: Row): Option<StoredRow> {
    Some(StoredRow(Some(row.testName), Some(row.testId), Some(row.interactionName)))
  }

  function StoreRows(rows: seq<Row>): (stored: seq<Option<StoredRow>>)
    ensures |stored| == |rows| && forall i :: 0 <= i < |rows| ==> stored[i] == StoreRow(rows[i])
  {
    seq(|rows|, i requires 0 <= i < |rows| => StoreRow(rows[i]))
  }

  function Store(r: Record): Stored {
    Stored(Some(r.complete), Some(r.expectedModules), Some(r.missingModules), Some(r.exportedModuleCount),
           Some(StoreRows(r.moduleBindings)),
           Some(r.bindingSha256))
  }

  /** A row becomes a plan module again by parsing its label. */
  function RebuildModule(row: Option<StoredRow>): (m: Option<Module>) {
    match row
    case Some(StoredRow(name, id, Some(text))) =>
      (match ParseVariantSelection(text)
       case Some((parsed, extra)) =>
         if Some(parsed) == name then Some(Module(Some(parsed), Some([id]), Some(extra))) else None
       case None => None)
    case _ => None
  }

  function Rebuilt(rows: seq<Option<StoredRow>>): (ms: seq<Option<Module>>)
    ensures |ms| == |rows| && forall i :: 0 <= i < |rows| ==> ms[i] == RebuildModule(rows[i])
  {
    seq(|rows|, i requires 0 <= i < |rows| => RebuildModule(rows[i]))
  }

  predicate AllThere(ms: seq<Option<Module>>) {
    forall i :: 0 <= i < |ms| ==> ms[i].Some?
  }

  predicate OnePlanId(infos: seq<Info>) {
    infos != [] && forall i :: 0 <= i < |infos| ==> infos[i].planId == infos[0].planId
  }

  /** The plan a saved record speaks of, when every row can be rebuilt. */
  function RecordedPlan(infos: seq<Info>, stored: Option<Stored>, selection: string): Option<Plan> {
    if !OnePlanId(infos) || stored.None? || stored.value.moduleBindings.None? then None
    else
      var modules := Rebuilt(stored.value.moduleBindings.value);
      match ParseVariantSelection(selection)
      case Some((name, variant)) =>
        if AllThere(modules) then Some(Plan(infos[0].planId, Some(name), Some(variant), Some(modules))) else None
      case None => None
  }

  /** The recheck passes with this record. */
  ghost predicate Rechecks(hash: BindingHash, infos: seq<Info>, stored: Option<Stored>, selection: string,
                           observed: Record) {
    var plan := RecordedPlan(infos, stored, selection);
    && Covers(infos, plan, selection)
    && Records(hash, infos, plan.value, selection, observed)
    && stored == Some(Store(observed))
  }

  method PlanIdIsUnique(infos: seq<Info>) returns (unique: bool)
    ensures unique == OnePlanId(infos)
  {
    var planIds := set i | 0 <= i < |infos| :: infos[i].planId;
    assert forall i :: 0 <= i < |infos| ==> infos[i].planId in planIds;
    if OnePlanId(infos) {
      assert planIds == {infos[0].planId};
    } else if infos != [] {
      var i :| 0 <= i < |infos| && infos[i].planId != infos[0].planId;
      assert |planIds - {infos[0].planId} - {infos[i].planId}| == |planIds| - 2;
    }
    return |planIds| == 1;
  }

  method RebuildModules(rows: seq<Option<StoredRow>>) returns (r: Result<seq<Option<Module>>>)
    ensures r.Success? <==> AllThere(Rebuilt(rows))
    ensures r.Success? ==> r.value == Rebuilt(rows)
  {
    var modules: seq<Option<Module>> := [];
    ghost var whole := Rebuilt(rows);
    while |modules| < |rows|
      invariant |modules| <= |rows| && modules == whole[..|modules|] && AllThere(modules)
    {
      var row := rows[|modules|];
      assert whole[|modules|] == RebuildModule(row);
      if row.None? || row.value.interactionName.None? {
        return Failure("recorded official interaction label is missing");
      }
      var parsed := ParseVariantSelection(row.value.interactionName.value);
      if parsed.None? || row.value.testName != Some(parsed.value.0) {
        return Failure("recorded official interaction belongs to another module");
      }
      Snoc(whole, |modules|);
      modules := modules + [Some(Module(Some(parsed.value.0), Some([row.value.testId]), Some(parsed.value.1)))];
    }
    return Success(modules);
  }

  /** Every field of a saved record is there and says what was observed. */
  predicate SameFields(observed: Record, recorded: Stored) {
    && recorded.complete == Some(observed.complete)
    && recorded.expectedModules == Some(observed.expectedModules)
    && recorded.missingModules == Some(observed.missingModules)
    && recorded.exportedModuleCount == Some(observed.exportedModuleCount)
    && recorded.bindingSha256 == Some(observed.bindingSha256)
    && recorded.moduleBindings.Some? && |recorded.moduleBindings.value| == |observed.moduleBindings|
    && forall i :: 0 <= i < |observed.moduleBindings| ==>
         var row, saved := observed.moduleBindings[i], recorded.moduleBindings.value[i];
         && saved.Some? && saved.value.testName == Some(row.testName) && saved.value.testId == Some(row.testId)
         && saved.value.interactionName == Some(row.interactionName)
  }

  lemma SameFieldsExact(observed: Record, recorded: Stored)
    ensures SameFields(observed, recorded) <==> recorded == Store(observed)
  {
    if SameFields(observed, recorded) {
      assert recorded.moduleBindings.value == StoreRows(observed.moduleBindings);
    }
  }

  method RecordedPlanCoverage(hash: BindingHash, infos: seq<Info>, recorded: Option<Stored>, selection: string)
    returns (r: Result<Record>)
    ensures r.Success? ==> Rechecks(hash, infos, recorded, selection, r.value)
    ensures r.Failure? ==> forall observed :: !Rechecks(hash, infos, recorded, selection, observed)
  {
    var unique := PlanIdIsUnique(infos);
    if !unique || recorded.None? {
      return Failure("recorded official plan identity is missing");
    }
    var selected := ParseVariantSelection(selection);
    if selected.None? {
      return Failure("invalid official plan selection");
    }
    if recorded.value.moduleBindings.None? {
      return Failure("recorded official module bindings are missing");
    }
    var modules := RebuildModules(recorded.value.moduleBindings.value);
    if modules.Failure? {
      return Failure(modules.reason);
    }
    var plan := Plan(infos[0].planId, Some(selected.value.0), Some(selected.value.1), Some(modules.value));
    var observed := ComparePlanCoverage(hash, infos, Some(plan), selection);
    if observed.Failure? {
      return observed;
    }
    forall other | Records(hash, infos, plan, selection, other) ensures other == observed.value {
      RecordUnique(hash, infos, plan, selection, other, observed.value);
    }
    SameFieldsExact(observed.value, recorded.value);
    if !SameFields(observed.value, recorded.value) {
      return Failure("recorded official coverage differs from the unchanged export");
    }
    return observed;
  }

  // ---------------------------------------------------------------- the round trip

  lemma RebuildRow(b: Bound, m: Option<Module>)
    requires Check(m) == Some(b)
    ensures RebuildModule(StoreRow(RowOf(b))) == m
  {
    assert '[' !in b.name;
    assert m.value.instances.value == [Some(b.identity)];
    LabelRoundTrip(b.name, b.extra);
  }

  lemma ExpectedWithin(a: seq<Bound>, b: seq<Bound>, variant: Variant)
    requires DistinctNames(a) && DistinctNames(b) && Elements(a) == Elements(b)
    ensures forall name :: name in ExpectedMap(a, variant) ==>
      name in ExpectedMap(b, variant) && ExpectedMap(b, variant)[name] == ExpectedMap(a, variant)[name]
  {
    ExpectedNames(a, variant);
    forall name | name in ExpectedMap(a, variant)
      ensures name in ExpectedMap(b, variant) && ExpectedMap(b, variant)[name] == ExpectedMap(a, variant)[name]
    {
      var i :| 0 <= i < |a| && a[i].name == name;
      assert a[i] in Elements(b);
      var j :| 0 <= j < |b| && b[j] == a[i];
      ExpectedValue(a, variant, i);
      ExpectedValue(b, variant, j);
    }
  }

  /** Modules with the same checked values, each once, expect the same export. */
  lemma ExpectedMapSame(a: seq<Bound>, b: seq<Bound>, variant: Variant)
    requires DistinctNames(a) && DistinctNames(b) && Elements(a) == Elements(b)
    ensures ExpectedMap(a, variant) == ExpectedMap(b, variant)
  {
    ExpectedWithin(a, b, variant);
    ExpectedWithin(b, a, variant);
  }

  /** The modules behind sorted rows: the same ones, in the order of their names. */
  lemma Arrange(bs: seq<Bound>, rows: seq<Row>) returns (sorted: seq<Bound>)
    requires RowsSorted(rows) && Elements(rows) == RowSet(bs) && DistinctNames(bs) && DistinctIdentities(bs)
    ensures |sorted| == |rows| && forall i :: 0 <= i < |rows| ==> sorted[i] in bs && RowOf(sorted[i]) == rows[i]
    ensures Elements(sorted) == Elements(bs) && DistinctNames(sorted) && DistinctIdentities(sorted)
    ensures RowSet(sorted) == RowSet(bs)
  {
    sorted := [];
    while |sorted| < |rows|
      invariant |sorted| <= |rows|
      invariant forall i :: 0 <= i < |sorted| ==> sorted[i] in bs && RowOf(sorted[i]) == rows[i]
    {
      assert rows[|sorted|] in Elements(rows);
      var k :| 0 <= k < |bs| && RowOf(bs[k]) == rows[|sorted|];
      sorted := sorted + [bs[k]];
    }
    SameElements(bs, rows, sorted);
    forall i, j | 0 <= i < j < |sorted|
      ensures sorted[i].name != sorted[j].name && sorted[i].identity != sorted[j].identity
    {
      var a, b :| 0 <= a < |bs| && bs[a] == sorted[i] && 0 <= b < |bs| && bs[b] == sorted[j];
      assert rows[i].testName != rows[j].testName;
      assert a != b;
    }
    RowSetIs(sorted, rows);
  }

  lemma SameElements(bs: seq<Bound>, rows: seq<Row>, sorted: seq<Bound>)
    requires Elements(rows) == RowSet(bs) && DistinctNames(bs)
    requires |sorted| == |rows| && forall i :: 0 <= i < |rows| ==> sorted[i] in bs && RowOf(sorted[i]) == rows[i]
    ensures Elements(sorted) == Elements(bs)
  {
    forall b | b in bs ensures b in sorted {
      var k :| 0 <= k < |bs| && bs[k] == b;
      assert RowOf(b) in Elements(rows);
      var i :| 0 <= i < |rows| && rows[i] == RowOf(b);
      var l :| 0 <= l < |bs| && bs[l] == sorted[i];
      assert bs[l].name == bs[k].name;
      assert l == k;
    }
  }

  /** Rebuilding sorted rows gives the checked modules again, in the order of their names. */
  lemma RebuiltModules(modules: seq<Option<Module>>, rows: seq<Row>) returns (sorted: seq<Bound>)
    requires CheckAll(modules).Some?
    requires var bs := CheckAll(modules).value;
      DistinctNames(bs) && DistinctIdentities(bs) && RowsSorted(rows) && Elements(rows) == RowSet(bs)
    ensures AllThere(Rebuilt(StoreRows(rows))) && CheckAll(Rebuilt(StoreRows(rows))) == Some(sorted)
    ensures Elements(sorted) == Elements(CheckAll(modules).value) && RowSet(sorted) == RowSet(CheckAll(modules).value)
    ensures DistinctNames(sorted) && DistinctIdentities(sorted)
  {
    sorted := Arrange(CheckAll(modules).value, rows);
    var ms := Originals(modules, sorted);
    var rebuilt := Rebuilt(StoreRows(rows));
    forall i | 0 <= i < |rows| ensures rebuilt[i] == ms[i] {
      RebuildRow(sorted[i], ms[i]);
    }
    assert rebuilt == ms;
    AllBound(Checks(ms), sorted);
  }

  /** The plan rebuilt from a record is the live plan with its modules in the order of their names. */
  lemma RecordedPlanIs(infos: seq<Info>, plan: Plan, selection: string, rows: seq<Row>, stored: Stored)
    returns (rebuilt: Plan)
    requires infos != [] && Covers(infos, Some(plan), selection)
    requires RowsSorted(rows) && Elements(rows) == RowSet(CheckAll(plan.modules.value).value)
    requires stored.moduleBindings == Some(StoreRows(rows))
    ensures RecordedPlan(infos, Some(stored), selection) == Some(rebuilt)
    ensures rebuilt.id == plan.id && rebuilt.planName == plan.planName && rebuilt.variant == plan.variant
    ensures ModulesBound(rebuilt) && PlanExpects(rebuilt) == PlanExpects(plan)
    ensures RowSet(CheckAll(rebuilt.modules.value).value) == RowSet(CheckAll(plan.modules.value).value)
  {
    var bs := CheckAll(plan.modules.value).value;
    var sorted := RebuiltModules(plan.modules.value, rows);
    ExpectedMapSame(bs, sorted, plan.variant.value);
    EmptyElements(bs);
    EmptyElements(sorted);
    rebuilt := Plan(infos[0].planId, plan.planName, plan.variant, Some(Rebuilt(StoreRows(rows))));
  }

  /** A record of a non-empty export, rechecked after teardown against the same export and selection, passes and
      comes out unchanged, whatever order the live plan listed its modules in. */
  lemma RecordRoundTrip(hash: BindingHash, infos: seq<Info>, plan: Plan, selection: string, record: Record)
    requires infos != [] && Covers(infos, Some(plan), selection) && Records(hash, infos, plan, selection, record)
    ensures Rechecks(hash, infos, Some(Store(record)), selection, record)
    ensures forall other :: Rechecks(hash, infos, Some(Store(record)), selection, other) ==> other == record
  {
    var rebuilt := RecordedPlanIs(infos, plan, selection, record.moduleBindings, Store(record));
    forall other | Rechecks(hash, infos, Some(Store(record)), selection, other) ensures other == record {
      RecordUnique(hash, infos, rebuilt, selection, other, record);
    }
  }

  lemma Originals(modules: seq<Option<Module>>, sorted: seq<Bound>) returns (ms: seq<Option<Module>>)
    requires CheckAll(modules).Some? && forall i :: 0 <= i < |sorted| ==> sorted[i] in CheckAll(modules).value
    ensures |ms| == |sorted| && forall i :: 0 <= i < |ms| ==> ms[i].Some? && Check(ms[i]) == Some(sorted[i])
  {
    var bs := CheckAll(modules).value;
    ms := [];
    while |ms| < |sorted|
      invariant |ms| <= |sorted| && forall i :: 0 <= i < |ms| ==> ms[i].Some? && Check(ms[i]) == Some(sorted[i])
    {
      var k :| 0 <= k < |bs| && bs[k] == sorted[|ms|];
      assert Checks(modules)[k] == Some(bs[k]);
      ms := ms + [modules[k]];
    }
  }
}
