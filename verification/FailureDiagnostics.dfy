/** The public view of a failure: error categories and allow-listed details drawn from a whole JSON tree. */
module FailureDiagnostics {
  import opened Bytes
  import opened Text

  datatype Field = Field(key: string, value: Json)

  /** A decoded document; an object keeps its fields in order. */
  datatype Json =
    | Null
    | Bool(truth: bool)
    | Int(number: int)
    | Float
    | Str(text: string)
    | Arr(items: seq<Json>)
    | Obj(fields: seq<Field>)

  // ---------------------------------------------------------------- error categories

  /** The stable category of an error description, from a fixed table of phrases. */
  type Classifier = string -> Option<string>

  function FieldCategory(classify: Classifier, f: Field): set<string> {
    if f.key == "error_description" && f.value.Str? && classify(f.value.text).Some?
    then {classify(f.value.text).value} else {}
  }

  /** The categories of every description anywhere in a tree. */
  function Categories(classify: Classifier, v: Json): set<string>
    decreases v, 1
  {
    match v
    case Arr(items) => ItemCategories(classify, items)
    case Obj(fields) => FieldsCategories(classify, fields)
    case _ => {}
  }

  function ItemCategories(classify: Classifier, items: seq<Json>): set<string>
    decreases items, 0
  {
    if items == [] then {}
    else ItemCategories(classify, items[..|items| - 1]) + Categories(classify, items[|items| - 1])
  }

  function FieldsCategories(classify: Classifier, fields: seq<Field>): set<string>
    decreases fields, 0
  {
    if fields == [] then {}
    else
      var last := fields[|fields| - 1];
      FieldsCategories(classify, fields[..|fields| - 1])
      + FieldCategory(classify, last) + Categories(classify, last.value)
  }

  /** Nodes in a tree. */
  function Size(v: Json): (n: nat)
    ensures n >= 1
    decreases v, 1
  {
    match v
    case Arr(items) => 1 + ItemsSize(items)
    case Obj(fields) => 1 + FieldsSize(fields)
    case _ => 1
  }

  function ItemsSize(items: seq<Json>): nat
    decreases items, 0
  {
    if items == [] then 0 else ItemsSize(items[..|items| - 1]) + Size(items[|items| - 1])
  }

  function FieldsSize(fields: seq<Field>): nat
    decreases fields, 0
  {
    if fields == [] then 0 else FieldsSize(fields[..|fields| - 1]) + Size(fields[|fields| - 1].value)
  }

  lemma {:induction false} ItemsAppend(classify: Classifier, a: seq<Json>, b: seq<Json>)
    ensures ItemsSize(a + b) == ItemsSize(a) + ItemsSize(b)
    ensures ItemCategories(classify, a + b) == ItemCategories(classify, a) + ItemCategories(classify, b)
    decreases |b|
  {
    if b == [] {
      assert a + b == a;
    } else {
      assert (a + b)[..|a + b| - 1] == a + b[..|b| - 1];
      ItemsAppend(classify, a, b[..|b| - 1]);
    }
  }

  /** Pushing a child puts just that child's share on the stack. */
  lemma ItemsPush(classify: Classifier, stack: seq<Json>, child: Json)
    ensures ItemsSize(stack + [child]) == ItemsSize(stack) + Size(child)
    ensures ItemCategories(classify, stack + [child]) == ItemCategories(classify, stack) + Categories(classify, child)
  {
    assert (stack + [child])[..|stack|] == stack;
  }

  /** One object: its own descriptions are recorded, and its children pushed. */
  method PushFields(classify: Classifier, fields: seq<Field>, before: seq<Json>, known: set<string>)
    returns (stack: seq<Json>, categories: set<string>)
    ensures ItemsSize(stack) == ItemsSize(before) + FieldsSize(fields)
    ensures categories + ItemCategories(classify, stack)
         == known + ItemCategories(classify, before) + FieldsCategories(classify, fields)
  {
    stack, categories := before, known;
    var i := 0;
    while i < |fields|
      invariant 0 <= i <= |fields|
      invariant ItemsSize(stack) == ItemsSize(before) + FieldsSize(fields[..i])
      invariant categories + ItemCategories(classify, stack)
             == known + ItemCategories(classify, before) + FieldsCategories(classify, fields[..i])
    {
      assert fields[..i + 1][..i] == fields[..i];
      ItemsPush(classify, stack, fields[i].value);
      if fields[i].key == "error_description" && fields[i].value.Str? {
        var category := classify(fields[i].value.text);
        if category.Some? {
          categories := categories + {category.value};
        }
      }
      stack := stack + [fields[i].value];
      i := i + 1;
    }
    assert fields[..i] == fields;
  }

  /** The worklist visits the whole tree, and nothing twice. */
  method ErrorCategories(classify: Classifier, value: Json) returns (categories: set<string>)
    ensures categories == Categories(classify, value)
  {
    categories := {};
    var stack := [value];
    ItemsPush(classify, [], value);
    assert [] + [value] == stack;
    while stack != []
      invariant categories + ItemCategories(classify, stack) == Categories(classify, value)
      decreases ItemsSize(stack)
    {
      var current, rest := stack[|stack| - 1], stack[..|stack| - 1];
      ItemsPush(classify, rest, current);
      assert rest + [current] == stack;
      match current
      case Obj(fields) =>
        stack, categories := PushFields(classify, fields, rest, categories);
      case Arr(items) =>
        ItemsAppend(classify, rest, items);
        stack := rest + items;
      case _ =>
        stack := rest;
    }
  }

  /** A category is reported exactly when some node, at some depth, holds a description of that category. */
  ghost predicate Describes(classify: Classifier, v: Json, category: string)
    decreases v, 1
  {
    match v
    case Arr(items) => exists i :: 0 <= i < |items| && Describes(classify, items[i], category)
    case Obj(fields) => SomeFieldDescribes(classify, fields, category)
    case _ => false
  }

  ghost predicate SomeFieldDescribes(classify: Classifier, fields: seq<Field>, category: string)
    decreases fields, 0
  {
    exists i :: 0 <= i < |fields| &&
      (category in FieldCategory(classify, fields[i]) || Describes(classify, fields[i].value, category))
  }

  lemma {:induction false} CategoriesExact(classify: Classifier, v: Json, category: string)
    ensures category in Categories(classify, v) <==> Describes(classify, v, category)
    decreases v, 1
  {
    match v
    case Arr(items) => ItemCategoriesExact(classify, items, category);
    case Obj(fields) => FieldsCategoriesExact(classify, fields, category);
    case _ =>
  }

  lemma {:induction false} ItemCategoriesExact(classify: Classifier, items: seq<Json>, category: string)
    ensures category in ItemCategories(classify, items)
      <==> exists i :: 0 <= i < |items| && Describes(classify, items[i], category)
    decreases items, 0
  {
    if items != [] {
      var front := items[..|items| - 1];
      ItemCategoriesExact(classify, front, category);
      CategoriesExact(classify, items[|items| - 1], category);
      assert forall i :: 0 <= i < |front| ==> front[i] == items[i];
    }
  }

  lemma {:induction false} FieldsCategoriesExact(classify: Classifier, fields: seq<Field>, category: string)
    ensures category in FieldsCategories(classify, fields)
      <==> SomeFieldDescribes(classify, fields, category)
    decreases fields, 0
  {
    if fields != [] {
      var front := fields[..|fields| - 1];
      FieldsCategoriesExact(classify, front, category);
      CategoriesExact(classify, fields[|fields| - 1].value, category);
      assert forall i :: 0 <= i < |front| ==> front[i] == fields[i];
    }
  }

  // ---------------------------------------------------------------- safe details

  predicate IsToken(s: string) {
    1 <= |s| <= 80 && forall i :: 0 <= i < |s| ==> 'a' <= s[i] <= 'z' || '0' <= s[i] <= '9' || s[i] == '_'
  }

  /** What the code takes for an integer; a boolean is one too. */
  predicate IsInteger(v: Json) {
    v.Int? || v.Bool?
  }

  predicate Admissible(key: string, v: Json) {
    if key == "http_status" || key == "expected_status_codes" then
      IsInteger(v) || (v.Arr? && forall i :: 0 <= i < |v.items| ==> IsInteger(v.items[i]))
    else
      (key == "error" || key == "expected_error") && v.Str? && IsToken(v.text)
  }

  /** An object's own admissible value under `key`, the last one if it were repeated. */
  function Own(fields: seq<Field>, key: string): Option<Json> {
    if fields == [] then None
    else
      var last := fields[|fields| - 1];
      if last.key == key && Admissible(key, last.value) then Some(last.value) else Own(fields[..|fields| - 1], key)
  }

  /** The detail a reader would look up: an object's own value first, otherwise the first child that has one. */
  function Lookup(v: Json, key: string): Option<Json>
    decreases v, 1
  {
    match v
    case Arr(items) => FirstItem(items, key)
    case Obj(fields) => LookupFields(fields, key)
    case _ => None
  }

  function LookupFields(fields: seq<Field>, key: string): Option<Json>
    decreases fields, 1
  {
    if Own(fields, key).Some? then Own(fields, key) else FirstField(fields, key)
  }

  function FirstItem(items: seq<Json>, key: string): Option<Json>
    decreases items, 0
  {
    if items == [] then None
    else
      var earlier := FirstItem(items[..|items| - 1], key);
      if earlier.Some? then earlier else Lookup(items[|items| - 1], key)
  }

  function FirstField(fields: seq<Field>, key: string): Option<Json>
    decreases fields, 0
  {
    if fields == [] then None
    else
      var earlier := FirstField(fields[..|fields| - 1], key);
      if earlier.Some? then earlier else Lookup(fields[|fields| - 1].value, key)
  }

  type Details = map<string, Json>

  ghost predicate Finds(found: Details, key: string, detail: Option<Json>) {
    if detail.Some? then key in found && found[key] == detail.value else key !in found
  }

  /** Adds what is new in `nested`. */
  function AddNew(found: Details, nested: Details): Details {
    nested + found
  }

  /** The accumulated dictionary is the lookup, for every key at once. */
  method SafeDetails(value: Json) returns (found: Details)
    ensures forall key :: Finds(found, key, Lookup(value, key))
    decreases value
  {
    found := map[];
    match value
    case Obj(fields) =>
      var i := 0;
      while i < |fields|
        invariant 0 <= i <= |fields|
        invariant forall key :: Finds(found, key, LookupFields(fields[..i], key))
      {
        var f := fields[i];
        ghost var before, longer := found, fields[..i + 1];
        if f.key in {"http_status", "expected_status_codes"} {
          if f.value.Int? || f.value.Bool?
             || (f.value.Arr? && forall j :: 0 <= j < |f.value.items| ==>
                   f.value.items[j].Int? || f.value.items[j].Bool?)
          {
            found := found[f.key := f.value];
          }
        } else if f.key in {"error", "expected_error"} && f.value.Str? && IsToken(f.value.text) {
          found := found[f.key := f.value];
        }
        var nested := SafeDetails(f.value);
        found := AddNew(found, nested);
        forall key ensures Finds(found, key, LookupFields(longer, key)) {
          LookupStep(fields, i, key);
          assert Finds(before, key, LookupFields(fields[..i], key)) && Finds(nested, key, Lookup(f.value, key));
        }
        i := i + 1;
      }
      assert fields[..i] == fields;
    case Arr(items) =>
      var i := 0;
      while i < |items|
        invariant 0 <= i <= |items|
        invariant forall key :: Finds(found, key, FirstItem(items[..i], key))
      {
        ghost var before, longer := found, items[..i + 1];
        var nested := SafeDetails(items[i]);
        found := AddNew(found, nested);
        forall key ensures Finds(found, key, FirstItem(longer, key)) {
          assert longer[..i] == items[..i];
          assert Finds(before, key, FirstItem(items[..i], key)) && Finds(nested, key, Lookup(items[i], key));
        }
        i := i + 1;
      }
      assert items[..i] == items;
    case _ =>
  }

  lemma LookupStep(fields: seq<Field>, i: nat, key: string)
    requires i < |fields|
    ensures
      var before, after, f := LookupFields(fields[..i], key), LookupFields(fields[..i + 1], key), fields[i];
      if f.key == key && Admissible(key, f.value) then after == Some(f.value)
      else if before.Some? then after == before
      else after == Lookup(f.value, key)
  {
    assert fields[..i + 1][..i] == fields[..i];
  }

  /** `detail` is an admissible value some node holds under `key`. */
  ghost predicate Carries(v: Json, key: string, detail: Json)
    decreases v
  {
    match v
    case Arr(items) => exists i :: 0 <= i < |items| && Carries(items[i], key, detail)
    case Obj(fields) =>
      exists i :: 0 <= i < |fields| &&
        ((fields[i].key == key && fields[i].value == detail && Admissible(key, detail))
         || Carries(fields[i].value, key, detail))
    case _ => false
  }

  /** A key is held exactly when some node at some depth carries an admissible value under it, and what is held is
      such a value; keys outside the allow-list are never held. */
  lemma {:induction false} LookupExact(v: Json, key: string)
    ensures Lookup(v, key).Some? ==> Carries(v, key, Lookup(v, key).value) && Admissible(key, Lookup(v, key).value)
    ensures forall detail :: Carries(v, key, detail) ==> Lookup(v, key).Some?
    decreases v, 1
  {
    match v
    case Arr(items) => FirstItemExact(items, key);
    case Obj(fields) =>
      FirstFieldExact(fields, key);
      OwnExact(fields, key);
      assert Lookup(v, key) == LookupFields(fields, key);
      if Own(fields, key).Some? {
        var i :| 0 <= i < |fields| && fields[i].key == key && fields[i].value == Own(fields, key).value
          && Admissible(key, fields[i].value);
        assert Carries(v, key, fields[i].value);
      } else if FirstField(fields, key).Some? {
        var i :| 0 <= i < |fields| && Carries(fields[i].value, key, FirstField(fields, key).value);
        assert Carries(v, key, FirstField(fields, key).value);
      }
    case _ =>
  }

  lemma {:induction false} OwnExact(fields: seq<Field>, key: string)
    ensures Own(fields, key).Some? <==>
      exists i :: 0 <= i < |fields| && fields[i].key == key && Admissible(key, fields[i].value)
    ensures Own(fields, key).Some? ==>
      exists i :: 0 <= i < |fields| && fields[i].key == key && fields[i].value == Own(fields, key).value
                  && Admissible(key, fields[i].value)
    decreases |fields|
  {
    if fields != [] {
      var front := fields[..|fields| - 1];
      OwnExact(front, key);
      assert forall i :: 0 <= i < |front| ==> front[i] == fields[i];
    }
  }

  lemma {:induction false} FirstItemExact(items: seq<Json>, key: string)
    ensures FirstItem(items, key).Some? ==>
      && Admissible(key, FirstItem(items, key).value)
      && exists i :: 0 <= i < |items| && Carries(items[i], key, FirstItem(items, key).value)
    ensures forall i, detail :: 0 <= i < |items| && Carries(items[i], key, detail) ==> FirstItem(items, key).Some?
    decreases items, 0
  {
    if items != [] {
      var front := items[..|items| - 1];
      FirstItemExact(front, key);
      LookupExact(items[|items| - 1], key);
      assert forall i :: 0 <= i < |front| ==> front[i] == items[i];
    }
  }

  lemma {:induction false} FirstFieldExact(fields: seq<Field>, key: string)
    ensures FirstField(fields, key).Some? ==>
      && Admissible(key, FirstField(fields, key).value)
      && exists i :: 0 <= i < |fields| && Carries(fields[i].value, key, FirstField(fields, key).value)
    ensures forall i, detail :: 0 <= i < |fields| && Carries(fields[i].value, key, detail) ==>
      FirstField(fields, key).Some?
    decreases fields, 0
  {
    if fields != [] {
      var front := fields[..|fields| - 1];
      FirstFieldExact(front, key);
      LookupExact(fields[|fields| - 1].value, key);
      assert forall i :: 0 <= i < |front| ==> front[i] == fields[i];
    }
  }

  /** Only integers, lists of integers and short lower-case tokens ever leave a tree. */
  lemma OnlySafeValues(v: Json, key: string)
    requires Lookup(v, key).Some?
    ensures key in {"http_status", "expected_status_codes", "error", "expected_error"}
    ensures var detail := Lookup(v, key).value;
      || IsInteger(detail)
      || (detail.Arr? && forall i :: 0 <= i < |detail.items| ==> IsInteger(detail.items[i]))
      || (detail.Str? && IsToken(detail.text))
  {
    LookupExact(v, key);
  }

  // ---------------------------------------------------------------- which value is reported

  lemma TokenExact(s: string)
    ensures IsToken(s) <==> 1 <= |s| <= 80 && forall i :: 0 <= i < |s| ==> s[i] in LOWER + DIGITS + "_"
  {
    forall i | 0 <= i < |s|
      ensures s[i] in LOWER + DIGITS + "_" <==> 'a' <= s[i] <= 'z' || '0' <= s[i] <= '9' || s[i] == '_'
    {
      Alphabet(s[i]);
    }
  }

  /** In a list the first item that holds the detail wins. */
  lemma {:induction false} FirstItemWins(items: seq<Json>, i: nat, key: string)
    requires i < |items| && Lookup(items[i], key).Some?
    requires forall j :: 0 <= j < i ==> Lookup(items[j], key).None?
    ensures Lookup(Arr(items), key) == Lookup(items[i], key)
  {
    FirstItemIs(items, i, key);
    assert Lookup(Arr(items), key) == FirstItem(items, key);
  }

  lemma {:induction false} FirstItemIs(items: seq<Json>, i: nat, key: string)
    requires i < |items| && Lookup(items[i], key).Some?
    requires forall j :: 0 <= j < i ==> Lookup(items[j], key).None?
    ensures FirstItem(items, key) == Lookup(items[i], key)
    decreases |items|
  {
    var front := items[..|items| - 1];
    if i < |front| {
      FirstItemIs(front, i, key);
    } else {
      NoItem(front, key);
    }
  }

  lemma {:induction false} NoItem(items: seq<Json>, key: string)
    requires forall j :: 0 <= j < |items| ==> Lookup(items[j], key).None?
    ensures FirstItem(items, key).None?
    decreases |items|
  {
    if items != [] {
      NoItem(items[..|items| - 1], key);
    }
  }

  /** In an object its own last admissible value wins, */
  lemma {:induction false} OwnWins(fields: seq<Field>, i: nat, key: string)
    requires i < |fields| && fields[i].key == key && Admissible(key, fields[i].value)
    requires forall j :: i < j < |fields| ==> !(fields[j].key == key && Admissible(key, fields[j].value))
    ensures Lookup(Obj(fields), key) == Some(fields[i].value)
  {
    LastOwn(fields, i, key);
    assert Lookup(Obj(fields), key) == LookupFields(fields, key);
  }

  lemma {:induction false} LastOwn(fields: seq<Field>, i: nat, key: string)
    requires i < |fields| && fields[i].key == key && Admissible(key, fields[i].value)
    requires forall j :: i < j < |fields| ==> !(fields[j].key == key && Admissible(key, fields[j].value))
    ensures Own(fields, key) == Some(fields[i].value)
    decreases |fields|
  {
    if i < |fields| - 1 {
      LastOwn(fields[..|fields| - 1], i, key);
    }
  }

  /** and without one the first field that holds the detail below it. */
  lemma {:induction false} FirstFieldWins(fields: seq<Field>, i: nat, key: string)
    requires i < |fields| && Lookup(fields[i].value, key).Some?
    requires forall j :: 0 <= j < i ==> Lookup(fields[j].value, key).None?
    requires forall j :: 0 <= j < |fields| ==> !(fields[j].key == key && Admissible(key, fields[j].value))
    ensures Lookup(Obj(fields), key) == Lookup(fields[i].value, key)
  {
    FirstFieldIs(fields, i, key);
    OwnExact(fields, key);
    assert Lookup(Obj(fields), key) == LookupFields(fields, key);
  }

  lemma {:induction false} FirstFieldIs(fields: seq<Field>, i: nat, key: string)
    requires i < |fields| && Lookup(fields[i].value, key).Some?
    requires forall j :: 0 <= j < i ==> Lookup(fields[j].value, key).None?
    ensures FirstField(fields, key) == Lookup(fields[i].value, key)
    decreases |fields|
  {
    var front := fields[..|fields| - 1];
    if i < |front| {
      FirstFieldIs(front, i, key);
    } else {
      NoField(front, key);
    }
  }

  lemma {:induction false} NoField(fields: seq<Field>, key: string)
    requires forall j :: 0 <= j < |fields| ==> Lookup(fields[j].value, key).None?
    ensures FirstField(fields, key).None?
    decreases |fields|
  {
    if fields != [] {
      NoField(fields[..|fields| - 1], key);
    }
  }
}
