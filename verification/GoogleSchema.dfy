/** The recursive rewrite of JSON schemas into Gemini's subset. */
module GoogleSchema {

  /** A JSON value; Atom covers numbers, booleans and null. */
  datatype Json =
    | Dict(fields: map<string, Json>)
    | List(items: seq<Json>)
    | Text(s: string)
    | Atom(truthy: bool, literal: string)

  predicate Unsupported(k: string) {
    k in {"additionalProperties", "$schema", "$ref", "default", "examples", "const",
          "readOnly", "writeOnly", "deprecated"}
  }

  predicate Composition(k: string) {
    k in {"anyOf", "oneOf", "allOf"}
  }

  /** The keys the rewrite itself writes are acceptable ones. */
  lemma KeysWritten()
    ensures forall k :: k in {"type", "items", "properties", "description"} ==> !Unsupported(k) && !Composition(k)
  {
  }

  const OPEN_OBJECT: Json := Dict(map["type" := Text("object")])

  predicate Truthy(j: Json) {
    match j
    case Dict(fields) => fields != map[]
    case List(items) => items != []
    case Text(s) => s != ""
    case Atom(truthy, _) => truthy
  }

  predicate Composed(fields: map<string, Json>) {
    exists k :: k in fields && Composition(k)
  }

  predicate IsType(fields: map<string, Json>, name: string) {
    "type" in fields && fields["type"] == Text(name)
  }

  /** The items of an array node that Gemini accepts: a dict with a type. */
  predicate Typed(fields: map<string, Json>) {
    "items" in fields && fields["items"].Dict?
    && "type" in fields["items"].fields && Truthy(fields["items"].fields["type"])
  }

  function Finish(fields: map<string, Json>): map<string, Json> {
    if IsType(fields, "array") then
      if Typed(fields) then fields else fields["items" := OPEN_OBJECT]
    else if IsType(fields, "object") && "properties" !in fields then fields["properties" := Dict(map[])]
    else fields
  }

  function Normalize(schema: Json): Json {
    match schema
    case Dict(fields) =>
      if Composed(fields) then
        if "description" in fields && Truthy(fields["description"])
        then Dict(map["description" := fields["description"]])
        else Dict(map[])
      else
        Dict(Finish(map k | k in fields && !Unsupported(k) :: Normalize(fields[k])))
    case List(items) => List(seq(|items|, i requires 0 <= i < |items| => Normalize(items[i])))
    case _ => schema
  }

  /** The fields that survive, normalized: what Normalize hands to Finish. */
  function Inner(fields: map<string, Json>): map<string, Json> {
    map k | k in fields && !Unsupported(k) :: Normalize(fields[k])
  }

  // ---------------------------------------------------------------------
  // What Gemini accepts
  // ---------------------------------------------------------------------

  /** No key Gemini rejects, typed items on arrays, properties on objects. */
  predicate NodeFits(fields: map<string, Json>) {
    && (forall k :: k in fields ==> !Unsupported(k) && !Composition(k))
    && (IsType(fields, "array") ==> Typed(fields))
    && (IsType(fields, "object") ==> "properties" in fields)
  }

  /** The items the rewrite puts in itself: an object without properties. */
  predicate Defaulted(fields: map<string, Json>, k: string)
    requires k in fields
  {
    k == "items" && IsType(fields, "array") && fields[k] == OPEN_OBJECT
  }

  /** Every node of the tree fits, at any depth. */
  ghost predicate Strict(j: Json) {
    match j
    case Dict(fields) => NodeFits(fields) && forall k :: k in fields ==> Strict(fields[k])
    case List(items) => forall i :: 0 <= i < |items| ==> Strict(items[i])
    case _ => true
  }

  /** The same, except that an array may have the defaulted items. */
  ghost predicate Good(j: Json) {
    match j
    case Dict(fields) => NodeFits(fields) && forall k :: k in fields ==> Defaulted(fields, k) || Good(fields[k])
    case List(items) => forall i :: 0 <= i < |items| ==> Good(items[i])
    case _ => true
  }

  /** What is left of it once rewritten is truthy. */
  predicate StaysTruthy(j: Json) {
    match j
    case Dict(fields) =>
      if Composed(fields) then "description" in fields && Truthy(fields["description"])
      else exists k :: k in fields && !Unsupported(k)
    case _ => Truthy(j)
  }

  /** Items to keep: a dict, no composition, with a type that stays truthy. */
  predicate ItemsKept(fields: map<string, Json>) {
    && "items" in fields && fields["items"].Dict? && !Composed(fields["items"].fields)
    && "type" in fields["items"].fields && StaysTruthy(fields["items"].fields["type"])
  }

  /** The items of this array are replaced by the default. */
  predicate Replaced(fields: map<string, Json>, k: string) {
    k == "items" && IsType(fields, "array") && !ItemsKept(fields)
  }

  /** The descriptions copied out of compositions are acceptable; a string is. */
  ghost predicate DescriptionsGood(j: Json) {
    match j
    case Dict(fields) =>
      if Composed(fields) then
        "description" in fields && Truthy(fields["description"]) ==> Good(fields["description"])
      else
        forall k :: k in fields && !Unsupported(k) && !Replaced(fields, k) ==> DescriptionsGood(fields[k])
    case List(items) => forall i :: 0 <= i < |items| ==> DescriptionsGood(items[i])
    case _ => true
  }

  /** The rewrite has to default the items of some array it keeps. */
  ghost predicate NeedsDefault(j: Json) {
    match j
    case Dict(fields) =>
      if Composed(fields) then
        "description" in fields && Truthy(fields["description"]) && !Strict(fields["description"])
      else
        || (IsType(fields, "array") && !ItemsKept(fields))
        || exists k :: k in fields && !Unsupported(k) && NeedsDefault(fields[k])
    case List(items) => exists i :: 0 <= i < |items| && NeedsDefault(items[i])
    case _ => false
  }

  // ---------------------------------------------------------------------
  // Properties of one application
  // ---------------------------------------------------------------------

  lemma NormalizeDict(fields: map<string, Json>)
    requires !Composed(fields)
    ensures Normalize(Dict(fields)) == Dict(Finish(Inner(fields)))
  {
    hide Unsupported, Composition;
    KeysWritten();
    assert (map k | k in fields && !Unsupported(k) :: Normalize(fields[k])) == Inner(fields);
  }

  lemma TruthyExactly(j: Json)
    ensures Truthy(Normalize(j)) <==> StaysTruthy(j)
  {
    hide Unsupported, Composition;
    KeysWritten();
    if j.Dict? && !Composed(j.fields) {
      NormalizeDict(j.fields);
      forall k
        ensures k in Inner(j.fields) <==> k in j.fields && !Unsupported(k)
        ensures k in Inner(j.fields) ==> k in Finish(Inner(j.fields))
      {
      }
      if k :| k in Inner(j.fields) {
        assert Finish(Inner(j.fields)) != map[];
      } else {
        assert Inner(j.fields) == map[];
      }
    } else if j.Dict? && "description" in j.fields {
      assert "description" in map["description" := j.fields["description"]];
    } else if j.List? {
      assert |Normalize(j).items| == |j.items|;
    }
  }

  /** The test of the rewrite on its normalized fields, told by its input. */
  lemma DefaultsExactly(fields: map<string, Json>, name: string)
    ensures IsType(Inner(fields), name) <==> IsType(fields, name)
    ensures Typed(Inner(fields)) <==> ItemsKept(fields)
  {
    hide Unsupported, Composition;
    KeysWritten();
    if "items" in fields && fields["items"].Dict? {
      var items := fields["items"].fields;
      if !Composed(items) {
        NormalizeDict(items);
        assert "type" in Finish(Inner(items)) <==> "type" in items;
        if "type" in items {
          assert Finish(Inner(items))["type"] == Normalize(items["type"]);
          TruthyExactly(items["type"]);
        }
      }
    }
  }

  /** The rewrite never answers its own default for a node it was given. */
  lemma NeverOpenObject(j: Json)
    ensures Normalize(j) != OPEN_OBJECT
  {
    hide Unsupported, Composition;
    KeysWritten();
    assert "type" in OPEN_OBJECT.fields && "properties" !in OPEN_OBJECT.fields;
    if j.Dict? && !Composed(j.fields) {
      NormalizeDict(j.fields);
      FinishFits(j.fields);
    }
  }

  lemma FinishFits(fields: map<string, Json>)
    requires !Composed(fields)
    ensures NodeFits(Finish(Inner(fields)))
  {
    hide Unsupported, Composition;
    KeysWritten();
    var inner := Inner(fields);
    assert IsType(Finish(inner), "array") ==> IsType(inner, "array");
    assert IsType(Finish(inner), "object") ==> IsType(inner, "object");
  }

  /** A composition becomes its description, or nothing. */
  lemma OnlyDescription(d: Json)
    ensures Good(Dict(map[])) && Strict(Dict(map[]))
    ensures Good(Dict(map["description" := d])) <==> Good(d)
    ensures Strict(Dict(map["description" := d])) <==> Strict(d)
  {
    hide Unsupported, Composition;
    KeysWritten();
    var fields := map["description" := d];
    assert NodeFits(fields);
    assert fields["description"] == d && forall k :: k in fields ==> k == "description";
  }

  /** The output fits at every depth, the defaulted items apart, exactly when
      the descriptions it copies do. */
  lemma {:induction false} NormalizeGood(j: Json)
    ensures Good(Normalize(j)) <==> DescriptionsGood(j)
    decreases j
  {
    hide Unsupported, Composition;
    KeysWritten();
    match j
    case Dict(fields) =>
      if !Composed(fields) {
        NormalizeDict(fields);
        FinishFits(fields);
        forall k | k in fields && !Unsupported(k)
          ensures Good(Normalize(fields[k])) <==> DescriptionsGood(fields[k])
          ensures Normalize(fields[k]) != OPEN_OBJECT
        {
          NormalizeGood(fields[k]);
          NeverOpenObject(fields[k]);
        }
        GoodFinish(fields);
      } else if "description" in fields {
        OnlyDescription(fields["description"]);
      }
    case List(items) =>
      var out := Normalize(j).items;
      forall i | 0 <= i < |items| ensures Good(out[i]) <==> DescriptionsGood(items[i]) {
        NormalizeGood(items[i]);
      }
    case _ =>
  }

  lemma GoodFinish(fields: map<string, Json>)
    requires !Composed(fields) && NodeFits(Finish(Inner(fields)))
    requires forall k :: k in fields && !Unsupported(k) ==>
      Normalize(fields[k]) != OPEN_OBJECT && (Good(Normalize(fields[k])) <==> DescriptionsGood(fields[k]))
    ensures Good(Dict(Finish(Inner(fields)))) <==> DescriptionsGood(Dict(fields))
  {
    hide Unsupported, Composition;
    KeysWritten();
    hide Normalize;
    DefaultsExactly(fields, "array");
    var out := Finish(Inner(fields));
    if Good(Dict(out)) {
      forall k | k in fields && !Unsupported(k) && !Replaced(fields, k) ensures DescriptionsGood(fields[k]) {
        assert k in out && out[k] == Normalize(fields[k]);
      }
    }
    if DescriptionsGood(Dict(fields)) {
      forall k | k in out ensures Defaulted(out, k) || Good(out[k]) {
        OutField(fields, k);
      }
    }
  }

  /** Where a field of the output comes from. */
  lemma OutField(fields: map<string, Json>, k: string)
    requires k in Finish(Inner(fields))
    ensures var out := Finish(Inner(fields));
      || (k in fields && !Unsupported(k) && !Replaced(fields, k) && out[k] == Normalize(fields[k]))
      || Defaulted(out, k)
      || out[k] == Dict(map[])
  {
    hide Unsupported, Composition, Normalize;
    KeysWritten();
    DefaultsExactly(fields, "array");
  }

  /** Every description next to a composition is a string. */
  ghost predicate StringDescriptions(j: Json) {
    match j
    case Dict(fields) =>
      && (Composed(fields) && "description" in fields ==> fields["description"].Text?)
      && forall k :: k in fields ==> StringDescriptions(fields[k])
    case List(items) => forall i :: 0 <= i < |items| ==> StringDescriptions(items[i])
    case _ => true
  }

  /** With string descriptions, the output always fits. */
  lemma {:induction false} StringDescriptionsSuffice(j: Json)
    requires StringDescriptions(j)
    ensures DescriptionsGood(j) && Good(Normalize(j))
    decreases j
  {
    NormalizeGood(j);
    match j
    case Dict(fields) =>
      if !Composed(fields) {
        forall k | k in fields ensures DescriptionsGood(fields[k]) {
          StringDescriptionsSuffice(fields[k]);
        }
      }
    case List(items) =>
      forall i | 0 <= i < |items| ensures DescriptionsGood(items[i]) {
        StringDescriptionsSuffice(items[i]);
      }
    case _ =>
  }

  lemma RejectedKeywords(keys: set<string>)
    ensures (forall k :: k in keys ==> !Unsupported(k) && !Composition(k))
       <==> keys !! {"additionalProperties", "$schema", "$ref", "default", "examples", "const", "readOnly",
                     "writeOnly", "deprecated", "anyOf", "oneOf", "allOf"}
  {
    forall k
      ensures Unsupported(k) || Composition(k)
         <==> k in {"additionalProperties", "$schema", "$ref", "default", "examples", "const", "readOnly",
                    "writeOnly", "deprecated", "anyOf", "oneOf", "allOf"}
    {
    }
  }

  /** The rewrite walks a properties table as if it were a schema: the names
      of the table survive exactly when none is a rejected keyword. */
  lemma PropertyNamesKeptExactly(table: map<string, Json>)
    requires "type" in table ==> table["type"].Dict?
    ensures Normalize(Dict(table)).fields.Keys == table.Keys
       <==> forall k :: k in table ==> !Unsupported(k) && !Composition(k)
    ensures (forall k :: k in table ==> !Unsupported(k) && !Composition(k))
       <==> table.Keys !! {"additionalProperties", "$schema", "$ref", "default", "examples", "const", "readOnly",
                           "writeOnly", "deprecated", "anyOf", "oneOf", "allOf"}
  {
    RejectedKeywords(table.Keys);
    hide Unsupported, Composition;
    KeysWritten();
    if Composed(table) {
      var k :| k in table && Composition(k);
      assert k != "description";
    } else {
      NormalizeDict(table);
      assert Finish(Inner(table)) == Inner(table);
      assert forall k :: k in table && Unsupported(k) ==> k !in Inner(table);
    }
  }

  // ---------------------------------------------------------------------
  // Applying it again
  // ---------------------------------------------------------------------

  /** A tree that fits everywhere is left alone. */
  lemma {:induction false} StrictIsFixed(j: Json)
    requires Strict(j)
    ensures Normalize(j) == j
    decreases j
  {
    hide Unsupported, Composition;
    KeysWritten();
    match j
    case Dict(fields) =>
      NormalizeDict(fields);
      forall k | k in fields ensures Normalize(fields[k]) == fields[k] {
        StrictIsFixed(fields[k]);
      }
      assert Inner(fields) == fields;
    case List(items) =>
      forall i | 0 <= i < |items| ensures Normalize(items[i]) == items[i] {
        StrictIsFixed(items[i]);
      }
    case _ =>
  }

  lemma TruthyStays(j: Json)
    requires Good(j)
    ensures Truthy(Normalize(j)) <==> Truthy(j)
  {
    hide Unsupported, Composition;
    KeysWritten();
    if j.Dict? {
      NormalizeDict(j.fields);
      if j.fields != map[] {
        var k :| k in j.fields;
        assert k in Inner(j.fields) && k in Finish(Inner(j.fields));
      } else {
        assert Inner(j.fields) == map[];
      }
    }
  }

  /** A second application completes the defaulted items. */
  lemma {:induction false} GoodBecomesStrict(j: Json)
    requires Good(j)
    ensures Strict(Normalize(j))
    decreases j
  {
    hide Unsupported, Composition;
    KeysWritten();
    match j
    case Dict(fields) =>
      NormalizeDict(fields);
      FinishFits(fields);
      forall k | k in fields ensures Strict(Normalize(fields[k])) {
        if Defaulted(fields, k) {
          OpenObjectCompleted();
        } else {
          GoodBecomesStrict(fields[k]);
        }
      }
      if IsType(fields, "array") {
        ItemsStayTyped(fields);
      }
    case List(items) =>
      forall i | 0 <= i < |items| ensures Strict(Normalize(items[i])) {
        GoodBecomesStrict(items[i]);
      }
    case _ =>
  }

  lemma OpenObjectCompleted()
    ensures Normalize(OPEN_OBJECT) == Dict(map["type" := Text("object"), "properties" := Dict(map[])])
    ensures Strict(Normalize(OPEN_OBJECT))
  {
    hide Unsupported, Composition;
    KeysWritten();
    NormalizeDict(OPEN_OBJECT.fields);
    assert Inner(OPEN_OBJECT.fields) == OPEN_OBJECT.fields;
    var done := Dict(map["type" := Text("object"), "properties" := Dict(map[])]);
    assert Strict(Dict(map[]));
    assert forall k :: k in done.fields ==> k == "type" || k == "properties";
  }

  lemma ItemsStayTyped(fields: map<string, Json>)
    requires Good(Dict(fields)) && IsType(fields, "array")
    ensures Typed(Inner(fields))
  {
    hide Unsupported, Composition;
    KeysWritten();
    var items := fields["items"];
    if Defaulted(fields, "items") {
      OpenObjectCompleted();
    } else {
      NormalizeDict(items.fields);
      assert "type" in Inner(items.fields) && "type" in Finish(Inner(items.fields));
      assert Finish(Inner(items.fields))["type"] == Normalize(items.fields["type"]);
      TruthyStays(items.fields["type"]);
    }
  }

  /** Applying the rewrite three times is applying it twice. */
  lemma ThriceIsTwice(j: Json)
    requires DescriptionsGood(j)
    ensures Normalize(Normalize(Normalize(j))) == Normalize(Normalize(j))
  {
    NormalizeGood(j);
    GoodBecomesStrict(Normalize(j));
    StrictIsFixed(Normalize(Normalize(j)));
  }

  /** The rewrite is idempotent on j exactly when it has no items to default:
      its own default lacks the properties it demands of every object. */
  lemma IdempotentExactly(j: Json)
    requires DescriptionsGood(j)
    ensures Normalize(Normalize(j)) == Normalize(j) <==> !NeedsDefault(j)
  {
    NormalizeGood(j);
    GoodBecomesStrict(Normalize(j));
    StrictExactly(j);
    if Strict(Normalize(j)) {
      StrictIsFixed(Normalize(j));
    }
  }

  lemma {:induction false} StrictExactly(j: Json)
    requires DescriptionsGood(j)
    ensures Strict(Normalize(j)) <==> !NeedsDefault(j)
    decreases j
  {
    hide Unsupported, Composition;
    KeysWritten();
    match j
    case Dict(fields) =>
      if !Composed(fields) {
        NormalizeDict(fields);
        FinishFits(fields);
        forall k | k in fields && !Unsupported(k)
          ensures Replaced(fields, k) || (Strict(Normalize(fields[k])) <==> !NeedsDefault(fields[k]))
        {
          if !Replaced(fields, k) {
            StrictExactly(fields[k]);
          }
        }
        StrictFinish(fields);
      } else if "description" in fields {
        OnlyDescription(fields["description"]);
      }
    case List(items) =>
      var out := Normalize(j).items;
      forall i | 0 <= i < |items| ensures Strict(out[i]) <==> !NeedsDefault(items[i]) {
        StrictExactly(items[i]);
      }
    case _ =>
  }

  lemma StrictFinish(fields: map<string, Json>)
    requires !Composed(fields) && NodeFits(Finish(Inner(fields)))
    requires forall k :: k in fields && !Unsupported(k) ==>
      Replaced(fields, k) || (Strict(Normalize(fields[k])) <==> !NeedsDefault(fields[k]))
    ensures Strict(Dict(Finish(Inner(fields)))) <==> !NeedsDefault(Dict(fields))
  {
    hide Unsupported, Composition, Normalize;
    KeysWritten();
    DefaultsExactly(fields, "array");
    var out := Finish(Inner(fields));
    if Strict(Dict(out)) {
      assert !(IsType(Inner(fields), "array") && !Typed(Inner(fields))) by {
        assert !Strict(OPEN_OBJECT);
      }
      forall k | k in fields && !Unsupported(k) ensures !NeedsDefault(fields[k]) {
        assert k in out && out[k] == Normalize(fields[k]);
      }
    }
    if !NeedsDefault(Dict(fields)) {
      forall k | k in out ensures Strict(out[k]) {
        OutField(fields, k);
        assert !Replaced(fields, k);
      }
    }
  }
}
