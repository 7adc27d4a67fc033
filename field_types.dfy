/**
 * The legacy field-type backport applied to mapping documents for
 * datastores of major version 2 or lower: `keyword` fields become
 * `string` fields that are not analyzed, `text` fields become `string`
 * fields, and `nested` fields are rewritten recursively.
 *
 * The source mutates the mapping tree in place; here a call returns the
 * rewritten tree rooted at the value it was given. `Rewrite` is that
 * function, with two switches:
 *   - `checkBody`: whether this call first tests `mapping.body` and, when it
 *     is truthy, continues with `mapping.body.properties` instead;
 *   - `everyLevel`: the `checkBody` used for the properties of nested fields
 *     and of `body`.
 * The function as written tests `body` at every level (`BackportFieldTypes`);
 * the corrected one tests it only at the root (`BackportMapping`).
 */
module FieldTypes {
  import opened JsValues
  import Version

  /** `value.type`, for a value that is not null or undefined. */
  function TypeOf(v: Value): Value {
    Get(v, "type")
  }

  /** `mapping.body` is truthy. */
  predicate HasBody(m: Value) {
    Truthy(Get(m, "body"))
  }

  function Rewrite(m: Value, checkBody: bool, everyLevel: bool): Result<Value>
    decreases m, 1
  {
    if !Truthy(m) then Ok(m)
    else if checkBody && HasBody(m) then
      var body := Get(m, "body");
      if body.Obj? && "properties" in body.fields then
        var p :- Rewrite(body.fields["properties"], everyLevel, everyLevel);
        Ok(Obj(m.fields["body" := Obj(body.fields["properties" := p])]))
      else
        Ok(m)
    else
      RewriteFields(m, everyLevel)
  }

  /** The loop over the own property names of a properties object, applied to every field. */
  function RewriteFields(m: Value, everyLevel: bool): Result<Value>
    decreases m, 0
  {
    match m
    case Obj(fs) =>
      if exists k :: k in fs && RewriteField(fs[k], everyLevel).Err? then Err(TypeError)
      else Ok(Obj(map k | k in fs :: RewriteField(fs[k], everyLevel).value))
    case Arr(items) =>
      if exists i :: 0 <= i < |items| && RewriteField(items[i], everyLevel).Err? then Err(TypeError)
      else Ok(Arr(seq(|items|, i requires 0 <= i < |items| => RewriteField(items[i], everyLevel).value)))
    case _ =>
      // strings, numbers, booleans and dates: their own keys have no `type`
      Ok(m)
  }

  /** The case analysis on the type of one field value. */
  function RewriteField(v: Value, everyLevel: bool): Result<Value>
    decreases v, 2
  {
    match v
    case Undefined => Err(TypeError)
    case Null => Err(TypeError)
    case Obj(f) =>
      if TypeOf(v) == Str("nested") then
        if "properties" in f then
          var p :- Rewrite(f["properties"], everyLevel, everyLevel);
          Ok(Obj(f["properties" := p]))
        else
          Ok(v)
      else if TypeOf(v) == Str("keyword") then
        Ok(Obj(f["type" := Str("string")]["index" := Str("not_analyzed")]))
      else if TypeOf(v) == Str("text") then
        Ok(Obj(f["type" := Str("string")]))
      else
        Ok(v)
    case _ =>
      Ok(v)
  }

  /** What a completed rewrite keeps: the kind of the value and, for objects and arrays, its keys. */
  ghost predicate KeysKept(m: Value, r: Value) {
    && (m.Obj? <==> r.Obj?)
    && (m.Obj? ==> r.fields.Keys == m.fields.Keys)
    && (m.Arr? <==> r.Arr?)
    && (m.Arr? ==> |r.items| == |m.items|)
    && (!m.Obj? && !m.Arr? ==> r == m)
  }

  /** `backportFieldTypes(mapping)` as written. */
  function BackportFieldTypes(mapping: Value): (r: Result<Value>)
    ensures !Truthy(mapping) ==> r == Ok(mapping)
    // with a truthy `body`, the rewrite goes down into `body.properties` and changes nothing else
    ensures HasBody(mapping) ==> var body := Get(mapping, "body");
      if body.Obj? && "properties" in body.fields then
        var p := Rewrite(body.fields["properties"], true, true);
        && (r.Ok? <==> p.Ok?)
        && (r.Ok? ==> r.value == Obj(mapping.fields["body" := Obj(body.fields["properties" := p.value])]))
      else
        r == Ok(mapping)
    ensures r.Ok? ==> KeysKept(mapping, r.value) && SameNames(mapping, r.value)
  {
    RewriteSameNames(mapping, true, true);
    Rewrite(mapping, true, true)
  }

  /** The corrected backport: `body` is followed only at the root of the mapping document. */
  function BackportMapping(mapping: Value): (r: Result<Value>)
    ensures !Truthy(mapping) ==> r == Ok(mapping)
    // with a truthy `body`, the fields of `body.properties` are rewritten and nothing else changes
    ensures HasBody(mapping) ==> var body := Get(mapping, "body");
      if body.Obj? && "properties" in body.fields then
        var p := Rewrite(body.fields["properties"], false, false);
        && (r.Ok? <==> p.Ok?)
        && (r.Ok? ==> r.value == Obj(mapping.fields["body" := Obj(body.fields["properties" := p.value])]))
      else
        r == Ok(mapping)
    ensures r.Ok? ==> KeysKept(mapping, r.value) && SameNames(mapping, r.value)
  {
    RewriteSameNames(mapping, true, false);
    Rewrite(mapping, true, false)
  }

  /**
   * The field names of a mapping tree are the same in `r` as in `m`: at this
   * level, and, for every field object, inside its `properties`, all the
   * way down.
   */
  ghost predicate SameNames(m: Value, r: Value)
    decreases m, 1
  {
    && KeysKept(m, r)
    && (m.Obj? ==> forall k :: k in m.fields ==> SameFieldNames(m.fields[k], r.fields[k]))
    && (m.Arr? ==> forall i :: 0 <= i < |m.items| ==> SameFieldNames(m.items[i], r.items[i]))
  }

  ghost predicate SameFieldNames(v: Value, w: Value)
    decreases v, 2
  {
    && (v.Obj? <==> w.Obj?)
    && (v.Obj? ==> ("properties" in v.fields <==> "properties" in w.fields))
    && (v.Obj? && "properties" in v.fields ==> SameNames(v.fields["properties"], w.fields["properties"]))
  }

  lemma {:induction false} SameNamesRefl(m: Value)
    ensures SameNames(m, m)
    decreases m, 1
  {
    match m
    case Obj(fs) =>
      forall k | k in fs ensures SameFieldNames(fs[k], fs[k]) {
        SameFieldNamesRefl(fs[k]);
      }
    case Arr(items) =>
      forall i | 0 <= i < |items| ensures SameFieldNames(items[i], items[i]) {
        SameFieldNamesRefl(items[i]);
      }
    case _ =>
  }

  lemma {:induction false} SameFieldNamesRefl(v: Value)
    ensures SameFieldNames(v, v)
    decreases v, 2
  {
    if v.Obj? && "properties" in v.fields {
      SameNamesRefl(v.fields["properties"]);
    }
  }

  /** A completed rewrite neither adds nor removes a field name at any level. */
  lemma {:induction false} RewriteSameNames(m: Value, checkBody: bool, everyLevel: bool)
    ensures Rewrite(m, checkBody, everyLevel).Ok? ==> SameNames(m, Rewrite(m, checkBody, everyLevel).value)
    decreases m, 1
  {
    var r := Rewrite(m, checkBody, everyLevel);
    if r.Err? {
    } else if !Truthy(m) {
      SameNamesRefl(m);
    } else if checkBody && HasBody(m) {
      var body := Get(m, "body");
      if body.Obj? && "properties" in body.fields {
        var props := body.fields["properties"];
        RewriteSameNames(props, everyLevel, everyLevel);
        var body' := Obj(body.fields["properties" := Rewrite(props, everyLevel, everyLevel).value]);
        assert r.value == Obj(m.fields["body" := body']);
        assert SameFieldNames(body, body');
        forall k | k in m.fields ensures SameFieldNames(m.fields[k], r.value.fields[k]) {
          if k != "body" {
            SameFieldNamesRefl(m.fields[k]);
          }
        }
      } else {
        SameNamesRefl(m);
      }
    } else {
      assert r == RewriteFields(m, everyLevel);
      match m
      case Obj(fs) =>
        forall k | k in fs ensures SameFieldNames(fs[k], r.value.fields[k]) {
          assert RewriteField(fs[k], everyLevel).Ok?;
          RewriteFieldSameNames(fs[k], everyLevel);
        }
      case Arr(items) =>
        forall i | 0 <= i < |items| ensures SameFieldNames(items[i], r.value.items[i]) {
          assert RewriteField(items[i], everyLevel).Ok?;
          RewriteFieldSameNames(items[i], everyLevel);
        }
      case _ =>
    }
  }

  lemma {:induction false} RewriteFieldSameNames(v: Value, everyLevel: bool)
    requires RewriteField(v, everyLevel).Ok?
    ensures SameFieldNames(v, RewriteField(v, everyLevel).value)
    decreases v, 2
  {
    var w := RewriteField(v, everyLevel).value;
    if v.Obj? && "properties" in v.fields {
      if TypeOf(v) == Str("nested") {
        RewriteSameNames(v.fields["properties"], everyLevel, everyLevel);
      } else {
        assert w.fields["properties"] == v.fields["properties"];
        SameNamesRefl(v.fields["properties"]);
      }
    }
  }

  // ---------------------------------------------------------------------
  // The source's loop over keys, as a method

  /**
   * `Rewrite`, computed the way the source does it: a loop over the keys
   * of the properties object that rewrites one field at a time and writes
   * it back, stopping at the first field that throws.
   */
  method RewriteLoop(m: Value, checkBody: bool, everyLevel: bool) returns (r: Result<Value>)
    ensures r == Rewrite(m, checkBody, everyLevel)
    decreases m, 1
  {
    if !Truthy(m) {
      return Ok(m);
    }
    if checkBody && HasBody(m) {
      var body := Get(m, "body");
      if body.Obj? && "properties" in body.fields {
        var p := RewriteLoop(body.fields["properties"], everyLevel, everyLevel);
        if p.Err? {
          return Err(p.error);
        }
        return Ok(Obj(m.fields["body" := Obj(body.fields["properties" := p.value])]));
      }
      return Ok(m);
    }
    match m {
      case Obj(fs) =>
        var out := fs;
        var todo := fs.Keys;
        while todo != {}
          invariant todo <= fs.Keys && out.Keys == fs.Keys
          invariant forall k :: k in todo ==> out[k] == fs[k]
          invariant forall k :: k in fs && k !in todo ==>
            RewriteField(fs[k], everyLevel).Ok? && out[k] == RewriteField(fs[k], everyLevel).value
          decreases todo
        {
          var k :| k in todo;
          var w := RewriteFieldStep(fs[k], everyLevel);
          if w.Err? {
            return Err(TypeError);
          }
          out := out[k := w.value];
          todo := todo - {k};
        }
        assert forall k :: k in fs ==> RewriteField(fs[k], everyLevel).Ok?;
        assert out == map k | k in fs :: RewriteField(fs[k], everyLevel).value;
        assert RewriteFields(m, everyLevel) == Ok(Obj(out));
        assert Rewrite(m, checkBody, everyLevel) == RewriteFields(m, everyLevel);
        return Ok(Obj(out));
      case Arr(items) =>
        var out := items;
        for i := 0 to |items|
          invariant |out| == |items|
          invariant forall j :: 0 <= j < i ==>
            RewriteField(items[j], everyLevel).Ok? && out[j] == RewriteField(items[j], everyLevel).value
          invariant forall j :: i <= j < |items| ==> out[j] == items[j]
        {
          var w := RewriteFieldStep(items[i], everyLevel);
          if w.Err? {
            return Err(TypeError);
          }
          out := out[i := w.value];
        }
        assert out == seq(|items|, i requires 0 <= i < |items| => RewriteField(items[i], everyLevel).value);
        return Ok(Arr(out));
      case _ =>
        return Ok(m);
    }
  }

  /** One pass of the loop body: the case analysis on the type of one field value. */
  method RewriteFieldStep(v: Value, everyLevel: bool) returns (r: Result<Value>)
    ensures r == RewriteField(v, everyLevel)
    decreases v, 2
  {
    if Nullish(v) {
      return Err(TypeError);
    }
    if !v.Obj? {
      return Ok(v);
    }
    var f := v.fields;
    if TypeOf(v) == Str("nested") {
      if "properties" in f {
        var p := RewriteLoop(f["properties"], everyLevel, everyLevel);
        if p.Err? {
          return Err(p.error);
        }
        f := f["properties" := p.value];
      }
    } else if TypeOf(v) == Str("keyword") {
      f := f["type" := Str("string")];
      f := f["index" := Str("not_analyzed")];
    } else if TypeOf(v) == Str("text") {
      f := f["type" := Str("string")];
    }
    return Ok(Obj(f));
  }

  // ---------------------------------------------------------------------
  // Properties of the rewrite

  /**
   * The per-type rules, for every field of a properties object that the
   * rewrite iterates over: `keyword` gets `type: string` and
   * `index: not_analyzed`, `text` gets `type: string`, `nested` gets its
   * `properties` rewritten, and every other key and every other field stays
   * as it was.
   */
  lemma FieldTypeRules(fs: map<string, Value>, checkBody: bool, everyLevel: bool, k: string)
    requires !(checkBody && HasBody(Obj(fs)))
    requires Rewrite(Obj(fs), checkBody, everyLevel).Ok?
    requires k in fs
    ensures var r := Rewrite(Obj(fs), checkBody, everyLevel).value;
      var v, w := fs[k], Get(r, k);
      && r.Obj? && k in r.fields
      && !Nullish(v)
      && (TypeOf(v) == Str("keyword") ==>
            && w.Obj? && w.fields.Keys == v.fields.Keys + {"index"}
            && w.fields["type"] == Str("string") && w.fields["index"] == Str("not_analyzed")
            && (forall j :: j in v.fields && j != "type" && j != "index" ==> w.fields[j] == v.fields[j]))
      && (TypeOf(v) == Str("text") ==>
            && w.Obj? && w.fields.Keys == v.fields.Keys
            && w.fields["type"] == Str("string")
            && (forall j :: j in v.fields && j != "type" ==> w.fields[j] == v.fields[j]))
      && (TypeOf(v) == Str("nested") ==>
            && w.Obj? && w.fields.Keys == v.fields.Keys
            && ("properties" in v.fields ==>
                  Rewrite(v.fields["properties"], everyLevel, everyLevel) == Ok(w.fields["properties"]))
            && (forall j :: j in v.fields && j != "properties" ==> w.fields[j] == v.fields[j]))
      && (TypeOf(v) !in {Str("keyword"), Str("text"), Str("nested")} ==> w == v)
  {
    assert RewriteField(fs[k], everyLevel).Ok?;
  }

  /** A field whose value is null or undefined makes the loop throw. */
  lemma NullishFieldThrows(fs: map<string, Value>, checkBody: bool, everyLevel: bool, k: string)
    requires !(checkBody && HasBody(Obj(fs)))
    requires k in fs && Nullish(fs[k])
    ensures Rewrite(Obj(fs), checkBody, everyLevel) == Err(TypeError)
  {
    assert RewriteField(fs[k], everyLevel).Err?;
  }

  /** No null or undefined anywhere in a value. */
  ghost predicate Defined(v: Value) {
    match v
    case Undefined => false
    case Null => false
    case Arr(items) => forall i :: 0 <= i < |items| ==> Defined(items[i])
    case Obj(fs) => forall k :: k in fs ==> Defined(fs[k])
    case _ => true
  }

  /** A parsed JSON mapping without null values is always rewritten without throwing. */
  lemma {:induction false} DefinedRewriteOk(m: Value, checkBody: bool, everyLevel: bool)
    requires Defined(m)
    ensures Rewrite(m, checkBody, everyLevel).Ok?
    decreases m, 1
  {
    if Truthy(m) {
      if checkBody && HasBody(m) {
        var body := Get(m, "body");
        if body.Obj? && "properties" in body.fields {
          assert Defined(body);
          DefinedRewriteOk(body.fields["properties"], everyLevel, everyLevel);
        }
      } else {
        DefinedRewriteFieldsOk(m, everyLevel);
      }
    }
  }

  lemma {:induction false} DefinedRewriteFieldsOk(m: Value, everyLevel: bool)
    requires Defined(m)
    ensures RewriteFields(m, everyLevel).Ok?
    decreases m, 0
  {
    match m
    case Obj(fs) =>
      forall k | k in fs ensures RewriteField(fs[k], everyLevel).Ok? {
        DefinedRewriteFieldOk(fs[k], everyLevel);
      }
    case Arr(items) =>
      forall i | 0 <= i < |items| ensures RewriteField(items[i], everyLevel).Ok? {
        DefinedRewriteFieldOk(items[i], everyLevel);
      }
    case _ =>
  }

  lemma {:induction false} DefinedRewriteFieldOk(v: Value, everyLevel: bool)
    requires Defined(v)
    ensures RewriteField(v, everyLevel).Ok?
    decreases v, 2
  {
    if v.Obj? && TypeOf(v) == Str("nested") && "properties" in v.fields {
      DefinedRewriteOk(v.fields["properties"], everyLevel, everyLevel);
    }
  }

  /** A rewritten field value is truthy exactly when the original was. */
  lemma RewriteFieldKeepsTruthiness(v: Value, everyLevel: bool)
    requires RewriteField(v, everyLevel).Ok?
    ensures Truthy(RewriteField(v, everyLevel).value) == Truthy(v)
  {
  }

  /** Rewriting an already rewritten mapping changes nothing: the rewrite is idempotent. */
  lemma {:induction false} RewriteIdempotent(m: Value, checkBody: bool, everyLevel: bool)
    requires Rewrite(m, checkBody, everyLevel).Ok?
    ensures var r := Rewrite(m, checkBody, everyLevel).value;
      Rewrite(r, checkBody, everyLevel) == Ok(r)
    decreases m, 1
  {
    var r := Rewrite(m, checkBody, everyLevel).value;
    if !Truthy(m) {
    } else if checkBody && HasBody(m) {
      var body := Get(m, "body");
      if body.Obj? && "properties" in body.fields {
        var p := Rewrite(body.fields["properties"], everyLevel, everyLevel).value;
        RewriteIdempotent(body.fields["properties"], everyLevel, everyLevel);
        var body' := Obj(body.fields["properties" := p]);
        assert r == Obj(m.fields["body" := body']);
        assert Get(r, "body") == body';
        assert body'.fields["properties" := p] == body'.fields;
        assert r.fields["body" := body'] == r.fields;
      }
    } else {
      RewriteFieldsIdempotent(m, everyLevel);
      if checkBody {
        match m
        case Obj(fs) =>
          if "body" in fs {
            RewriteFieldKeepsTruthiness(fs["body"], everyLevel);
          }
        case _ =>
      }
    }
  }

  lemma {:induction false} RewriteFieldsIdempotent(m: Value, everyLevel: bool)
    requires RewriteFields(m, everyLevel).Ok?
    ensures var r := RewriteFields(m, everyLevel).value;
      RewriteFields(r, everyLevel) == Ok(r)
    decreases m, 0
  {
    var r := RewriteFields(m, everyLevel).value;
    match m
    case Obj(fs) =>
      forall k | k in fs ensures RewriteField(r.fields[k], everyLevel) == Ok(r.fields[k]) {
        assert RewriteField(fs[k], everyLevel).Ok?;
        RewriteFieldIdempotent(fs[k], everyLevel);
      }
      assert (map k | k in r.fields :: RewriteField(r.fields[k], everyLevel).value) == r.fields;
    case Arr(items) =>
      forall i | 0 <= i < |items| ensures RewriteField(r.items[i], everyLevel) == Ok(r.items[i]) {
        assert RewriteField(items[i], everyLevel).Ok?;
        RewriteFieldIdempotent(items[i], everyLevel);
      }
      assert seq(|r.items|, i requires 0 <= i < |r.items| => RewriteField(r.items[i], everyLevel).value) == r.items;
    case _ =>
  }

  lemma {:induction false} RewriteFieldIdempotent(v: Value, everyLevel: bool)
    requires RewriteField(v, everyLevel).Ok?
    ensures var w := RewriteField(v, everyLevel).value;
      RewriteField(w, everyLevel) == Ok(w)
    decreases v, 2
  {
    var w := RewriteField(v, everyLevel).value;
    if v.Obj? && TypeOf(v) == Str("nested") && "properties" in v.fields {
      var p := Rewrite(v.fields["properties"], everyLevel, everyLevel).value;
      RewriteIdempotent(v.fields["properties"], everyLevel, everyLevel);
      assert w == Obj(v.fields["properties" := p]);
      assert TypeOf(w) == Str("nested");
      assert w.fields["properties" := p] == w.fields;
    } else if v.Obj? && TypeOf(v) == Str("keyword") {
      assert TypeOf(w) == Str("string");
    } else if v.Obj? && TypeOf(v) == Str("text") {
      assert TypeOf(w) == Str("string");
    }
  }

  /** Applying the backport a second time yields the same mapping as applying it once. */
  lemma BackportFieldTypesIdempotent(mapping: Value)
    requires BackportFieldTypes(mapping).Ok?
    ensures BackportFieldTypes(BackportFieldTypes(mapping).value) == BackportFieldTypes(mapping)
  {
    RewriteIdempotent(mapping, true, true);
  }

  lemma BackportMappingIdempotent(mapping: Value)
    requires BackportMapping(mapping).Ok?
    ensures BackportMapping(BackportMapping(mapping).value) == BackportMapping(mapping)
  {
    RewriteIdempotent(mapping, true, false);
  }

  // ---------------------------------------------------------------------
  // The as-written backport against the corrected one

  /** A properties object in which no level, down through nested fields, has a truthy `body` key. */
  ghost predicate BodyFree(m: Value)
    decreases m, 1
  {
    && !HasBody(m)
    && match m
       case Obj(fs) => forall k :: k in fs ==> NestedBodyFree(fs[k])
       case Arr(items) => forall i :: 0 <= i < |items| ==> NestedBodyFree(items[i])
       case _ => true
  }

  ghost predicate NestedBodyFree(v: Value)
    decreases v, 2
  {
    v.Obj? && TypeOf(v) == Str("nested") && "properties" in v.fields ==> BodyFree(v.fields["properties"])
  }

  /** The field levels of a mapping document: `body.properties` when `body` is truthy, else the document itself. */
  ghost predicate FieldLevelsBodyFree(mapping: Value) {
    if HasBody(mapping) then
      var body := Get(mapping, "body");
      body.Obj? && "properties" in body.fields ==> BodyFree(body.fields["properties"])
    else
      BodyFree(mapping)
  }

  lemma {:induction false} BodyFreeAgree(m: Value, checkBody: bool)
    requires BodyFree(m)
    ensures Rewrite(m, checkBody, true) == Rewrite(m, false, false)
    decreases m, 1
  {
    if Truthy(m) {
      BodyFreeFieldsAgree(m);
    }
  }

  lemma {:induction false} BodyFreeFieldsAgree(m: Value)
    requires BodyFree(m)
    ensures RewriteFields(m, true) == RewriteFields(m, false)
    decreases m, 0
  {
    match m
    case Obj(fs) =>
      forall k | k in fs ensures RewriteField(fs[k], true) == RewriteField(fs[k], false) {
        BodyFreeFieldAgree(fs[k]);
      }
      if forall k :: k in fs ==> RewriteField(fs[k], true).Ok? {
        assert (map k | k in fs :: RewriteField(fs[k], true).value)
            == (map k | k in fs :: RewriteField(fs[k], false).value);
      }
    case Arr(items) =>
      forall i | 0 <= i < |items| ensures RewriteField(items[i], true) == RewriteField(items[i], false) {
        BodyFreeFieldAgree(items[i]);
      }
      if forall i :: 0 <= i < |items| ==> RewriteField(items[i], true).Ok? {
        var a := seq(|items|, i requires 0 <= i < |items| => RewriteField(items[i], true).value);
        var b := seq(|items|, i requires 0 <= i < |items| => RewriteField(items[i], false).value);
        assert forall i :: 0 <= i < |items| ==> a[i] == b[i];
        assert a == b;
      }
    case _ =>
  }

  lemma {:induction false} BodyFreeFieldAgree(v: Value)
    requires NestedBodyFree(v)
    ensures RewriteField(v, true) == RewriteField(v, false)
    decreases v, 2
  {
    if v.Obj? && TypeOf(v) == Str("nested") && "properties" in v.fields {
      BodyFreeAgree(v.fields["properties"], true);
    }
  }

  /** When no field is named `body` (with a truthy value), the as-written and the corrected backport agree. */
  lemma AsWrittenAgreesWithCorrected(mapping: Value)
    requires FieldLevelsBodyFree(mapping)
    ensures BackportFieldTypes(mapping) == BackportMapping(mapping)
  {
    if Truthy(mapping) {
      if HasBody(mapping) {
        var body := Get(mapping, "body");
        if body.Obj? && "properties" in body.fields {
          BodyFreeAgree(body.fields["properties"], true);
        }
      } else {
        BodyFreeFieldsAgree(mapping);
      }
    }
  }

  /** `mapping.body.properties[k]`: field `k` of a mapping document. */
  function PropertyOf(mapping: Value, k: string): Value {
    Get(Get(Get(mapping, "body"), "properties"), k)
  }

  /** The mapping `{body: {properties: {body: {type: keyword}, name: {type: text}}}}`. */
  function BodyFieldMapping(): Value {
    Obj(map["body" := Obj(map["properties" := Obj(BodyFieldProperties())])])
  }

  function BodyFieldProperties(): map<string, Value> {
    map["body" := Obj(map["type" := Str("keyword")]), "name" := Obj(map["type" := Str("text")])]
  }

  /**
   * As written, a field named `body` in `body.properties` is taken for
   * another `body` to descend into: neither it nor its sibling `name` is
   * rewritten, and the mapping comes back unchanged.
   */
  lemma BodyFieldSkipsSiblings()
    ensures BackportFieldTypes(BodyFieldMapping()) == Ok(BodyFieldMapping())
    ensures TypeOf(PropertyOf(BackportFieldTypes(BodyFieldMapping()).value, "name")) == Str("text")
  {
    var m := BodyFieldMapping();
    var body := Get(m, "body");
    var props := Obj(BodyFieldProperties());
    assert body == Obj(map["properties" := props]);
    var inner := Get(props, "body");
    assert inner == Obj(map["type" := Str("keyword")]);
    assert HasBody(props) && "properties" !in inner.fields;
    assert Rewrite(props, true, true) == Ok(props);
    assert body.fields["properties" := props] == body.fields;
    assert m.fields["body" := body] == m.fields;
  }

  /** The corrected backport rewrites both fields of the same mapping. */
  lemma BodyFieldRewrittenWhenCorrected()
    ensures var r := BackportMapping(BodyFieldMapping());
      && r.Ok?
      && TypeOf(PropertyOf(r.value, "body")) == Str("string")
      && Get(PropertyOf(r.value, "body"), "index") == Str("not_analyzed")
      && TypeOf(PropertyOf(r.value, "name")) == Str("string")
  {
    var m := BodyFieldMapping();
    var fs := BodyFieldProperties();
    assert Defined(fs["body"]) && Defined(fs["name"]);
    assert Defined(Obj(fs));
    assert Defined(m.fields["body"]);
    assert Defined(m);
    DefinedRewriteOk(m, true, false);
    CorrectedRewritesEveryField(m, "body");
    CorrectedRewritesEveryField(m, "name");
  }

  /**
   * The corrected backport applies the per-type rules to every field of
   * `body.properties`, whatever the fields are named.
   */
  lemma CorrectedRewritesEveryField(mapping: Value, k: string)
    requires BackportMapping(mapping).Ok?
    requires HasBody(mapping)
    requires Get(Get(mapping, "body"), "properties").Obj?
    requires k in Get(Get(mapping, "body"), "properties").fields
    ensures var fs := Get(Get(mapping, "body"), "properties").fields;
      var w := PropertyOf(BackportMapping(mapping).value, k);
      && Rewrite(Obj(fs), false, false).Ok?
      && w == Get(Rewrite(Obj(fs), false, false).value, k)
      && (TypeOf(fs[k]) == Str("keyword") ==> TypeOf(w) == Str("string") && Get(w, "index") == Str("not_analyzed"))
      && (TypeOf(fs[k]) == Str("text") ==> TypeOf(w) == Str("string"))
  {
    var fs := Get(Get(mapping, "body"), "properties").fields;
    FieldTypeRules(fs, false, false, k);
  }

  // ---------------------------------------------------------------------
  // Provisioning a mapping document

  /**
   * The `putMappings` callback without the write: the index name is set
   * as the mapping's `index` property,
   * then the field-type backport when the datastore is of major version 2
   * or lower. Writing a property of null or undefined, or of a primitive
   * in strict mode, throws.
   */
  function PreparedMapping(mapping: Value, index: string, major: Option<nat>): (r: Result<Value>)
    ensures Nullish(mapping) || mapping.Bool? || mapping.Num? || mapping.Str? ==> r == Err(TypeError)
    ensures mapping.Obj? && !Version.BackportsFieldTypes(major) ==> r == Ok(Obj(mapping.fields["index" := Str(index)]))
    ensures mapping.Obj? && Version.BackportsFieldTypes(major) ==> r == BackportMapping(Obj(mapping.fields["index" := Str(index)]))
    ensures r.Ok? ==> mapping.Obj? && r.value.Obj? && r.value.fields.Keys == mapping.fields.Keys + {"index"}
    ensures r.Ok? ==> r.value.fields["index"] == Str(index)
  {
    match mapping
    case Obj(fs) =>
      var stamped := Obj(fs["index" := Str(index)]);
      if Version.BackportsFieldTypes(major) then
        BackportKeepsOtherTopLevel(stamped, "index");
        BackportMapping(stamped)
      else
        Ok(stamped)
    case Arr(_) => Err(Unsupported)
    case Date(_) => Err(Unsupported)
    case _ => Err(TypeError)
  }

  /**
   * The backport leaves alone a top-level property of a mapping document
   * that is not `body` and not an object: only `body`, or the field objects
   * of a document without a truthy `body`, are rewritten.
   */
  lemma BackportKeepsOtherTopLevel(m: Value, k: string)
    requires m.Obj? && k in m.fields && k != "body"
    requires !m.fields[k].Obj?
    ensures BackportMapping(m).Ok? ==> BackportMapping(m).value.fields[k] == m.fields[k]
  {
    if BackportMapping(m).Ok? && !HasBody(m) {
      assert Rewrite(m, true, false) == RewriteFields(m, false);
      assert RewriteField(m.fields[k], false).Ok?;
    }
  }

  /** A mapping document without null values is always provisioned without throwing. */
  lemma DefinedMappingPrepared(mapping: Value, index: string, major: Option<nat>)
    requires mapping.Obj? && Defined(mapping)
    ensures PreparedMapping(mapping, index, major).Ok?
  {
    var stamped := Obj(mapping.fields["index" := Str(index)]);
    assert Defined(stamped);
    DefinedRewriteOk(stamped, true, false);
  }

  /**
   * The source applies the backport as written; on every mapping document
   * without a field named `body` that is the same as the corrected one.
   */
  lemma PreparedMappingAsWritten(mapping: Value, index: string, major: Option<nat>)
    requires mapping.Obj? && FieldLevelsBodyFree(mapping)
    ensures var stamped := Obj(mapping.fields["index" := Str(index)]);
      PreparedMapping(mapping, index, major) ==
        if Version.BackportsFieldTypes(major) then BackportFieldTypes(stamped) else Ok(stamped)
  {
    var stamped := Obj(mapping.fields["index" := Str(index)]);
    assert Get(stamped, "body") == Get(mapping, "body");
    if !HasBody(mapping) {
      assert forall k :: k in stamped.fields ==> NestedBodyFree(stamped.fields[k]);
    }
    AsWrittenAgreesWithCorrected(stamped);
  }

  /**
   * For a datastore of major version 2 or lower, every `keyword` field of
   * the provisioned mapping becomes a `string` field that is not analyzed,
   * and every `text` field a `string` field.
   */
  lemma PreparedMappingBackportsFields(mapping: Value, index: string, major: Option<nat>, k: string)
    requires Version.BackportsFieldTypes(major)
    requires PreparedMapping(mapping, index, major).Ok?
    requires HasBody(mapping)
    requires Get(Get(mapping, "body"), "properties").Obj?
    requires k in Get(Get(mapping, "body"), "properties").fields
    ensures var v, w := PropertyOf(mapping, k), PropertyOf(PreparedMapping(mapping, index, major).value, k);
      && (TypeOf(v) == Str("keyword") ==> TypeOf(w) == Str("string") && Get(w, "index") == Str("not_analyzed"))
      && (TypeOf(v) == Str("text") ==> TypeOf(w) == Str("string"))
  {
    var stamped := Obj(mapping.fields["index" := Str(index)]);
    assert Get(stamped, "body") == Get(mapping, "body");
    CorrectedRewritesEveryField(stamped, k);
  }
}
