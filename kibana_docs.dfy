/**
 * Saved UI documents (index patterns, charts, dashboards) as the connector
 * provisions them. The fixture documents have the 6.x shape
 *   { id: "<type>:<name>", body: { type: <type>, <type>: { ...attributes } } }
 * and for datastores of major version 5 or lower they are backported to
 *   { id: "<name>", type: <type>, body: { ...attributes } }.
 */
module KibanaDocs {
  import opened JsValues
  import Version

  /** `id.slice(n)` on a string. */
  function Slice(id: string, n: nat): (r: string)
    ensures n <= |id| ==> id == id[..n] + r
    ensures n >= |id| ==> r == []
  {
    if n <= |id| then id[n..] else []
  }

  /**
   * `backportKibanaDoc(doc)` on the document's own properties: the type
   * named inside the body is copied up to the document, the id loses its
   * first (type length + 1) characters, and the body is replaced by the
   * attributes it held under that type.
   */
  function BackportedDoc(doc: map<string, Value>): (r: Result<map<string, Value>>)
    ensures r.Ok? <==> Get(Obj(doc), "body").Obj? && BodyType(doc).Str? && Get(Obj(doc), "id").Str?
    ensures r.Ok? ==> r.value.Keys == doc.Keys + {"type", "id", "body"}
    ensures r.Ok? ==> forall k :: k in doc && k !in {"type", "id", "body"} ==> r.value[k] == doc[k]
  {
    var body := Get(Obj(doc), "body");
    if Nullish(body) then Err(TypeError)
    else
      var t := Get(body, "type");
      var id := Get(Obj(doc), "id");
      if Nullish(id) || Nullish(t) then Err(TypeError)
      else if id.Arr? then Err(Unsupported)
      else if !id.Str? then Err(TypeError)    // `slice` is not a function
      else if !t.Str? then Err(Unsupported)
      else Ok(doc["type" := t]["id" := Str(Slice(id.s, |t.s| + 1))]["body" := Get(body, t.s)])
  }

  /** The type named inside the document's body. */
  function BodyType(doc: map<string, Value>): Value {
    Get(Get(Obj(doc), "body"), "type")
  }

  /**
   * The backport lifts `body.type` to `type`, strips exactly `type.length + 1`
   * leading characters from `id`, and replaces `body` by `body[type]`.
   */
  lemma BackportEffect(doc: map<string, Value>)
    requires BackportedDoc(doc).Ok?
    ensures var r := BackportedDoc(doc).value;
      var t := BodyType(doc).s;
      var id := Get(Obj(doc), "id").s;
      && r["type"] == Str(t)
      && r["body"] == Get(Get(Obj(doc), "body"), t)
      && r["id"].Str?
      && (|t| + 1 <= |id| ==> id == id[..|t| + 1] + r["id"].s)
      && (|t| + 1 > |id| ==> r["id"] == Str(""))
  {
  }

  /** An id of the form `type + ":" + rest` comes back as `rest`. */
  lemma BackportStripsTypePrefix(doc: map<string, Value>, rest: string)
    requires Get(Obj(doc), "body").Obj? && BodyType(doc).Str?
    requires Get(Obj(doc), "id") == Str(BodyType(doc).s + ":" + rest)
    ensures BackportedDoc(doc).Ok?
    ensures BackportedDoc(doc).value["id"] == Str(rest)
  {
    var t := BodyType(doc).s;
    assert (t + ":" + rest)[|t| + 1..] == rest;
  }

  /**
   * The 6.x form of a saved document: `id` is prefixed with the type, and
   * the attributes sit under `body[type]` next to `body.type`. `others` are
   * the document's remaining properties.
   */
  function SavedObject6(t: string, name: string, attributes: Value, others: map<string, Value>): map<string, Value> {
    others["id" := Str(t + ":" + name)]["body" := Obj(map["type" := Str(t)][t := attributes])]
  }

  /** The 5.x form of the same document. */
  function SavedObject5(t: string, name: string, attributes: Value, others: map<string, Value>): map<string, Value> {
    others["type" := Str(t)]["id" := Str(name)]["body" := attributes]
  }

  /** The backport turns the 6.x form of any document into its 5.x form. */
  lemma BackportTo5(t: string, name: string, attributes: Value, others: map<string, Value>)
    requires t != "type"
    ensures BackportedDoc(SavedObject6(t, name, attributes, others)) == Ok(SavedObject5(t, name, attributes, others))
  {
    var doc := SavedObject6(t, name, attributes, others);
    var body := map["type" := Str(t)][t := attributes];
    assert Get(Obj(doc), "body") == Obj(body);
    assert BodyType(doc) == Str(t);
    assert Get(Obj(body), t) == attributes;
    BackportStripsTypePrefix(doc, name);
    var r := BackportedDoc(doc).value;
    assert r == doc["type" := Str(t)]["id" := Str(name)]["body" := attributes];
    var e := SavedObject5(t, name, attributes, others);
    forall k | k in r ensures k in e && r[k] == e[k] {
      if k != "type" && k != "id" && k != "body" {
        assert r[k] == doc[k] == others[k];
      }
    }
    assert r.Keys == e.Keys;
    assert r == e;
  }

  /**
   * `putIndexes` before the gate: the id becomes the index name behind the
   * prefix `index-pattern:`, and the attributes held under the body's type
   * get the index name as their title.
   */
  function StampedIndexPattern(doc: map<string, Value>, index: string): (r: Result<map<string, Value>>)
    ensures r.Ok? <==> Get(Obj(doc), "body").Obj? && BodyType(doc).Str? && Get(Get(Obj(doc), "body"), BodyType(doc).s).Obj?
    ensures r.Ok? ==> "id" in r.value && r.value["id"] == Str("index-pattern:" + index)
    ensures r.Ok? ==> BodyType(r.value) == BodyType(doc)
    ensures r.Ok? ==> Get(Get(Get(Obj(r.value), "body"), BodyType(doc).s), "title") == Str(index)
    // nothing else changes: not the document's other properties, ...
    ensures r.Ok? ==> r.value.Keys == doc.Keys + {"id"}
    ensures r.Ok? ==> forall k :: k in doc && k != "id" && k != "body" ==> r.value[k] == doc[k]
    // ... not the body's other properties, ...
    ensures r.Ok? ==> var body, body' := doc["body"].fields, r.value["body"];
      && body'.Obj? && body'.fields.Keys == body.Keys
      && forall k :: k in body && k != BodyType(doc).s ==> body'.fields[k] == body[k]
    // ... and not the other attributes
    ensures r.Ok? ==> var t := BodyType(doc).s;
      var attributes, attributes' := doc["body"].fields[t].fields, r.value["body"].fields[t];
      && attributes'.Obj? && attributes'.fields.Keys == attributes.Keys + {"title"}
      && forall k :: k in attributes && k != "title" ==> attributes'.fields[k] == attributes[k]
  {
    var body := Get(Obj(doc), "body");
    if Nullish(body) then Err(TypeError)
    else
      var t := Get(body, "type");
      if !t.Str? then Err(Unsupported)
      else
        var attributes := Get(body, t.s);
        if Nullish(attributes) then Err(TypeError)
        else if attributes.Arr? || attributes.Date? then Err(Unsupported)
        else if !attributes.Obj? then Err(TypeError)   // strict-mode write to a primitive
        else
          var attributes' := Obj(attributes.fields["title" := Str(index)]);
          Ok(doc["id" := Str("index-pattern:" + index)]["body" := Obj(body.fields[t.s := attributes'])])
  }

  /** The `putIndexes` callback without the write: stamp, then backport when the version asks for it. */
  function PreparedIndexPattern(doc: map<string, Value>, index: string, major: Option<nat>): (r: Result<map<string, Value>>)
    ensures r.Ok? <==> StampedIndexPattern(doc, index).Ok?
    ensures StampedIndexPattern(doc, index).Err? ==> r == StampedIndexPattern(doc, index)
    ensures !Version.BackportsKibanaDocs(major) ==> r == StampedIndexPattern(doc, index)
    ensures Version.BackportsKibanaDocs(major) && StampedIndexPattern(doc, index).Ok? ==>
      r == BackportedDoc(StampedIndexPattern(doc, index).value)
  {
    var stamped :- StampedIndexPattern(doc, index);
    if Version.BackportsKibanaDocs(major) then BackportedDoc(stamped) else Ok(stamped)
  }

  /**
   * An index pattern of type `index-pattern` provisioned for a datastore of
   * major version 5 or lower ends up with id `index`, type `index-pattern`
   * and title `index`: the backport undoes the id prefix that the stamping
   * added.
   */
  lemma IndexPatternIdRoundTrip(doc: map<string, Value>, index: string, major: Option<nat>)
    requires StampedIndexPattern(doc, index).Ok?
    requires BodyType(doc) == Str("index-pattern")
    requires Version.BackportsKibanaDocs(major)
    ensures var r := PreparedIndexPattern(doc, index, major);
      && r.Ok?
      && r.value["id"] == Str(index)
      && r.value["type"] == Str("index-pattern")
      && Get(r.value["body"], "title") == Str(index)
  {
    var stamped := StampedIndexPattern(doc, index).value;
    BackportStripsTypePrefix(stamped, index);
    BackportEffect(stamped);
  }

  /** The dashboard and chart callbacks without the write: backport when the version asks for it. */
  function PreparedSavedObject(doc: map<string, Value>, major: Option<nat>): (r: Result<map<string, Value>>)
    ensures !Version.BackportsKibanaDocs(major) ==> r == Ok(doc)
    ensures Version.BackportsKibanaDocs(major) ==> r == BackportedDoc(doc)
  {
    if Version.BackportsKibanaDocs(major) then BackportedDoc(doc) else Ok(doc)
  }

  // ---------------------------------------------------------------------
  // The same operations as statement sequences on a document updated in place

  /**
   * `backportKibanaDoc(doc)` statement by statement. When it throws, the
   * first assignment may already have happened, as in the source.
   */
  method BackportKibanaDoc(doc: JsObject) returns (c: Completion)
    modifies doc
    ensures var r := BackportedDoc(old(doc.props));
      && (r.Ok? ==> c == Normal && doc.props == r.value)
      && (r.Err? ==> c == Throw(r.error))
    ensures c.Throw? ==>
      if Nullish(Get(Obj(old(doc.props)), "body")) then doc.props == old(doc.props)
      else doc.props == old(doc.props)["type" := BodyType(old(doc.props))]
  {
    var body := Get(Obj(doc.props), "body");
    if Nullish(body) {
      return Throw(TypeError);
    }
    var t := Get(body, "type");
    doc.props := doc.props["type" := t];
    var id := Get(Obj(doc.props), "id");
    if Nullish(id) || Nullish(t) {
      return Throw(TypeError);
    }
    if id.Arr? {
      return Throw(Unsupported);
    }
    if !id.Str? {
      return Throw(TypeError);
    }
    if !t.Str? {
      return Throw(Unsupported);
    }
    doc.props := doc.props["id" := Str(Slice(id.s, |t.s| + 1))];
    doc.props := doc.props["body" := Get(body, t.s)];
    return Normal;
  }

  /** The `putIndexes` callback without the write, statement by statement on the document. */
  method PutIndexPattern(doc: JsObject, index: string, major: Option<nat>) returns (c: Completion)
    modifies doc
    ensures var r := PreparedIndexPattern(old(doc.props), index, major);
      && (r.Ok? ==> c == Normal && doc.props == r.value)
      && (r.Err? ==> c == Throw(r.error))
    ensures c.Throw? ==> "id" in doc.props && doc.props["id"] == Str("index-pattern:" + index)
  {
    doc.props := doc.props["id" := Str("index-pattern:" + index)];
    var body := Get(Obj(doc.props), "body");
    if Nullish(body) {
      return Throw(TypeError);
    }
    var t := Get(body, "type");
    if !t.Str? {
      return Throw(Unsupported);
    }
    var attributes := Get(body, t.s);
    if Nullish(attributes) {
      return Throw(TypeError);
    }
    if attributes.Arr? || attributes.Date? {
      return Throw(Unsupported);
    }
    if !attributes.Obj? {
      return Throw(TypeError);
    }
    doc.props := doc.props["body" := Obj(body.fields[t.s := Obj(attributes.fields["title" := Str(index)])])];
    if Version.BackportsKibanaDocs(major) {
      c := BackportKibanaDoc(doc);
    } else {
      c := Normal;
    }
  }
}
