/**
 * The listeners that turn emitted metric events into publications: the
 * fixed reshape of `memory` events, and the projection of every other
 * event type onto the property names its mapping document declares.
 */
module Events {
  import opened JsValues

  /** The arguments a listener passes to `publishData(type, time, data)`. */
  datatype Publication = Publication(eventType: string, time: Value, data: Value)

  /** The object literal the memory listener builds. */
  function MemoryData(memory: Value): Value {
    Obj(map[
      "process" := Obj(map[
        "private" := Get(memory, "private"),
        "physical" := Get(memory, "physical"),
        "virtual" := Get(memory, "virtual")]),
      "system" := Obj(map[
        "physical" := Get(memory, "physical_used"),
        "total" := Get(memory, "physical_total")])])
  }

  /** The `memory` listener; reading a property of a null or undefined payload throws. */
  function OnMemory(memory: Value): (r: Result<Publication>)
    ensures r.Err? <==> Nullish(memory)
    ensures r.Ok? ==> r.value.eventType == "memory" && r.value.time == Get(memory, "time")
  {
    if Nullish(memory) then Err(TypeError)
    else Ok(Publication("memory", Get(memory, "time"), MemoryData(memory)))
  }

  /**
   * The memory reshape moves the five readings and nothing else: the
   * process readings under `process`, `physical_used` and `physical_total`
   * renamed to `physical` and `total` under `system`.
   */
  lemma MemoryReadingsRelocated(memory: Value)
    requires !Nullish(memory)
    ensures var d := OnMemory(memory).value.data;
      && d.Obj? && d.fields.Keys == {"process", "system"}
      && d.fields["process"].Obj? && d.fields["process"].fields.Keys == {"private", "physical", "virtual"}
      && d.fields["system"].Obj? && d.fields["system"].fields.Keys == {"physical", "total"}
      && Get(d.fields["process"], "private") == Get(memory, "private")
      && Get(d.fields["process"], "physical") == Get(memory, "physical")
      && Get(d.fields["process"], "virtual") == Get(memory, "virtual")
      && Get(d.fields["system"], "physical") == Get(memory, "physical_used")
      && Get(d.fields["system"], "total") == Get(memory, "physical_total")
  {
  }

  /**
   * The property names a mapping document declares for an event type: the
   * keys of the `properties` object under `body.properties[type]`. Reading
   * through null or undefined at any step throws; the keys of a boolean,
   * a number or a date are none.
   */
  function DeclaredKeys(mapping: Value, eventType: string): (r: Result<set<string>>)
    ensures var body := Get(mapping, "body");
      var properties := Get(body, "properties");
      var spec := Get(properties, eventType);
      var declared := Get(spec, "properties");
      && (r == Err(TypeError) <==>
            Nullish(mapping) || Nullish(body) || Nullish(properties) || Nullish(spec) || Nullish(declared))
      && (declared.Obj? ==> r == Ok(declared.fields.Keys))
      && (declared.Bool? || declared.Num? || declared.Date? ==> r == Ok({}))
      && (r == Err(Unsupported) <==> declared.Arr? || declared.Str?)
    ensures r.Ok? ==> mapping.Obj?
  {
    var body :- Read(mapping, "body");
    var properties :- Read(body, "properties");
    var spec :- Read(properties, eventType);
    var declared :- Read(spec, "properties");
    match declared
    case Undefined => Err(TypeError)
    case Null => Err(TypeError)
    case Obj(fs) => Ok(fs.Keys)
    case Arr(_) => Err(Unsupported)
    case Str(_) => Err(Unsupported)
    case _ => Ok({})
  }

  /** The `data` object the projection builds. */
  function Projected(keys: set<string>, event: Value): map<string, Value> {
    map k | k in keys :: Get(event, k)
  }

  /**
   * The loop over the declared property names that copies each one from
   * the event into a fresh data object. The result holds exactly the
   * declared keys, each with the event's value (undefined where the event
   * lacks it); undeclared event properties are dropped.
   */
  method Project(keys: set<string>, event: Value) returns (data: map<string, Value>)
    ensures data.Keys == keys
    ensures forall k :: k in data ==> data[k] == Get(event, k)
    ensures data == Projected(keys, event)
  {
    data := map[];
    var todo := keys;
    while todo != {}
      invariant todo <= keys
      invariant data.Keys == keys - todo
      invariant forall k :: k in data ==> data[k] == Get(event, k)
      decreases todo
    {
      var prop :| prop in todo;
      data := data[prop := Get(event, prop)];
      todo := todo - {prop};
    }
  }

  /** The listener registered for a declared event type. */
  function OnDeclared(mapping: Value, eventType: string, event: Value): (r: Result<Publication>)
    ensures r.Ok? <==> DeclaredKeys(mapping, eventType).Ok? && !Nullish(event)
    ensures r.Ok? ==> && r.value.eventType == eventType
                      && r.value.time == Get(event, "time")
                      && r.value.data == Obj(Projected(DeclaredKeys(mapping, eventType).value, event))
  {
    var keys :- DeclaredKeys(mapping, eventType);
    if Nullish(event) then Err(TypeError)
    else Ok(Publication(eventType, Get(event, "time"), Obj(Projected(keys, event))))
  }

  /**
   * What happens when the emitter fires event `name`: the memory listener,
   * the listener of a declared type (one per mapping document other than
   * `memory`), or no listener at all.
   */
  function OnEvent(catalog: map<string, Value>, name: string, payload: Value): (r: Option<Result<Publication>>)
    ensures r.None? <==> name != "memory" && name !in catalog
    ensures name == "memory" ==> r == Some(OnMemory(payload))
    ensures name != "memory" && name in catalog ==> r == Some(OnDeclared(catalog[name], name, payload))
    ensures r.Some? && r.value.Ok? ==> r.value.value.eventType == name
  {
    if name == "memory" then Some(OnMemory(payload))
    else if name in catalog then Some(OnDeclared(catalog[name], name, payload))
    else None
  }

  /** A memory event with readings 10, 20, 30, 40 and 100 is reshaped into exactly this object. */
  lemma MemoryExample(catalog: map<string, Value>, time: Value)
    ensures var payload := Obj(map[
        "private" := Num(10), "physical" := Num(20), "virtual" := Num(30),
        "physical_used" := Num(40), "physical_total" := Num(100), "time" := time]);
      OnEvent(catalog, "memory", payload) == Some(Ok(Publication("memory", time, Obj(map[
        "process" := Obj(map["private" := Num(10), "physical" := Num(20), "virtual" := Num(30)]),
        "system" := Obj(map["physical" := Num(40), "total" := Num(100)])]))))
  {
  }

  /** An `http` event whose mapping declares only `requests` is published with `requests` alone. */
  lemma HttpExample(time: Value)
    ensures var mapping := Obj(map["body" := Obj(map["properties" := Obj(map[
        "http" := Obj(map["properties" := Obj(map["requests" := Obj(map["type" := Str("long")])])])])])]);
      var event := Obj(map["requests" := Num(5), "extraneous" := Str("x"), "time" := time]);
      OnEvent(map["http" := mapping], "http", event)
        == Some(Ok(Publication("http", time, Obj(map["requests" := Num(5)]))))
  {
    var declared := map["requests" := Obj(map["type" := Str("long")])];
    var spec := Obj(map["properties" := Obj(declared)]);
    var mapping := Obj(map["body" := Obj(map["properties" := Obj(map["http" := spec])])]);
    assert Get(Get(Get(Get(mapping, "body"), "properties"), "http"), "properties") == Obj(declared);
    assert declared.Keys == {"requests"};
    assert DeclaredKeys(mapping, "http") == Ok({"requests"});
    var event := Obj(map["requests" := Num(5), "extraneous" := Str("x"), "time" := time]);
    assert Projected({"requests"}, event) == map["requests" := Num(5)];
  }
}
