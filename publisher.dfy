/**
 * The batch publisher: `publishData` appends an action header and a
 * document to the bulk array, and the interval timer hands the whole array
 * to one bulk write, when it is not empty, and starts a fresh one.
 */
module Publisher {
  import opened JsValues
  import opened Events

  /** What is stamped on every document: `os.hostname()`, `process.pid` and `opts.app`. */
  datatype Origin = Origin(host: string, pid: int, app: Value)

  /** The bulk write handed to the datastore client: the configured index, the document type "doc" and the buffered entries. */
  datatype BulkRequest = BulkRequest(index: string, docType: string, body: seq<Value>)

  /** The action header `{ index: {} }`. */
  function IndexAction(): Value {
    Obj(map["index" := Obj(map[])])
  }

  /**
   * The document `publishData` builds. The payload sits under the key named
   * by the event type; being written last, it wins over a fixed key of the
   * same name.
   */
  function Envelope(p: Publication, o: Origin): (r: Value)
    ensures r.Obj?
    ensures r.fields.Keys == {"type", "@timestamp", "host", "pid", "app", p.eventType}
    ensures r.fields[p.eventType] == p.data
    ensures p.eventType != "type" ==> r.fields["type"] == Str(p.eventType)
    ensures p.eventType != "@timestamp" ==> r.fields["@timestamp"] == Date(p.time)
    ensures p.eventType != "host" ==> r.fields["host"] == Str(o.host)
    ensures p.eventType != "pid" ==> r.fields["pid"] == Num(o.pid)
    ensures p.eventType != "app" ==> r.fields["app"] == o.app
    ensures r != IndexAction()
  {
    var fixed := map[
      "type" := Str(p.eventType),
      "@timestamp" := Date(p.time),
      "host" := Str(o.host),
      "pid" := Num(o.pid),
      "app" := o.app];
    assert "type" in fixed;
    Obj(fixed[p.eventType := p.data])
  }

  /** The bulk array after publishing `ps`, in order, into an empty one. */
  function Batch(ps: seq<Publication>, o: Origin): seq<Value> {
    if ps == [] then [] else Batch(ps[..|ps| - 1], o) + [IndexAction(), Envelope(ps[|ps| - 1], o)]
  }

  /** Two entries per publication. */
  lemma {:induction false} BatchLength(ps: seq<Publication>, o: Origin)
    ensures |Batch(ps, o)| == 2 * |ps|
  {
    if ps != [] {
      BatchLength(ps[..|ps| - 1], o);
    }
  }

  /** Entry 2i is an action header and entry 2i+1 the document of the i-th publication: call order is kept. */
  lemma {:induction false} BatchAt(ps: seq<Publication>, o: Origin, i: nat)
    requires i < |ps|
    ensures |Batch(ps, o)| == 2 * |ps|
    ensures Batch(ps, o)[2 * i] == IndexAction()
    ensures Batch(ps, o)[2 * i + 1] == Envelope(ps[i], o)
  {
    BatchLength(ps, o);
    var front := ps[..|ps| - 1];
    BatchLength(front, o);
    if i < |ps| - 1 {
      BatchAt(front, o, i);
    }
  }

  lemma BatchSnoc(ps: seq<Publication>, p: Publication, o: Origin)
    ensures Batch(ps + [p], o) == Batch(ps, o) + [IndexAction(), Envelope(p, o)]
  {
    assert (ps + [p])[..|ps|] == ps;
  }

  /** Publishing `a` and then `b` fills the array with the batch of `a` followed by the batch of `b`. */
  lemma {:induction false} BatchAppend(a: seq<Publication>, b: seq<Publication>, o: Origin)
    ensures Batch(a + b, o) == Batch(a, o) + Batch(b, o)
    decreases |b|
  {
    if b == [] {
      assert a + b == a;
    } else {
      var b' := b[..|b| - 1];
      assert (a + b)[..|a + b| - 1] == a + b';
      BatchAppend(a, b', o);
    }
  }

  class BulkBuffer {
    const index: string
    const origin: Origin
    /** `bulkarray` */
    var bulk: seq<Value>
    /** The publications since the last flush, in call order. */
    ghost var published: seq<Publication>

    ghost predicate Valid()
      reads this
    {
      bulk == Batch(published, origin)
    }

    constructor (index: string, origin: Origin)
      ensures Valid()
      ensures this.index == index && this.origin == origin
      ensures bulk == [] && published == []
    {
      this.index := index;
      this.origin := origin;
      bulk := [];
      published := [];
    }

    /** `publishData`: appends the action header and the document. */
    method PublishData(p: Publication)
      requires Valid()
      modifies this
      ensures Valid()
      ensures published == old(published) + [p]
      ensures bulk == old(bulk) + [IndexAction(), Envelope(p, origin)]
    {
      bulk := bulk + [IndexAction(), Envelope(p, origin)];
      published := published + [p];
      assert published[..|published| - 1] == old(published);
    }

    /**
     * One tick of the 5-second interval: nothing when the array is empty,
     * otherwise one bulk write of the whole array; either way the array is
     * empty afterwards, so a failed write is never resent.
     */
    method Tick() returns (request: Option<BulkRequest>)
      requires Valid()
      modifies this
      ensures Valid()
      ensures bulk == [] && published == []
      ensures old(bulk) == [] ==> request == None
      ensures old(bulk) != [] ==> request == Some(BulkRequest(index, "doc", old(bulk)))
      ensures request.Some? <==> old(published) != []
    {
      BatchLength(published, origin);
      if |bulk| > 0 {
        request := Some(BulkRequest(index, "doc", bulk));
        bulk := [];
        published := [];
      } else {
        request := None;
      }
    }
  }

  /** What the process sees between two observations: an emitted event that was published, or an interval tick. */
  datatype Step = Publish(p: Publication) | Interval

  function Published(steps: seq<Step>): seq<Publication> {
    if steps == [] then []
    else
      var front := Published(steps[..|steps| - 1]);
      match steps[|steps| - 1]
      case Publish(p) => front + [p]
      case Interval => front
  }

  lemma PublishedStep(steps: seq<Step>, i: nat)
    requires i < |steps|
    ensures Published(steps[..i + 1]) ==
      Published(steps[..i]) + (if steps[i].Publish? then [steps[i].p] else [])
  {
    assert steps[..i + 1][..i] == steps[..i];
  }

  /** The bodies of the bulk writes, concatenated in the order they were issued. */
  function Sent(requests: seq<BulkRequest>): seq<Value> {
    if requests == [] then [] else Sent(requests[..|requests| - 1]) + requests[|requests| - 1].body
  }

  lemma SentSnoc(requests: seq<BulkRequest>, r: BulkRequest)
    ensures Sent(requests + [r]) == Sent(requests) + r.body
  {
    assert (requests + [r])[..|requests|] == requests;
  }

  /** Publishing `p` keeps what was sent plus what is buffered equal to the batch of everything published. */
  lemma PublishKeepsAccount(sent: seq<Value>, bulk: seq<Value>, start: seq<Value>, done: seq<Publication>, p: Publication, o: Origin)
    requires sent + bulk == start + Batch(done, o)
    ensures sent + (bulk + [IndexAction(), Envelope(p, o)]) == start + Batch(done + [p], o)
  {
    var x := [IndexAction(), Envelope(p, o)];
    BatchSnoc(done, p, o);
    assert sent + (bulk + x) == (sent + bulk) + x;
    assert (start + Batch(done, o)) + x == start + (Batch(done, o) + x);
  }

  /**
   * Runs a sequence of publications and ticks. Every document published
   * reaches exactly one bulk write, in publication order, or is still in
   * the array: none is lost, none is sent twice, and no write is empty.
   */
  method Run(buffer: BulkBuffer, steps: seq<Step>) returns (requests: seq<BulkRequest>)
    requires buffer.Valid()
    modifies buffer
    ensures buffer.Valid()
    ensures Sent(requests) + buffer.bulk == old(buffer.bulk) + Batch(Published(steps), buffer.origin)
    ensures forall r :: r in requests ==> r.index == buffer.index && r.docType == "doc" && r.body != []
  {
    requests := [];
    ghost var start := buffer.bulk;
    ghost var o := buffer.origin;
    var index := buffer.index;
    for i := 0 to |steps|
      invariant buffer.Valid() && buffer.origin == o && buffer.index == index
      invariant Sent(requests) + buffer.bulk == start + Batch(Published(steps[..i]), o)
      invariant forall r :: r in requests ==> r.index == index && r.docType == "doc" && r.body != []
    {
      ghost var done := Published(steps[..i]);
      ghost var sent := Sent(requests);
      ghost var bulk := buffer.bulk;
      PublishedStep(steps, i);
      if steps[i].Publish? {
        var p := steps[i].p;
        buffer.PublishData(p);
        PublishKeepsAccount(sent, bulk, start, done, p, o);
        assert Published(steps[..i + 1]) == done + [p];
      } else {
        var request := buffer.Tick();
        if request.Some? {
          SentSnoc(requests, request.value);
          requests := requests + [request.value];
        }
        assert Sent(requests) == sent + bulk;
        assert Published(steps[..i + 1]) == done;
      }
    }
    assert steps[..|steps|] == steps;
  }
}
