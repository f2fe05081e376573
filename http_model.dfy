/** What the HTTP handlers see and do, and what of it reaches the client.
    A handler is a sequence of effects on the `http.ResponseWriter`; net/http sends
    the header map as it stands at the first `WriteHeader` or `Write`, with the
    status of that `WriteHeader` (200 when a `Write` or nothing at all comes first),
    so a header set later is never sent and a later status is ignored. */
module HttpModel {
  import opened Base

  const MethodGet := "GET"
  const MethodPut := "PUT"

  const StatusOK := 200
  const StatusCreated := 201
  const StatusBadRequest := 400
  const StatusNotFound := 404
  const StatusMethodNotAllowed := 405
  const StatusUnprocessableEntity := 422
  const StatusInternalServerError := 500

  const ContentTypeKey := "Content-Type"
  const JsonType := "application/json"
  const OctetStream := "application/octet-stream"

  /** A header as the handler receives it: each key with its values, keys in the
      order in which a `range` over the map visits them. */
  type Header = seq<(string, seq<string>)>

  /** The parts of an `*http.Request` the handlers read: `verb` is `r.Method`,
      `path` is `r.URL.Path`, and `body` is `None` for a nil body. */
  datatype Request = Request(verb: string, path: string, header: Header, body: Option<Reader>)

  /** A chunk of the response body: JSON text, or the bytes copied from a stream. */
  datatype Body = Json(text: string) | Copied(object: Reader)

  /** `w.Header().Set`, `w.WriteHeader` and `w.Write`/`io.Copy`. */
  datatype Effect = SetHeader(key: string, value: string) | WriteStatus(code: int) | WriteBody(body: Body)

  /** What the client receives: the status, the Content-Type the handler itself set
      in time (`None`: none was sent by the handler), and the body chunks. */
  datatype Response = Response(status: int, contentType: Option<string>, body: seq<Body>)

  /** The storage call a handler made, if any. `size` is the size hint passed along
      by the one generation whose `Write` takes one. */
  datatype StorageCall = NoCall | ReadCall(id: string) | WriteCall(id: string, size: Option<int>)

  /** One run of `ServeHTTP`: the effects it performed and the storage call it made
      before it returned or, when `panics` holds, before a run-time panic ended it. */
  datatype Handled = Handled(effects: seq<Effect>, call: StorageCall, panics: bool)

  /** The storage behind the restful handlers: `Read(ctx, id) (io.ReadCloser, bool, error)`
      and `Write(ctx, id, reader[, size]) error`, as total functions of their arguments. */
  datatype Store = Store(read: string -> ReadReply, write: (string, Option<int>) -> Option<Error>)

  /** The storage behind the httphandlers: `Read(ctx, id) (io.ReadCloser, error)` and
      `Write(ctx, id, reader) error`. */
  datatype DataStore = DataStore(read: string -> DataReply, write: string -> Option<Error>)

  /** The index of the first effect that commits the response head: every effect
      before it is a `Set`, and it is the first that is not (or the end). */
  function CommitPoint(e: seq<Effect>): (k: nat)
    ensures k <= |e|
    ensures forall j :: 0 <= j < k ==> e[j].SetHeader?
    ensures k < |e| ==> !e[k].SetHeader?
  {
    if e == [] || !e[0].SetHeader? then 0
    else
      var k := 1 + CommitPoint(e[1..]);
      assert forall j :: 1 <= j < |e| ==> e[j] == e[1..][j - 1];
      k
  }

  /** The header map after the given `Set` calls, later values replacing earlier ones. */
  function ApplyHeaders(sets: seq<Effect>): map<string, string> {
    if sets == [] then map[]
    else
      var h := ApplyHeaders(sets[..|sets| - 1]);
      var last := sets[|sets| - 1];
      if last.SetHeader? then h[last.key := last.value] else h
  }

  function BodyOf(e: seq<Effect>): seq<Body> {
    if e == [] then [] else (if e[0].WriteBody? then [e[0].body] else []) + BodyOf(e[1..])
  }

  function Deliver(e: seq<Effect>): Response {
    var i := CommitPoint(e);
    var sent := ApplyHeaders(e[..i]);
    var status := if i < |e| && e[i].WriteStatus? then e[i].code else StatusOK;
    Response(status, if ContentTypeKey in sent then Some(sent[ContentTypeKey]) else None, BodyOf(e))
  }

  /** The body `{"error":"<msg>"}` every JSON error carries. */
  function ErrorBody(msg: string): Body {
    Json("{\"error\":\"" + msg + "\"}")
  }

  /** `writeErrorMessage` that sets the Content-Type before the status
      (internal/restfulhandler/handler.go, pkg/gateway/restfulhandler/rest.go):
      the client gets the status, `application/json` and the JSON error. */
  function ErrorHeaderFirst(code: int, msg: string): (e: seq<Effect>)
    ensures Deliver(e) == Response(code, Some(JsonType), [ErrorBody(msg)])
  {
    var e := [SetHeader(ContentTypeKey, JsonType), WriteStatus(code), WriteBody(ErrorBody(msg))];
    HeaderThenStatus(code, JsonType, ErrorBody(msg));
    e
  }

  /** `writeErrorMessage` that writes the status first (internal/restfulhandler/rest.go
      and both httphandlers): the JSON Content-Type is set after the head is
      committed, so the client gets the status and the JSON error without it. */
  function ErrorStatusFirst(code: int, msg: string): (e: seq<Effect>)
    ensures Deliver(e) == Response(code, None, [ErrorBody(msg)])
  {
    var e := [WriteStatus(code), SetHeader(ContentTypeKey, JsonType), WriteBody(ErrorBody(msg))];
    StatusThenHeader(code, JsonType, ErrorBody(msg));
    e
  }

  /** A success that sets the Content-Type and then the status before the body. */
  lemma HeaderThenStatus(code: int, ct: string, b: Body)
    ensures Deliver([SetHeader(ContentTypeKey, ct), WriteStatus(code), WriteBody(b)]) == Response(code, Some(ct), [b])
  {
    var e := [SetHeader(ContentTypeKey, ct), WriteStatus(code), WriteBody(b)];
    assert CommitPoint(e) == 1;
    assert e[..1] == [SetHeader(ContentTypeKey, ct)] && e[..1][..0] == [];
    assert e[1..] == [WriteStatus(code), WriteBody(b)] && e[1..][1..] == [WriteBody(b)] && e[1..][1..][1..] == [];
    assert BodyOf(e[1..][1..]) == [b];
    assert BodyOf(e[1..]) == [b];
    assert BodyOf(e) == [b];
    assert ApplyHeaders(e[..1]) == map[ContentTypeKey := ct];
    assert e[1].WriteStatus? && e[1].code == code;
  }

  /** A success that writes the status and only then sets the Content-Type: it is lost. */
  lemma StatusThenHeader(code: int, ct: string, b: Body)
    ensures Deliver([WriteStatus(code), SetHeader(ContentTypeKey, ct), WriteBody(b)]) == Response(code, None, [b])
  {
    var e := [WriteStatus(code), SetHeader(ContentTypeKey, ct), WriteBody(b)];
    assert CommitPoint(e) == 0;
    assert e[..0] == [];
    assert e[1..] == [SetHeader(ContentTypeKey, ct), WriteBody(b)] && e[1..][1..] == [WriteBody(b)] && e[1..][1..][1..] == [];
    assert BodyOf(e[1..][1..]) == [b];
    assert BodyOf(e[1..]) == [b];
    assert BodyOf(e) == [b];
    assert ApplyHeaders(e[..0]) == map[];
    assert e[0].WriteStatus? && e[0].code == code;
  }

  /** A status alone answers that status with no body. */
  lemma StatusOnly(code: int)
    ensures Deliver([WriteStatus(code)]) == Response(code, None, [])
  {
    var e := [WriteStatus(code)];
    assert CommitPoint(e) == 0;
    assert e[..0] == [] && e[1..] == [];
    assert BodyOf(e) == [];
    assert ApplyHeaders(e[..0]) == map[];
  }

  /** A Content-Type set before the status is sent with it, even with no body. */
  lemma HeaderThenStatusNoBody(code: int, ct: string)
    ensures Deliver([SetHeader(ContentTypeKey, ct), WriteStatus(code)]) == Response(code, Some(ct), [])
  {
    var e := [SetHeader(ContentTypeKey, ct), WriteStatus(code)];
    assert CommitPoint(e) == 1;
    assert e[..1] == [SetHeader(ContentTypeKey, ct)] && e[..1][..0] == [];
    assert e[1..] == [WriteStatus(code)] && e[1..][1..] == [];
    assert BodyOf(e[1..]) == [] && BodyOf(e) == [];
    assert ApplyHeaders(e[..1]) == map[ContentTypeKey := ct];
    assert e[1].WriteStatus? && e[1].code == code;
  }

  /** A Content-Type set after the status is lost, even with no body. */
  lemma StatusThenHeaderNoBody(code: int, ct: string)
    ensures Deliver([WriteStatus(code), SetHeader(ContentTypeKey, ct)]) == Response(code, None, [])
  {
    var e := [WriteStatus(code), SetHeader(ContentTypeKey, ct)];
    assert CommitPoint(e) == 0;
    assert e[..0] == [];
    assert e[1..] == [SetHeader(ContentTypeKey, ct)] && e[1..][1..] == [];
    assert BodyOf(e[1..]) == [] && BodyOf(e) == [];
    assert ApplyHeaders(e[..0]) == map[];
    assert e[0].WriteStatus? && e[0].code == code;
  }

  /** A handler that returns without writing anything answers 200 with no body. */
  lemma NothingWrittenIsOK()
    ensures Deliver([]) == Response(StatusOK, None, [])
  {
    var e: seq<Effect> := [];
    assert e[..0] == [];
  }

  /** `r.Header.Get(key)`: the first value of the first entry for `key`, or "". */
  function HeaderGet(h: Header, key: string): (v: string)
    ensures (forall i :: 0 <= i < |h| ==> h[i].0 != key) ==> v == ""
    ensures forall i :: 0 <= i < |h| && h[i].0 == key && (forall j :: 0 <= j < i ==> h[j].0 != key)
                        ==> v == (if |h[i].1| > 0 then h[i].1[0] else "")
  {
    if h == [] then ""
    else if h[0].0 == key then (if |h[0].1| > 0 then h[0].1[0] else "")
    else
      var v := HeaderGet(h[1..], key);
      assert forall i :: 1 <= i < |h| ==> h[i] == h[1..][i - 1];
      v
  }
}
