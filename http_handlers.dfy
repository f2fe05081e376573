/** `ServeHTTP` of the two httphandlers, httphandler.go and
    internal/httphandler/httphandler.go. Apart from logging the two are the same
    code; they differ in `commonPrefix`, which `NewHandler` sets to "object" in
    internal/httphandler/httphandler.go and which httphandler.go leaves to its caller. */
module HttpHandlers {
  import opened Base
  import opened HttpModel
  import opened GoStrings
  import HttpRoute
  import UpperIdValidator

  /** The `commonPrefix` of `NewHandler` in internal/httphandler/httphandler.go. */
  const InternalPrefix := "object"

  /** The request gets past the route check and `ValidateObjectID`. */
  predicate Admitted(prefix: string, req: Request) {
    HttpRoute.KnownRoute(prefix, req.path)
    && UpperIdValidator.ValidateObjectID(HttpRoute.ReadObjectID(prefix, req.path)) == None
  }

  /** `ServeHTTP`. The deferred `data.Close()` panics on a nil stream whichever way GET
      returns, and `io.Copy` from a nil stream panics; the deferred `r.Body.Close()`
      panics on a nil body after the write. */
  function ServeHTTP(prefix: string, store: DataStore, req: Request): (r: Handled)
    ensures r.call != NoCall ==> Admitted(prefix, req) && r.call.id == HttpRoute.ReadObjectID(prefix, req.path)
    ensures r.call.ReadCall? <==> Admitted(prefix, req) && req.verb == MethodGet
    ensures r.call.WriteCall? <==> Admitted(prefix, req) && req.verb == MethodPut
    ensures r.panics <==> (Admitted(prefix, req)
                           && ((req.verb == MethodGet && store.read(HttpRoute.ReadObjectID(prefix, req.path)).data.None?)
                               || (req.verb == MethodPut && req.body.None?)))
  {
    if !HttpRoute.KnownRoute(prefix, req.path) then
      Handled(ErrorStatusFirst(StatusBadRequest, "route cannot be handled"), NoCall, false)
    else
      var id := HttpRoute.ReadObjectID(prefix, req.path);
      var invalid := UpperIdValidator.ValidateObjectID(id);
      if invalid.Some? then
        Handled(ErrorStatusFirst(StatusUnprocessableEntity, invalid.value.msg), NoCall, false)
      else if req.verb == MethodGet then
        var reply := store.read(id);
        if IsNotFound(reply.err) then
          Handled(ErrorStatusFirst(StatusNotFound, "object not found"), ReadCall(id), reply.data.None?)
        else if reply.data.None? then
          Handled([WriteStatus(StatusOK), SetHeader(ContentTypeKey, OctetStream)], ReadCall(id), true)
        else
          Handled([WriteStatus(StatusOK), SetHeader(ContentTypeKey, OctetStream), WriteBody(Copied(reply.data.value))],
                  ReadCall(id), false)
      else if req.verb == MethodPut then
        if store.write(id).Some? then
          Handled(ErrorStatusFirst(StatusInternalServerError, "server error"), WriteCall(id, None), req.body.None?)
        else
          Handled([], WriteCall(id, None), req.body.None?)
      else
        Handled(ErrorStatusFirst(StatusMethodNotAllowed, "method not allowed"), NoCall, false)
  }

  /** An unknown route is 400 and an ID that fails `ValidateObjectID` is 422; the JSON
      Content-Type is set too late to be sent. */
  lemma RejectsBeforeStorage(prefix: string, store: DataStore, req: Request)
    ensures var r := ServeHTTP(prefix, store, req);
      !HttpRoute.KnownRoute(prefix, req.path) ==>
        Deliver(r.effects) == Response(StatusBadRequest, None, [ErrorBody("route cannot be handled")])
    ensures var r := ServeHTTP(prefix, store, req);
      HttpRoute.KnownRoute(prefix, req.path) && !Admitted(prefix, req) ==>
        Deliver(r.effects) == Response(StatusUnprocessableEntity, None, [ErrorBody(UpperIdValidator.InvalidIdMsg)])
  {
  }

  /** GET: a nil stream panics in the deferred `data.Close()` (on the 200 path
      `io.Copy` has panicked first), so no response is delivered. Otherwise only a
      not-found error is 404, and every other outcome, a storage error included,
      is 200 with the stream as the body; the octet-stream Content-Type, set after
      the status, is never sent. */
  lemma GetOutcomes(prefix: string, store: DataStore, req: Request)
    requires Admitted(prefix, req) && req.verb == MethodGet
    ensures var reply := store.read(HttpRoute.ReadObjectID(prefix, req.path));
      var r := ServeHTTP(prefix, store, req); var resp := Deliver(r.effects);
      if reply.data.None? then r.panics
      else if IsNotFound(reply.err) then !r.panics && resp == Response(StatusNotFound, None, [ErrorBody("object not found")])
      else !r.panics && resp == Response(StatusOK, None, [Copied(reply.data.value)])
  {
    var id := HttpRoute.ReadObjectID(prefix, req.path);
    var reply := store.read(id);
    var r := ServeHTTP(prefix, store, req);
    if reply.data.Some? {
      if IsNotFound(reply.err) {
        assert r.effects == ErrorStatusFirst(StatusNotFound, "object not found");
      } else {
        assert r.effects == [WriteStatus(StatusOK), SetHeader(ContentTypeKey, OctetStream), WriteBody(Copied(reply.data.value))];
        StatusThenHeader(StatusOK, OctetStream, Copied(reply.data.value));
      }
    }
  }

  /** PUT: a write error is 500; a successful write writes nothing, which net/http
      answers with 200 and no body. */
  lemma PutOutcomes(prefix: string, store: DataStore, req: Request)
    requires Admitted(prefix, req) && req.verb == MethodPut
    ensures var resp := Deliver(ServeHTTP(prefix, store, req).effects);
      if store.write(HttpRoute.ReadObjectID(prefix, req.path)).Some? then
        resp == Response(StatusInternalServerError, None, [ErrorBody("server error")])
      else resp == Response(StatusOK, None, [])
  {
    NothingWrittenIsOK();
  }

  lemma OtherMethodRejected(prefix: string, store: DataStore, req: Request)
    requires Admitted(prefix, req) && req.verb != MethodGet && req.verb != MethodPut
    ensures Deliver(ServeHTTP(prefix, store, req).effects) == Response(StatusMethodNotAllowed, None, [ErrorBody("method not allowed")])
  {
  }

  /** Every ID on a known route is a prefix of `commonPrefix`, so a prefix that starts
      with a lower-case letter admits no request at all. */
  lemma LowercasePrefixAdmitsNothing(prefix: string, req: Request)
    requires prefix != [] && 'a' <= prefix[0] <= 'z'
    ensures !Admitted(prefix, req)
  {
    if HttpRoute.KnownRoute(prefix, req.path) {
      HttpRoute.KnownRouteID(prefix, req.path);
      var id := HttpRoute.ReadObjectID(prefix, req.path);
      if id != [] {
        assert id[0] == prefix[0];
        UpperIdValidator.RejectsLowercase(id, 0);
      }
    }
  }

  /** The handler of internal/httphandler/httphandler.go never reaches storage: every
      request is answered 400 or 422, and every path that starts with '/' is 400. */
  lemma InternalRejectsEverything(store: DataStore, req: Request)
    ensures var r := ServeHTTP(InternalPrefix, store, req);
      r.call == NoCall && !r.panics
      && Deliver(r.effects).status in {StatusBadRequest, StatusUnprocessableEntity}
    ensures req.path != [] && req.path[0] == '/' ==>
      Deliver(ServeHTTP(InternalPrefix, store, req).effects).status == StatusBadRequest
  {
    LowercasePrefixAdmitsNothing(InternalPrefix, req);
    RejectsBeforeStorage(InternalPrefix, store, req);
    if req.path != [] && req.path[0] == '/' {
      HttpRoute.SlashPathUnknown(InternalPrefix, req.path);
    }
  }
}
