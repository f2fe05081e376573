/** `ServeHTTP` of internal/restfulhandler/handler.go, the newest restful handler
    (with `contentSize`): the debug line, the route and ID checks, then GET/PUT. */
module InternalRestfulHandler {
  import opened Base
  import opened Strconv
  import opened HttpModel
  import HeaderLog
  import RestRoute
  import AlnumIdValidator

  const ContentLengthKey := "Content-Length"

  /** `contentSize`: the base-10 int64 value of the Content-Length header; -1 when the
      header is missing or is not such a number. */
  function ContentSize(h: Header): (n: int)
    ensures ParseInt64(HeaderGet(h, ContentLengthKey)).Some? ==> n == ParseInt64(HeaderGet(h, ContentLengthKey)).value
    ensures ParseInt64(HeaderGet(h, ContentLengthKey)) == None ==> n == -1
  {
    match ParseInt64(HeaderGet(h, ContentLengthKey))
    case None => -1
    case Some(v) => v
  }

  /** A Content-Length written as a 64-bit decimal number is read back as that number. */
  lemma ContentSizeOf(h: Header, v: int)
    requires MinInt64 <= v <= MaxInt64
    requires HeaderGet(h, ContentLengthKey) == FormatInt(v)
    ensures ContentSize(h) == v
  {
    ParseFormatInt(v);
  }

  /** No Content-Length header, or one outside the 64-bit range, gives -1. */
  lemma ContentSizeFallback(h: Header, v: int)
    requires (forall i :: 0 <= i < |h| ==> h[i].0 != ContentLengthKey)
             || ((v < MinInt64 || v > MaxInt64) && HeaderGet(h, ContentLengthKey) == FormatInt(v))
    ensures ContentSize(h) == -1
  {
    if v < MinInt64 || v > MaxInt64 {
      ParseOutOfRange(v);
    }
  }

  /** The request gets past the debug line, the route check and the ID check. */
  predicate Admitted(req: Request) {
    HeaderLog.ConcatSpec(req.header).Some?
    && RestRoute.KnownRoute(req.path)
    && AlnumIdValidator.ValidateInputObjectID(RestRoute.ReadObjectID(req.path)) == None
  }

  /** `ServeHTTP`. The debug line's `concatHeaders` runs before anything else. */
  function ServeHTTP(store: Store, req: Request): (r: Handled)
    ensures r.panics <==> HeaderLog.ConcatSpec(req.header) == None
    ensures r.call != NoCall ==> Admitted(req) && r.call.id == RestRoute.ReadObjectID(req.path)
    ensures r.call.ReadCall? <==> Admitted(req) && req.verb == MethodGet
    ensures r.call.WriteCall? <==> Admitted(req) && req.verb == MethodPut && req.body.Some?
    ensures r.call.WriteCall? ==> r.call.size == Some(ContentSize(req.header))
  {
    if HeaderLog.ConcatSpec(req.header) == None then Handled([], NoCall, true)
    else if !RestRoute.KnownRoute(req.path) then
      Handled(ErrorHeaderFirst(StatusBadRequest, "route cannot be handled"), NoCall, false)
    else
      var id := RestRoute.ReadObjectID(req.path);
      var invalid := AlnumIdValidator.ValidateInputObjectID(id);
      if invalid.Some? then
        Handled(ErrorHeaderFirst(StatusUnprocessableEntity, invalid.value.msg), NoCall, false)
      else if req.verb == MethodGet then
        var reply := store.read(id);
        if reply.err.Some? then
          Handled(ErrorHeaderFirst(StatusInternalServerError, "failed to read object"), ReadCall(id), false)
        else if !reply.found || reply.data.None? then
          Handled(ErrorHeaderFirst(StatusNotFound, "object not found"), ReadCall(id), false)
        else
          Handled([SetHeader(ContentTypeKey, OctetStream), WriteStatus(StatusOK), WriteBody(Copied(reply.data.value))],
                  ReadCall(id), false)
      else if req.verb == MethodPut then
        if req.body.None? then
          Handled(ErrorHeaderFirst(StatusBadRequest, "failed to write: request body shall be provided"), NoCall, false)
        else
          var size := ContentSize(req.header);
          if store.write(id, Some(size)).Some? then
            Handled(ErrorHeaderFirst(StatusInternalServerError, "failed to write object"), WriteCall(id, Some(size)), false)
          else
            Handled([WriteStatus(StatusCreated)], WriteCall(id, Some(size)), false)
      else
        Handled(ErrorHeaderFirst(StatusMethodNotAllowed, "method not allowed"), NoCall, false)
  }

  /** The checks run in order: an unknown route is 400, then an invalid ID is 422,
      with no storage call; both are JSON errors. */
  lemma RejectsBeforeStorage(store: Store, req: Request)
    requires HeaderLog.ConcatSpec(req.header).Some?
    ensures var r := ServeHTTP(store, req);
      !RestRoute.KnownRoute(req.path) ==>
        Deliver(r.effects) == Response(StatusBadRequest, Some(JsonType), [ErrorBody("route cannot be handled")])
    ensures var r := ServeHTTP(store, req);
      RestRoute.KnownRoute(req.path) && !Admitted(req) ==>
        Deliver(r.effects) == Response(StatusUnprocessableEntity, Some(JsonType), [ErrorBody(AlnumIdValidator.InvalidIdMsg)])
  {
  }

  /** GET: a storage error is 500; not found or a nil stream is 404; otherwise 200 with
      `application/octet-stream` and the stream copied into the body. */
  lemma GetOutcomes(store: Store, req: Request)
    requires Admitted(req) && req.verb == MethodGet
    ensures var reply := store.read(RestRoute.ReadObjectID(req.path));
      var resp := Deliver(ServeHTTP(store, req).effects);
      if reply.err.Some? then resp == Response(StatusInternalServerError, Some(JsonType), [ErrorBody("failed to read object")])
      else if !reply.found || reply.data.None? then resp == Response(StatusNotFound, Some(JsonType), [ErrorBody("object not found")])
      else resp == Response(StatusOK, Some(OctetStream), [Copied(reply.data.value)])
  {
    var id := RestRoute.ReadObjectID(req.path);
    var reply := store.read(id);
    var r := ServeHTTP(store, req);
    if reply.err.Some? {
      assert r.effects == ErrorHeaderFirst(StatusInternalServerError, "failed to read object");
    } else if !reply.found || reply.data.None? {
      assert r.effects == ErrorHeaderFirst(StatusNotFound, "object not found");
    } else {
      assert r.effects == [SetHeader(ContentTypeKey, OctetStream), WriteStatus(StatusOK), WriteBody(Copied(reply.data.value))];
      HeaderThenStatus(StatusOK, OctetStream, Copied(reply.data.value));
    }
  }

  /** PUT: a nil body is 400 without a storage call; a write error is 500; otherwise 201
      with an empty body. */
  lemma PutOutcomes(store: Store, req: Request)
    requires Admitted(req) && req.verb == MethodPut
    ensures var r := ServeHTTP(store, req);
      var resp := Deliver(r.effects);
      if req.body.None? then resp == Response(StatusBadRequest, Some(JsonType), [ErrorBody("failed to write: request body shall be provided")])
      else if store.write(RestRoute.ReadObjectID(req.path), Some(ContentSize(req.header))).Some? then
        resp == Response(StatusInternalServerError, Some(JsonType), [ErrorBody("failed to write object")])
      else resp == Response(StatusCreated, None, [])
  {
    StatusOnly(StatusCreated);
  }

  /** Any other method is 405. */
  lemma OtherMethodRejected(store: Store, req: Request)
    requires Admitted(req) && req.verb != MethodGet && req.verb != MethodPut
    ensures Deliver(ServeHTTP(store, req).effects) == Response(StatusMethodNotAllowed, Some(JsonType), [ErrorBody("method not allowed")])
  {
  }

  /** The handler panics exactly on a header that has keys but not one value. */
  lemma PanicsOnValuelessHeader(store: Store, req: Request)
    ensures ServeHTTP(store, req).panics <==> req.header != [] && forall i :: 0 <= i < |req.header| ==> req.header[i].1 == []
  {
    HeaderLog.ConcatPanicsIff(req.header);
  }
}

/** `ServeHTTP` of pkg/gateway/restfulhandler/rest.go: as in
    internal/restfulhandler/handler.go, except that GET tests only `found` and PUT
    passes no size. */
module PkgRestfulHandler {
  import opened Base
  import opened HttpModel
  import HeaderLog
  import RestRoute
  import AlnumIdValidator

  predicate Admitted(req: Request) {
    HeaderLog.ConcatSpec(req.header).Some?
    && RestRoute.KnownRoute(req.path)
    && AlnumIdValidator.ValidateInputObjectID(RestRoute.ReadObjectID(req.path)) == None
  }

  /** `ServeHTTP`. A found object with a nil stream reaches `io.Copy`, which panics. */
  function ServeHTTP(store: Store, req: Request): (r: Handled)
    ensures r.panics <==> (HeaderLog.ConcatSpec(req.header) == None
                           || (Admitted(req) && req.verb == MethodGet && var reply := store.read(RestRoute.ReadObjectID(req.path));
                               reply.err.None? && reply.found && reply.data.None?))
    ensures r.call != NoCall ==> Admitted(req) && r.call.id == RestRoute.ReadObjectID(req.path)
    ensures r.call.ReadCall? <==> Admitted(req) && req.verb == MethodGet
    ensures r.call.WriteCall? <==> Admitted(req) && req.verb == MethodPut && req.body.Some?
    ensures r.call.WriteCall? ==> r.call.size == None
  {
    if HeaderLog.ConcatSpec(req.header) == None then Handled([], NoCall, true)
    else if !RestRoute.KnownRoute(req.path) then
      Handled(ErrorHeaderFirst(StatusBadRequest, "route cannot be handled"), NoCall, false)
    else
      var id := RestRoute.ReadObjectID(req.path);
      var invalid := AlnumIdValidator.ValidateInputObjectID(id);
      if invalid.Some? then
        Handled(ErrorHeaderFirst(StatusUnprocessableEntity, invalid.value.msg), NoCall, false)
      else if req.verb == MethodGet then
        var reply := store.read(id);
        if reply.err.Some? then
          Handled(ErrorHeaderFirst(StatusInternalServerError, "failed to read object"), ReadCall(id), false)
        else if !reply.found then
          Handled(ErrorHeaderFirst(StatusNotFound, "object not found"), ReadCall(id), false)
        else if reply.data.None? then
          Handled([SetHeader(ContentTypeKey, OctetStream), WriteStatus(StatusOK)], ReadCall(id), true)
        else
          Handled([SetHeader(ContentTypeKey, OctetStream), WriteStatus(StatusOK), WriteBody(Copied(reply.data.value))],
                  ReadCall(id), false)
      else if req.verb == MethodPut then
        if req.body.None? then
          Handled(ErrorHeaderFirst(StatusBadRequest, "failed to write: request body shall be provided"), NoCall, false)
        else if store.write(id, None).Some? then
          Handled(ErrorHeaderFirst(StatusInternalServerError, "failed to write object"), WriteCall(id, None), false)
        else
          Handled([WriteStatus(StatusCreated)], WriteCall(id, None), false)
      else
        Handled(ErrorHeaderFirst(StatusMethodNotAllowed, "method not allowed"), NoCall, false)
  }

  lemma RejectsBeforeStorage(store: Store, req: Request)
    requires HeaderLog.ConcatSpec(req.header).Some?
    ensures var r := ServeHTTP(store, req);
      !RestRoute.KnownRoute(req.path) ==>
        Deliver(r.effects) == Response(StatusBadRequest, Some(JsonType), [ErrorBody("route cannot be handled")])
    ensures var r := ServeHTTP(store, req);
      RestRoute.KnownRoute(req.path) && !Admitted(req) ==>
        Deliver(r.effects) == Response(StatusUnprocessableEntity, Some(JsonType), [ErrorBody(AlnumIdValidator.InvalidIdMsg)])
  {
  }

  /** GET: an error is 500 and `!found` is 404; a found object is 200
      `application/octet-stream` with its stream as the body, and a found object
      with a nil stream panics in `io.Copy`, so no response is delivered. */
  lemma GetOutcomes(store: Store, req: Request)
    requires Admitted(req) && req.verb == MethodGet
    ensures var reply := store.read(RestRoute.ReadObjectID(req.path));
      var r := ServeHTTP(store, req); var resp := Deliver(r.effects);
      if reply.err.Some? then !r.panics && resp == Response(StatusInternalServerError, Some(JsonType), [ErrorBody("failed to read object")])
      else if !reply.found then !r.panics && resp == Response(StatusNotFound, Some(JsonType), [ErrorBody("object not found")])
      else if reply.data.None? then r.panics
      else !r.panics && resp == Response(StatusOK, Some(OctetStream), [Copied(reply.data.value)])
  {
    var id := RestRoute.ReadObjectID(req.path);
    var reply := store.read(id);
    var r := ServeHTTP(store, req);
    if reply.err.Some? {
      assert r.effects == ErrorHeaderFirst(StatusInternalServerError, "failed to read object");
    } else if !reply.found {
      assert r.effects == ErrorHeaderFirst(StatusNotFound, "object not found");
    } else if reply.data.Some? {
      assert r.effects == [SetHeader(ContentTypeKey, OctetStream), WriteStatus(StatusOK), WriteBody(Copied(reply.data.value))];
      HeaderThenStatus(StatusOK, OctetStream, Copied(reply.data.value));
    }
  }

  lemma PutOutcomes(store: Store, req: Request)
    requires Admitted(req) && req.verb == MethodPut
    ensures var r := ServeHTTP(store, req);
      var resp := Deliver(r.effects);
      if req.body.None? then resp == Response(StatusBadRequest, Some(JsonType), [ErrorBody("failed to write: request body shall be provided")])
      else if store.write(RestRoute.ReadObjectID(req.path), None).Some? then
        resp == Response(StatusInternalServerError, Some(JsonType), [ErrorBody("failed to write object")])
      else resp == Response(StatusCreated, None, [])
  {
    StatusOnly(StatusCreated);
  }

  lemma OtherMethodRejected(store: Store, req: Request)
    requires Admitted(req) && req.verb != MethodGet && req.verb != MethodPut
    ensures Deliver(ServeHTTP(store, req).effects) == Response(StatusMethodNotAllowed, Some(JsonType), [ErrorBody("method not allowed")])
  {
  }
}

/** `ServeHTTP` of internal/restfulhandler/rest.go, the oldest restful handler: no
    debug line, GET tests only `found`, and `writeErrorMessage` writes the status
    before it sets the Content-Type. */
module InternalRestfulRest {
  import opened Base
  import opened HttpModel
  import RestRoute
  import AlnumIdValidator

  predicate Admitted(req: Request) {
    RestRoute.KnownRoute(req.path)
    && AlnumIdValidator.ValidateInputObjectID(RestRoute.ReadObjectID(req.path)) == None
  }

  /** `ServeHTTP`. A found object with a nil stream reaches `io.Copy`, which panics. */
  function ServeHTTP(store: Store, req: Request): (r: Handled)
    ensures r.panics <==> Admitted(req) && req.verb == MethodGet
                          && var reply := store.read(RestRoute.ReadObjectID(req.path));
                             reply.err.None? && reply.found && reply.data.None?
    ensures r.call != NoCall ==> Admitted(req) && r.call.id == RestRoute.ReadObjectID(req.path)
    ensures r.call.ReadCall? <==> Admitted(req) && req.verb == MethodGet
    ensures r.call.WriteCall? <==> Admitted(req) && req.verb == MethodPut && req.body.Some?
    ensures r.call.WriteCall? ==> r.call.size == None
  {
    if !RestRoute.KnownRoute(req.path) then
      Handled(ErrorStatusFirst(StatusBadRequest, "route cannot be handled"), NoCall, false)
    else
      var id := RestRoute.ReadObjectID(req.path);
      var invalid := AlnumIdValidator.ValidateInputObjectID(id);
      if invalid.Some? then
        Handled(ErrorStatusFirst(StatusUnprocessableEntity, invalid.value.msg), NoCall, false)
      else if req.verb == MethodGet then
        var reply := store.read(id);
        if reply.err.Some? then
          Handled(ErrorStatusFirst(StatusInternalServerError, "failed to read object"), ReadCall(id), false)
        else if !reply.found then
          Handled(ErrorStatusFirst(StatusNotFound, "object not found"), ReadCall(id), false)
        else if reply.data.None? then
          Handled([SetHeader(ContentTypeKey, OctetStream), WriteStatus(StatusOK)], ReadCall(id), true)
        else
          Handled([SetHeader(ContentTypeKey, OctetStream), WriteStatus(StatusOK), WriteBody(Copied(reply.data.value))],
                  ReadCall(id), false)
      else if req.verb == MethodPut then
        if req.body.None? then
          Handled(ErrorStatusFirst(StatusBadRequest, "failed to write: request body shall be provided"), NoCall, false)
        else if store.write(id, None).Some? then
          Handled(ErrorStatusFirst(StatusInternalServerError, "failed to write object"), WriteCall(id, None), false)
        else
          Handled([WriteStatus(StatusCreated)], WriteCall(id, None), false)
      else
        Handled(ErrorStatusFirst(StatusMethodNotAllowed, "method not allowed"), NoCall, false)
  }

  /** Unknown route 400, then invalid ID 422; the errors reach the client without
      their JSON Content-Type. */
  lemma RejectsBeforeStorage(store: Store, req: Request)
    ensures var r := ServeHTTP(store, req);
      !RestRoute.KnownRoute(req.path) ==>
        Deliver(r.effects) == Response(StatusBadRequest, None, [ErrorBody("route cannot be handled")])
    ensures var r := ServeHTTP(store, req);
      RestRoute.KnownRoute(req.path) && !Admitted(req) ==>
        Deliver(r.effects) == Response(StatusUnprocessableEntity, None, [ErrorBody(AlnumIdValidator.InvalidIdMsg)])
  {
  }

  /** GET: an error is 500 and `!found` is 404, both without the JSON Content-Type; a
      found object is 200 `application/octet-stream` with its stream as the body,
      and a found object with a nil stream panics in `io.Copy`. */
  lemma GetOutcomes(store: Store, req: Request)
    requires Admitted(req) && req.verb == MethodGet
    ensures var reply := store.read(RestRoute.ReadObjectID(req.path));
      var r := ServeHTTP(store, req); var resp := Deliver(r.effects);
      if reply.err.Some? then !r.panics && resp == Response(StatusInternalServerError, None, [ErrorBody("failed to read object")])
      else if !reply.found then !r.panics && resp == Response(StatusNotFound, None, [ErrorBody("object not found")])
      else if reply.data.None? then r.panics
      else !r.panics && resp == Response(StatusOK, Some(OctetStream), [Copied(reply.data.value)])
  {
    var id := RestRoute.ReadObjectID(req.path);
    var reply := store.read(id);
    var r := ServeHTTP(store, req);
    if reply.err.Some? {
      assert r.effects == ErrorStatusFirst(StatusInternalServerError, "failed to read object");
    } else if !reply.found {
      assert r.effects == ErrorStatusFirst(StatusNotFound, "object not found");
    } else if reply.data.Some? {
      assert r.effects == [SetHeader(ContentTypeKey, OctetStream), WriteStatus(StatusOK), WriteBody(Copied(reply.data.value))];
      HeaderThenStatus(StatusOK, OctetStream, Copied(reply.data.value));
    }
  }

  lemma PutOutcomes(store: Store, req: Request)
    requires Admitted(req) && req.verb == MethodPut
    ensures var r := ServeHTTP(store, req);
      var resp := Deliver(r.effects);
      if req.body.None? then resp == Response(StatusBadRequest, None, [ErrorBody("failed to write: request body shall be provided")])
      else if store.write(RestRoute.ReadObjectID(req.path), None).Some? then
        resp == Response(StatusInternalServerError, None, [ErrorBody("failed to write object")])
      else resp == Response(StatusCreated, None, [])
  {
    StatusOnly(StatusCreated);
  }

  lemma OtherMethodRejected(store: Store, req: Request)
    requires Admitted(req) && req.verb != MethodGet && req.verb != MethodPut
    ensures Deliver(ServeHTTP(store, req).effects) == Response(StatusMethodNotAllowed, None, [ErrorBody("method not allowed")])
  {
  }
}
