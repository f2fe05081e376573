/** Values shared by every generation of the gateway: Go's nil-able results,
    the errors the gateway inspects, and the opaque streams it passes along. */
module Base {

  datatype Option<+T> = None | Some(value: T)

  /** A Go `error` as far as the gateway looks at it: its text, and whether it is a
      minio `ErrorResponse` with HTTP status 404 (the only thing `isNotFoundError` tests). */
  datatype Error = Error(msg: string, notFound: bool)

  /** An opaque stream (an `io.ReadCloser` or `io.Reader`); the gateway never looks inside. */
  datatype Reader = Reader(handle: nat)

  /** The three results of `Read(ctx, id) (io.ReadCloser, bool, error)`. */
  datatype ReadReply = ReadReply(data: Option<Reader>, found: bool, err: Option<Error>)

  /** The two results of `GetObject`/`Read(ctx, id) (io.ReadCloser, error)`. */
  datatype DataReply = DataReply(data: Option<Reader>, err: Option<Error>)

  /** An error created by the gateway itself (`errors.New`, `fmt.Errorf` with `%w`):
      it is never a minio 404 response. */
  function Plain(msg: string): Error {
    Error(msg, false)
  }

  /** `isNotFoundError(err)`; a nil error is not a not-found error. */
  predicate IsNotFound(err: Option<Error>) {
    err.Some? && err.value.notFound
  }

  /** The keys of a Go map listed in iteration order are pairwise different. */
  predicate Distinct<T(==)>(s: seq<T>) {
    forall i, j :: 0 <= i < j < |s| ==> s[i] != s[j]
  }

  /** Only the entry of `id` may differ between two location caches. */
  predicate OnlyIdChanged(before: map<string, string>, after: map<string, string>, id: string) {
    after.Keys - {id} == before.Keys - {id}
    && (forall key :: key in before && key != id ==> key in after && after[key] == before[key])
  }
}
