/**
 * The request handler (`cityRequestHandler`): parse the address, ask the reader for
 * its offset and answer from the cache. It only reads the cache.
 */
module CityLookup {
  import opened Wrappers
  import opened MaxMindReader
  import opened CacheBuilder

  const StatusOK := 200
  const StatusBadRequest := 400
  const StatusNotFound := 404

  /** The errors the handler returns to the router (which answers them with a 500). */
  datatype RequestError =
    | LookupFailed(cause: DbError)      // `LookupOffset` failed; returned as it is
    | OffsetWithoutRecord(offset: Offset) // the reader gave an offset the cache does not hold

  /**
   * What one request produces: either the handler returns nil after setting the status
   * and body (the body is the record, before JSON encoding), or it returns an error.
   */
  datatype Reply<R> = Respond(status: int, body: Option<R>) | Fail(error: RequestError)

  /**
   * `cityRequestHandler` for the address text `ipParam`; `parseIP` is `net.ParseIP`.
   * The five outcomes are told apart by the postcondition.
   */
  function CityRequest<R>(cdb: CachedDb<R>, ipParam: string, parseIP: string -> Option<IP>): (r: Reply<R>)
    // unparsable text: 400 with an empty body
    ensures (r.Respond? && r.status == StatusBadRequest) <==> parseIP(ipParam).None?
    ensures r.Respond? && r.status == StatusBadRequest ==> r.body.None?
    // a reader error is returned unchanged
    ensures r.Fail? && r.error.LookupFailed? <==>
      parseIP(ipParam).Some? && cdb.reader.lookupOffset(parseIP(ipParam).value).Failure?
    ensures r.Fail? && r.error.LookupFailed? ==>
      cdb.reader.lookupOffset(parseIP(ipParam).value) == Failure(r.error.cause)
    // the not-found sentinel: 404 with an empty body, whatever the cache holds
    ensures (r.Respond? && r.status == StatusNotFound) <==>
      parseIP(ipParam).Some? && cdb.reader.lookupOffset(parseIP(ipParam).value) == Success(NotFound)
    ensures r.Respond? && r.status == StatusNotFound ==> r.body.None?
    // a cached offset: 200 with exactly the cached record
    ensures (r.Respond? && r.status == StatusOK) <==>
      parseIP(ipParam).Some? && cdb.reader.lookupOffset(parseIP(ipParam).value).Success? &&
      var o := cdb.reader.lookupOffset(parseIP(ipParam).value).value;
      o != NotFound && o in cdb.cache
    ensures r.Respond? && r.status == StatusOK ==>
      r.body == Some(cdb.cache[cdb.reader.lookupOffset(parseIP(ipParam).value).value])
    // an offset missing from the cache: an error naming that offset, never a 404
    ensures r.Fail? && r.error.OffsetWithoutRecord? <==>
      parseIP(ipParam).Some? && cdb.reader.lookupOffset(parseIP(ipParam).value).Success? &&
      var o := cdb.reader.lookupOffset(parseIP(ipParam).value).value;
      o != NotFound && o !in cdb.cache
    ensures r.Fail? && r.error.OffsetWithoutRecord? ==>
      r.error.offset == cdb.reader.lookupOffset(parseIP(ipParam).value).value
  {
    match parseIP(ipParam)
    case None => Respond(StatusBadRequest, None)
    case Some(ip) =>
      match cdb.reader.lookupOffset(ip)
      case Failure(e) => Fail(LookupFailed(e))
      case Success(offset) =>
        if offset == NotFound then Respond(StatusNotFound, None)
        else if offset in cdb.cache then Respond(StatusOK, Some(cdb.cache[offset]))
        else Fail(OffsetWithoutRecord(offset))
  }

  /**
   * Against a cache built from the same reader, an address whose offset the enumeration
   * yielded gets 200 and exactly the record `decode` gives for that offset.
   */
  lemma ServesDecodedRecord<R>(opening: Result<Reader<R>, DbError>, cdb: CachedDb<R>,
                               ipParam: string, parseIP: string -> Option<IP>, o: Offset)
    requires Build(opening) == Success(cdb)
    requires parseIP(ipParam).Some? && cdb.reader.lookupOffset(parseIP(ipParam).value) == Success(o)
    requires o != NotFound && Success(o) in cdb.reader.networks
    ensures cdb.reader.decode(o).Success?
    ensures CityRequest(cdb, ipParam, parseIP) == Respond(StatusOK, Some(cdb.reader.decode(o).value))
  {
    BuildCacheContents(opening, cdb);
    var k :| 0 <= k < |cdb.reader.networks| && cdb.reader.networks[k] == Success(o);
    assert o in Enumerated(cdb.reader.networks);
  }

  /**
   * Against a built cache, the consistency error arises exactly for an offset the
   * enumeration never yielded, and names that offset.
   */
  lemma ConsistencyFailureIff<R>(opening: Result<Reader<R>, DbError>, cdb: CachedDb<R>,
                                 ipParam: string, parseIP: string -> Option<IP>, o: Offset)
    requires Build(opening) == Success(cdb)
    requires parseIP(ipParam).Some? && cdb.reader.lookupOffset(parseIP(ipParam).value) == Success(o)
    requires o != NotFound
    ensures CityRequest(cdb, ipParam, parseIP).Fail? <==> Success(o) !in cdb.reader.networks
    ensures Success(o) !in cdb.reader.networks ==>
      CityRequest(cdb, ipParam, parseIP) == Fail(OffsetWithoutRecord(o))
  {
    BuildCacheContents(opening, cdb);
    if Success(o) in cdb.reader.networks {
      var k :| 0 <= k < |cdb.reader.networks| && cdb.reader.networks[k] == Success(o);
      assert o in Enumerated(cdb.reader.networks);
    } else {
      assert o !in Enumerated(cdb.reader.networks);
    }
  }
}
