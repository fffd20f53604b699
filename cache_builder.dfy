/**
 * The start-up cache (`createCachedDb`): walk every network of the database once,
 * decode each distinct data offset the first time it is seen, and keep the record
 * under that offset. Any error aborts the build and no cache is returned.
 */
module CacheBuilder {
  import opened Wrappers
  import opened MaxMindReader

  /** The service state (`cachedDb`): the reader and the offset-keyed record cache. Never changed once built. */
  datatype CachedDb<R> = CachedDb(reader: Reader<R>, cache: map<Offset, R>)

  /** Progress of the build loop: the cache so far, every offset handed to `decode` so far, and the error that stopped it. */
  datatype BuildState<R> = BuildState(cache: map<Offset, R>, decoded: seq<Offset>, failure: Option<DbError>)

  /** One turn of the loop on one `NetworkOffset` answer; once failed, nothing more happens. */
  function Step<R>(st: BuildState<R>, item: Result<Offset, DbError>, decode: Offset -> Result<R, DbError>): BuildState<R>
  {
    if st.failure.Some? then st
    else match item
      case Failure(e) => st.(failure := Some(e))
      case Success(o) =>
        if o in st.cache then st
        else match decode(o)
          case Failure(e) => st.(decoded := st.decoded + [o], failure := Some(e))
          case Success(rec) => st.(cache := st.cache[o := rec], decoded := st.decoded + [o])
  }

  /** The loop run over a prefix of the enumeration. */
  function Walk<R>(items: seq<Result<Offset, DbError>>, decode: Offset -> Result<R, DbError>): BuildState<R>
    decreases |items|
  {
    if items == [] then BuildState(map[], [], None)
    else Step(Walk(items[..|items| - 1], decode), items[|items| - 1], decode)
  }

  /** What `createCachedDb` returns, given what `Open` returned. */
  function Build<R>(opening: Result<Reader<R>, DbError>): Result<CachedDb<R>, DbError>
  {
    match opening
    case Failure(e) => Failure(e)
    case Success(db) =>
      var st := Walk(db.networks, db.decode);
      if st.failure.Some? then Failure(st.failure.value)
      else if db.networksErr.Some? then Failure(db.networksErr.value)
      else Success(CachedDb(db, st.cache))
  }

  /** The offsets the enumeration yields. */
  ghost function Enumerated(items: seq<Result<Offset, DbError>>): set<Offset>
  {
    set k | 0 <= k < |items| && items[k].Success? :: items[k].value
  }

  ghost predicate NoDuplicates(s: seq<Offset>)
  {
    forall i, j :: 0 <= i < j < |s| ==> s[i] != s[j]
  }

  /** Position of the first `Success(o)` in `items`, or `|items|` if there is none. */
  function FirstIndex(items: seq<Result<Offset, DbError>>, o: Offset): (k: nat)
    ensures k <= |items|
    ensures k < |items| <==> Success(o) in items
    ensures k < |items| ==> items[k] == Success(o)
    ensures forall j :: 0 <= j < k ==> items[j] != Success(o)
    decreases |items|
  {
    if items == [] then 0
    else
      var init := items[..|items| - 1];
      if Success(o) in init then FirstIndex(init, o)
      else if items[|items| - 1] == Success(o) then |items| - 1
      else |items|
  }

  /**
   * `createCachedDb`. On success the cache is filled in place by the loop; the ghost
   * `decoded` is the sequence of offsets passed to `decode`, in call order.
   */
  method CreateCachedDb<R>(opening: Result<Reader<R>, DbError>)
    returns (r: Result<CachedDb<R>, DbError>, ghost decoded: seq<Offset>)
    ensures r == Build(opening)
    ensures decoded == if opening.Success? then Walk(opening.value.networks, opening.value.decode).decoded else []
  {
    decoded := [];
    if opening.Failure? {
      return Failure(opening.error), decoded;
    }
    var db := opening.value;
    var cache: map<Offset, R> := map[];
    var i := 0;
    while i < |db.networks|
      invariant 0 <= i <= |db.networks|
      invariant Walk(db.networks[..i], db.decode) == BuildState(cache, decoded, None)
    {
      assert db.networks[..i + 1][..i] == db.networks[..i];
      var item := db.networks[i];
      if item.Failure? {
        WalkStopsAtFailure(db.networks, i + 1, db.decode);
        return Failure(item.error), decoded;
      }
      var offset := item.value;
      if offset in cache {
        i := i + 1;
        continue;
      }
      decoded := decoded + [offset];
      var rec := db.decode(offset);
      if rec.Failure? {
        WalkStopsAtFailure(db.networks, i + 1, db.decode);
        return Failure(rec.error), decoded;
      }
      cache := cache[offset := rec.value];
      i := i + 1;
    }
    assert db.networks[..i] == db.networks;
    if db.networksErr.Some? {
      return Failure(db.networksErr.value), decoded;
    }
    r := Success(CachedDb(db, cache));
  }

  /** Once a prefix has failed, the rest of the enumeration changes nothing. */
  lemma {:induction false} WalkStopsAtFailure<R>(items: seq<Result<Offset, DbError>>, i: nat, decode: Offset -> Result<R, DbError>)
    requires i <= |items|
    requires Walk(items[..i], decode).failure.Some?
    ensures Walk(items, decode) == Walk(items[..i], decode)
    decreases |items|
  {
    if i < |items| {
      var init := items[..|items| - 1];
      assert init[..i] == items[..i];
      WalkStopsAtFailure(init, i, decode);
    } else {
      assert items[..i] == items;
    }
  }

  /** Until a failure, every item was an offset and the cache keys are exactly the offsets seen. */
  lemma {:induction false} WalkKeys<R>(items: seq<Result<Offset, DbError>>, decode: Offset -> Result<R, DbError>)
    ensures var st := Walk(items, decode);
      st.failure.None? ==>
        (forall k :: 0 <= k < |items| ==> items[k].Success?) &&
        (forall o :: o in st.cache <==> Success(o) in items)
    decreases |items|
  {
    if items != [] {
      var init := items[..|items| - 1];
      WalkKeys(init, decode);
      assert items == init + [items[|items| - 1]];
    }
  }

  /** Every cached record is what `decode` gives for its offset. */
  lemma {:induction false} WalkValues<R>(items: seq<Result<Offset, DbError>>, decode: Offset -> Result<R, DbError>)
    ensures var st := Walk(items, decode);
      forall o :: o in st.cache ==> decode(o) == Success(st.cache[o])
    decreases |items|
  {
    if items != [] {
      WalkValues(items[..|items| - 1], decode);
    }
  }

  /** No offset is decoded twice, only enumerated offsets are decoded, and before a failure the decoded offsets are the cache keys. */
  lemma {:induction false} WalkDecodes<R>(items: seq<Result<Offset, DbError>>, decode: Offset -> Result<R, DbError>)
    ensures var st := Walk(items, decode);
      NoDuplicates(st.decoded) &&
      (forall x :: x in st.decoded ==> Success(x) in items) &&
      (st.failure.None? ==> forall x :: x in st.decoded <==> x in st.cache)
    decreases |items|
  {
    if items != [] {
      var init := items[..|items| - 1];
      WalkDecodes(init, decode);
      assert items == init + [items[|items| - 1]];
    }
  }

  /** A failure is always an error the reader reported: from `NetworkOffset` or from `decode` of an enumerated offset. */
  lemma {:induction false} WalkFailureCause<R>(items: seq<Result<Offset, DbError>>, decode: Offset -> Result<R, DbError>)
    ensures var st := Walk(items, decode);
      st.failure.Some? ==>
        exists k :: 0 <= k < |items| &&
          (items[k] == Failure(st.failure.value) ||
           (items[k].Success? && decode(items[k].value) == Failure(st.failure.value)))
    decreases |items|
  {
    if items != [] {
      var init := items[..|items| - 1];
      WalkFailureCause(init, decode);
      var st0 := Walk(init, decode);
      if st0.failure.Some? {
        var k :| 0 <= k < |init| &&
          (init[k] == Failure(st0.failure.value) ||
           (init[k].Success? && decode(init[k].value) == Failure(st0.failure.value)));
        assert items[k] == init[k];
      }
    }
  }

  /** Offsets are decoded in the order of their first occurrence in the enumeration. */
  lemma {:induction false} WalkOrder<R>(items: seq<Result<Offset, DbError>>, decode: Offset -> Result<R, DbError>)
    ensures var st := Walk(items, decode);
      forall j, k :: 0 <= j < k < |st.decoded| ==> FirstIndex(items, st.decoded[j]) < FirstIndex(items, st.decoded[k])
    decreases |items|
  {
    if items != [] {
      var n := |items|;
      var init := items[..n - 1];
      WalkOrder(init, decode);
      WalkDecodes(init, decode);
      WalkKeys(init, decode);
      var st0 := Walk(init, decode);
      var st := Walk(items, decode);
      forall x | x in st0.decoded
        ensures FirstIndex(items, x) == FirstIndex(init, x) < n - 1
      {
      }
      if st.decoded != st0.decoded {
        var o := items[n - 1].value;
        assert st.decoded == st0.decoded + [o];
        assert Success(o) !in init;
        assert FirstIndex(items, o) == n - 1;
      }
    }
  }

  /** The cache only grows, and an entry, once stored, keeps its record; the decode trace only grows. */
  lemma {:induction false} WalkNeverOverwrites<R>(items: seq<Result<Offset, DbError>>, i: nat, decode: Offset -> Result<R, DbError>)
    requires i <= |items|
    ensures var before, after := Walk(items[..i], decode), Walk(items, decode);
      (forall o :: o in before.cache ==> o in after.cache && after.cache[o] == before.cache[o]) &&
      before.decoded <= after.decoded
    decreases |items|
  {
    if i < |items| {
      var init := items[..|items| - 1];
      assert init[..i] == items[..i];
      WalkNeverOverwrites(init, i, decode);
    } else {
      assert items[..i] == items;
    }
  }

  lemma {:induction false} DistinctMultiplicity(s: seq<Offset>, x: Offset)
    requires NoDuplicates(s)
    ensures multiset(s)[x] == if x in s then 1 else 0
    decreases |s|
  {
    if s != [] {
      var init := s[..|s| - 1];
      assert s == init + [s[|s| - 1]];
      DistinctMultiplicity(init, x);
    }
  }

  lemma {:induction false} DistinctCardinality(s: seq<Offset>)
    requires NoDuplicates(s)
    ensures |set x | x in s| == |s|
    decreases |s|
  {
    if s != [] {
      var init := s[..|s| - 1];
      assert s == init + [s[|s| - 1]];
      DistinctCardinality(init);
      assert (set x | x in s) == (set x | x in init) + {s[|s| - 1]};
    }
  }

  /**
   * The build succeeds exactly when the database opened, the iterator reported no error,
   * every enumeration step gave an offset and every enumerated offset decoded.
   */
  lemma BuildSucceedsIff<R>(opening: Result<Reader<R>, DbError>)
    ensures Build(opening).Success? <==>
      opening.Success? && opening.value.networksErr.None? &&
      forall k :: 0 <= k < |opening.value.networks| ==>
        opening.value.networks[k].Success? &&
        opening.value.decode(opening.value.networks[k].value).Success?
  {
    if opening.Success? {
      var db := opening.value;
      WalkKeys(db.networks, db.decode);
      WalkValues(db.networks, db.decode);
      WalkFailureCause(db.networks, db.decode);
      var st := Walk(db.networks, db.decode);
      if st.failure.None? {
        forall k | 0 <= k < |db.networks|
          ensures db.networks[k].Success? && db.decode(db.networks[k].value).Success?
        {
          assert Success(db.networks[k].value) in db.networks;
        }
      }
    }
  }

  /** A failed build reports, unchanged, an error that the reader itself reported. */
  lemma BuildFailureIsReaderError<R>(opening: Result<Reader<R>, DbError>, e: DbError)
    requires Build(opening) == Failure(e)
    ensures opening == Failure(e) ||
      (opening.Success? &&
        (opening.value.networksErr == Some(e) ||
         exists k :: 0 <= k < |opening.value.networks| &&
           (opening.value.networks[k] == Failure(e) ||
            (opening.value.networks[k].Success? &&
             opening.value.decode(opening.value.networks[k].value) == Failure(e)))))
  {
    if opening.Success? {
      WalkFailureCause(opening.value.networks, opening.value.decode);
    }
  }

  /**
   * A built cache keeps the reader it was built from and has one entry per distinct
   * enumerated offset, no more and no fewer; each entry is the record `decode` gives.
   */
  lemma BuildCacheContents<R>(opening: Result<Reader<R>, DbError>, cdb: CachedDb<R>)
    requires Build(opening) == Success(cdb)
    ensures opening.Success? && cdb.reader == opening.value
    ensures cdb.cache.Keys == Enumerated(cdb.reader.networks)
    ensures |cdb.cache| == |Enumerated(cdb.reader.networks)|
    ensures forall o :: o in cdb.cache ==> cdb.reader.decode(o) == Success(cdb.cache[o])
  {
    var db := opening.value;
    WalkKeys(db.networks, db.decode);
    WalkValues(db.networks, db.decode);
    forall o | o in Enumerated(db.networks) ensures o in cdb.cache {
      var k :| 0 <= k < |db.networks| && db.networks[k].Success? && db.networks[k].value == o;
      assert db.networks[k] == Success(o);
    }
  }

  /**
   * Every decode call of a successful build is for a distinct offset: each enumerated offset
   * is decoded exactly once, however often it recurs, and nothing else is decoded.
   */
  lemma BuildDecodesEachOffsetOnce<R>(opening: Result<Reader<R>, DbError>, cdb: CachedDb<R>)
    requires Build(opening) == Success(cdb)
    ensures var decoded := Walk(cdb.reader.networks, cdb.reader.decode).decoded;
      (forall o :: multiset(decoded)[o] == if o in cdb.cache then 1 else 0) &&
      |decoded| == |cdb.cache|
  {
    var db := opening.value;
    var st := Walk(db.networks, db.decode);
    WalkDecodes(db.networks, db.decode);
    forall o ensures multiset(st.decoded)[o] == if o in cdb.cache then 1 else 0 {
      DistinctMultiplicity(st.decoded, o);
    }
    DistinctCardinality(st.decoded);
    assert (set x | x in st.decoded) == cdb.cache.Keys;
  }

  /** Even a failed build never decodes an offset twice. */
  lemma WalkDecodesAtMostOnce<R>(items: seq<Result<Offset, DbError>>, decode: Offset -> Result<R, DbError>, o: Offset)
    ensures multiset(Walk(items, decode).decoded)[o] <= 1
  {
    WalkDecodes(items, decode);
    DistinctMultiplicity(Walk(items, decode).decoded, o);
  }

  /**
   * A cached record is the one decoded at the offset's first occurrence: the entry already
   * exists right after that step and later duplicates leave it as it was.
   */
  lemma BuildKeepsFirstDecode<R>(opening: Result<Reader<R>, DbError>, cdb: CachedDb<R>, o: Offset)
    requires Build(opening) == Success(cdb)
    requires o in cdb.cache
    ensures var ns := cdb.reader.networks;
      FirstIndex(ns, o) < |ns| &&
      var first := Walk(ns[..FirstIndex(ns, o) + 1], cdb.reader.decode);
      o in first.cache && first.cache[o] == cdb.cache[o] &&
      |first.decoded| > 0 && first.decoded[|first.decoded| - 1] == o
  {
    var db := opening.value;
    var ns := db.networks;
    WalkKeys(ns, db.decode);
    var i := FirstIndex(ns, o);
    if Walk(ns[..i + 1], db.decode).failure.Some? {
      WalkStopsAtFailure(ns, i + 1, db.decode);
      assert false;
    }
    FirstOccurrenceDecodes(ns, i, o, db.decode);
    WalkNeverOverwrites(ns, i + 1, db.decode);
  }

  /** The step at an offset's first occurrence, if it does not fail, decodes and stores that offset. */
  lemma FirstOccurrenceDecodes<R>(items: seq<Result<Offset, DbError>>, i: nat, o: Offset, decode: Offset -> Result<R, DbError>)
    requires i < |items| && items[i] == Success(o) && Success(o) !in items[..i]
    requires Walk(items[..i + 1], decode).failure.None?
    ensures var st := Walk(items[..i + 1], decode);
      o in st.cache && |st.decoded| > 0 && st.decoded[|st.decoded| - 1] == o
  {
    var prefix := items[..i + 1];
    var init := items[..i];
    assert prefix[..i] == init && prefix[i] == Success(o);
    WalkKeys(init, decode);
  }

  /** Two networks sharing one offset: a single decode call and a single entry. */
  lemma SharedOffsetDecodedOnce<R>(decode: Offset -> Result<R, DbError>)
    requires decode(42).Success?
    ensures Walk([Success(42), Success(42)], decode) == BuildState(map[42 := decode(42).value], [42], None)
  {
  }
}
