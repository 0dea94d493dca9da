/**
 * Sequences of requests against one service, proved from the handlers'
 * contracts alone: what a client of the API can rely on.
 */
module Scenarios {
  import opened Wrappers
  import opened Paths
  import opened PyInt
  import opened Students
  import opened Reconciliation
  import opened Service

  /** A complete create request whose upload does not raise. */
  predicate CreateSucceeds(name: Option<string>, age: Option<string>, image: Option<FileField>, put: PutReply)
  {
    && Truthy(name) && Truthy(age) && HasFile(image)
    && ParseInt(age.value).Some? && FitsBson(ParseInt(age.value).value)
    && !UploadToGitHub(put).Raised?
  }

  /**
   * Fetching a document right after creating it serves its image at
   * `<host>/cache/<id><ext>`, ext being the extension of the sanitized upload name.
   */
  method CreateThenGet(records: map<string, Student>, cache: map<string, Bytes>, secure: string -> string,
                       name: Option<string>, age: Option<string>, image: Option<FileField>,
                       newId: string, put: PutReply, host: string) returns (created: Response, got: Response)
    requires StoredIds(records) && IsStoredId(newId) && newId !in records
    requires CreateSucceeds(name, age, image, put)
    ensures created.status == 201 && got.status == 200 && got.body.Entry? && got.body.id == newId
    ensures got.body.student.imageUrl ==
      Some(StripTrailingSlashes(host) + CacheRoute + newId + Ext(secure(image.value.filename)))
    ensures got.body.student.name == name.value && got.body.student.age == ParseInt(age.value).value
  {
    var service := new StudentService(records, cache, secure);
    created := service.Create(name, age, image, newId, put, host);
    CanonicalOfStoredId(newId);
    got := service.Get(newId, host);
    var filename := CacheFilename(newId, Ext(secure(image.value.filename)));
    ServedImageUrl(host, service.records[newId], filename);
    var h := StripTrailingSlashes(host);
    assert h + CacheRoute + filename == h + CacheRoute + newId + Ext(secure(image.value.filename));
  }

  /**
   * Deleting a document right after creating it removes the cached file the
   * create wrote, and a later fetch answers 404.
   */
  method CreateThenDelete(records: map<string, Student>, cache: map<string, Bytes>, secure: string -> string,
                          name: Option<string>, age: Option<string>, image: Option<FileField>,
                          newId: string, put: PutReply, host: string)
    returns (removed: Response, got: Response, fileKept: bool, cacheAfter: map<string, Bytes>)
    requires StoredIds(records) && IsStoredId(newId) && newId !in records
    requires CreateSucceeds(name, age, image, put)
    ensures removed == Response(200, Message(RemovedMessage)) && got == NotFound
    ensures !fileKept
    ensures cacheAfter == cache - {CacheFilename(newId, Ext(secure(image.value.filename)))}
  {
    var service := new StudentService(records, cache, secure);
    var created := service.Create(name, age, image, newId, put, host);
    var filename := CacheFilename(newId, Ext(secure(image.value.filename)));
    CanonicalOfStoredId(newId);
    StripCacheOfCacheFilename(newId, secure(image.value.filename));
    CachedFileOfLocalUrl(service.records[newId], filename);
    removed := service.Delete(newId);
    got := service.Get(newId, host);
    fileKept := filename in service.cache;
    cacheAfter := service.cache;
  }

  /** An update that gives only an age changes the age and nothing else: not the name, not the image, not the cache. */
  method AgeOnlyUpdate(records: map<string, Student>, cache: map<string, Bytes>, secure: string -> string,
                       id: string, age: string, put: PutReply, host: string)
    returns (resp: Response, recordsAfter: map<string, Student>, cacheAfter: map<string, Bytes>)
    requires StoredIds(records) && IsStoredId(id) && id in records
    requires ParseInt(age).Some? && FitsBson(ParseInt(age).value)
    ensures resp.status == 200 && cacheAfter == cache
    ensures recordsAfter == records[id := records[id].(age := ParseInt(age).value)]
  {
    var service := new StudentService(records, cache, secure);
    CanonicalOfStoredId(id);
    assert Truthy(Some(age)) by { ParsedIsNotEmpty(age); }
    resp := service.Update(id, None, Some(age), None, put, host);
    recordsAfter := service.records;
    cacheAfter := service.cache;
  }

  /**
   * Startup reconciliation run twice with nothing in between, each start-up's
   * cursor listing the documents in an order of its own: the second run
   * requests no image that the first run cached.
   */
  method ReconcileTwice(records: map<string, Student>, cache: map<string, Bytes>, secure: string -> string,
                        order1: seq<string>, order2: seq<string>, first: string -> Fetch, second: string -> Fetch)
    returns (fetched1: seq<string>, fetched2: seq<string>)
    requires StoredIds(records) && Cursor(records, order1) && Cursor(records, order2)
    requires forall id :: id in records && records[id].imageUrl.Some? ==> id in order1 && id in order2
    requires forall i :: 0 <= i < |order1| ==> records[order1[i]].imageUrl.Some?
    requires forall i :: 0 <= i < |order2| ==> records[order2[i]].imageUrl.Some?
    ensures forall id :: id in fetched2 <==> id in fetched1 && !Succeeded(first(id))
  {
    var service := new StudentService(records, cache, secure);
    fetched1 := service.Reconcile(order1, first);
    fetched2 := service.Reconcile(order2, second);
    SecondRunRefetchesOnlyFailures(records, cache, first, second, order1, order2);
  }
}
