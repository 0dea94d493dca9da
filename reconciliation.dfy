/**
 * The startup pass cache_images_from_github, as a function of the record
 * store, the cache directory, the cursor's order and the origin's answers:
 * for every document with a truthy `image_url` whose cache file
 * `<id><ext of image_url>` does not exist yet, fetch the URL; on 200 write
 * the file and set `local_image_url`, on anything else (another status, an
 * exception) change nothing.
 */
module Reconciliation {
  import opened Wrappers
  import opened Paths
  import opened Students

  /** What the origin answers to the GET of one image URL: a status and a body, or an exception. */
  datatype Fetch = Fetched(status: int, content: Bytes) | FetchRaised

  predicate Succeeded(answer: Fetch)
  {
    answer.Fetched? && answer.status == 200
  }

  /** `student.get("image_url")` is truthy. */
  predicate HasRemoteImage(s: Student)
  {
    Truthy(s.imageUrl)
  }

  /** The cache filename the pass derives for a document: its id and the extension of its image URL. */
  function RemoteFilename(id: string, s: Student): string
    requires HasRemoteImage(s)
  {
    CacheFilename(id, Ext(s.imageUrl.value))
  }

  /** The pass requests the image of `id`: it has a remote image and no file under its cache name. */
  predicate NeedsFetch(records: map<string, Student>, cache: map<string, Bytes>, id: string)
  {
    id in records && HasRemoteImage(records[id]) && RemoteFilename(id, records[id]) !in cache
  }

  /** The pass requests the image of `id` and the origin answers 200. */
  predicate Pulled(records: map<string, Student>, cache: map<string, Bytes>, fetches: string -> Fetch, id: string)
  {
    NeedsFetch(records, cache, id) && Succeeded(fetches(id))
  }

  /** The record store, the cache directory and the ids whose images were requested, in order. */
  datatype SyncState = SyncState(records: map<string, Student>, cache: map<string, Bytes>, fetched: seq<string>)

  /** One iteration of the loop, for the document `id`, given the origin's `answer` to its request. */
  function Step(s: SyncState, id: string, answer: Fetch): SyncState
    requires id in s.records
  {
    var rec := s.records[id];
    if !HasRemoteImage(rec) then s
    else
      var filename := RemoteFilename(id, rec);
      if filename in s.cache then s
      else if Succeeded(answer) then
        SyncState(
          s.records[id := rec.(localImageUrl := Some(LocalUrl(filename)))],
          s.cache[filename := answer.content],
          s.fetched + [id])
      else
        s.(fetched := s.fetched + [id])
  }

  /**
   * The whole loop over the cursor's `order`; `fetches(id)` is the origin's
   * answer to the one request the pass may make for document `id`.
   */
  function Run(records: map<string, Student>, cache: map<string, Bytes>, fetches: string -> Fetch,
               order: seq<string>): (r: SyncState)
    requires forall i :: 0 <= i < |order| ==> order[i] in records
    ensures r.records.Keys == records.Keys
  {
    if order == [] then SyncState(records, cache, [])
    else
      var last := order[|order| - 1];
      Step(Run(records, cache, fetches, order[..|order| - 1]), last, fetches(last))
  }

  predicate Distinct(order: seq<string>)
  {
    forall i, j :: 0 <= i < j < |order| ==> order[i] != order[j]
  }

  /** The cursor lists documents of the store, each once. */
  predicate Cursor(records: map<string, Student>, order: seq<string>)
  {
    Distinct(order) && forall i :: 0 <= i < |order| ==> order[i] in records
  }

  /** Every key of the store is an ObjectId string. */
  predicate StoredIds(records: map<string, Student>)
  {
    forall id :: id in records ==> IsStoredId(id)
  }

  /** The files the pass writes. */
  ghost function Written(records: map<string, Student>, cache: map<string, Bytes>, fetches: string -> Fetch,
                         order: seq<string>): set<string>
  {
    set id | id in order && Pulled(records, cache, fetches, id) :: RemoteFilename(id, records[id])
  }

  /** The document `id` after the pass: unchanged unless its image was pulled. */
  function AfterPass(records: map<string, Student>, cache: map<string, Bytes>, fetches: string -> Fetch,
                     order: seq<string>, id: string): Student
    requires id in records
  {
    if id in order && Pulled(records, cache, fetches, id) then
      records[id].(localImageUrl := Some(LocalUrl(RemoteFilename(id, records[id]))))
    else records[id]
  }

  /** The pass keeps the ids and changes a document only by the local URL of its pulled image. */
  ghost predicate RecordsEffect(records: map<string, Student>, cache: map<string, Bytes>, fetches: string -> Fetch,
                                order: seq<string>, r: SyncState)
  {
    && r.records.Keys == records.Keys
    && forall id :: id in records ==> r.records[id] == AfterPass(records, cache, fetches, order, id)
  }

  /** The pass touches no existing file and writes each pulled image under its cache name, and nothing else. */
  ghost predicate CacheEffect(records: map<string, Student>, cache: map<string, Bytes>, fetches: string -> Fetch,
                              order: seq<string>, r: SyncState)
  {
    && (forall f :: f in cache ==> f in r.cache && r.cache[f] == cache[f])
    && (forall id :: id in order && Pulled(records, cache, fetches, id) ==>
          RemoteFilename(id, records[id]) in r.cache &&
          r.cache[RemoteFilename(id, records[id])] == fetches(id).content)
    && r.cache.Keys == cache.Keys + Written(records, cache, fetches, order)
  }

  /** The pass requests exactly the documents that need it. */
  ghost predicate FetchEffect(records: map<string, Student>, cache: map<string, Bytes>,
                              order: seq<string>, r: SyncState)
  {
    forall id :: id in r.fetched <==> id in order && NeedsFetch(records, cache, id)
  }

  /** What the pass does, document by document and file by file. */
  ghost predicate Effect(records: map<string, Student>, cache: map<string, Bytes>, fetches: string -> Fetch,
                         order: seq<string>, r: SyncState)
  {
    && RecordsEffect(records, cache, fetches, order, r)
    && CacheEffect(records, cache, fetches, order, r)
    && FetchEffect(records, cache, order, r)
  }

  /** Two documents with ObjectId keys never share a cache filename. */
  lemma RemoteFilenameInjective(id1: string, s1: Student, id2: string, s2: Student)
    requires IsStoredId(id1) && IsStoredId(id2)
    requires HasRemoteImage(s1) && HasRemoteImage(s2)
    requires RemoteFilename(id1, s1) == RemoteFilename(id2, s2)
    ensures id1 == id2
  {
    CacheFilenameInjective(id1, Ext(s1.imageUrl.value), id2, Ext(s2.imageUrl.value));
  }

  /**
   * The pass is the document-by-document effect above whatever the cursor's
   * order: with ObjectId keys no two documents compete for one cache file,
   * so no write of the pass decides whether another document is fetched.
   */
  lemma {:induction false} RunEffect(records: map<string, Student>, cache: map<string, Bytes>,
                                     fetches: string -> Fetch, order: seq<string>)
    requires StoredIds(records) && Cursor(records, order)
    ensures Effect(records, cache, fetches, order, Run(records, cache, fetches, order))
  {
    if order == [] {
      assert Written(records, cache, fetches, order) == {};
    } else {
      var pre := order[..|order| - 1];
      var x := order[|order| - 1];
      assert order == pre + [x];
      assert x !in pre by {
        forall i | 0 <= i < |pre| ensures pre[i] != x { assert pre[i] == order[i]; }
      }
      RunEffect(records, cache, fetches, pre);
      var s := Run(records, cache, fetches, pre);
      StepEffect(records, cache, fetches, pre, x, s);
    }
  }

  /** The induction step of RunEffect: appending a document the cursor has not listed yet. */
  lemma StepEffect(records: map<string, Student>, cache: map<string, Bytes>, fetches: string -> Fetch,
                   pre: seq<string>, x: string, s: SyncState)
    requires StoredIds(records) && Cursor(records, pre) && x in records && x !in pre
    requires Effect(records, cache, fetches, pre, s)
    ensures Effect(records, cache, fetches, pre + [x], Step(s, x, fetches(x)))
  {
    var r := Step(s, x, fetches(x));
    StepShape(records, cache, fetches, pre, x, s);
    StepRecords(records, cache, fetches, pre, x, s, r);
    StepCache(records, cache, fetches, pre, x, s, r);
    StepFetched(records, cache, fetches, pre, x, s, r);
  }

  /**
   * The written files of the prefix never include x's cache name, so the step
   * for x sees the cache as the pass found it.
   */
  lemma StepShape(records: map<string, Student>, cache: map<string, Bytes>, fetches: string -> Fetch,
                  pre: seq<string>, x: string, s: SyncState)
    requires StoredIds(records) && Cursor(records, pre) && x in records && x !in pre
    requires Effect(records, cache, fetches, pre, s)
    ensures s.records[x] == records[x]
    ensures var r := Step(s, x, fetches(x));
      && (Pulled(records, cache, fetches, x) ==>
            var f := RemoteFilename(x, records[x]);
            && f !in s.cache
            && r.records == s.records[x := records[x].(localImageUrl := Some(LocalUrl(f)))]
            && r.cache == s.cache[f := fetches(x).content])
      && (!Pulled(records, cache, fetches, x) ==> r.records == s.records && r.cache == s.cache)
      && r.fetched == s.fetched + (if NeedsFetch(records, cache, x) then [x] else [])
  {
    assert s.records[x] == AfterPass(records, cache, fetches, pre, x);
    var rec := records[x];
    if HasRemoteImage(rec) {
      var fx := RemoteFilename(x, rec);
      if fx in Written(records, cache, fetches, pre) {
        var y :| y in pre && Pulled(records, cache, fetches, y) && RemoteFilename(y, records[y]) == fx;
        RemoteFilenameInjective(y, records[y], x, rec);
      }
      assert fx in s.cache <==> fx in cache;
    }
  }

  lemma StepRecords(records: map<string, Student>, cache: map<string, Bytes>, fetches: string -> Fetch,
                    pre: seq<string>, x: string, s: SyncState, r: SyncState)
    requires x in records && x !in pre
    requires RecordsEffect(records, cache, fetches, pre, s)
    requires Pulled(records, cache, fetches, x) ==>
      r.records == s.records[x := records[x].(localImageUrl := Some(LocalUrl(RemoteFilename(x, records[x]))))]
    requires !Pulled(records, cache, fetches, x) ==> r.records == s.records
    ensures RecordsEffect(records, cache, fetches, pre + [x], r)
  {
  }

  lemma StepCache(records: map<string, Student>, cache: map<string, Bytes>, fetches: string -> Fetch,
                  pre: seq<string>, x: string, s: SyncState, r: SyncState)
    requires StoredIds(records) && x in records && x !in pre
    requires CacheEffect(records, cache, fetches, pre, s)
    requires Pulled(records, cache, fetches, x) ==>
      var f := RemoteFilename(x, records[x]);
      f !in s.cache && r.cache == s.cache[f := fetches(x).content]
    requires !Pulled(records, cache, fetches, x) ==> r.cache == s.cache
    ensures CacheEffect(records, cache, fetches, pre + [x], r)
  {
    var order := pre + [x];
    WrittenSnoc(records, cache, fetches, pre, x);
    forall id | id in order && Pulled(records, cache, fetches, id)
      ensures RemoteFilename(id, records[id]) in r.cache
      ensures r.cache[RemoteFilename(id, records[id])] == fetches(id).content
    {
      if id != x {
        assert id in pre;
        if Pulled(records, cache, fetches, x) && RemoteFilename(id, records[id]) == RemoteFilename(x, records[x]) {
          RemoteFilenameInjective(id, records[id], x, records[x]);
        }
      }
    }
  }

  /** The files written over pre + [x]: those of pre, and x's when x is pulled. */
  lemma WrittenSnoc(records: map<string, Student>, cache: map<string, Bytes>, fetches: string -> Fetch,
                    pre: seq<string>, x: string)
    ensures Written(records, cache, fetches, pre + [x]) ==
      Written(records, cache, fetches, pre) +
      (if Pulled(records, cache, fetches, x) then {RemoteFilename(x, records[x])} else {})
  {
  }

  lemma StepFetched(records: map<string, Student>, cache: map<string, Bytes>, fetches: string -> Fetch,
                    pre: seq<string>, x: string, s: SyncState, r: SyncState)
    requires FetchEffect(records, cache, pre, s)
    requires r.fetched == s.fetched + (if NeedsFetch(records, cache, x) then [x] else [])
    ensures FetchEffect(records, cache, pre + [x], r)
  {
  }

  /**
   * Running the pass a second time, with no change in between, requests
   * exactly the images whose first request failed: never one of the files
   * the first run wrote, whatever the origin answers the second time and in
   * whatever order the second cursor lists the same documents.
   */
  lemma SecondRunRefetchesOnlyFailures(records: map<string, Student>, cache: map<string, Bytes>,
                                       first: string -> Fetch, second: string -> Fetch,
                                       order1: seq<string>, order2: seq<string>)
    requires StoredIds(records) && Cursor(records, order1) && Cursor(records, order2)
    requires forall id :: id in order1 <==> id in order2
    ensures var r1 := Run(records, cache, first, order1);
            var r2 := Run(r1.records, r1.cache, second, order2);
            forall id :: id in r2.fetched <==> id in r1.fetched && !Succeeded(first(id))
  {
    var r1 := Run(records, cache, first, order1);
    RunEffect(records, cache, first, order1);
    assert StoredIds(r1.records) && Cursor(r1.records, order2);
    var r2 := Run(r1.records, r1.cache, second, order2);
    RunEffect(r1.records, r1.cache, second, order2);
    forall id | id in order1
      ensures NeedsFetch(r1.records, r1.cache, id) <==> NeedsFetch(records, cache, id) && !Succeeded(first(id))
    {
      if id in records && HasRemoteImage(records[id]) {
        var f := RemoteFilename(id, records[id]);
        assert r1.records[id].imageUrl == records[id].imageUrl;
        assert RemoteFilename(id, r1.records[id]) == f;
        if f in Written(records, cache, first, order1) {
          var y :| y in order1 && Pulled(records, cache, first, y) && RemoteFilename(y, records[y]) == f;
          RemoteFilenameInjective(y, records[y], id, records[id]);
        }
      }
    }
  }

  /**
   * When every request of the first run succeeds, a second run, whatever its
   * cursor order, requests nothing and changes nothing.
   */
  lemma SecondRunIsNoOp(records: map<string, Student>, cache: map<string, Bytes>,
                        first: string -> Fetch, second: string -> Fetch,
                        order1: seq<string>, order2: seq<string>)
    requires StoredIds(records) && Cursor(records, order1) && Cursor(records, order2)
    requires forall id :: id in order1 <==> id in order2
    requires forall id :: id in order1 && NeedsFetch(records, cache, id) ==> Succeeded(first(id))
    ensures var r1 := Run(records, cache, first, order1);
            var r2 := Run(r1.records, r1.cache, second, order2);
            && r2.records == r1.records && r2.cache == r1.cache
            && forall id :: id !in r2.fetched
  {
    var r1 := Run(records, cache, first, order1);
    var r2 := Run(r1.records, r1.cache, second, order2);
    SecondRunRefetchesOnlyFailures(records, cache, first, second, order1, order2);
    RunEffect(records, cache, first, order1);
    assert FetchEffect(records, cache, order1, r1);
    assert forall id :: id !in r2.fetched;
    assert StoredIds(r1.records) && Cursor(r1.records, order2);
    RunEffect(r1.records, r1.cache, second, order2);
    NothingToFetch(r1.records, r1.cache, second, order2, r2);
  }

  /** A pass that finds nothing to request leaves the store and the cache as they were. */
  lemma NothingToFetch(records: map<string, Student>, cache: map<string, Bytes>, fetches: string -> Fetch,
                       order: seq<string>, r: SyncState)
    requires Effect(records, cache, fetches, order, r)
    requires forall id :: id !in r.fetched
    ensures r.records == records && r.cache == cache
  {
  }
}
