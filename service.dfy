/**
 * The handlers of app.py over the two tables they keep consistent: the
 * `students` collection, keyed by ObjectId string, and the cache directory
 * CACHE_FOLDER, keyed by filename. The request's form and files, its root
 * URL, the id the database assigns on insert, the origin's answers and the
 * cursor's order arrive as parameters.
 */
module Service {
  import opened Wrappers
  import opened Paths
  import opened PyInt
  import opened Students
  import opened Reconciliation

  /** `int(age)` does not raise: the field is absent, empty, or an integer literal. */
  predicate AgeParses(age: Option<string>)
  {
    !Truthy(age) || ParseInt(age.value).Some?
  }

  /** The parsed age, if any, is one the BSON encoder accepts, so writing it does not raise. */
  predicate AgeStorable(age: Option<string>)
    requires AgeParses(age)
  {
    !Truthy(age) || FitsBson(ParseInt(age.value).value)
  }

  /** The `$set` document update_student builds: name and age when given, and the new local URL. */
  function FormPatch(name: Option<string>, age: Option<string>, localImageUrl: Option<string>): (p: Patch)
    requires AgeParses(age)
    ensures p.IsEmpty() <==> !Truthy(name) && !Truthy(age) && localImageUrl.None?
  {
    Patch(
      if Truthy(name) then name else None,
      if Truthy(age) then ParseInt(age.value) else None,
      localImageUrl)
  }

  class StudentService {
    /** The `students` collection. */
    var records: map<string, Student>
    /** The files of CACHE_FOLDER. */
    var cache: map<string, Bytes>
    /** werkzeug's secure_filename, whose definition is not part of this model. */
    const secureFilename: string -> string

    ghost predicate Valid()
      reads this
    {
      StoredIds(records)
    }

    constructor (records0: map<string, Student>, cache0: map<string, Bytes>, secureFilename0: string -> string)
      requires StoredIds(records0)
      ensures Valid()
      ensures records == records0 && cache == cache0 && secureFilename == secureFilename0
    {
      records := records0;
      cache := cache0;
      secureFilename := secureFilename0;
    }

    /** The cache file an upload for `id` goes to: `<id><extension of the sanitized upload name>`. */
    function UploadFilename(id: string, image: FileField): string
    {
      CacheFilename(id, Ext(secureFilename(image.filename)))
    }

    /**
     * add_student. Validation comes before any write. A new document gets the
     * id `newId` (what the database assigns), its image is cached as
     * `<newId><ext>`, and its `local_image_url` is set to the served URL of
     * that file; the answer of the upload to the origin is ignored unless the
     * upload raises, which ends the request after the insert and the cache
     * write but before the local URL is stored. An age outside BSON's range
     * makes the insert raise, before anything is written.
     */
    method Create(name: Option<string>, age: Option<string>, image: Option<FileField>,
                  newId: string, put: PutReply, host: string) returns (resp: Response)
      requires Valid()
      requires IsStoredId(newId) && newId !in records
      modifies this
      ensures Valid()
      ensures !(Truthy(name) && Truthy(age) && HasFile(image)) ==>
        resp == BadRequest && records == old(records) && cache == old(cache)
      ensures Truthy(name) && Truthy(age) && HasFile(image) && ParseInt(age.value).None? ==>
        resp == Crash && records == old(records) && cache == old(cache)
      ensures Truthy(name) && Truthy(age) && HasFile(image) && ParseInt(age.value).Some?
              && !FitsBson(ParseInt(age.value).value) ==>
        resp == Crash && records == old(records) && cache == old(cache)
      ensures Truthy(name) && Truthy(age) && HasFile(image) && ParseInt(age.value).Some?
              && FitsBson(ParseInt(age.value).value) ==>
        var filename := UploadFilename(newId, image.value);
        var inserted := Student(name.value, ParseInt(age.value).value, None, None);
        var created := inserted.(localImageUrl := Some(LocalUrl(filename)));
        && cache == old(cache)[filename := image.value.content]
        && (UploadToGitHub(put).Raised? ==> resp == Crash && records == old(records)[newId := inserted])
        && (!UploadToGitHub(put).Raised? ==>
              && records == old(records)[newId := created]
              && resp == Response(201, Entry(newId, AddLocalUrl(host, created))))
    {
      if !Truthy(name) || !Truthy(age) || !HasFile(image) {
        return BadRequest;
      }
      var years := ParseInt(age.value);
      if years.None? || !FitsBson(years.value) {
        return Crash;
      }
      var student := Student(name.value, years.value, None, None);
      records := records[newId := student];
      var filename := UploadFilename(newId, image.value);
      cache := cache[filename := image.value.content];
      var uploaded := UploadToGitHub(put);
      if uploaded.Raised? {
        return Crash;
      }
      var localUrl := LocalUrl(filename);
      student := student.(localImageUrl := Some(localUrl));
      records := records[newId := student];
      resp := Response(201, Entry(newId, AddLocalUrl(host, student)));
    }

    /** get_student: the document with its image URL resolved against `host`, or 404. */
    method Get(id: string, host: string) returns (resp: Response)
      requires ValidObjectId(id)
      ensures Canonical(id) !in records ==> resp == NotFound
      ensures Canonical(id) in records ==>
        resp == Response(200, Entry(Canonical(id), AddLocalUrl(host, records[Canonical(id)])))
    {
      var key := Canonical(id);
      if key !in records {
        return NotFound;
      }
      resp := Response(200, Entry(key, AddLocalUrl(host, records[key])));
    }

    /**
     * get_students: every document, in the cursor's order, each with its image
     * URL resolved against `host`.
     */
    method List(order: seq<string>, host: string) returns (resp: Response)
      requires Cursor(records, order)
      requires forall id :: id in records ==> id in order
      ensures resp.status == 200 && resp.body.Entries?
      ensures |resp.body.items| == |order|
      ensures forall k :: 0 <= k < |order| ==>
        resp.body.items[k] == (order[k], AddLocalUrl(host, records[order[k]]))
    {
      var data: seq<(string, Student)> := [];
      var i := 0;
      while i < |order|
        invariant 0 <= i <= |order|
        invariant |data| == i
        invariant forall k :: 0 <= k < i ==> data[k] == (order[k], AddLocalUrl(host, records[order[k]]))
      {
        var id := order[i];
        data := data + [(id, AddLocalUrl(host, records[id]))];
        i := i + 1;
      }
      resp := Response(200, Entries(data));
    }

    /**
     * update_student. Only the fields supplied are set. An image is written to
     * `<id><ext>` (with `id` as the URL gives it) and uploaded before the
     * document is looked up, so an unknown id answers 404 with the file
     * already written; a file cached earlier under another extension stays.
     * An age outside BSON's range makes the update raise, after the image is
     * cached and uploaded and whether or not the id exists.
     */
    method Update(id: string, name: Option<string>, age: Option<string>, image: Option<FileField>,
                  put: PutReply, host: string) returns (resp: Response)
      requires Valid() && ValidObjectId(id)
      modifies this
      ensures Valid()
      ensures !AgeParses(age) ==> resp == Crash && records == old(records) && cache == old(cache)
      ensures !Truthy(name) && !Truthy(age) && !HasFile(image) ==>
        resp == NoNewData && records == old(records) && cache == old(cache)
      ensures AgeParses(age) && !HasFile(image) ==> cache == old(cache)
      ensures AgeParses(age) && HasFile(image) ==>
        cache == old(cache)[UploadFilename(id, image.value) := image.value.content]
      ensures AgeParses(age) && HasFile(image) && UploadToGitHub(put).Raised? ==>
        resp == Crash && records == old(records)
      ensures AgeParses(age) && !AgeStorable(age) && !(HasFile(image) && UploadToGitHub(put).Raised?) ==>
        resp == Crash && records == old(records)
      ensures AgeParses(age) && AgeStorable(age) && (Truthy(name) || Truthy(age) || HasFile(image))
              && !(HasFile(image) && UploadToGitHub(put).Raised?) ==>
        var key := Canonical(id);
        var newUrl := if HasFile(image) then Some(LocalUrl(UploadFilename(id, image.value))) else None;
        && (key !in old(records) ==> resp == NotFound && records == old(records))
        && (key in old(records) ==>
              && records == old(records)[key := ApplyPatch(old(records)[key], FormPatch(name, age, newUrl))]
              && resp == Response(200, Entry(key, AddLocalUrl(host, records[key]))))
    {
      var patch := Patch(None, None, None);
      if Truthy(name) {
        patch := patch.(name := name);
      }
      if Truthy(age) {
        var years := ParseInt(age.value);
        if years.None? {
          return Crash;
        }
        patch := patch.(age := years);
      }
      if HasFile(image) {
        var filename := UploadFilename(id, image.value);
        cache := cache[filename := image.value.content];
        patch := patch.(localImageUrl := Some(LocalUrl(filename)));
        var uploaded := UploadToGitHub(put);
        if uploaded.Raised? {
          return Crash;
        }
      }
      if patch.IsEmpty() {
        return NoNewData;
      }
      if patch.age.Some? && !FitsBson(patch.age.value) {
        return Crash;
      }
      var key := Canonical(id);
      if key !in records {
        return NotFound;
      }
      records := records[key := ApplyPatch(records[key], patch)];
      resp := Response(200, Entry(key, AddLocalUrl(host, records[key])));
    }

    /**
     * remove_student: an unknown id answers 404 and changes nothing; otherwise
     * the file named by the document's local URL is deleted when it exists,
     * then the document.
     */
    method Delete(id: string) returns (resp: Response)
      requires Valid() && ValidObjectId(id)
      modifies this
      ensures Valid()
      ensures Canonical(id) !in old(records) ==>
        resp == NotFound && records == old(records) && cache == old(cache)
      ensures Canonical(id) in old(records) ==>
        && resp == Response(200, Message(RemovedMessage))
        && records == old(records) - {Canonical(id)}
        && cache == old(cache) - CachedFileOf(old(records)[Canonical(id)])
    {
      var key := Canonical(id);
      if key !in records {
        return NotFound;
      }
      var student := records[key];
      if student.localImageUrl.Some? {
        var localFile := StripCache(student.localImageUrl.value);
        if localFile in cache {
          cache := cache - {localFile};
        }
      }
      records := records - {key};
      resp := Response(200, Message(RemovedMessage));
    }

    /**
     * cache_images_from_github, over the documents the cursor lists (those
     * carrying an `image_url` field, in `order`), with `fetches(id)` the
     * origin's answer to the request for document `id`. Returns the ids whose
     * images were requested.
     */
    method Reconcile(order: seq<string>, fetches: string -> Fetch) returns (fetched: seq<string>)
      requires Valid()
      requires Cursor(records, order)
      requires forall id :: id in records && records[id].imageUrl.Some? ==> id in order
      requires forall i :: 0 <= i < |order| ==> records[order[i]].imageUrl.Some?
      modifies this
      ensures Valid()
      ensures SyncState(records, cache, fetched) == Run(old(records), old(cache), fetches, order)
      ensures Effect(old(records), old(cache), fetches, order, SyncState(records, cache, fetched))
    {
      fetched := [];
      var i := 0;
      while i < |order|
        invariant 0 <= i <= |order|
        invariant SyncState(records, cache, fetched) == Run(old(records), old(cache), fetches, order[..i])
      {
        assert order[..i + 1] == order[..i] + [order[i]];
        fetched := CacheOne(order[i], fetches(order[i]), fetched);
        i := i + 1;
      }
      assert order[..|order|] == order;
      RunEffect(old(records), old(cache), fetches, order);
    }

    /**
     * One iteration of the reconciliation loop, for the document `id`, given
     * the origin's `answer`: `fetched` grows by `id` when its image is requested.
     */
    method CacheOne(id: string, answer: Fetch, fetched: seq<string>) returns (fetched': seq<string>)
      requires id in records
      modifies this
      ensures SyncState(records, cache, fetched') == Step(SyncState(old(records), old(cache), fetched), id, answer)
    {
      fetched' := fetched;
      var student := records[id];
      var githubUrl := student.imageUrl;
      if githubUrl.Some? && githubUrl.value != [] {
        var filename := CacheFilename(id, Ext(githubUrl.value));
        if filename !in cache {
          fetched' := fetched' + [id];
          if answer.Fetched? && answer.status == 200 {
            cache := cache[filename := answer.content];
            records := records[id := student.(localImageUrl := Some(LocalUrl(filename)))];
          }
        }
      }
    }
  }
}
