/**
 * The values the handlers of app.py pass around: a stored student document,
 * the `$set` document update_student accumulates, the response a handler
 * returns, the request's form fields, and what upload_to_github makes of the
 * origin's answer.
 */
module Students {
  import opened Wrappers
  import opened Paths

  newtype byte = b: int | 0 <= b < 256

  type Bytes = seq<byte>

  /**
   * A document of the `students` collection (without its `_id`, which keys it).
   * `imageUrl` is the stored `image_url` field that startup reconciliation
   * reads; no handler writes it, but documents may carry it.
   */
  datatype Student = Student(
    name: string,
    age: int,
    localImageUrl: Option<string>,
    imageUrl: Option<string>)

  /**
   * The integers the BSON encoder writes (as int32 or int64); pymongo raises
   * OverflowError on any other, so a document holding one is never sent.
   */
  predicate FitsBson(n: int)
  {
    -0x8000_0000_0000_0000 <= n < 0x8000_0000_0000_0000
  }

  // ------------------------------------------------------------ form fields

  /** `if value:` on a form string: present and not empty. */
  predicate Truthy(field: Option<string>)
  {
    field.Some? && field.value != []
  }

  /** An uploaded file: the name the client gave it and its bytes. */
  datatype FileField = FileField(filename: string, content: Bytes)

  /** `if image:` on request.files.get("image"): a werkzeug FileStorage is falsy when its filename is empty. */
  predicate HasFile(image: Option<FileField>)
  {
    image.Some? && image.value.filename != []
  }

  // ----------------------------------------------------- update documents

  /** The fields of a `$set` document; None for a key that was not added. */
  datatype Patch = Patch(name: Option<string>, age: Option<int>, localImageUrl: Option<string>)
  {
    predicate IsEmpty()
    {
      name.None? && age.None? && localImageUrl.None?
    }
  }

  /** `$set` applied to a document: the keys present are overwritten, every other field is kept. */
  function ApplyPatch(s: Student, p: Patch): (r: Student)
    ensures r.name == (if p.name.Some? then p.name.value else s.name)
    ensures r.age == (if p.age.Some? then p.age.value else s.age)
    ensures r.localImageUrl == (if p.localImageUrl.Some? then p.localImageUrl else s.localImageUrl)
    ensures r.imageUrl == s.imageUrl
    ensures p.IsEmpty() ==> r == s
  {
    Student(
      if p.name.Some? then p.name.value else s.name,
      if p.age.Some? then p.age.value else s.age,
      if p.localImageUrl.Some? then p.localImageUrl else s.localImageUrl,
      s.imageUrl)
  }

  // ------------------------------------------------------------ responses

  /** add_local_url: the served form of a document, for the host that asked. */
  function AddLocalUrl(host: string, s: Student): (r: Student)
    ensures r.name == s.name && r.age == s.age && r.localImageUrl == s.localImageUrl
    ensures s.localImageUrl.Some? ==> r.imageUrl == Some(FullUrl(host, s.localImageUrl.value))
    ensures s.localImageUrl.None? ==> r.imageUrl == s.imageUrl
  {
    if s.localImageUrl.Some? then s.(imageUrl := Some(FullUrl(host, s.localImageUrl.value))) else s
  }

  /**
   * A document whose image is cached as `filename` is served with the image
   * URL `<host without trailing '/'>/cache/<filename>`.
   */
  lemma ServedImageUrl(host: string, s: Student, filename: string)
    requires s.localImageUrl == Some(LocalUrl(filename))
    ensures AddLocalUrl(host, s).imageUrl == Some(StripTrailingSlashes(host) + CacheRoute + filename)
  {
    var h := StripTrailingSlashes(host);
    assert h + (CacheRoute + filename) == h + CacheRoute + filename;
  }

  /**
   * The cache file remove_student deletes for a document: the name its
   * `local_image_url` gives once "/cache/" is replaced by nothing; none
   * without that field.
   */
  function CachedFileOf(s: Student): set<string>
  {
    if s.localImageUrl.Some? then {StripCache(s.localImageUrl.value)} else {}
  }

  /** A document whose local URL was built from `filename` has exactly that file deleted with it. */
  lemma CachedFileOfLocalUrl(s: Student, filename: string)
    requires s.localImageUrl == Some(LocalUrl(filename))
    requires !Contains(filename, CacheRoute)
    ensures CachedFileOf(s) == {filename}
  {
    StripCacheOfLocalUrl(filename);
  }

  const CompleteDataMessage := "please provide complete data"
  const NotFoundMessage := "student not found"
  const NoNewDataMessage := "no new data"
  const RemovedMessage := "student removed"

  datatype Body =
    | Entry(id: string, student: Student)          // one document, `_id` as a string
    | Entries(items: seq<(string, Student)>)        // the list handler's array
    | Message(text: string)                         // {"message": ...}
    | Error(text: string)                           // {"error": ...}
    | ServerError                                   // an exception escaped the handler

  datatype Response = Response(status: int, body: Body)

  const BadRequest := Response(400, Error(CompleteDataMessage))
  const NoNewData := Response(400, Error(NoNewDataMessage))
  const NotFound := Response(404, Error(NotFoundMessage))
  const Crash := Response(500, ServerError)

  // ---------------------------------------------------------- remote upload

  /**
   * What the origin's contents API does with one PUT: answers with a status
   * and a body that does or does not decode as JSON, or the request raises.
   */
  datatype PutReply = PutReply(status: int, jsonBody: bool) | PutRaised

  /** What upload_to_github gives its caller: a boolean, or an exception. */
  datatype UploadOutcome = Returned(stored: bool) | Raised

  /**
   * upload_to_github: True on 200 or 201; otherwise it decodes the error body
   * to log it and returns False, raising when that body is not JSON. An
   * exception from the request itself propagates as well.
   */
  function UploadToGitHub(reply: PutReply): (r: UploadOutcome)
    ensures r == Returned(true) <==> reply.PutReply? && reply.status in {200, 201}
    ensures r == Returned(false) <==> reply.PutReply? && reply.status !in {200, 201} && reply.jsonBody
    ensures r == Raised <==> reply.PutRaised? || (reply.status !in {200, 201} && !reply.jsonBody)
  {
    match reply
    case PutRaised => Raised
    case PutReply(status, jsonBody) =>
      if status == 200 || status == 201 then Returned(true)
      else if jsonBody then Returned(false)
      else Raised
  }
}
