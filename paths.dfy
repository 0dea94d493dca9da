/**
 * The string derivations the handlers of app.py share: the extension that
 * os.path.splitext takes from a name, the cache filename `<id><ext>`, the
 * served URL `/cache/<filename>` and its inverse (a replace-all of
 * "/cache/"), the absolute URL built from the request's root URL, and the
 * shape of the ObjectId strings that key the records.
 */
module Paths {

  /** The URL prefix under which cached images are served. */
  const CacheRoute := "/cache/"

  // ---------------------------------------------------------------- splitext

  /** Index of the last occurrence of `c` in `s`, or -1 (str.rfind of one character). */
  function LastIndexOf(s: string, c: char): (r: int)
    ensures -1 <= r < |s|
    ensures r >= 0 ==> s[r] == c
    ensures forall k :: r < k < |s| ==> s[k] != c
  {
    if |s| == 0 then -1
    else if s[|s| - 1] == c then |s| - 1
    else LastIndexOf(s[..|s| - 1], c)
  }

  /**
   * Where os.path.splitext (POSIX flavour) cuts `p`: at the last '.', provided
   * it lies after the last '/' and some character other than '.' stands between
   * that '/' and the dot (leading dots of the last component do not start an
   * extension); otherwise at the end of `p`.
   */
  function SplitPoint(p: string): (r: nat)
    ensures r <= |p|
  {
    var sep := LastIndexOf(p, '/');
    var dot := LastIndexOf(p, '.');
    if dot > sep && exists k :: sep < k < dot && p[k] != '.' then dot else |p|
  }

  /** os.path.splitext(p)[1]. */
  function Ext(p: string): (r: string)
    // the extension is a suffix of p ...
    ensures |r| <= |p| && r == p[|p| - |r|..]
    // ... that is empty or one dot followed by neither '/' nor '.' ...
    ensures r != [] ==> r[0] == '.' && '/' !in r && '.' !in r[1..]
    // ... and, when not empty, follows a non-dot character of the last path component
    ensures r != [] ==> exists k :: 0 <= k < |p| - |r| && p[k] != '.' && '/' !in p[k..|p| - |r|]
    // it is empty only when every dot of the last component has only dots before it there
    ensures r == [] ==>
      forall d, k :: 0 <= k < d < |p| && p[d] == '.' && '/' !in p[k..] ==> p[k] == '.'
  {
    var sep := LastIndexOf(p, '/');
    var dot := LastIndexOf(p, '.');
    var i := SplitPoint(p);
    if i < |p| then
      var k :| sep < k < dot && p[k] != '.';
      assert '/' !in p[k..i] by {
        forall j | k <= j < i ensures p[j] != '/' { }
      }
      p[i..]
    else
      assert forall d, k :: 0 <= k < d < |p| && p[d] == '.' && '/' !in p[k..] ==> p[k] == '.' by {
        forall d, k | 0 <= k < d < |p| && p[d] == '.' && '/' !in p[k..] ensures p[k] == '.' {
          assert p[d] == p[k..][d - k];
          assert d <= dot;
        }
      }
      []
  }

  // ------------------------------------------------------- cache filenames

  /** The name of the cached image of record `id`: f"{id}{ext}". */
  function CacheFilename(id: string, ext: string): string
  {
    id + ext
  }

  /** Cache filenames built from ids of one length name one (id, ext) pair. */
  lemma CacheFilenameInjective(id1: string, ext1: string, id2: string, ext2: string)
    requires |id1| == |id2|
    requires CacheFilename(id1, ext1) == CacheFilename(id2, ext2)
    ensures id1 == id2 && ext1 == ext2
  {
    assert id1 == CacheFilename(id1, ext1)[..|id1|];
    assert ext1 == CacheFilename(id1, ext1)[|id1|..];
  }

  /** The URL a cached file is served under: f"/cache/{filename}". */
  function LocalUrl(filename: string): string
  {
    CacheRoute + filename
  }

  // ------------------------------------------------------------ replace-all

  /** `pat` occurs in `s` starting at index `i`. */
  predicate OccursAt(s: string, pat: string, i: int)
  {
    0 <= i && i + |pat| <= |s| && s[i..i + |pat|] == pat
  }

  predicate Contains(s: string, pat: string)
  {
    exists i :: 0 <= i <= |s| && OccursAt(s, pat, i)
  }

  /** str.replace(pat, rep): every non-overlapping occurrence, scanning left to right. */
  function ReplaceAll(s: string, pat: string, rep: string): string
    requires pat != []
    decreases |s|
  {
    if |s| < |pat| then s
    else if s[..|pat|] == pat then rep + ReplaceAll(s[|pat|..], pat, rep)
    else [s[0]] + ReplaceAll(s[1..], pat, rep)
  }

  /** local_image_url.replace("/cache/", ""): the filename a served URL names. */
  function StripCache(url: string): string
  {
    ReplaceAll(url, CacheRoute, "")
  }

  /** Replacing a pattern that does not occur changes nothing. */
  lemma {:induction false} ReplaceAllAbsent(s: string, pat: string, rep: string)
    requires pat != []
    requires !Contains(s, pat)
    ensures ReplaceAll(s, pat, rep) == s
    decreases |s|
  {
    if |s| >= |pat| {
      assert !OccursAt(s, pat, 0);
      assert !Contains(s[1..], pat) by {
        forall i | OccursAt(s[1..], pat, i) ensures OccursAt(s, pat, i + 1) {
          assert s[1..][i..i + |pat|] == s[i + 1..i + 1 + |pat|];
        }
      }
      ReplaceAllAbsent(s[1..], pat, rep);
      assert s == [s[0]] + s[1..];
    }
  }

  /** A name without '/' cannot hold "/cache/". */
  lemma NoSlashNoCacheRoute(f: string)
    requires '/' !in f
    ensures !Contains(f, CacheRoute)
  {
    forall i | 0 <= i <= |f| ensures !OccursAt(f, CacheRoute, i) {
      if i + |CacheRoute| <= |f| {
        assert f[i..i + |CacheRoute|][0] == f[i] != '/';
      }
    }
  }

  /**
   * The round trip between the URL stored on a record and the file that the
   * delete handler removes: stripping "/cache/" from LocalUrl(f) gives back f
   * whenever f itself does not hold "/cache/".
   */
  lemma StripCacheOfLocalUrl(f: string)
    requires !Contains(f, CacheRoute)
    ensures StripCache(LocalUrl(f)) == f
  {
    var u := LocalUrl(f);
    assert u[..|CacheRoute|] == CacheRoute;
    assert u[|CacheRoute|..] == f;
    ReplaceAllAbsent(f, CacheRoute, "");
  }

  /** An extension never holds '/'; neither then does a filename `<id><ext>` built from a slash-free id. */
  lemma CacheFilenameHasNoSlash(id: string, p: string)
    requires '/' !in id
    ensures '/' !in CacheFilename(id, Ext(p))
  {
  }

  /**
   * The file a handler writes for a record, `<id><ext>`, is the file that
   * stripping "/cache/" from its served URL names again.
   */
  lemma StripCacheOfCacheFilename(id: string, p: string)
    requires ValidObjectId(id)
    ensures StripCache(LocalUrl(CacheFilename(id, Ext(p)))) == CacheFilename(id, Ext(p))
    ensures !Contains(CacheFilename(id, Ext(p)), CacheRoute)
  {
    StoredIdHasNoSlash(id);
    CacheFilenameHasNoSlash(id, p);
    NoSlashNoCacheRoute(CacheFilename(id, Ext(p)));
    StripCacheOfLocalUrl(CacheFilename(id, Ext(p)));
  }

  // ----------------------------------------------------------- absolute URLs

  /** str.rstrip("/"): drop every trailing '/'. */
  function StripTrailingSlashes(s: string): (r: string)
    ensures |r| <= |s| && r == s[..|r|]
    ensures r == [] || r[|r| - 1] != '/'
    ensures forall k :: |r| <= k < |s| ==> s[k] == '/'
  {
    if |s| > 0 && s[|s| - 1] == '/' then StripTrailingSlashes(s[..|s| - 1]) else s
  }

  /**
   * full_url: the request's root URL without its trailing slashes, followed by
   * `path`.
   */
  function FullUrl(host: string, path: string): (r: string)
    ensures |path| <= |r| && r[|r| - |path|..] == path
    ensures var h := r[..|r| - |path|];
      && |h| <= |host| && h == host[..|h|]
      && (h == [] || h[|h| - 1] != '/')
      && forall k :: |h| <= k < |host| ==> host[k] == '/'
  {
    var h := StripTrailingSlashes(host);
    assert (h + path)[..|h|] == h;
    h + path
  }

  // ----------------------------------------------------------- ObjectIds

  predicate IsHexDigit(c: char)
  {
    '0' <= c <= '9' || 'a' <= c <= 'f' || 'A' <= c <= 'F'
  }

  predicate IsLowerHexDigit(c: char)
  {
    '0' <= c <= '9' || 'a' <= c <= 'f'
  }

  /** A string that ObjectId(...) accepts: 24 hexadecimal digits of either case. */
  predicate ValidObjectId(s: string)
  {
    |s| == 24 && forall i :: 0 <= i < |s| ==> IsHexDigit(s[i])
  }

  /** The form str(ObjectId) produces, which keys the record store. */
  predicate IsStoredId(s: string)
  {
    |s| == 24 && forall i :: 0 <= i < |s| ==> IsLowerHexDigit(s[i])
  }

  function LowerHex(c: char): char
  {
    if 'A' <= c <= 'F' then (c as int + 32) as char else c
  }

  /** str(ObjectId(s)): the same 24 digits in lower case. */
  function Canonical(s: string): (r: string)
    requires ValidObjectId(s)
    ensures IsStoredId(r)
    ensures forall i :: 0 <= i < |s| ==> r[i] == s[i] || ('A' <= s[i] <= 'F' && r[i] as int == s[i] as int + 32)
  {
    seq(|s|, i requires 0 <= i < |s| => LowerHex(s[i]))
  }

  /** A stored id parses back to itself, so the id a handler returns finds the record again. */
  lemma CanonicalOfStoredId(s: string)
    requires IsStoredId(s)
    ensures ValidObjectId(s) && Canonical(s) == s
  {
  }

  /** Stored ids hold no '/', so the cache filenames built from them hold none either. */
  lemma StoredIdHasNoSlash(s: string)
    requires ValidObjectId(s)
    ensures '/' !in s
  {
  }
}
