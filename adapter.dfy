/** The filesystem adapter over one bucket of the object store. The bucket is an
    object of its own (the remote store, shared by every adapter over it); the
    adapter forwards each filesystem operation to it and adds the ACL
    translation, the "default" ACL resolution and the URL signing. */
module Adapter {
  import opened Wrappers
  import opened Storage
  import opened Urls
  import Acl

  /** What the store keeps per key. */
  datatype StoredObject = StoredObject(contents: string, acl: string, contentType: string, lastModified: int)

  /** What the store records of a write besides the bytes: the content type it
      settles on and the time of the write. */
  datatype Stamp = Stamp(contentType: string, lastModified: int)

  /** A PHP stream: its bytes and the current read position. */
  datatype Stream = Stream(data: string, position: nat)

  /** The object ACL that means "inherit the bucket's". */
  const InheritedAcl := "default"

  /** The default lifetime of a signed URL, in seconds, and its HTTP method. */
  const DefaultTimeout := 60
  const HttpGet := "GET"

  /** stream_get_contents: what is left from the current position. */
  function Remaining(stream: Stream): (r: string)
    ensures stream.position == 0 ==> r == stream.data
    ensures stream.position <= |stream.data| ==> stream.data == stream.data[..stream.position] + r
  {
    if stream.position <= |stream.data| then stream.data[stream.position..] else ""
  }

  // The changes each store operation makes, as functions of the key map.

  function Written(objects: map<string, StoredObject>, path: string, contents: string, stamp: Stamp): map<string, StoredObject> {
    objects[path := StoredObject(contents, InheritedAcl, stamp.contentType, stamp.lastModified)]
  }

  function Deleted(objects: map<string, StoredObject>, path: string): map<string, StoredObject> {
    objects - {path}
  }

  /** copyObject: the destination takes the source's bytes and content type and
      gets a fresh ACL and time. */
  function Copied(objects: map<string, StoredObject>, source: string, destination: string, now: int): map<string, StoredObject>
    requires source in objects
  {
    objects[destination := objects[source].(acl := InheritedAcl, lastModified := now)]
  }

  /** move: copy, then delete the source. */
  function Moved(objects: map<string, StoredObject>, source: string, destination: string, now: int): map<string, StoredObject>
    requires source in objects
  {
    Deleted(Copied(objects, source, destination, now), source)
  }

  /** Writing then reading the same key gives the written bytes; keys are used
      verbatim and no other key changes. */
  lemma WriteThenRead(objects: map<string, StoredObject>, path: string, contents: string, stamp: Stamp)
    ensures path in Written(objects, path, contents, stamp)
    ensures Written(objects, path, contents, stamp)[path].contents == contents
    ensures forall k :: k != path ==> (k in Written(objects, path, contents, stamp) <==> k in objects)
    ensures forall k :: k != path && k in objects ==> Written(objects, path, contents, stamp)[k] == objects[k]
  {
  }

  /** After delete the key is gone and every other key is as it was. */
  lemma DeleteRemovesOnlyTheKey(objects: map<string, StoredObject>, path: string)
    ensures path !in Deleted(objects, path)
    ensures forall k :: k != path ==> (k in Deleted(objects, path) <==> k in objects)
    ensures forall k :: k != path && k in objects ==> Deleted(objects, path)[k] == objects[k]
  {
  }

  /** copy: the destination holds the source's bytes, the source is untouched and
      no other key changes. */
  lemma CopyKeepsSource(objects: map<string, StoredObject>, source: string, destination: string, now: int)
    requires source in objects
    ensures var after := Copied(objects, source, destination, now);
      && destination in after && after[destination].contents == objects[source].contents
      && source in after && (source != destination ==> after[source] == objects[source])
      && forall k :: k != destination ==> (k in after <==> k in objects) && (k in objects ==> after[k] == objects[k])
  {
  }

  /** move to another key: the destination holds the source's former bytes and
      the source is gone; to the same key: the object ends up deleted. */
  lemma MoveIsCopyThenDelete(objects: map<string, StoredObject>, source: string, destination: string, now: int)
    requires source in objects
    ensures var after := Moved(objects, source, destination, now);
      && source !in after
      && (source != destination ==> destination in after && after[destination].contents == objects[source].contents)
      && forall k :: k != source && k != destination ==> (k in after <==> k in objects) && (k in objects ==> after[k] == objects[k])
  {
  }

  /** The HMAC signer of the SDK: key, lifetime and HTTP method to the text of a
      signed URL. */
  type Signer = (string, int, string) -> string

  /** HUrl::parse (None when the text is not an absolute URL) and toString. */
  datatype UrlSyntax = UrlSyntax(parse: string -> Option<Url>, render: Url -> string)

  /** The loop over the signed URL's query in signUrl: the caller's URL with every
      signer pair set on it. */
  function WithSignature(url: Url, signed: Url): (r: Url)
    ensures r.scheme == url.scheme && r.host == url.host && r.path == url.path
    ensures forall n :: QueryValue(signed.query, n).Some? ==> QueryValue(r.query, n) == QueryValue(signed.query, n)
    ensures forall n :: QueryValue(signed.query, n).None? ==> QueryValue(r.query, n) == QueryValue(url.query, n)
  {
    url.(query := WithQueryPairs(url.query, signed.query))
  }

  /** The remote store: the objects of one bucket and the bucket's own ACL. */
  class Bucket {
    var objects: map<string, StoredObject>
    var acl: string

    constructor (acl: string)
      ensures objects == map[] && this.acl == acl
    {
      objects := map[];
      this.acl := acl;
    }
  }

  class OssAdapter {
    /** config['acl'], when configured. */
    const configAcl: Option<string>
    /** The bucket that getOssClient() and getBucket() address. */
    const bucket: Bucket

    constructor (configAcl: Option<string>, bucket: Bucket)
      ensures this.configAcl == configAcl && this.bucket == bucket
    {
      this.configAcl := configAcl;
      this.bucket := bucket;
    }

    /** getDefaultAcl: the configured ACL, else the bucket's. */
    function GetDefaultAcl(): (acl: string)
      reads bucket
      ensures configAcl.Some? ==> acl == configAcl.value
      ensures configAcl.None? ==> acl == bucket.acl
    {
      match configAcl
      case Some(a) => a
      case None => bucket.acl
    }

    /** The ACL that governs an object whose own ACL is `objectAcl`. */
    function EffectiveAcl(objectAcl: string): (acl: string)
      reads bucket
      ensures objectAcl != InheritedAcl ==> acl == objectAcl
      ensures objectAcl == InheritedAcl ==> acl == GetDefaultAcl()
    {
      if objectAcl == InheritedAcl then GetDefaultAcl() else objectAcl
    }

    method FileExists(path: string) returns (found: bool)
      ensures found <==> path in bucket.objects
    {
      found := path in bucket.objects;
    }

    /** The store has no directories; every directory is reported present. */
    function DirectoryExists(path: string): (found: bool)
      ensures found
    {
      true
    }

    method Write(path: string, contents: string, stamp: Stamp)
      modifies bucket`objects
      ensures bucket.objects == Written(old(bucket.objects), path, contents, stamp)
    {
      bucket.objects := bucket.objects[path := StoredObject(contents, InheritedAcl, stamp.contentType, stamp.lastModified)];
    }

    /** Writes what is left of the stream. */
    method WriteStream(path: string, stream: Stream, stamp: Stamp)
      modifies bucket`objects
      ensures bucket.objects == Written(old(bucket.objects), path, Remaining(stream), stamp)
    {
      Write(path, Remaining(stream), stamp);
    }

    method Read(path: string) returns (r: Result<string, Exception>)
      ensures path in bucket.objects ==> r == Ok(bucket.objects[path].contents)
      ensures path !in bucket.objects ==> r == Err(NoSuchKey)
    {
      if path in bucket.objects {
        r := Ok(bucket.objects[path].contents);
      } else {
        r := Err(NoSuchKey);
      }
    }

    /** A fresh stream holding the object's bytes, rewound to the start. */
    method ReadStream(path: string) returns (r: Result<Stream, Exception>)
      ensures path in bucket.objects ==> r.Ok? && r.value.position == 0 && Remaining(r.value) == bucket.objects[path].contents
      ensures path !in bucket.objects ==> r == Err(NoSuchKey)
    {
      var contents := Read(path);
      match contents
      case Ok(data) => r := Ok(Stream(data, 0));
      case Err(e) => r := Err(e);
    }

    method Delete(path: string)
      modifies bucket`objects
      ensures bucket.objects == Deleted(old(bucket.objects), path)
    {
      bucket.objects := bucket.objects - {path};
    }

    /** A no-op: nothing in the store changes. */
    method DeleteDirectory(path: string)
      ensures bucket.objects == old(bucket.objects) && bucket.acl == old(bucket.acl)
    {
    }

    /** createObjectDir: an empty object under the path with a trailing '/'. */
    method CreateDirectory(path: string, stamp: Stamp)
      modifies bucket`objects
      ensures bucket.objects == Written(old(bucket.objects), path + "/", "", stamp)
    {
      Write(path + "/", "", stamp);
    }

    /** Stores the ACL that the visibility translates to. */
    method SetVisibility(path: string, visibility: string) returns (r: Result<(), Exception>)
      modifies bucket`objects
      ensures path in old(bucket.objects) ==>
        r == Ok(()) && bucket.objects == old(bucket.objects)[path := old(bucket.objects)[path].(acl := Acl.ToAcl(visibility))]
      ensures path !in old(bucket.objects) ==> r == Err(NoSuchKey) && bucket.objects == old(bucket.objects)
    {
      if path in bucket.objects {
        bucket.objects := bucket.objects[path := bucket.objects[path].(acl := Acl.ToAcl(visibility))];
        r := Ok(());
      } else {
        r := Err(NoSuchKey);
      }
    }

    /** The object's visibility, its "default" ACL resolved through the
        configuration or the bucket. */
    method Visibility(path: string) returns (r: Result<FileAttributes, Exception>)
      ensures path in bucket.objects ==>
        r == Ok(FileAttributes(path, None, Some(Acl.ToVisibility(EffectiveAcl(bucket.objects[path].acl))), None, None))
      ensures path !in bucket.objects ==> r == Err(NoSuchKey)
    {
      if path !in bucket.objects {
        return Err(NoSuchKey);
      }
      var acl := bucket.objects[path].acl;
      acl := if acl == InheritedAcl then GetDefaultAcl() else acl;
      r := Ok(FileAttributes(path, None, Some(Acl.ToVisibility(acl)), None, None));
    }

    /** Setting "public" or "private" and reading the visibility back gives
        what was set: the ACL stored is never the inherited one, so neither the
        configuration nor the bucket's ACL is consulted. */
    lemma SetVisibilityThenVisibility(visibility: string)
      requires visibility == Acl.VisibilityPublic || visibility == Acl.VisibilityPrivate
      ensures Acl.ToAcl(visibility) != InheritedAcl
      ensures Acl.ToVisibility(EffectiveAcl(Acl.ToAcl(visibility))) == visibility
    {
      Acl.ToAclOfVisibilities();
      Acl.VisibilityRoundTrip(visibility);
    }

    /** The same round trip through the stored object: after setVisibility on
        an existing path, visibility reports the visibility that was set. */
    method SetThenGetVisibility(path: string, visibility: string) returns (r: Result<FileAttributes, Exception>)
      requires path in bucket.objects
      requires visibility == Acl.VisibilityPublic || visibility == Acl.VisibilityPrivate
      modifies bucket`objects
      ensures r.Ok? && r.value.visibility == Some(visibility)
    {
      var stored := SetVisibility(path, visibility);
      SetVisibilityThenVisibility(visibility);
      r := Visibility(path);
    }

    /** getObjectMeta turned into file attributes: size, time and content type. */
    function GetFileAttributes(path: string): (r: Result<FileAttributes, Exception>)
      reads bucket
      ensures r.Ok? <==> path in bucket.objects
      ensures r.Err? ==> r.error == NoSuchKey
      ensures r.Ok? ==> var o := bucket.objects[path];
        r.value == FileAttributes(path, Some(|o.contents|), None, Some(o.lastModified), Some(o.contentType))
    {
      if path in bucket.objects then
        var o := bucket.objects[path];
        Ok(FileAttributes(path, Some(|o.contents|), None, Some(o.lastModified), Some(o.contentType)))
      else Err(NoSuchKey)
    }

    method MimeType(path: string) returns (r: Result<FileAttributes, Exception>)
      ensures r == GetFileAttributes(path)
    {
      r := GetFileAttributes(path);
    }

    method LastModified(path: string) returns (r: Result<FileAttributes, Exception>)
      ensures r == GetFileAttributes(path)
    {
      r := GetFileAttributes(path);
    }

    method FileSize(path: string) returns (r: Result<FileAttributes, Exception>)
      ensures r == GetFileAttributes(path)
    {
      r := GetFileAttributes(path);
    }

    /** Listing is not offered: it always fails. */
    function ListContents(path: string, deep: bool): (r: Result<seq<FileAttributes>, Exception>)
      ensures r == Err(BadMethodCallException)
    {
      Err(BadMethodCallException)
    }

    method Copy(source: string, destination: string, now: int) returns (r: Result<(), Exception>)
      modifies bucket`objects
      ensures source in old(bucket.objects) ==>
        r == Ok(()) && bucket.objects == Copied(old(bucket.objects), source, destination, now)
      ensures source !in old(bucket.objects) ==> r == Err(NoSuchKey) && bucket.objects == old(bucket.objects)
    {
      if source !in bucket.objects {
        return Err(NoSuchKey);
      }
      bucket.objects := bucket.objects[destination := bucket.objects[source].(acl := InheritedAcl, lastModified := now)];
      r := Ok(());
    }

    /** Copy, then delete the source; a failed copy deletes nothing. */
    method Move(source: string, destination: string, now: int) returns (r: Result<(), Exception>)
      modifies bucket`objects
      ensures source in old(bucket.objects) ==>
        r == Ok(()) && bucket.objects == Moved(old(bucket.objects), source, destination, now)
      ensures source !in old(bucket.objects) ==> r == Err(NoSuchKey) && bucket.objects == old(bucket.objects)
    {
      r := Copy(source, destination, now);
      if r.Err? {
        return;
      }
      Delete(source);
    }

    /** signUrl: a bare path is signed and the signer's URL returned as is; an
        absolute URL has its path signed and keeps its own scheme, host and path,
        taking on every query pair of the signed URL. */
    function SignUrl(path: string, timeout: int, httpMethod: string, sign: Signer, syntax: UrlSyntax): (r: Result<string, Exception>)
      ensures syntax.parse(path).None? ==> r == Ok(sign(path, timeout, httpMethod))
      ensures syntax.parse(path).Some? && syntax.parse(sign(syntax.parse(path).value.path, timeout, httpMethod)).Some? ==>
        r == Ok(syntax.render(WithSignature(syntax.parse(path).value, syntax.parse(sign(syntax.parse(path).value.path, timeout, httpMethod)).value)))
      ensures syntax.parse(path).Some? && syntax.parse(sign(syntax.parse(path).value.path, timeout, httpMethod)).None? ==>
        r == Err(InvalidArgumentException)
    {
      match syntax.parse(path)
      case None => Ok(sign(path, timeout, httpMethod))
      case Some(url) =>
        match syntax.parse(sign(url.path, timeout, httpMethod))
        case None => Err(InvalidArgumentException)
        case Some(signed) => Ok(syntax.render(WithSignature(url, signed)))
    }

    /** url: the URL signed for GET with the default lifetime, its query dropped. */
    function Url(path: string, sign: Signer, syntax: UrlSyntax): (r: Result<string, Exception>)
      ensures r.Ok? ==> exists u :: r.value == syntax.render(u) && u.query == []
    {
      match SignUrl(path, DefaultTimeout, HttpGet, sign, syntax)
      case Err(e) => Err(e)
      case Ok(signed) =>
        match syntax.parse(signed)
        case None => Err(InvalidArgumentException)
        case Some(u) => Ok(syntax.render(u.(query := [])))
    }

    /** url of an absolute URL is that URL without its query: the signature
        signUrl adds is dropped again, whatever the signer answered, as long as
        rendering and parsing a URL give it back. */
    lemma UrlDropsSignature(path: string, sign: Signer, syntax: UrlSyntax)
      requires syntax.parse(path).Some?
      requires syntax.parse(sign(syntax.parse(path).value.path, DefaultTimeout, HttpGet)).Some?
      requires forall w :: syntax.parse(syntax.render(w)) == Some(w)
      ensures Url(path, sign, syntax) == Ok(syntax.render(syntax.parse(path).value.(query := [])))
    {
      var u := syntax.parse(path).value;
      var signed := syntax.parse(sign(u.path, DefaultTimeout, HttpGet)).value;
      var w := WithSignature(u, signed);
      assert syntax.parse(syntax.render(w)) == Some(w);
      assert w.(query := []) == u.(query := []);
    }
  }
}
