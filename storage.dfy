/** The storage service: uploading an image under the signed-in user's
    folder of a bucket and deleting an image given its public URL. */
module Storage {
  import opened Wrappers
  import Text
  import opened Backend

  /** What can be uploaded: a file object, or a data URI string. */
  datatype UploadSource = FileSource(file: StoredObject) | DataUriSource(uri: string)

  /** The MIME type used when the data URI does not name one. */
  const DefaultMime := "image/png"

  /** What decoding throws when the data URI has no comma (no payload). */
  const NotAString := "The first argument must be of type string or an instance of Buffer"

  /** The text after the last '.' of the given filename, or "png" when
      there is no filename or that text is empty. */
  function Extension(filename: Option<string>): string
  {
    if filename.None? then "png"
    else
      var parts := Text.Split(filename.value, '.');
      if parts[|parts| - 1] != "" then parts[|parts| - 1] else "png"
  }

  /** A non-empty caller-given filename is kept; otherwise the name is made
      from the clock and a random string. */
  function UniqueFilename(filename: Option<string>, timestamp: nat, randomStr: string): string
  {
    if filename.Some? && filename.value != "" then filename.value
    else Text.Decimal(timestamp) + "-" + randomStr + "." + Extension(filename)
  }

  /** Generated names always end in ".png": the extension is only looked up
      when there is no usable filename, so it is never anything else. */
  lemma GeneratedNamesArePng(filename: Option<string>, timestamp: nat, randomStr: string)
    requires filename.None? || filename.value == ""
    ensures UniqueFilename(filename, timestamp, randomStr) == Text.Decimal(timestamp) + "-" + randomStr + ".png"
  {
    if filename.Some? {
      Text.SplitNoSep("", '.');
    }
  }

  /** Objects live under `<user id>/<filename>`. */
  function StoragePath(userId: string, name: string): string
  {
    userId + "/" + name
  }

  /** The text between the first and the second comma of a data URI, or
      nothing when it has no comma. */
  function Base64Payload(uri: string): Option<string>
  {
    var parts := Text.Split(uri, ',');
    if |parts| >= 2 then Some(parts[1]) else None
  }

  /** The parts of `header,rest` are the header, then the parts of `rest`. */
  lemma {:induction false} SplitAfterHeader(header: string, rest: string)
    requires ',' !in header
    ensures Text.Split(header + "," + rest, ',') == [header] + Text.Split(rest, ',')
  {
    Text.SplitNoSep(header, ',');
    Text.SplitConcat(header, rest, ',');
    assert header + "," + rest == header + [','] + rest;
  }

  /** The first part of `payload` followed by nothing or a comma is `payload`. */
  lemma {:induction false} FirstPartIsPayload(payload: string, tail: string)
    requires ',' !in payload
    requires tail == "" || tail[0] == ','
    ensures Text.Split(payload + tail, ',')[0] == payload
  {
    Text.SplitNoSep(payload, ',');
    if tail == "" {
      assert payload + tail == payload;
    } else {
      var t := tail[1..];
      Text.SplitConcat(payload, t, ',');
      assert payload + tail == payload + [','] + t;
      var parts := Text.Split(payload + [','] + t, ',');
      assert parts == [payload] + Text.Split(t, ',');
    }
  }

  /** The payload of a data URI is exactly what follows its header's comma. */
  lemma {:induction false} PayloadOfDataUri(header: string, payload: string, tail: string)
    requires ',' !in header && ',' !in payload
    requires tail == "" || tail[0] == ','
    ensures Base64Payload(header + "," + payload + tail) == Some(payload)
  {
    SplitAfterHeader(header, payload + tail);
    FirstPartIsPayload(payload, tail);
    assert header + "," + payload + tail == header + "," + (payload + tail);
  }

  /** A URI without a comma has no payload. */
  lemma NoCommaNoPayload(uri: string)
    requires ',' !in uri
    ensures Base64Payload(uri) == None
  {
    Text.SplitNoSep(uri, ',');
  }

  /** The first index at or after `i` that holds ';', or |s| if none does. */
  function NextSemicolon(s: string, i: nat): (j: nat)
    requires i <= |s|
    ensures i <= j <= |s|
    ensures j < |s| ==> s[j] == ';'
    ensures forall k :: i <= k < j ==> s[k] != ';'
    decreases |s| - i
  {
    if i == |s| || s[i] == ';' then i else NextSemicolon(s, i + 1)
  }

  /** `/data:([^;]+);/` matches `s` at `j`: "data:", then at least one
      character other than ';', then a ';'. */
  predicate MatchesAt(s: string, j: nat)
  {
    j + 5 <= |s| && s[j..j + 5] == "data:" && j + 5 < NextSemicolon(s, j + 5) < |s|
  }

  /** The group of a match at `j`: everything from after "data:" up to the
      first ';' (the only ';' the greedy `[^;]+` can stop at). */
  function GroupAt(s: string, j: nat): string
    requires MatchesAt(s, j)
  {
    s[j + 5..NextSemicolon(s, j + 5)]
  }

  /** Group 1 of the leftmost match of `/data:([^;]+);/` starting at or
      after `i`, as `exec` returns it; None exactly when there is no match. */
  function MimeMatch(s: string, i: nat): (r: Option<string>)
    requires i <= |s|
    ensures r.Some? ==> r.value != [] && ';' !in r.value
    ensures r.None? ==> forall k :: i <= k ==> !MatchesAt(s, k)
    ensures r.Some? ==> exists j :: i <= j && MatchesAt(s, j) && r.value == GroupAt(s, j) &&
                                    forall k :: i <= k < j ==> !MatchesAt(s, k)
    decreases |s| - i
  {
    if i + 5 > |s| then None
    else
      var end := NextSemicolon(s, i + 5);
      if s[i..i + 5] == "data:" && i + 5 < end < |s| then
        assert MatchesAt(s, i);
        Some(s[i + 5..end])
      else
        var r := MimeMatch(s, i + 1);
        assert !MatchesAt(s, i);
        r
  }

  /** The MIME type named in a data URI header, or the default. */
  function MimeType(uri: string): string
  {
    match MimeMatch(uri, 0)
    case Some(m) => m
    case None => DefaultMime
  }

  /** `data:<mime>;...` yields `<mime>`. */
  lemma MimeOfDataUri(mime: string, rest: string)
    requires mime != [] && ';' !in mime
    ensures MimeType("data:" + mime + ";" + rest) == mime
  {
    var s := "data:" + mime + ";" + rest;
    var j := NextSemicolon(s, 5);
    assert s[5 + |mime|] == ';';
    assert s[0..5] == "data:";
    assert s[5..j] == mime;
  }

  /** Without any ';' the default MIME type is used. */
  lemma NoSemicolonDefaultMime(uri: string)
    requires ';' !in uri
    ensures MimeType(uri) == DefaultMime
  {
  }

  /** What is sent to the bucket: a file as it is, or the payload and MIME
      type of a data URI; nothing when the data URI has no payload. */
  function Prepare(source: UploadSource): Option<StoredObject>
  {
    match source
    case FileSource(f) => Some(f)
    case DataUriSource(uri) =>
      match Base64Payload(uri)
      case None => None
      case Some(payload) => Some(StoredObject(payload, MimeType(uri)))
  }

  /** The last two '/'-separated segments of a URL, joined by '/' (the whole
      URL when it has fewer than two). */
  function LastTwoSegments(url: string): string
  {
    var parts := Text.Split(url, '/');
    Text.Join(if |parts| >= 2 then parts[|parts| - 2..] else parts, "/")
  }

  /** Deleting by public URL reaches the uploaded object: the path recovered
      from the URL is the path the object was stored under, as long as
      neither the user id nor the filename holds a '/'. */
  lemma {:induction false} PathFromPublicUrl(db: Db, bucket: string, userId: string, name: string)
    requires '/' !in userId && '/' !in name
    ensures LastTwoSegments(db.PublicUrl(bucket, StoragePath(userId, name))) == StoragePath(userId, name)
  {
    var front := db.urlBase + "/" + bucket;
    var url := db.PublicUrl(bucket, StoragePath(userId, name));
    assert url == (front + ['/'] + userId) + ['/'] + name;
    Text.SplitConcat(front + ['/'] + userId, name, '/');
    Text.SplitConcat(front, userId, '/');
    Text.SplitNoSep(userId, '/');
    Text.SplitNoSep(name, '/');
    var parts := Text.Split(url, '/');
    assert parts == Text.Split(front, '/') + [userId] + [name];
    assert parts[|parts| - 2..] == [userId, name];
    Text.JoinCons([userId, name], "/");
    Text.JoinCons([name], "/");
  }

  /** A generated filename holds no '/' when the random part holds none. */
  lemma GeneratedNameHasNoSlash(timestamp: nat, randomStr: string)
    requires '/' !in randomStr
    ensures '/' !in UniqueFilename(None, timestamp, randomStr)
  {
    var name := UniqueFilename(None, timestamp, randomStr);
    var d := Text.Decimal(timestamp);
    assert name == d + "-" + randomStr + ".png";
    forall k | 0 <= k < |name| ensures name[k] != '/' {
      if k < |d| {
        assert name[k] == d[k];
      } else if k > |d| && k < |d| + 1 + |randomStr| {
        assert name[k] == randomStr[k - |d| - 1];
      }
    }
  }

  /** Uploads an image into `<user id>/<filename>` of a bucket, never
      overwriting, and gives back its public URL. */
  method UploadImage(db: Db, source: UploadSource, bucket: string, filename: Option<string>,
                     timestamp: nat, randomStr: string) returns (r: Result<string>)
    modifies db`objects
    ensures db.user.None? ==> r == Err(NotAuthenticated) && db.objects == old(db.objects)
    ensures db.user.Some? ==>
      var path := StoragePath(db.user.value, UniqueFilename(filename, timestamp, randomStr));
      var key := ObjectKey(bucket, path);
      match Prepare(source)
      case None => r == Err(NotAString) && db.objects == old(db.objects)
      case Some(obj) =>
        if bucket !in db.buckets then r == Err(BucketNotFound) && db.objects == old(db.objects)
        else if key in old(db.objects) then r == Err(ObjectExists) && db.objects == old(db.objects)
        else r == Ok(db.PublicUrl(bucket, path)) && db.objects == old(db.objects)[key := obj]
  {
    if db.user.None? {
      return Err(NotAuthenticated);
    }
    var name := UniqueFilename(filename, timestamp, randomStr);
    var path := StoragePath(db.user.value, name);
    var toUpload := Prepare(source);
    if toUpload.None? {
      return Err(NotAString);
    }
    var uploaded := db.Upload(bucket, path, toUpload.value);
    if uploaded.Err? {
      return Err(uploaded.error);
    }
    r := Ok(db.PublicUrl(bucket, uploaded.value));
  }

  /** Deletes the object a public URL points to. */
  method DeleteImage(db: Db, url: string, bucket: string) returns (r: Result<Unit>)
    modifies db`objects
    ensures db.user.None? ==> r == Err(NotAuthenticated) && db.objects == old(db.objects)
    ensures db.user.Some? && bucket !in db.buckets ==> r == Err(BucketNotFound) && db.objects == old(db.objects)
    ensures db.user.Some? && bucket in db.buckets ==>
              r == Ok(Unit) && db.objects == old(db.objects) - {ObjectKey(bucket, LastTwoSegments(url))}
  {
    if db.user.None? {
      return Err(NotAuthenticated);
    }
    r := db.Remove(bucket, LastTwoSegments(url));
  }
}
