/** The hosted backend as the services see it: the signed-in user, the
    `cards` and `saved_phrases` tables, and the object-storage buckets, all
    in memory. Only the failures that follow from the data are modelled: a
    missing bucket, an existing object under `upsert: false`, a clashing
    primary key, and a `.single()` query that does not find exactly one row. */
module Backend {
  import opened Wrappers
  import opened Types

  /** A row of the `cards` table. */
  datatype CardRow = CardRow(
    id: string, userId: string, name: string, category: string, imageUrl: string,
    originalImageUrl: Option<string>, isFavorite: Option<bool>, createdAt: int)

  /** A row of the `saved_phrases` table. */
  datatype PhraseRow = PhraseRow(
    id: string, userId: string, phraseText: string, phraseData: seq<PhraseItem>, createdAt: int)

  /** Where an object lives: its bucket and its path inside the bucket. */
  datatype ObjectKey = ObjectKey(bucket: string, path: string)

  /** A stored file: its (base64) contents and MIME type. */
  datatype StoredObject = StoredObject(payload: string, mimeType: string)

  /** The message every service throws when no user is signed in. */
  const NotAuthenticated := "Usuário não autenticado"

  const BucketNotFound := "Bucket not found"
  const ObjectExists := "The resource already exists"
  const DuplicateKey := "duplicate key value violates unique constraint"
  const NotSingleRow := "JSON object requested, multiple (or no) rows returned"

  class Db {
    var user: Option<string>
    var cardRows: seq<CardRow>
    var phraseRows: seq<PhraseRow>
    var objects: map<ObjectKey, StoredObject>
    var buckets: set<string>
    /** The project URL that public object URLs start with. */
    const urlBase: string

    constructor (urlBase: string, buckets: set<string>, user: Option<string>)
      ensures this.urlBase == urlBase && this.buckets == buckets && this.user == user
      ensures cardRows == [] && phraseRows == [] && objects == map[]
    {
      this.urlBase := urlBase;
      this.buckets := buckets;
      this.user := user;
      cardRows := [];
      phraseRows := [];
      objects := map[];
    }

    /** The public URL of an object: the project URL, the bucket, then the path. */
    function PublicUrl(bucket: string, path: string): string
    {
      urlBase + "/" + bucket + "/" + path
    }

    /** Stores an object without overwriting (`upsert: false`); gives back the path. */
    method Upload(bucket: string, path: string, obj: StoredObject) returns (r: Result<string>)
      modifies this`objects
      ensures bucket !in buckets ==> r == Err(BucketNotFound) && objects == old(objects)
      ensures bucket in buckets && ObjectKey(bucket, path) in old(objects) ==>
                r == Err(ObjectExists) && objects == old(objects)
      ensures bucket in buckets && ObjectKey(bucket, path) !in old(objects) ==>
                r == Ok(path) && objects == old(objects)[ObjectKey(bucket, path) := obj]
    {
      var key := ObjectKey(bucket, path);
      if bucket !in buckets {
        r := Err(BucketNotFound);
      } else if key in objects {
        r := Err(ObjectExists);
      } else {
        objects := objects[key := obj];
        r := Ok(path);
      }
    }

    /** Removes the object at a path, if any. */
    method Remove(bucket: string, path: string) returns (r: Result<Unit>)
      modifies this`objects
      ensures bucket !in buckets ==> r == Err(BucketNotFound) && objects == old(objects)
      ensures bucket in buckets ==> r == Ok(Unit) && objects == old(objects) - {ObjectKey(bucket, path)}
    {
      if bucket !in buckets {
        r := Err(BucketNotFound);
      } else {
        objects := objects - {ObjectKey(bucket, path)};
        r := Ok(Unit);
      }
    }
  }
}
