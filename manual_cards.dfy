/** Creating a card by hand, without recognition: the image is uploaded,
    then a card row pointing at its public URL is inserted. Any failure is
    reported as one fixed message. */
module ManualCards {
  import opened Wrappers
  import opened Types
  import opened Backend
  import Storage
  import Cards

  /** The bucket the manual path uploads to, as written. */
  const ManualBucket := "pec-cards"

  const ManualCardFailed := "Não foi possível criar o cartão manualmente"

  datatype ManualCardInput = ManualCardInput(name: string, category: string, imageDataUri: string)

  datatype ManualCardResult = ManualCardResult(success: bool, card: PecCard)

  /** Uploads the data URI under a generated name in `bucket`, then creates
      the card. A failing card insert leaves the uploaded image in place. */
  method UploadAndCreate(db: Db, input: ManualCardInput, bucket: string, timestamp: nat, randomStr: string,
                         newId: string, createdAt: int) returns (r: Result<ManualCardResult>)
    modifies db`objects, db`cardRows
    ensures r.Err? ==> r.error == ManualCardFailed
    ensures db.user.None? || Storage.Prepare(Storage.DataUriSource(input.imageDataUri)).None? ==>
              r.Err? && db.objects == old(db.objects) && db.cardRows == old(db.cardRows)
    ensures db.user.Some? && Storage.Prepare(Storage.DataUriSource(input.imageDataUri)).Some? ==>
      var path := Storage.StoragePath(db.user.value, Storage.UniqueFilename(None, timestamp, randomStr));
      var key := ObjectKey(bucket, path);
      var obj := Storage.Prepare(Storage.DataUriSource(input.imageDataUri)).value;
      var row := Cards.NewRow(Cards.NewCard(input.name, input.category, db.PublicUrl(bucket, path), None),
                              db.user.value, newId, createdAt);
      if bucket !in db.buckets || key in old(db.objects) then
        r.Err? && db.objects == old(db.objects) && db.cardRows == old(db.cardRows)
      else
        db.objects == old(db.objects)[key := obj] &&
        (newId in Cards.Ids(old(db.cardRows)) ==> r.Err? && db.cardRows == old(db.cardRows)) &&
        (newId !in Cards.Ids(old(db.cardRows)) ==>
           r == Ok(ManualCardResult(true, Cards.RowToPlainCard(row))) && db.cardRows == old(db.cardRows) + [row])
  {
    var imageUrl := Storage.UploadImage(db, Storage.DataUriSource(input.imageDataUri), bucket, None, timestamp, randomStr);
    if imageUrl.Err? {
      return Err(ManualCardFailed);
    }
    var card := Cards.CreateCard(db, Cards.NewCard(input.name, input.category, imageUrl.value, None), newId, createdAt);
    if card.Err? {
      return Err(ManualCardFailed);
    }
    r := Ok(ManualCardResult(true, card.value));
  }

  /** `createManualCard` as written: the image goes to the "pec-cards" bucket. */
  method CreateManualCard(db: Db, input: ManualCardInput, timestamp: nat, randomStr: string,
                          newId: string, createdAt: int) returns (r: Result<ManualCardResult>)
    modifies db`objects, db`cardRows
    ensures r.Err? ==> r.error == ManualCardFailed
    ensures db.user.None? || Storage.Prepare(Storage.DataUriSource(input.imageDataUri)).None? ==>
              r.Err? && db.objects == old(db.objects) && db.cardRows == old(db.cardRows)
    ensures db.user.Some? && Storage.Prepare(Storage.DataUriSource(input.imageDataUri)).Some? ==>
      var path := Storage.StoragePath(db.user.value, Storage.UniqueFilename(None, timestamp, randomStr));
      var key := ObjectKey(ManualBucket, path);
      var obj := Storage.Prepare(Storage.DataUriSource(input.imageDataUri)).value;
      var row := Cards.NewRow(Cards.NewCard(input.name, input.category, db.PublicUrl(ManualBucket, path), None),
                              db.user.value, newId, createdAt);
      if ManualBucket !in db.buckets || key in old(db.objects) then
        r.Err? && db.objects == old(db.objects) && db.cardRows == old(db.cardRows)
      else
        db.objects == old(db.objects)[key := obj] &&
        (newId in Cards.Ids(old(db.cardRows)) ==> r.Err? && db.cardRows == old(db.cardRows)) &&
        (newId !in Cards.Ids(old(db.cardRows)) ==>
           r == Ok(ManualCardResult(true, Cards.RowToPlainCard(row))) && db.cardRows == old(db.cardRows) + [row])
  {
    r := UploadAndCreate(db, input, ManualBucket, timestamp, randomStr, newId, createdAt);
  }

  /** `createManualCard` with the image in the bucket card deletion cleans up. */
  method CreateManualCardCorrected(db: Db, input: ManualCardInput, timestamp: nat, randomStr: string,
                                   newId: string, createdAt: int) returns (r: Result<ManualCardResult>)
    modifies db`objects, db`cardRows
    ensures r.Err? ==> r.error == ManualCardFailed
    ensures db.user.None? || Storage.Prepare(Storage.DataUriSource(input.imageDataUri)).None? ==>
              r.Err? && db.objects == old(db.objects) && db.cardRows == old(db.cardRows)
    ensures db.user.Some? && Storage.Prepare(Storage.DataUriSource(input.imageDataUri)).Some? ==>
      var path := Storage.StoragePath(db.user.value, Storage.UniqueFilename(None, timestamp, randomStr));
      var key := ObjectKey(Cards.ImageBucket, path);
      var obj := Storage.Prepare(Storage.DataUriSource(input.imageDataUri)).value;
      var row := Cards.NewRow(Cards.NewCard(input.name, input.category, db.PublicUrl(Cards.ImageBucket, path), None),
                              db.user.value, newId, createdAt);
      if Cards.ImageBucket !in db.buckets || key in old(db.objects) then
        r.Err? && db.objects == old(db.objects) && db.cardRows == old(db.cardRows)
      else
        db.objects == old(db.objects)[key := obj] &&
        (newId in Cards.Ids(old(db.cardRows)) ==> r.Err? && db.cardRows == old(db.cardRows)) &&
        (newId !in Cards.Ids(old(db.cardRows)) ==>
           r == Ok(ManualCardResult(true, Cards.RowToPlainCard(row))) && db.cardRows == old(db.cardRows) + [row])
  {
    r := UploadAndCreate(db, input, Cards.ImageBucket, timestamp, randomStr, newId, createdAt);
  }

  /** When a card's image was uploaded to `bucket` under the user's folder,
      deleting the card removes that image exactly when `bucket` is the image
      bucket. */
  lemma DeleteRemovesImageIff(db: Db, objects: map<ObjectKey, StoredObject>, buckets: set<string>,
                              bucket: string, uid: string, name: string, row: CardRow)
    requires '/' !in uid && '/' !in name && name != ""
    requires row.imageUrl == db.PublicUrl(bucket, Storage.StoragePath(uid, name))
    requires Cards.ImageBucket in buckets
    requires ObjectKey(bucket, Storage.StoragePath(uid, name)) in objects
    ensures ObjectKey(bucket, Storage.StoragePath(uid, name)) in Cards.ObjectsAfterDelete(objects, [row], buckets)
            <==> bucket != Cards.ImageBucket
  {
    Storage.PathFromPublicUrl(db, bucket, uid, name);
  }

  /** As written, the image of a manually created card outlives the card. */
  lemma ManualImageOrphaned(db: Db, objects: map<ObjectKey, StoredObject>, buckets: set<string>,
                            uid: string, timestamp: nat, randomStr: string, row: CardRow)
    requires '/' !in uid && '/' !in randomStr
    requires row.imageUrl == db.PublicUrl(ManualBucket, Storage.StoragePath(uid, Storage.UniqueFilename(None, timestamp, randomStr)))
    requires Cards.ImageBucket in buckets
    requires ObjectKey(ManualBucket, Storage.StoragePath(uid, Storage.UniqueFilename(None, timestamp, randomStr))) in objects
    ensures ObjectKey(ManualBucket, Storage.StoragePath(uid, Storage.UniqueFilename(None, timestamp, randomStr)))
              in Cards.ObjectsAfterDelete(objects, [row], buckets)
  {
    Storage.GeneratedNameHasNoSlash(timestamp, randomStr);
    DeleteRemovesImageIff(db, objects, buckets, ManualBucket, uid, Storage.UniqueFilename(None, timestamp, randomStr), row);
  }

  /** Corrected, deleting the card removes the image it was created with. */
  lemma CorrectedManualImageRemoved(db: Db, objects: map<ObjectKey, StoredObject>, buckets: set<string>,
                                    uid: string, timestamp: nat, randomStr: string, row: CardRow)
    requires '/' !in uid && '/' !in randomStr
    requires row.imageUrl == db.PublicUrl(Cards.ImageBucket, Storage.StoragePath(uid, Storage.UniqueFilename(None, timestamp, randomStr)))
    requires Cards.ImageBucket in buckets
    requires ObjectKey(Cards.ImageBucket, Storage.StoragePath(uid, Storage.UniqueFilename(None, timestamp, randomStr))) in objects
    ensures ObjectKey(Cards.ImageBucket, Storage.StoragePath(uid, Storage.UniqueFilename(None, timestamp, randomStr)))
              !in Cards.ObjectsAfterDelete(objects, [row], buckets)
  {
    Storage.GeneratedNameHasNoSlash(timestamp, randomStr);
    DeleteRemovesImageIff(db, objects, buckets, Cards.ImageBucket, uid, Storage.UniqueFilename(None, timestamp, randomStr), row);
  }
}
