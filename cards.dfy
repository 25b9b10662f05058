/** The cards service: the signed-in user's card library in the `cards`
    table, with favourites, creation, deletion (with its stored image) and
    partial updates. Every query is restricted to the signed-in user's rows. */
module Cards {
  import opened Wrappers
  import opened Types
  import Seqs
  import opened Backend
  import Storage

  const CardNotFound := "Cartão não encontrado"

  /** The only bucket a card's image is removed from when the card is deleted. */
  const ImageBucket := "original-images"

  /** A row as a library card: a missing or false `is_favorite` reads as false. */
  function RowToCard(row: CardRow): PecCard
  {
    PecCard(row.id, row.name, row.category, row.imageUrl, Some(row.isFavorite == Some(true)))
  }

  /** A row as `createCard` and `updateCard` return it: without `isFavorite`. */
  function RowToPlainCard(row: CardRow): PecCard
  {
    PecCard(row.id, row.name, row.category, row.imageUrl, None)
  }

  function CreatedAt(row: CardRow): int { row.createdAt }

  /** `.eq('id', id).eq('user_id', uid)`. */
  predicate Selected(row: CardRow, id: string, uid: string)
  {
    row.id == id && row.userId == uid
  }

  /** `.eq('user_id', uid)`. */
  function Owned(rows: seq<CardRow>, uid: string): seq<CardRow>
  {
    Seqs.Filter(rows, (row: CardRow) => row.userId == uid)
  }

  /** The rows an id query of the signed-in user finds. */
  function Matching(rows: seq<CardRow>, id: string, uid: string): seq<CardRow>
  {
    Seqs.Filter(rows, (row: CardRow) => Selected(row, id, uid))
  }

  /** The ids present in the table. */
  function Ids(rows: seq<CardRow>): set<string>
  {
    set row | row in rows :: row.id
  }

  /** What `getCards` lists: the user's rows, newest first, as cards. */
  function LibraryOf(rows: seq<CardRow>, uid: string): seq<PecCard>
  {
    Seqs.Map(Seqs.SortDesc(Owned(rows, uid), CreatedAt), RowToCard)
  }

  /** The library holds one card per row of the user, and every card's
      favourite flag is a boolean. */
  lemma LibraryShape(rows: seq<CardRow>, uid: string)
    ensures |LibraryOf(rows, uid)| == |Owned(rows, uid)|
    ensures forall i :: 0 <= i < |LibraryOf(rows, uid)| ==> LibraryOf(rows, uid)[i].isFavorite.Some?
  {
  }

  /** Every card in the library stands for a row of the signed-in user. */
  lemma {:induction false} LibrarySound(rows: seq<CardRow>, uid: string)
    ensures forall c :: c in LibraryOf(rows, uid) ==>
              exists row :: row in rows && row.userId == uid && c == RowToCard(row)
  {
    var owned := Owned(rows, uid);
    var sorted := Seqs.SortDesc(owned, CreatedAt);
    var lib := LibraryOf(rows, uid);
    forall c | c in lib
      ensures exists row :: row in rows && row.userId == uid && c == RowToCard(row)
    {
      var i :| 0 <= i < |lib| && lib[i] == c;
      assert sorted[i] in multiset(owned);
      assert sorted[i] in owned;
    }
  }

  /** Every row of the signed-in user is listed in the library. */
  lemma {:induction false} LibraryComplete(rows: seq<CardRow>, uid: string)
    ensures forall row :: row in rows && row.userId == uid ==> RowToCard(row) in LibraryOf(rows, uid)
  {
    var owned := Owned(rows, uid);
    var sorted := Seqs.SortDesc(owned, CreatedAt);
    var lib := LibraryOf(rows, uid);
    Seqs.FilterCount(rows, (row: CardRow) => row.userId == uid);
    forall row | row in rows && row.userId == uid
      ensures RowToCard(row) in lib
    {
      assert multiset(rows)[row] > 0;
      assert row in multiset(sorted);
      var i :| 0 <= i < |sorted| && sorted[i] == row;
      assert lib[i] == RowToCard(row);
    }
  }

  /** The rows of the user in the library are ordered newest first. */
  lemma LibraryNewestFirst(rows: seq<CardRow>, uid: string)
    ensures exists sorted: seq<CardRow> ::
              multiset(sorted) == multiset(Owned(rows, uid)) &&
              Seqs.SortedDesc(sorted, CreatedAt) &&
              LibraryOf(rows, uid) == Seqs.Map(sorted, RowToCard)
  {
    var sorted := Seqs.SortDesc(Owned(rows, uid), CreatedAt);
    assert LibraryOf(rows, uid) == Seqs.Map(sorted, RowToCard);
  }

  /** `update(...).eq('id', id).eq('user_id', uid)`: `f` applied to every
      selected row, the others untouched, the order kept. */
  function UpdateWhere(rows: seq<CardRow>, id: string, uid: string, f: CardRow -> CardRow): (r: seq<CardRow>)
    ensures |r| == |rows|
  {
    if rows == [] then []
    else [if Selected(rows[0], id, uid) then f(rows[0]) else rows[0]] + UpdateWhere(rows[1..], id, uid, f)
  }

  /** An update of the signed-in user's rows leaves every other user's rows as they were. */
  lemma {:induction false} UpdateWhereLeavesOthers(rows: seq<CardRow>, id: string, uid: string,
                                                    f: CardRow -> CardRow, other: string)
    requires other != uid
    requires forall row :: f(row).userId == row.userId
    ensures Owned(UpdateWhere(rows, id, uid, f), other) == Owned(rows, other)
  {
    if rows != [] {
      UpdateWhereLeavesOthers(rows[1..], id, uid, f, other);
      var r := UpdateWhere(rows, id, uid, f);
      assert r[1..] == UpdateWhere(rows[1..], id, uid, f);
      assert r[0].userId == other <==> rows[0].userId == other;
      assert r[0].userId == other ==> r[0] == rows[0];
    }
  }

  /** An update that keeps ids and owners finds the same rows again, each
      with `f` applied. */
  lemma {:induction false} UpdateWhereMatching(rows: seq<CardRow>, id: string, uid: string, f: CardRow -> CardRow)
    requires forall row :: f(row).id == row.id && f(row).userId == row.userId
    ensures Matching(UpdateWhere(rows, id, uid, f), id, uid) == Seqs.Map(Matching(rows, id, uid), f)
    decreases |rows|
  {
    if rows != [] {
      UpdateWhereMatching(rows[1..], id, uid, f);
      var r := UpdateWhere(rows, id, uid, f);
      assert r[1..] == UpdateWhere(rows[1..], id, uid, f);
      var sel := Selected(rows[0], id, uid);
      assert Selected(r[0], id, uid) == sel;
      var h := if sel then [rows[0]] else [];
      assert Matching(rows, id, uid) == h + Matching(rows[1..], id, uid);
      assert Matching(r, id, uid) == Seqs.Map(h, f) + Matching(r[1..], id, uid);
      Seqs.MapAppend(h, Matching(rows[1..], id, uid), f);
    }
  }

  /** Sets the favourite flag. */
  function FavoriteFlag(b: bool): CardRow -> CardRow
  {
    (row: CardRow) => row.(isFavorite := Some(b))
  }

  /** `update({ is_favorite: b })` on the selected rows. */
  function SetFavorite(rows: seq<CardRow>, id: string, uid: string, b: bool): seq<CardRow>
  {
    UpdateWhere(rows, id, uid, FavoriteFlag(b))
  }

  /** Toggling twice: after the first toggle stored `b`, the card is found
      again with flag `b`, so the second toggle stores and returns `!b`. */
  lemma ToggleTwice(rows: seq<CardRow>, id: string, uid: string)
    requires |Matching(rows, id, uid)| == 1
    ensures var b := Matching(rows, id, uid)[0].isFavorite != Some(true);
            var after := Matching(SetFavorite(rows, id, uid, b), id, uid);
            |after| == 1 && after[0] == Matching(rows, id, uid)[0].(isFavorite := Some(b)) &&
            (after[0].isFavorite != Some(true)) == !b
  {
    var b := Matching(rows, id, uid)[0].isFavorite != Some(true);
    UpdateWhereMatching(rows, id, uid, FavoriteFlag(b));
  }

  /** Present fields replace the row's; absent ones are not sent. */
  datatype CardUpdate = CardUpdate(name: Option<string>, category: Option<string>, imageSrc: Option<string>)

  /** The row after an update: a present name, category or image source
      is written to the row; nothing else changes. */
  function ApplyUpdate(row: CardRow, u: CardUpdate): (r: CardRow)
    ensures r.name == (if u.name.Some? then u.name.value else row.name)
    ensures r.category == (if u.category.Some? then u.category.value else row.category)
    ensures r.imageUrl == (if u.imageSrc.Some? then u.imageSrc.value else row.imageUrl)
    ensures r.id == row.id && r.userId == row.userId && r.isFavorite == row.isFavorite
    ensures r.originalImageUrl == row.originalImageUrl && r.createdAt == row.createdAt
    ensures u == CardUpdate(None, None, None) ==> r == row
  {
    row.(name := if u.name.Some? then u.name.value else row.name,
         category := if u.category.Some? then u.category.value else row.category,
         imageUrl := if u.imageSrc.Some? then u.imageSrc.value else row.imageUrl)
  }

  function UpdateRows(rows: seq<CardRow>, id: string, uid: string, u: CardUpdate): seq<CardRow>
  {
    UpdateWhere(rows, id, uid, (row: CardRow) => ApplyUpdate(row, u))
  }

  /** `delete().eq('id', id).eq('user_id', uid)`. */
  function RemoveWhere(rows: seq<CardRow>, id: string, uid: string): seq<CardRow>
  {
    Seqs.Filter(rows, (row: CardRow) => !Selected(row, id, uid))
  }

  /** Deleting removes every occurrence of the selected card and nothing else. */
  lemma RemoveWhereSpec(rows: seq<CardRow>, id: string, uid: string)
    ensures forall row :: multiset(RemoveWhere(rows, id, uid))[row] ==
              if Selected(row, id, uid) then 0 else multiset(rows)[row]
    ensures Matching(RemoveWhere(rows, id, uid), id, uid) == []
  {
    Seqs.FilterCount(rows, (row: CardRow) => !Selected(row, id, uid));
    var r := RemoveWhere(rows, id, uid);
    Seqs.FilterKeepsNone(r, (row: CardRow) => Selected(row, id, uid));
  }

  /** The objects after deleting the card found by the lookup: its image is
      removed from the image bucket when it has one and that bucket exists. */
  function ObjectsAfterDelete(objects: map<ObjectKey, StoredObject>, found: seq<CardRow>,
                              buckets: set<string>): map<ObjectKey, StoredObject>
  {
    if |found| == 1 && found[0].imageUrl != "" && ImageBucket in buckets
    then objects - {ObjectKey(ImageBucket, Storage.LastTwoSegments(found[0].imageUrl))}
    else objects
  }

  /** Deleting a card removes at most one object, and only from the image bucket. */
  lemma OnlyImageBucketTouched(objects: map<ObjectKey, StoredObject>, found: seq<CardRow>, buckets: set<string>)
    ensures forall key :: key in objects && key.bucket != ImageBucket ==>
              key in ObjectsAfterDelete(objects, found, buckets) &&
              ObjectsAfterDelete(objects, found, buckets)[key] == objects[key]
    ensures |objects.Keys - ObjectsAfterDelete(objects, found, buckets).Keys| <= 1
    ensures ObjectsAfterDelete(objects, found, buckets).Keys <= objects.Keys
  {
    var after := ObjectsAfterDelete(objects, found, buckets);
    if |found| == 1 && found[0].imageUrl != "" && ImageBucket in buckets {
      var k := ObjectKey(ImageBucket, Storage.LastTwoSegments(found[0].imageUrl));
      assert objects.Keys - after.Keys <= {k};
    } else {
      assert objects.Keys - after.Keys == {};
    }
  }

  /** `getCards`. */
  method GetCards(db: Db) returns (r: Result<seq<PecCard>>)
    ensures db.user.None? ==> r == Err(NotAuthenticated)
    ensures db.user.Some? ==> r == Ok(LibraryOf(db.cardRows, db.user.value))
  {
    if db.user.None? {
      return Err(NotAuthenticated);
    }
    var rows := Seqs.SortDesc(Owned(db.cardRows, db.user.value), CreatedAt);
    r := Ok(Seqs.Map(rows, RowToCard));
  }

  /** `toggleFavorite`: flips the card's flag and returns the new value. */
  method ToggleFavorite(db: Db, cardId: string) returns (r: Result<bool>)
    modifies db`cardRows
    ensures db.user.None? ==> r == Err(NotAuthenticated) && db.cardRows == old(db.cardRows)
    ensures db.user.Some? ==>
      var found := Matching(old(db.cardRows), cardId, db.user.value);
      if |found| != 1 then r == Err(CardNotFound) && db.cardRows == old(db.cardRows)
      else r == Ok(found[0].isFavorite != Some(true)) &&
           db.cardRows == SetFavorite(old(db.cardRows), cardId, db.user.value, r.value)
  {
    if db.user.None? {
      return Err(NotAuthenticated);
    }
    var uid := db.user.value;
    var found := Matching(db.cardRows, cardId, uid);
    if |found| != 1 {
      return Err(CardNotFound);
    }
    var newState := !(found[0].isFavorite == Some(true));
    db.cardRows := SetFavorite(db.cardRows, cardId, uid, newState);
    r := Ok(newState);
  }

  /** What `createCard` is given. */
  datatype NewCard = NewCard(name: string, category: string, imageUrl: string, originalImageUrl: Option<string>)

  /** The row `createCard` inserts, with the id and time the database assigns. */
  function NewRow(card: NewCard, uid: string, newId: string, createdAt: int): CardRow
  {
    CardRow(newId, uid, card.name, card.category, card.imageUrl, card.originalImageUrl, None, createdAt)
  }

  /** A created card is listed in its owner's library, not as a favourite. */
  lemma CreatedCardListed(rows: seq<CardRow>, card: NewCard, uid: string, newId: string, createdAt: int)
    ensures var row := NewRow(card, uid, newId, createdAt);
            RowToCard(row) in LibraryOf(rows + [row], uid) &&
            RowToCard(row) == RowToPlainCard(row).(isFavorite := Some(false))
  {
    var row := NewRow(card, uid, newId, createdAt);
    LibraryComplete(rows + [row], uid);
    assert row in rows + [row];
  }

  /** `createCard`: inserts a row for the signed-in user. */
  method CreateCard(db: Db, card: NewCard, newId: string, createdAt: int) returns (r: Result<PecCard>)
    modifies db`cardRows
    ensures db.user.None? ==> r == Err(NotAuthenticated) && db.cardRows == old(db.cardRows)
    ensures db.user.Some? && newId in Ids(old(db.cardRows)) ==>
              r == Err(DuplicateKey) && db.cardRows == old(db.cardRows)
    ensures db.user.Some? && newId !in Ids(old(db.cardRows)) ==>
              var row := NewRow(card, db.user.value, newId, createdAt);
              r == Ok(RowToPlainCard(row)) && db.cardRows == old(db.cardRows) + [row]
  {
    if db.user.None? {
      return Err(NotAuthenticated);
    }
    if newId in Ids(db.cardRows) {
      return Err(DuplicateKey);
    }
    var row := NewRow(card, db.user.value, newId, createdAt);
    db.cardRows := db.cardRows + [row];
    r := Ok(RowToPlainCard(row));
  }

  /** `deleteCard`: removes the card's image from the image bucket (ignoring
      any failure there), then the card's row. */
  method DeleteCard(db: Db, cardId: string) returns (r: Result<Unit>)
    modifies db`cardRows, db`objects
    ensures db.user.None? ==>
              r == Err(NotAuthenticated) && db.cardRows == old(db.cardRows) && db.objects == old(db.objects)
    ensures db.user.Some? ==>
              r == Ok(Unit) &&
              db.cardRows == RemoveWhere(old(db.cardRows), cardId, db.user.value) &&
              db.objects == ObjectsAfterDelete(old(db.objects), Matching(old(db.cardRows), cardId, db.user.value), db.buckets)
  {
    if db.user.None? {
      return Err(NotAuthenticated);
    }
    var uid := db.user.value;
    var found := Matching(db.cardRows, cardId, uid);
    if |found| == 1 && found[0].imageUrl != "" {
      var imagePath := Storage.LastTwoSegments(found[0].imageUrl);
      var _ := db.Remove(ImageBucket, imagePath);
    }
    db.cardRows := RemoveWhere(db.cardRows, cardId, uid);
    r := Ok(Unit);
  }

  /** `updateCard`: updates the selected rows, then reads back exactly one. */
  method UpdateCard(db: Db, cardId: string, updates: CardUpdate) returns (r: Result<PecCard>)
    modifies db`cardRows
    ensures db.user.None? ==> r == Err(NotAuthenticated) && db.cardRows == old(db.cardRows)
    ensures db.user.Some? ==>
      var found := Matching(old(db.cardRows), cardId, db.user.value);
      db.cardRows == UpdateRows(old(db.cardRows), cardId, db.user.value, updates) &&
      (|found| == 1 ==> r == Ok(RowToPlainCard(ApplyUpdate(found[0], updates)))) &&
      (|found| != 1 ==> r == Err(NotSingleRow))
  {
    if db.user.None? {
      return Err(NotAuthenticated);
    }
    var uid := db.user.value;
    UpdateWhereMatching(db.cardRows, cardId, uid, (row: CardRow) => ApplyUpdate(row, updates));
    db.cardRows := UpdateRows(db.cardRows, cardId, uid, updates);
    // `.select().single()` reads the updated rows back
    var updated := Matching(db.cardRows, cardId, uid);
    if |updated| != 1 {
      return Err(NotSingleRow);
    }
    r := Ok(RowToPlainCard(updated[0]));
  }
}
