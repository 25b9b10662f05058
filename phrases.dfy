/** The phrase history service: saving an assembled phrase to the
    `saved_phrases` table, listing the signed-in user's most recent phrases,
    and deleting one. */
module Phrases {
  import opened Wrappers
  import opened Types
  import Seqs
  import Text
  import opened Backend

  /** How many phrases the history lists at most. */
  const HistoryLimit := 20

  /** The word an item contributes to the phrase text. */
  function Label(item: PhraseItem): string
  {
    match item
    case CardItem(_, card) => card.name
    case TextItem(_, text) => text
  }

  /** The searchable text of a phrase: its labels, in order, separated by one space. */
  function PhraseText(items: seq<PhraseItem>): string
  {
    Text.Join(Seqs.Map(items, Label), " ")
  }

  /** An empty phrase has the empty text. */
  lemma PhraseTextEmpty()
    ensures PhraseText([]) == ""
  {
  }

  /** The text of a longer phrase is the texts of its parts joined by a space. */
  lemma PhraseTextAppend(a: seq<PhraseItem>, b: seq<PhraseItem>)
    requires |a| >= 1 && |b| >= 1
    ensures PhraseText(a + b) == PhraseText(a) + " " + PhraseText(b)
  {
    assert Seqs.Map(a + b, Label) == Seqs.Map(a, Label) + Seqs.Map(b, Label);
    Text.JoinAppend(Seqs.Map(a, Label), Seqs.Map(b, Label), " ");
  }

  /** When no label holds a space, the labels can be read back from the text. */
  lemma PhraseTextWords(items: seq<PhraseItem>)
    requires |items| >= 1
    requires forall i :: 0 <= i < |items| ==> ' ' !in Label(items[i])
    ensures Text.Split(PhraseText(items), ' ') == Seqs.Map(items, Label)
  {
    Text.SplitJoin(Seqs.Map(items, Label), ' ');
  }

  /** A card "Água" followed by the text "por favor" is stored as "Água por favor". */
  lemma PhraseTextExample()
    ensures PhraseText([CardItem("p1", PecCard("c1", "Água", "Bebidas", "img", None)),
                        TextItem("p2", "por favor")]) == "Água por favor"
  {
    var items := [CardItem("p1", PecCard("c1", "Água", "Bebidas", "img", None)), TextItem("p2", "por favor")];
    var labels := Seqs.Map(items, Label);
    assert labels == ["Água", "por favor"];
    Text.JoinCons(labels, " ");
    Text.JoinCons(labels[1..], " ");
  }

  function PhraseCreatedAt(row: PhraseRow): int { row.createdAt }

  /** `.eq('user_id', uid)`. */
  function OwnedPhrases(rows: seq<PhraseRow>, uid: string): seq<PhraseRow>
  {
    Seqs.Filter(rows, (row: PhraseRow) => row.userId == uid)
  }

  /** What `getSavedPhrases` lists: the user's rows, newest first, at most 20. */
  function RecentPhrases(rows: seq<PhraseRow>, uid: string): seq<PhraseRow>
  {
    Seqs.Limit(Seqs.SortDesc(OwnedPhrases(rows, uid), PhraseCreatedAt), HistoryLimit)
  }

  /** The history holds at most 20 of the user's own rows, newest first, and
      every row of the user that is left out is no newer than any row listed. */
  lemma {:induction false} RecentPhrasesSpec(rows: seq<PhraseRow>, uid: string)
    ensures var r := RecentPhrases(rows, uid);
            var owned := OwnedPhrases(rows, uid);
            |r| == (if |owned| <= HistoryLimit then |owned| else HistoryLimit) &&
            (forall i :: 0 <= i < |r| ==> r[i].userId == uid && r[i] in rows) &&
            Seqs.SortedDesc(r, PhraseCreatedAt) &&
            (|owned| <= HistoryLimit ==> multiset(r) == multiset(owned))
  {
    var owned := OwnedPhrases(rows, uid);
    var sorted := Seqs.SortDesc(owned, PhraseCreatedAt);
    var r := RecentPhrases(rows, uid);
    forall i | 0 <= i < |r| ensures r[i].userId == uid && r[i] in rows {
      assert r[i] == sorted[i];
      assert sorted[i] in multiset(owned);
      assert sorted[i] in owned;
    }
  }

  /** Nothing newer is left out: a row of the user missing from the history
      is no newer than any row in it. */
  lemma {:induction false} RecentPhrasesAreNewest(rows: seq<PhraseRow>, uid: string, row: PhraseRow)
    requires row in rows && row.userId == uid && row !in RecentPhrases(rows, uid)
    ensures forall i :: 0 <= i < |RecentPhrases(rows, uid)| ==> row.createdAt <= RecentPhrases(rows, uid)[i].createdAt
  {
    var owned := OwnedPhrases(rows, uid);
    var sorted := Seqs.SortDesc(owned, PhraseCreatedAt);
    var r := RecentPhrases(rows, uid);
    Seqs.FilterCount(rows, (x: PhraseRow) => x.userId == uid);
    assert multiset(rows)[row] > 0;
    assert row in multiset(sorted);
    var j :| 0 <= j < |sorted| && sorted[j] == row;
    assert j >= |r|;
    forall i | 0 <= i < |r| ensures row.createdAt <= r[i].createdAt {
      assert r[i] == sorted[i];
    }
  }

  /** The user's rows after appending one of theirs end with it. */
  lemma OwnedAppend(rows: seq<PhraseRow>, row: PhraseRow)
    ensures OwnedPhrases(rows + [row], row.userId) == OwnedPhrases(rows, row.userId) + [row]
  {
    Seqs.FilterAppend(rows, [row], (x: PhraseRow) => x.userId == row.userId);
  }

  /** A phrase saved later than every other phrase of its user heads the history. */
  lemma {:induction false} SavedPhraseComesFirst(rows: seq<PhraseRow>, row: PhraseRow)
    requires forall x :: x in rows && x.userId == row.userId ==> x.createdAt < row.createdAt
    ensures |RecentPhrases(rows + [row], row.userId)| >= 1
    ensures RecentPhrases(rows + [row], row.userId)[0] == row
  {
    var uid := row.userId;
    var earlier := OwnedPhrases(rows, uid);
    var owned := OwnedPhrases(rows + [row], uid);
    OwnedAppend(rows, row);
    assert owned[..|owned| - 1] == earlier;
    assert owned[|owned| - 1] == row;
    var before := Seqs.SortDesc(earlier, PhraseCreatedAt);
    var after := Seqs.SortDesc(owned, PhraseCreatedAt);
    assert after == Seqs.InsertDesc(row, before, PhraseCreatedAt);
    if before != [] {
      assert before[0] in multiset(earlier);
      assert before[0] in earlier;
      assert before[0].createdAt < row.createdAt;
    }
    assert after[0] == row;
  }

  /** `delete().eq('id', id).eq('user_id', uid)`. */
  function RemovePhrase(rows: seq<PhraseRow>, id: string, uid: string): seq<PhraseRow>
  {
    Seqs.Filter(rows, (row: PhraseRow) => !(row.id == id && row.userId == uid))
  }

  /** Deleting removes every occurrence of the selected phrase and nothing
      else; in particular no other user's phrase. */
  lemma RemovePhraseSpec(rows: seq<PhraseRow>, id: string, uid: string)
    ensures forall row :: multiset(RemovePhrase(rows, id, uid))[row] ==
              if row.id == id && row.userId == uid then 0 else multiset(rows)[row]
  {
    Seqs.FilterCount(rows, (row: PhraseRow) => !(row.id == id && row.userId == uid));
  }

  /** The ids present in the table. */
  function PhraseIds(rows: seq<PhraseRow>): set<string>
  {
    set row | row in rows :: row.id
  }

  /** `getSavedPhrases`. */
  method GetSavedPhrases(db: Db) returns (r: Result<seq<PhraseRow>>)
    ensures db.user.None? ==> r == Err(NotAuthenticated)
    ensures db.user.Some? ==> r == Ok(RecentPhrases(db.phraseRows, db.user.value))
  {
    if db.user.None? {
      return Err(NotAuthenticated);
    }
    var owned := OwnedPhrases(db.phraseRows, db.user.value);
    r := Ok(Seqs.Limit(Seqs.SortDesc(owned, PhraseCreatedAt), HistoryLimit));
  }

  /** `savePhrase`: stores the items and their text for the signed-in user. */
  method SavePhrase(db: Db, items: seq<PhraseItem>, newId: string, createdAt: int) returns (r: Result<PhraseRow>)
    modifies db`phraseRows
    ensures db.user.None? ==> r == Err(NotAuthenticated) && db.phraseRows == old(db.phraseRows)
    ensures db.user.Some? && newId in PhraseIds(old(db.phraseRows)) ==>
              r == Err(DuplicateKey) && db.phraseRows == old(db.phraseRows)
    ensures db.user.Some? && newId !in PhraseIds(old(db.phraseRows)) ==>
              var row := PhraseRow(newId, db.user.value, PhraseText(items), items, createdAt);
              r == Ok(row) && db.phraseRows == old(db.phraseRows) + [row]
  {
    if db.user.None? {
      return Err(NotAuthenticated);
    }
    var text := PhraseText(items);
    if newId in PhraseIds(db.phraseRows) {
      return Err(DuplicateKey);
    }
    var row := PhraseRow(newId, db.user.value, text, items, createdAt);
    db.phraseRows := db.phraseRows + [row];
    r := Ok(row);
  }

  /** `deletePhrase`. */
  method DeletePhrase(db: Db, phraseId: string) returns (r: Result<Unit>)
    modifies db`phraseRows
    ensures db.user.None? ==> r == Err(NotAuthenticated) && db.phraseRows == old(db.phraseRows)
    ensures db.user.Some? ==> r == Ok(Unit) && db.phraseRows == RemovePhrase(old(db.phraseRows), phraseId, db.user.value)
  {
    if db.user.None? {
      return Err(NotAuthenticated);
    }
    db.phraseRows := RemovePhrase(db.phraseRows, phraseId, db.user.value);
    r := Ok(Unit);
  }
}
