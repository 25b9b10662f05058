# Pec.AI in Dafny

Pec.AI is a picture-exchange communication (PEC) web application. A user photographs an object. Two AI prompts recognise the object and draw a card for it. The user then assembles cards into a phrase that the browser speaks aloud. Cards and phrases live in per-user Supabase tables, and images live in Supabase storage buckets.

This project models the logic under the screens:

- **Workspace** (`workspace.dfy`): the home page's card library and phrase, with prepend, append, remove-by-id, splice-reorder, clear and cascading delete. It is a class over two `seq<PecCard>` fields.
- **Records** (`types.dfy`): `PecCard`, and `PhraseItem` as a two-variant datatype.
- **Card generation**:
  - `generation.dfy`: the recognise-then-synthesise flow, with the two prompts as `Option`-returning parameters and the calls recorded as a trace;
  - `manual_cards.dfy`: the AI-free upload-then-create path;
  - `image_uploader.dfy`: the dialog that turns a generation result into a library card.
- **Persistence**:
  - `backend.dfy`: a class `Db` holding the signed-in user, the `cards` and `saved_phrases` tables as sequences of rows, the storage objects as a map keyed by bucket and path, and the existing buckets;
  - `storage.dfy`, `cards.dfy`, `phrases.dfy`: the services, as methods over `Db` proved against pure functions (library listing, newest-first history, phrase text, data-URI parsing, storage paths).
- **Views and local lists**:
  - `library.dfy`: the library page's category list, filter and list after delete;
  - `phrase_history.dfy`: the history dialog;
  - `pec_card.dfy`: the card's drag-and-drop guard and buttons;
  - `card_library.dfy`: the card grid both pages render, and which props it hands each card;
  - `phrase_builder.dfy`: the speech gate and the drop target.
- **Small state machines and decisions**:
  - `onboarding.dfy`: the five-step tutorial;
  - `shortcuts.dfy`: the keyboard-shortcut loop, proved against a specification function;
  - `middleware.dfy`: the public-route guard;
  - `bottom_nav.dfy`: the bottom navigation;
  - `reset_password.dfy`: the recovery-link check and password validation;
  - `profile.dfy`: the avatar initials and name fallbacks.

Shared helpers give JavaScript's operations their meaning:
- `text.dfy`: `split` with a one-character separator, `join`, `startsWith`, `endsWith`, blankness under `trim`, and ASCII case mapping;
- `seqs.dfy`: `filter`, `map`, `Array.from(new Set(..))`, a stable newest-first sort and `limit`;
- `wrappers.dfy`: `Option` and `Result`.

A thrown error is an `Err` carrying the source's message. Clock values, random strings, fresh database ids and the AI and backend answers are parameters.

Where the code and its documentation differ, the model follows the code:
- The home page's phrase is a `PecCard[]` keyed by each card's own id, not a list of `PhraseItem`s. The same card added twice is two entries with one id. Removing that id drops both, and reorder acts on the first match.
- A reorder followed by the reverse reorder restores the phrase only when the two cards were adjacent. `ReorderAdjacentRoundTrip` proves the adjacent case. `ReorderRoundTripNotGeneral` exhibits a three-card phrase where the round trip fails.
- The manual card path validates neither the name nor the category.
- The spoken text joins card names with `", "`, while the saved history text joins them with `" "`. `SpokenAndSavedTexts` states both.

## Model

| member | source | states |
|---|---|---|
| Workspace.FindIndex | src/app/page.tsx:51-52 | -1 exactly when no card has the id; otherwise the index of the first card that has it |
| Workspace.ReorderSpec | src/app/page.tsx:50-60 | reorder keeps length and multiset; it is the identity when either id is absent; otherwise the dragged card sits at the target's pre-removal index and the other cards keep their relative order |
| Workspace.MoveSpec | src/app/page.tsx:55-57 | the two splices keep length and multiset, put the moved card at the target index, and leave the rest as removing it from the source index does |
| Workspace.ReorderSelf | src/app/page.tsx:50-60 | reordering a card onto itself changes nothing |
| Workspace.MoveNeighbours | src/app/page.tsx:55-57 | moving a card onto its neighbour, in either direction, swaps the two |
| Workspace.ReorderAdjacentRoundTrip | src/app/page.tsx:50-60 | for two adjacent cards found by their first occurrences, reordering and then reordering back restores the phrase |
| Workspace.ReorderRoundTripNotGeneral | src/app/page.tsx:50-60 | for [a, b, c], moving a onto c and then c onto a gives [b, a, c], not the original |
| Workspace.ReorderLastOntoFirst | src/app/page.tsx:50-60 | moving the last card onto the first puts it at the front: [a, b, c] becomes [c, a, b] |
| Workspace.RemoveIdExact | src/app/page.tsx:46-48 | removal by id drops every occurrence of a card with that id and keeps every occurrence of the others |
| Workspace.RemoveIdPiecewise | src/app/page.tsx:46-48 | removal distributes over concatenation, so the survivors keep their relative order |
| Workspace.RemoveIdAbsent | src/app/page.tsx:46-48 | removing an id no card has changes nothing |
| Workspace.HomePage.constructor | src/app/page.tsx:11-12 | the library and the phrase start empty |
| Workspace.HomePage.AddCardToLibrary | src/app/page.tsx:37-40 | the new card, with the draft's fields and the clock's id, heads the library; the rest and the phrase are unchanged |
| Workspace.HomePage.AddCardToPhrase | src/app/page.tsx:42-44 | the card is appended to the phrase without de-duplication; the library is unchanged |
| Workspace.HomePage.RemoveCardFromPhrase | src/app/page.tsx:46-48 | the phrase loses exactly the entries with that id; the library is unchanged |
| Workspace.HomePage.ReorderPhraseCards | src/app/page.tsx:50-60 | the phrase becomes the reorder of the old phrase; the library is unchanged |
| Workspace.HomePage.ClearPhrase | src/app/page.tsx:62-64 | the phrase becomes empty; the library is unchanged |
| Workspace.HomePage.DeleteCardFromLibrary | src/app/page.tsx:66-69 | both lists lose exactly the entries with that id |
| Generation.IdentifyObjectAndGenerateCard | src/ai/flows/identify-object-and-generate-card.ts:73-94 | recognition is always the first call and there are at most two; no recognition output fails with "Could not identify object." and synthesis is never called; synthesis gets the original photo and exactly the recognised name and category; no synthesis output fails with "Could not generate card."; success returns the recognised fields unmodified and the synthesised image |
| Backend.Db.Upload | src/lib/services/storage.ts:41-51 | with `upsert: false`, a missing bucket or an existing object fails and stores nothing; otherwise exactly that object is added |
| Backend.Db.Remove | src/lib/services/storage.ts:74-81 | removes exactly the object at that path of an existing bucket; a missing bucket fails and removes nothing |
| Storage.GeneratedNamesArePng | src/lib/services/storage.ts:19-22 | without a (non-empty) file name, the stored name is `<timestamp>-<random>.png` |
| Storage.GeneratedNameHasNoSlash | src/lib/services/storage.ts:19-22 | a generated name contains no '/' when the random string has none |
| Storage.PayloadOfDataUri | src/lib/services/storage.ts:31 | the payload of a data URI is the text between the first and the second comma |
| Storage.NoCommaNoPayload | src/lib/services/storage.ts:31 | a string without a comma has no payload, so decoding it fails |
| Storage.MimeMatch | src/lib/services/storage.ts:32 | the group of the leftmost match, as `exec` returns it: none exactly when no position matches `data:` followed by at least one non-';' character and a ';'; otherwise the text between `data:` and the first ';' at the first position that matches, which is non-empty and free of ';' |
| Storage.MimeOfDataUri | src/lib/services/storage.ts:32 | the MIME type of `data:<mime>;...` is `<mime>` |
| Storage.NoSemicolonDefaultMime | src/lib/services/storage.ts:32 | a string without ';' gets the default `image/png` |
| Storage.PathFromPublicUrl | src/lib/services/storage.ts:71-72 | the last two '/'-segments of an object's public URL give back its `<user>/<name>` path when neither part contains '/' |
| Storage.UploadImage | src/lib/services/storage.ts:5-59 | no user fails with "Usuário não autenticado" before anything else; an unreadable source fails; otherwise the object is stored at `<user>/<unique name>` with no overwrite and the bucket's public URL for that path is returned; every failure leaves the bucket unchanged |
| Storage.DeleteImage | src/lib/services/storage.ts:61-82 | no user fails and removes nothing; otherwise the object at the URL's last two segments is removed from the bucket |
| Cards.LibraryShape | src/lib/services/cards.ts:35-41 | one card per row of the user, and every listed card carries a favourite flag |
| Cards.LibrarySound | src/lib/services/cards.ts:23-41 | every listed card is the mapping of a row owned by the user |
| Cards.LibraryComplete | src/lib/services/cards.ts:23-41 | every row owned by the user is listed |
| Cards.LibraryNewestFirst | src/lib/services/cards.ts:27 | the library is the mapping of a permutation of the user's rows ordered by creation time, newest first |
| Cards.UpdateWhereLeavesOthers | src/lib/services/cards.ts:68-72 | an update scoped to the signed-in user leaves every other user's rows as they were |
| Cards.UpdateWhereMatching | src/lib/services/cards.ts:168-178 | after an update that keeps ids and owners, the id query finds the same rows, each updated |
| Cards.ToggleTwice | src/lib/services/cards.ts:54-79 | after a toggle the card is found again with the new flag, so a second toggle flips it back |
| Cards.ApplyUpdate | src/lib/services/cards.ts:170-174 | a present name, category or image source is written to the row's name, category or image URL, an absent one leaves that field as it was, and id, owner, flag, original image and creation time never change |
| Cards.RemoveWhereSpec | src/lib/services/cards.ts:147-151 | the delete drops exactly the rows with that id and owner, and keeps every occurrence of the others |
| Cards.OnlyImageBucketTouched | src/lib/services/cards.ts:138-144 | a card delete removes at most one object, and never one outside `original-images` |
| Cards.CreatedCardListed | src/lib/services/cards.ts:96-118 | a created card appears in its owner's library, with a false favourite flag there although `createCard` returns it without one |
| Cards.GetCards | src/lib/services/cards.ts:14-42 | no user fails with "Usuário não autenticado"; otherwise the user's library |
| Cards.ToggleFavorite | src/lib/services/cards.ts:44-80 | no user fails; unless exactly one card of the user has the id, it fails with "Cartão não encontrado" and changes nothing; otherwise it stores and returns the negation of the old flag on that card only |
| Cards.CreateCard | src/lib/services/cards.ts:82-119 | no user fails; a clashing id fails; otherwise the row, owned by the user and with the given fields, is appended and returned as a card without a favourite flag |
| Cards.DeleteCard | src/lib/services/cards.ts:121-157 | no user fails and changes nothing; otherwise the user's rows with the id are deleted even when the lookup found none, and the image is removed from `original-images` only when exactly one card was found with a non-empty image URL |
| Cards.UpdateCard | src/lib/services/cards.ts:159-191 | no user fails; otherwise the selected rows are updated, and the result is the one row read back, or an error when there is not exactly one |
| Phrases.PhraseTextEmpty | src/lib/services/phrases.ts:47-55 | an empty phrase has the empty text |
| Phrases.PhraseTextAppend | src/lib/services/phrases.ts:47-55 | the text of two non-empty lists is their texts joined by one space |
| Phrases.PhraseTextWords | src/lib/services/phrases.ts:47-55 | splitting the text at spaces gives back each item's label, in order, when no label holds a space |
| Phrases.PhraseTextExample | src/lib/services/phrases.ts:47-55 | a card named "Água" followed by the text "por favor" gives "Água por favor" |
| Phrases.RecentPhrasesSpec | src/lib/services/phrases.ts:22-27 | at most 20 rows, all the user's own, newest first; all of them when there are at most 20 |
| Phrases.RecentPhrasesAreNewest | src/lib/services/phrases.ts:26-27 | a row of the user left out of the history is no newer than any row shown |
| Phrases.SavedPhraseComesFirst | src/lib/services/phrases.ts:26-27 | a phrase saved after all the user's other phrases heads their history |
| Phrases.RemovePhraseSpec | src/lib/services/phrases.ts:84-88 | the delete drops exactly the rows with that id and owner, so other users' rows stay |
| Phrases.GetSavedPhrases | src/lib/services/phrases.ts:13-35 | no user fails with "Usuário não autenticado"; otherwise the user's recent phrases |
| Phrases.SavePhrase | src/lib/services/phrases.ts:37-73 | no user fails; a clashing id fails; otherwise the row with the derived text and the items unchanged is appended and returned |
| Phrases.DeletePhrase | src/lib/services/phrases.ts:75-94 | no user fails and changes nothing; otherwise the rows with the id and the user are removed |
| ManualCards.UploadAndCreate | src/lib/services/manual-cards.ts:15-35 | any failure becomes "Não foi possível criar o cartão manualmente"; without a user or a readable image nothing changes; a failed upload creates no card; the created card's image URL is exactly the uploaded object's URL and name and category pass through unchanged; a failed insert leaves the uploaded object behind |
| ManualCards.CreateManualCard | src/lib/services/manual-cards.ts:15-36 | as written, with bucket `pec-cards`: without a user or a payload it fails with the one message and changes nothing; a missing bucket or existing object stores nothing; otherwise the image is stored, and the returned card has the given name and category and the image's public URL, with a clashing id leaving the image stored and no card |
| ManualCards.CreateManualCardCorrected | src/lib/services/manual-cards.ts:15-36 | the same outcome with the image in `original-images`, the bucket card deletion cleans |
| ManualCards.DeleteRemovesImageIff | src/lib/services/cards.ts:138-144 | deleting a card removes its uploaded image exactly when the image is in `original-images` |
| ManualCards.ManualImageOrphaned | src/lib/services/cards.ts:142 | as written, deleting a manual card leaves its image in `pec-cards` |
| ManualCards.CorrectedManualImageRemoved | src/lib/services/cards.ts:142 | with the corrected bucket, deleting a manual card removes its image |
| Uploader.GeneratedDraftSpec | src/components/pec-ai/ImageUploader.tsx:52-57 | the emitted card's name, category and image are the recognised name, the recognised category and the synthesised image; without recognition there is no card |
| Uploader.ImageUploader.constructor | src/components/pec-ai/ImageUploader.tsx:24-26 | not loading, closed, no file |
| Uploader.ImageUploader.HandleFileChange | src/components/pec-ai/ImageUploader.tsx:29-33 | keeps the first selected file; an empty selection changes nothing |
| Uploader.ImageUploader.HandleSubmit | src/components/pec-ai/ImageUploader.tsx:35-48 | without a file it shows the error toast and neither starts loading nor reads; with one it starts loading and reading |
| Uploader.ImageUploader.OnReadLoad | src/components/pec-ai/ImageUploader.tsx:49-74 | success emits the draft, shows the success toast, closes the dialog and clears the file; failure emits nothing, shows the AI error and keeps dialog and file; loading ends either way |
| Uploader.ImageUploader.OnReadError | src/components/pec-ai/ImageUploader.tsx:75-83 | shows the file error and ends loading |
| Uploader.ImageUploader.OnOpenChange | src/components/pec-ai/ImageUploader.tsx:87 | the dialog follows the request, and closing always clears the file |
| Library.CategoriesSpec | src/app/library/page.tsx:47-50 | "all" first, then each category used by some card, once |
| Library.FilteredCardsSpec | src/app/library/page.tsx:52-57 | "all" shows every card; otherwise exactly the cards of that category, every occurrence |
| Library.OfferedCategoryNotEmpty | src/app/library/page.tsx:47-57 | every offered category other than "all" shows at least one card |
| Library.CountLabelSingular | src/app/library/page.tsx:112 | the label starts with the count and reads "cartão" exactly when there is one card |
| Library.LibraryPage.constructor | src/app/library/page.tsx:13-15 | no cards, "all" selected, loading |
| Library.LibraryPage.LoadCards | src/app/library/page.tsx:19-45 | nothing while authentication is pending; no request without a user; otherwise the user's library, or an error toast with the list kept; loading ends |
| Library.LibraryPage.SelectCategory | src/app/library/page.tsx:120 | the chosen category becomes active (reachable only once the grid forwards `onSelectCategory`, see Findings) |
| Library.LibraryPage.DeleteCardFromLibrary | src/app/library/page.tsx:59-75 | signed in: the list loses exactly the entries with that id, a success toast shows, the row is deleted and the card's image removed as `deleteCard` does; signed out: list, rows and objects unchanged and an error toast shows |
| CardView.DragStart | src/components/pec-ai/PecCard.tsx:39-46 | the payload is set under the item key only, with type "card", the phrase id when present or else the card id, and the card |
| CardView.DropActionSpec | src/components/pec-ai/PecCard.tsx:59-73 | a reorder is requested exactly for a phrase card with a reorder handler and a phrase id, when an item payload names another id; the target is that phrase id |
| CardView.DragOntoOther | src/components/pec-ai/PecCard.tsx:39-73 | dragging one card onto another phrase card requests moving the dragged id onto the target's phrase id |
| CardView.ButtonsByLocation | src/components/pec-ai/PecCard.tsx:132-174 | library cards never offer removal and phrase cards never offer delete or add; delete passes the card id and remove passes the phrase id |
| CardLibrary.GridDropsProps | src/components/pec-ai/CardLibrary.tsx:7-13 | as written, no grid card offers adding whatever the page passes, delete passes the card id when the page passes the callback, no category control is rendered, and the library page's grid on "all" shows every card |
| CardLibrary.GridForwardsPropsCorrected | src/app/library/page.tsx:116-123 | with the props forwarded, a grid card offers adding exactly when the page passes the callback and hands over that card; the library page offers its category choices, "all" first; the home page offers none |
| CardView.PecCardView.constructor | src/components/pec-ai/PecCard.tsx:36-37 | not highlighted, image not failed |
| CardView.PecCardView.HandleDragStart | src/components/pec-ai/PecCard.tsx:39-46 | writes the drag payload |
| CardView.PecCardView.HandleDragOver | src/components/pec-ai/PecCard.tsx:48-53 | accepted, and highlighted, only in the phrase with a reorder handler |
| CardView.PecCardView.HandleDragLeave | src/components/pec-ai/PecCard.tsx:55-57 | clears the highlight |
| CardView.PecCardView.HandleDrop | src/components/pec-ai/PecCard.tsx:59-73 | requests the guarded reorder; clears the highlight only when the guard holds; the event is not stopped |
| CardView.PecCardView.HandleImageError | src/components/pec-ai/PecCard.tsx:89 | marks the image failed |
| Builder.SpokenTextBlank | src/components/pec-ai/PhraseBuilder.tsx:47-48 | the spoken text is blank exactly when there are no cards or a single card with a blank name |
| Builder.SpokenAndSavedTexts | src/components/pec-ai/PhraseBuilder.tsx:47 | the same two cards are spoken as "a, b" but saved as "a b" |
| Builder.PhraseCardsInert | src/components/pec-ai/PhraseBuilder.tsx:96-101 | as written, a phrase card accepts drag-over but never offers removal and never requests a reorder |
| Builder.PhraseCardsWorkCorrected | src/components/pec-ai/PhraseBuilder.tsx:96-101 | passing each card's id as its phrase id enables removal and drop-reorder |
| Builder.DraggedCardNeverAdded | src/components/pec-ai/PhraseBuilder.tsx:34 | as written, a payload written by a dragged card is never added to the phrase |
| Builder.DraggedCardAddedCorrected | src/components/pec-ai/PhraseBuilder.tsx:34 | reading the item key instead, a dragged card is added |
| Builder.CorrectionsAloneDuplicate | src/components/pec-ai/PecCard.tsx:59-73 | with the two phrase-strip corrections and the card's drop left to bubble to the strip (src/components/pec-ai/PhraseBuilder.tsx:73-104), dragging one phrase card onto another both reorders and appends the dragged card: the phrase gains a duplicate |
| Builder.PhraseCardDropReordersOnly | src/components/pec-ai/PecCard.tsx:59-73 | when the card stops a drop it handles, the same drag only reorders: the phrase becomes the reorder and keeps its multiset |
| Builder.PhraseBuilder.constructor | src/components/pec-ai/PhraseBuilder.tsx:18-19 | idle and not highlighted |
| Builder.PhraseBuilder.HandleDragOver | src/components/pec-ai/PhraseBuilder.tsx:21-24 | highlights the drop zone |
| Builder.PhraseBuilder.HandleDragLeave | src/components/pec-ai/PhraseBuilder.tsx:26-28 | clears the highlight |
| Builder.PhraseBuilder.HandleDrop | src/components/pec-ai/PhraseBuilder.tsx:30-42 | clears the highlight and hands over the dragged card, read from the key cards write (the corrected key, see Findings); a drop with no payload adds nothing |
| Builder.PhraseBuilder.SpeakPhrase | src/components/pec-ai/PhraseBuilder.tsx:44-58 | nothing when synthesis is unavailable, speech is running or the text is blank; otherwise cancels pending speech and then speaks the ", "-joined names in pt-BR |
| Builder.PhraseBuilder.OnSpeechStart | src/components/pec-ai/PhraseBuilder.tsx:53 | speaking |
| Builder.PhraseBuilder.OnSpeechEnd | src/components/pec-ai/PhraseBuilder.tsx:54-55 | idle after the end and after an error |
| Builder.PhraseBuilder.Unmount | src/components/pec-ai/PhraseBuilder.tsx:60-66 | cancels speech when synthesis exists |
| History.ItemCountLabelSingular | src/components/pec-ai/PhraseHistory.tsx:145 | the label starts with the count and reads "item" exactly when there is one item |
| History.PhraseHistory.constructor | src/components/pec-ai/PhraseHistory.tsx:36-39 | closed, empty, idle, nothing pending |
| History.PhraseHistory.LoadPhrases | src/components/pec-ai/PhraseHistory.tsx:42-57 | the user's recent phrases, or an error toast with the list kept; loading ends either way |
| History.PhraseHistory.SetOpen | src/components/pec-ai/PhraseHistory.tsx:59-63 | every opening fetches the history; other changes fetch nothing |
| History.PhraseHistory.HandleLoadPhrase | src/components/pec-ai/PhraseHistory.tsx:65-72 | hands over the stored items unchanged, closes the dialog and confirms |
| History.PhraseHistory.RequestDelete | src/components/pec-ai/PhraseHistory.tsx:153 | marks the phrase pending, which opens the confirmation |
| History.PhraseHistory.OnConfirmOpenChange | src/components/pec-ai/PhraseHistory.tsx:165 | closing the confirmation drops the pending id |
| History.PhraseHistory.HandleDeletePhrase | src/components/pec-ai/PhraseHistory.tsx:74-92 | after a successful delete the list loses exactly that id; on failure it is unchanged with an error toast; the pending id is cleared either way |
| History.PhraseHistory.ConfirmDelete | src/components/pec-ai/PhraseHistory.tsx:176 | closed confirmation: nothing changes; open and signed in: the pending phrase leaves the list and the rows, and a success toast shows; open and signed out: list and rows unchanged and an error toast shows; either way the pending id is cleared |
| Onboarding.NextStep | src/components/pec-ai/OnboardingTutorial.tsx:162-168 | the next step stays within the five steps |
| Onboarding.PreviousStep | src/components/pec-ai/OnboardingTutorial.tsx:170-174 | the previous step stays within the five steps |
| Onboarding.NextPreviousInverse | src/components/pec-ai/OnboardingTutorial.tsx:162-174 | next then previous, and previous then next, return to the same step away from the ends |
| Onboarding.PressesToFinish | src/components/pec-ai/OnboardingTutorial.tsx:162-168 | from any step, pressing next until the last step reaches it, and one more press completes |
| Onboarding.SegmentsInOrder | src/components/pec-ai/OnboardingTutorial.tsx:219-229 | segments run done, current, pending, and exactly the current step's segment is current |
| Onboarding.NextLabelCompletes | src/components/pec-ai/OnboardingTutorial.tsx:240-241 | the button reads "Começar!" exactly on the step where pressing it completes |
| Onboarding.OnboardingTutorial.constructor | src/components/pec-ai/OnboardingTutorial.tsx:147-148 | closed on the first step |
| Onboarding.OnboardingTutorial.Mount | src/components/pec-ai/OnboardingTutorial.tsx:150-160 | schedules the opening only when no completion is stored |
| Onboarding.OnboardingTutorial.TimerFires | src/components/pec-ai/OnboardingTutorial.tsx:150-160 | a pending timer opens the tutorial |
| Onboarding.OnboardingTutorial.Unmount | src/components/pec-ai/OnboardingTutorial.tsx:150-160 | cancels the pending timer |
| Onboarding.OnboardingTutorial.HandleNext | src/components/pec-ai/OnboardingTutorial.tsx:162-168 | advances within the steps; on the last step it stores completion and closes |
| Onboarding.OnboardingTutorial.HandlePrevious | src/components/pec-ai/OnboardingTutorial.tsx:170-174 | goes back one step, never below the first |
| Onboarding.OnboardingTutorial.HandleComplete | src/components/pec-ai/OnboardingTutorial.tsx:176-179 | stores "true" and closes |
| Onboarding.OnboardingTutorial.HandleSkip | src/components/pec-ai/OnboardingTutorial.tsx:181-184 | stores "true" and closes |
| Onboarding.OnboardingTutorial.OnOpenChange | src/components/pec-ai/OnboardingTutorial.tsx:189 | the dialog follows the request |
| Onboarding.OnboardingTutorial.PreviousShownWhenEffective | src/components/pec-ai/OnboardingTutorial.tsx:233 | the previous button shows exactly when pressing it moves back |
| Shortcuts.HandleKeyDown | src/hooks/use-keyboard-shortcuts.ts:30-54 | runs exactly the specified actions, in list order, and prevents the default exactly when at least one fires |
| Shortcuts.FiredActionsSnoc | src/hooks/use-keyboard-shortcuts.ts:40-53 | one more shortcut adds its action at the end exactly when it fires |
| Shortcuts.MatchIgnoresCase | src/hooks/use-keyboard-shortcuts.ts:44 | matching ignores the key's case |
| Shortcuts.MetaActsAsCtrl | src/hooks/use-keyboard-shortcuts.ts:41-43 | for a ctrl shortcut, meta matches exactly as ctrl does |
| Shortcuts.TextFieldsBlockAllButEscape | src/hooks/use-keyboard-shortcuts.ts:35-48 | in a text field only escape shortcuts fire; elsewhere every match fires |
| Shortcuts.DisabledRunsNothing | src/hooks/use-keyboard-shortcuts.ts:31 | a disabled hook runs nothing |
| Middleware.UpdateSessionSpec | src/lib/supabase/middleware.ts:15-55 | a redirect happens exactly for a non-public path without a user, always to /login with `no-store, must-revalidate`; the user is looked up exactly for non-public paths |
| Middleware.RedirectTargetIsPublic | src/lib/supabase/middleware.ts:8-17 | /login passes without a lookup, so the redirect cannot loop |
| Middleware.PublicRouteExamples | src/lib/supabase/middleware.ts:8-12 | /auth/... and /api/... are public; /auth, /api, /login/ and the app's pages are not |
| Navigation.BottomNavSpec | src/components/pec-ai/BottomNav.tsx:14-46 | hidden exactly when authentication is loading, there is no user, or the path is /login or /signup; otherwise the four items in order, each active exactly when the path equals its href, so at most one is active |
| ResetPassword.Get | src/app/auth/reset-password/page.tsx:27-29 | a value is found exactly when some pair has the name |
| ResetPassword.GetFirst | src/app/auth/reset-password/page.tsx:27-29 | a found value belongs to the first pair with the name |
| ResetPassword.ParseSerialize | src/app/auth/reset-password/page.tsx:27 | parsing a serialised list of pairs, free of '&' and '=', gives the pairs back, the empty list included |
| ResetPassword.CheckTokenSpec | src/app/auth/reset-password/page.tsx:26-46 | a session is requested exactly for a recovery fragment with a non-empty access token; the link is accepted exactly when that session is; otherwise one of the two link errors |
| ResetPassword.ValidatePasswordsSpec | src/app/auth/reset-password/page.tsx:55-63 | a password is submitted exactly when both entries agree and it has at least six characters; a mismatch is reported first |
| ResetPassword.ResetPasswordPage.constructor | src/app/auth/reset-password/page.tsx:15-21 | empty form, no error, link not yet accepted |
| ResetPassword.ResetPasswordPage.Mount | src/app/auth/reset-password/page.tsx:24-49 | accepts the link or shows its error, so the loading view ends |
| ResetPassword.ResetPasswordPage.HandleResetPassword | src/app/auth/reset-password/page.tsx:51-86 | a validation error sends nothing; otherwise the password is sent, success goes to /auth/reset-password-success, and failure shows the message or the fallback |
| Profile.FirstCharsOfWords | src/app/profile/page.tsx:43-45 | splitting, taking `n[0]` and joining gives the first character of each non-empty word, in order (an empty word contributes nothing) |
| Profile.NameInitials | src/app/profile/page.tsx:42-47 | the initials are the upper-cased first characters of the first two non-empty space-separated words (fewer when the name has fewer words) |
| Profile.NameInitialsEmpty | src/app/profile/page.tsx:42-47 | a name yields no initials exactly when it holds only spaces |
| Profile.ProfilePageSpec | src/app/profile/page.tsx:40-95 | title and detail show the name, or "Usuário" and "Não informado"; the avatar shows the name's initials, and falls back to the email's upper-cased first letter exactly when the name is missing or all spaces, failing on an empty email |

## Left out

- `localStorage` persistence of the library and of the tutorial's completion: the library is a plain field, and the completion entry is a field set to "true".
- The `isMounted` guard and loading text of the home page: rendering only.
- Rendering, styling and toasts' visual form. Toasts are recorded as values in a list.
- Network, database and storage failures other than the deterministic ones modelled. These are a missing user, a missing bucket, an existing object, a clashing id and a query that does not find exactly one row.
- Row-level security, SQL, cookies and session refresh in the middleware: the model decides only from the path and the looked-up user.
- The database default of `is_favorite`: a created row has no flag, read as false.
- `Date.now`, `Math.random` and fresh database ids are parameters.
- `setTimeout` delays are events (`TimerFires`).
- `FileReader` and the file's bytes: the read result is a parameter.
- Base64 decoding and `Blob` construction: a string source yields its payload and MIME type, and decoding is not modelled.
- Speech synthesis: calls are recorded, and start, end and error are events.
- AI prompt texts and model choice: each prompt is a function parameter returning an `Option`.
- Date formatting of creation times in the history and profile pages.
- Percent-decoding of URL parameters, and `+` as a space: `ResetPassword.ParseParams` splits and keeps text as it is.
- Unicode case mapping and UTF-16 string lengths: case mapping is ASCII only, and lengths count characters.
- Tie order of rows with equal creation times: the model keeps insertion order, which is one order the database may return.
- An item payload under the card key: no component writes one, so `PhraseBuilder`'s drop reads only card payloads.
- `CardLibrary`'s layout and empty-library message: only the props it hands each card and the category control it does not render are modelled (`CardLibrary`).
- Drop events in general: only the one bubbling path that matters, a drop on a phrase card reaching the phrase strip, is modelled (`Builder.DropOutcome`).
- The auth screens, camera capture, test pages, layout, header, shortcuts dialog and mobile shell: outside this model.

## Findings

| source | as written | input that shows it | evidently intended | confidence | as-written member | corrected member |
|---|---|---|---|---|---|---|
| src/lib/services/manual-cards.ts:18 | manual cards upload their image to bucket `pec-cards`, but `deleteCard` only removes images from `original-images` (src/lib/services/cards.ts:142), and `uploadImage` declares only `'original-images' \| 'avatars'` | create a manual card, then delete it: the card row goes, the image stays in `pec-cards` | upload manual images to `original-images`, so deleting the card removes its image | high, not executed | ManualCards.ManualImageOrphaned | ManualCards.CorrectedManualImageRemoved |
| src/components/pec-ai/PhraseBuilder.tsx:96-101 | phrase cards are rendered without `idInPhrase`, so `PecCard` never shows the remove button and never calls reorder on drop | any phrase card: `RemoveButtonAction` and `DropAction` are `None` for every payload | pass each card's id as `idInPhrase`, enabling removal and drop-reorder; combined with the next row's correction this also needs row 5's | high, not executed | Builder.PhraseCardsInert | Builder.PhraseCardsWorkCorrected |
| src/components/pec-ai/PhraseBuilder.tsx:34 | the phrase drop zone reads `application/pec-ai-card`, but `PecCard` writes only `application/pec-ai-item` (src/components/pec-ai/PecCard.tsx:40) | drag any library card onto the phrase: the drop finds no data and adds nothing | read the key `PecCard` writes and add the dragged card, for drops not already handled by a phrase card (row 5) | high, not executed | Builder.DraggedCardNeverAdded | Builder.DraggedCardAddedCorrected |
| src/components/pec-ai/CardLibrary.tsx:7-13 | the grid declares only `cards`, `onDeleteCard` and `onReorderInPhrase`, so the `allCategories`, `activeCategory`, `onSelectCategory` and `onAddToPhrase` the library page passes (src/app/library/page.tsx:116-123) are dropped and no category control is rendered | open the library page with cards of two categories: nothing can select a category other than "all", and no card shows an add button | forward the category props and `onAddToPhrase`, rendering the category choices (the home page passes no `onAddToPhrase` (src/app/page.tsx:98), so its cards stay without an add button) | high, not executed | CardLibrary.GridDropsProps | CardLibrary.GridForwardsPropsCorrected |
| src/components/pec-ai/PecCard.tsx:59-73 | a phrase card's drop handler does not stop the event, and phrase cards sit inside the strip's drop zone (src/components/pec-ai/PhraseBuilder.tsx:73-104); with rows 2 and 3 corrected, the strip also handles every drop on a phrase card | drag phrase card a onto phrase card b: the phrase is reordered and a is appended again | the card stops a drop it handles, so the drag only reorders (a library card dropped onto a phrase card is then read as a reorder too, which adds nothing; a drop elsewhere on the strip adds) | medium, not executed; latent while rows 2 and 3 stand | Builder.CorrectionsAloneDuplicate | Builder.PhraseCardDropReordersOnly |
