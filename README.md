# Pages of the Supabase/Next.js demo app, in Dafny

This project models the in-memory behaviour of the app's pages. The hosted database,
storage and auth service sit outside the model. It covers:

- **Todo list** (`app/todo/page.jsx`). A task array, an input field, a status message and
  `editingIndex` (-1 in add mode). The transitions are functions on `Todo.TodoState`.
  The class `Todo.TodoList` holds the same fields, and each handler is proved to follow its
  function. `handleSaveEdit` writes `tasks[editingIndex]` in place, with JavaScript array
  semantics: an index past the end lengthens the array, and the gap reads as `undefined`
  (`Value.Undefined`). Deleting a task never resets `editingIndex`. The lemmas show where a
  later save then writes: to the wrong task, or past the end.
- **Markdown notes** (`app/markdown/page.jsx`). The create and edit modes over `noteTitle`,
  `noteText`, `isEditing` and `editingNoteId`. Each remote insert, update or delete is
  reported as the request the handler sends. Whether the store accepted it is a boolean
  parameter. `MarkdownNotes.NotesApp` is the stateful component.
- **Photo list** (`PhotoStore`), used by the food page and the gallery:
  - the case-insensitive search filter;
  - the public-URL construction and its inverse;
  - the upload handler: its guard, the storage path, the row inserted, the message shown,
    and whether the list is re-fetched.
- **Food reviews** (`app/food/page.jsx`). Reviews are grouped under photos by `photo_id`.
  `addReview` has a guard and clears its text only on success. The food upload uses its own
  folder.
- **Pokémon reviews** (`app/pokemon/page.jsx`):
  - the search filter;
  - the copy-then-sort with the name or creation-date comparator, proved to be an ordered
    permutation;
  - reviews grouped by `pokemon_id`, which `addReview` sets to the Pokémon's name.
- **Gallery** (`app/gdrive/page.jsx`). The gallery upload, and `deletePhoto`: confirm, then
  delete, then refresh only when the delete succeeds.
- **Profile page** (`app/information/page.jsx`). The fixed user directory, `mainUser`, the
  list of other users, and the `friendRequests` map update.

Shared modules:

- `Text` models three JavaScript string operations:
  - `trim`, with the full JavaScript whitespace set;
  - `toLowerCase` on ASCII;
  - `includes`, proved equivalent to "occurs at some position".
- `Seqs` provides:
  - an order-preserving `Filter`, with subsequence, multiset and congruence lemmas;
  - an insertion `Sort` driven by a JavaScript-style comparator. It is proved to be a
    permutation that is sorted whenever the comparator is a total preorder.

## Model

| member | source | states |
|---|---|---|
| Todo.TodoList.constructor | app/todo/page.jsx:6-11 | starts with no tasks, an empty input, an empty message and `editingIndex` -1 |
| Todo.TodoList.HandleInputChange | app/todo/page.jsx:13-15 | only the input field changes, to the typed text |
| Todo.TodoList.HandleAddTask | app/todo/page.jsx:17-28 | the new state is `AddTask` of the old one: append when the trimmed input is non-empty, otherwise nothing changes |
| Todo.TodoList.HandleDeleteTask | app/todo/page.jsx:30-33 | only the task array changes, to the array without that position |
| Todo.TodoList.HandleEditTask | app/todo/page.jsx:35-41 | the input becomes `tasks[index]` (`undefined` out of range), `editingIndex` becomes `index`, and the tasks are unchanged |
| Todo.TodoList.HandleSaveEdit | app/todo/page.jsx:43-55 | the in-place write at `editingIndex` (in range, past the end, or negative) gives the state `SaveEdit` describes |
| Todo.TodoList.HandleClearMessage | app/todo/page.jsx:57-59 | when the timer fires, only the message is cleared |
| Todo.TodoList.ClickButton | app/todo/page.jsx:64-66 | the button adds in add mode (`editingIndex` -1) and saves otherwise |
| Todo.InputChange | app/todo/page.jsx:13-15 | the input holds the typed text; tasks, message and mode are kept |
| Todo.AddTask | app/todo/page.jsx:17-28 | either nothing changes, or the input was non-blank and is appended as one more task with the editor in add mode |
| Todo.DeleteTask | app/todo/page.jsx:30-33 | input, message and `editingIndex` are kept; the list shrinks by one exactly when the index is in range |
| Todo.EditTask | app/todo/page.jsx:35-41 | the list and message are kept, `editingIndex` is the index, and the input is that task or `undefined` out of range |
| Todo.SaveEdit | app/todo/page.jsx:43-55 | blank input changes nothing; otherwise the input is cleared, mode is -1 with the update message, and an in-range save replaces only that task |
| Todo.ClearMessage | app/todo/page.jsx:57-59 | the message is empty and the rest of the state is kept |
| Todo.Submit | app/todo/page.jsx:64-66 | a press either changes nothing (blank input) or ends in add mode with an empty input and the add or update message for the mode it started in |
| Todo.WithoutIndex | app/todo/page.jsx:32 | the filtered array is one shorter exactly when the index is in range |
| Todo.Assign | app/todo/page.jsx:46-48 | the write sets position `i`, keeps every other element, and pads any gap with `undefined`; a negative index changes nothing |
| Todo.WithoutIndexRemovesOnlyThat | app/todo/page.jsx:30-33 | deleting position i leaves `tasks[..i] + tasks[i+1..]`; an out-of-range index leaves the list as it was |
| Todo.WithoutIndexShifts | app/todo/page.jsx:32 | after a delete, earlier tasks keep their positions and later ones move down by one |
| Todo.DeleteFirst | app/todo/page.jsx:32 | deleting position 0 leaves the tail |
| Todo.BlankInputChangesNothing | app/todo/page.jsx:19 | empty, whitespace-only or `undefined` input leaves the whole state unchanged for add, save and the button |
| Todo.AddThenDeleteRestores | app/todo/page.jsx:17-27 | add appends exactly the untrimmed input, clears the input, sets -1 and "Task added successfully!"; deleting that position restores the list |
| Todo.DeleteKeepsInputAndMode | app/todo/page.jsx:30-33 | delete keeps the input, the message and `editingIndex`, while later tasks shift down |
| Todo.EditThenSaveReplacesOnlyThatTask | app/todo/page.jsx:35-54 | edit i, type, then save replaces only task i, keeps the length, clears the input, returns to -1 and shows "Task updated successfully!" |
| Todo.EditThenSaveUnchangedKeepsTasks | app/todo/page.jsx:35-54 | saving an edit without retyping gives back the same list |
| Todo.DeleteBeforeEditedRetargetsSave | app/todo/page.jsx:30-33 | a delete before the edited task makes the save overwrite the task after it, and the edited task keeps its old text |
| Todo.DeleteEditedThenSaveWritesNeighbour | app/todo/page.jsx:43-55 | deleting the edited task keeps edit mode; the save overwrites the task that moved into its place, or re-appends |
| Todo.StaleSavePadsWithUndefined | app/todo/page.jsx:46 | two deletes while editing the last of three tasks make the save produce `[c, undefined, text]` |
| MarkdownNotes.Find | app/markdown/page.jsx:64 | `find` returns nothing exactly when no note has the id; otherwise it returns the first note with that id |
| MarkdownNotes.TitleChange | app/markdown/page.jsx:138 | only the title changes, to the typed text |
| MarkdownNotes.TextChange | app/markdown/page.jsx:147 | only the content changes, to the typed text |
| MarkdownNotes.Create | app/markdown/page.jsx:38-60 | an insert is sent exactly when both fields are filled; refresh exactly when sent and accepted, and then only the two fields are cleared |
| MarkdownNotes.Edit | app/markdown/page.jsx:63-69 | the list is kept; a missing id changes nothing; otherwise edit mode for that id with the fields of a listed note with that id |
| MarkdownNotes.Update | app/markdown/page.jsx:72-97 | an update for `editingNoteId` with the fields is sent exactly when both are filled; on success the mode and fields reset, otherwise nothing changes |
| MarkdownNotes.Delete | app/markdown/page.jsx:100-118 | the state is kept; a delete of that id is sent exactly when confirmed, and refresh exactly when confirmed and accepted |
| MarkdownNotes.Refresh | app/markdown/page.jsx:16-35 | received rows replace the list, an error keeps it, and nothing else changes |
| MarkdownNotes.Submit | app/markdown/page.jsx:154-162 | the request is an update exactly in edit mode and an insert otherwise; afterwards the editor is unchanged or in create mode |
| MarkdownNotes.ModeConsistentPreserved | app/markdown/page.jsx:8-12 | every handler keeps `isEditing` true exactly when `editingNoteId` is set |
| MarkdownNotes.EmptyFieldRejected | app/markdown/page.jsx:39-42 | an empty title or content sends nothing and changes nothing, in either mode |
| MarkdownNotes.CreateStaysInCreateMode | app/markdown/page.jsx:38-60 | create never enters edit mode, and a failed insert keeps the fields |
| MarkdownNotes.CreateSendsFields | app/markdown/page.jsx:44-56 | create inserts the typed title and content; success clears both and refreshes the list |
| MarkdownNotes.UpdateOutcome | app/markdown/page.jsx:72-97 | update is sent for `editingNoteId`; success leaves edit mode with empty fields, failure changes nothing |
| MarkdownNotes.EditLoadsFoundNote | app/markdown/page.jsx:63-69 | edit loads the first note with the id and enters edit mode for that id; a missing id changes nothing |
| MarkdownNotes.EditThenSubmitUpdatesThatNote | app/markdown/page.jsx:63-97 | with unique ids, editing a note then pressing the button sends an update of that note with its own title and content |
| MarkdownNotes.DeleteKeepsEditTarget | app/markdown/page.jsx:100-118 | delete and a later refresh keep edit mode, and the next update still targets the same id |
| MarkdownNotes.NotesApp.constructor | app/markdown/page.jsx:8-12 | starts with no notes, empty fields and create mode |
| MarkdownNotes.NotesApp.HandleTitleChange | app/markdown/page.jsx:138 | only the title changes |
| MarkdownNotes.NotesApp.HandleTextChange | app/markdown/page.jsx:147 | only the content changes |
| MarkdownNotes.NotesApp.CreateNote | app/markdown/page.jsx:38-60 | the state, request and refresh are those of `Create` |
| MarkdownNotes.NotesApp.EditNote | app/markdown/page.jsx:63-69 | the new state is `Edit` of the old one |
| MarkdownNotes.NotesApp.UpdateNote | app/markdown/page.jsx:72-97 | the state, request and refresh are those of `Update` |
| MarkdownNotes.NotesApp.DeleteNote | app/markdown/page.jsx:100-118 | sends a delete only when confirmed and refreshes only on success; no state changes |
| MarkdownNotes.NotesApp.FetchNotesDone | app/markdown/page.jsx:16-35 | received rows replace the list; on error the list is kept |
| MarkdownNotes.NotesApp.ClickButton | app/markdown/page.jsx:154-162 | the button updates in edit mode and creates otherwise |
| Text.Trim | app/todo/page.jsx:19 | `trim` is empty exactly when the text is all whitespace, and otherwise starts and ends with a non-whitespace character |
| Text.Includes | app/food/page.jsx:180 | a query longer than the text is never included, and the empty query always is |
| Text.LowerHasNoCapitals | app/food/page.jsx:180 | no ASCII capital is left after lower-casing |
| Text.Lower | app/food/page.jsx:180 | `toLowerCase` keeps the length and lowers each character |
| Text.LowerIdempotent | app/food/page.jsx:180 | lowering twice is lowering once |
| Text.IncludesIffOccurs | app/food/page.jsx:180 | `includes` holds exactly when the query occurs at some position |
| Text.NameMatchesIffOccurs | app/food/page.jsx:180 | a name matches exactly when the lower-cased query occurs in the lower-cased name |
| Text.EmptyQueryMatches | app/food/page.jsx:180 | an empty query matches every name |
| Text.MatchIgnoresQueryCase | app/food/page.jsx:180 | queries that are equal after lowering match the same names |
| PhotoStore.FilteredPhotos | app/food/page.jsx:179-181 | a photo is listed exactly when it was fetched and its name contains the query case-insensitively |
| PhotoStore.FilteredPhotosInOrder | app/gdrive/page.jsx:108-110 | the listed photos are a subsequence of the fetched ones, in order |
| PhotoStore.EmptyQueryKeepsAllPhotos | app/gdrive/page.jsx:109 | an empty search lists every photo |
| PhotoStore.PublicUrl | app/food/page.jsx:98 | the URL starts with the base URL and the public object path and ends with the returned path, with the length of the parts plus a slash |
| PhotoStore.FilteredPhotosIgnoreQueryCase | app/food/page.jsx:180 | queries that differ only in case list the same photos |
| PhotoStore.PublicUrlRoundTrip | app/food/page.jsx:98 | the stored URL gives back the path the storage service returned |
| PhotoStore.PublicUrlInjective | app/gdrive/page.jsx:70 | different paths give different URLs |
| PhotoStore.UploadPhoto | app/food/page.jsx:70-115 | rejected exactly when the file or the name is missing; otherwise uploads to `folder/<file name>` in bucket `photos`; a row is inserted iff the upload succeeded, and its URL decodes to the returned path; success and refresh iff both succeed |
| FoodReview.FoodUploadStoresFoodPhotosUrl | app/food/page.jsx:85-108 | the food page uploads to `food_photos/<file name>` and stores base + `/storage/v1/object/public/food_photos/` + path, with its own messages |
| FoodReview.ReviewsFor | app/food/page.jsx:262-263 | a review is listed under a photo exactly when its `photo_id` is the photo's id |
| FoodReview.ReviewsForInOrder | app/food/page.jsx:262-263 | the reviews under a photo keep the fetched order |
| FoodReview.ShownReviewsAreThoseOfListedPhotos | app/food/page.jsx:262-263 | with distinct photo ids, the page lists exactly the reviews whose `photo_id` is a listed id, as a multiset |
| FoodReview.NoReviewShownTwice | app/food/page.jsx:262-263 | with distinct photo ids, no review appears more often than it was fetched |
| FoodReview.ShownReviews | app/food/page.jsx:243-269 | a review is shown on the page exactly when it was fetched and some listed photo has its `photo_id` |
| FoodReview.FoodReviewApp.constructor | app/food/page.jsx:9-11 | starts with an empty review box and no reviews |
| FoodReview.FoodReviewApp.AddReview | app/food/page.jsx:118-139 | empty text sends nothing; otherwise it inserts (photo id, text), and the text is cleared and reviews refreshed only on success |
| FoodReview.FoodReviewApp.HandleReviewChange | app/food/page.jsx:27-29 | the review box holds the typed text |
| FoodReview.FoodReviewApp.FetchReviewsDone | app/food/page.jsx:53-67 | received rows replace the reviews; on error they are kept |
| PokemonReview.FilteredPokemon | app/pokemon/page.jsx:101-103 | a Pokémon is listed exactly when it was fetched and its name contains the query case-insensitively |
| PokemonReview.FilteredPokemonInOrder | app/pokemon/page.jsx:101-103 | the filtered list keeps the fetched order, and an empty query keeps all |
| PokemonReview.SortedPokemon | app/pokemon/page.jsx:106 | the sorted copy is a permutation of the filtered list |
| PokemonReview.CompareConsistent | app/pokemon/page.jsx:106-112 | the comparator is a total preorder when the name collation is one |
| PokemonReview.SortedPokemonOrdered | app/pokemon/page.jsx:107-111 | sorted by name collation when `sortBy` is 'name', otherwise by increasing `created_at` |
| PokemonReview.ListedAreTheMatches | app/pokemon/page.jsx:101-112 | the sorted list holds each fetched Pokémon whose name matches exactly as often as it was fetched, and no other |
| PokemonReview.Compare | app/pokemon/page.jsx:106-112 | by name the comparator is the collation of the names; otherwise it orders by creation time and is antisymmetric |
| PokemonReview.UndatedKeepFilteredOrder | app/pokemon/page.jsx:110-111 | when every entry has the same (missing) creation time, sorting by date keeps the filtered order |
| PokemonReview.PokemonReviewApp.constructor | app/pokemon/page.jsx:9-10 | starts with no reviews and an empty review box |
| PokemonReview.ReviewsFor | app/pokemon/page.jsx:168-169 | a review is listed under a Pokémon exactly when its `pokemon_id` is the Pokémon's name |
| PokemonReview.StoredReviewListedUnderItsPokemon | app/pokemon/page.jsx:160 | a review stored under a name is listed under that Pokémon and no other, in fetched order |
| PokemonReview.PokemonReviewApp.AddReview | app/pokemon/page.jsx:46-67 | empty text sends nothing; otherwise it inserts (name, text), and the text is cleared and reviews refreshed only on success |
| PokemonReview.PokemonReviewApp.HandleReviewChange | app/pokemon/page.jsx:155 | the review box holds the typed text |
| PokemonReview.PokemonReviewApp.FetchReviewsDone | app/pokemon/page.jsx:29-43 | received rows replace the reviews; on error they are kept |
| Gallery.GalleryUploadStoresPhotosUrl | app/gdrive/page.jsx:42-87 | without a file or a name nothing is sent; otherwise it uploads to `photos/<file name>` and stores base + `/storage/v1/object/public/photos/` + path; a failed upload stores no row |
| Gallery.DeletePhoto | app/gdrive/page.jsx:89-102 | a delete is sent only when confirmed, and the list is refreshed only when the delete has no error |
| Gallery.PhotoGallery.HandleSearchChange | app/gdrive/page.jsx:104-106 | the search box holds the typed query |
| Gallery.PhotoGallery.FetchPhotosDone | app/gdrive/page.jsx:22-40 | received rows replace the photos; on error they are kept |
| Gallery.PhotoGallery.constructor | app/gdrive/page.jsx:9-10 | starts with no photos and an empty search box |
| Profile.OtherUsers | app/information/page.jsx:71-72 | a user is in the side list exactly when listed and not the main user |
| Profile.OtherUsersInOrder | app/information/page.jsx:71-72 | the side list keeps directory order and leaves out the main user |
| Profile.SideListOfDirectory | app/information/page.jsx:5-9 | with `mainUser = users[0]`, the side list is Jane Smith, then Alice Johnson |
| Profile.WithRequestSent | app/information/page.jsx:16-19 | the user maps to 'Sent', the keys grow by that user only, and every other entry is unchanged |
| Profile.SendIdempotent | app/information/page.jsx:15-21 | sending twice to the same user is the same as sending once |
| Profile.SendCommutes | app/information/page.jsx:15-21 | requests to two users give the same map in either order |
| Profile.ProfilePage.HandleSendFriendRequest | app/information/page.jsx:15-21 | the map becomes the old map updated by `WithRequestSent` |
| Profile.ProfilePage.constructor | app/information/page.jsx:12 | starts with no friend requests |
| Profile.MainUser | app/information/page.jsx:23 | the main profile is a directory user: John Doe, id 1 |
| Seqs.SortSorted | app/pokemon/page.jsx:106 | insertion sort with a total-preorder comparator yields a sorted sequence |
| Seqs.FilterIsSubsequence | app/food/page.jsx:179 | `filter` yields an order-preserving subsequence |
| Seqs.Filter | app/food/page.jsx:179-181 | the result is no longer than the input and holds exactly the input elements that satisfy the predicate |
| Seqs.FilterCount | app/pokemon/page.jsx:101-103 | filtering keeps every occurrence of a kept element and none of a dropped one |
| Seqs.Sort | app/pokemon/page.jsx:106 | the sorted copy is a permutation of the input, of the same length |
| Seqs.SortAllTiedKeepsOrder | app/pokemon/page.jsx:106-112 | a comparator that ties every pair leaves the input order unchanged |

## Left out

- Every call to the hosted service is a parameter. This covers select, insert, update,
  delete and storage upload, in `app/lib/supabase.js` and in each page. A handler returns the
  request it would send and whether it then re-fetches. Success or failure, and the rows
  received, are inputs.
- Server-side ordering (`.order(...)`) and the loading flags are not modelled. The ordering
  is done by the store.
- The PokeAPI fetch (app/pokemon/page.jsx:15-26) is third-party I/O. Its rows arrive as the
  `Pokemon` values given to the filter.
- `localeCompare` is an abstract `collate` comparator, assumed to be a total preorder for
  the ordering lemma. `new Date(..)` subtraction is modelled as integer timestamps. Fetched
  PokeAPI entries have no `created_at`, so the source's comparator yields `NaN`, which the
  sort treats as a tie. The model gives such entries one shared timestamp, and
  `PokemonReview.UndatedKeepFilteredOrder` proves that the page then keeps the filtered order.
- `toLowerCase` folds ASCII letters only. Full Unicode case mapping is not modelled.
- The `setTimeout` in `clearMessage` is the explicit operation `ClearMessage` /
  `HandleClearMessage`, not a timer.
- React rendering, styles and async batching are not modelled. DOM element updates (button
  disabling, message elements) are reduced to the notice text an upload shows.
- `alert` is not modelled. `confirm` is a boolean input.
- Seqs.Sort: stability of `Array.prototype.sort` is not stated. Only
  the permutation and ordering properties are proved.
- `[...filteredPokemon]` copies the list before sorting. Dafny sequences are values, so the
  filtered list and `pokemonData` cannot be reordered. No separate statement is made.
- The food page's `deletePhoto` (app/food/page.jsx:142-155) and the `deleteReview` handlers
  of the food and Pokémon pages share the confirm, delete and refresh shape of
  `Gallery.DeletePhoto`. They are not modelled separately.
- The file and name inputs and the sort selector are not modelled separately. Their
  handlers only store the value that `UploadPhoto` and `SortedPokemon` take as parameters.
- The profile page's `messages` state, the `alert` after a friend request and the static
  comments are not modelled.
- Object keys: JavaScript turns `[userId]` into a string key. The model keys the map by the
  integer id, which is the same for the page's integer ids.
- A `TypeError` on `undefined` is modelled as "the handler changes nothing". This covers
  `undefined.trim()` in the todo save and `note.title` when `editNote` finds no note.
- Auth and navigation (`app/login/actions.js`, `app/account/account-form.jsx`, `app/page.js`,
  `app/login/page.jsx`) are not part of this model.
