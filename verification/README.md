# Wellness guide: a Dafny model of the app's state logic

The wellness guide is a single React component. The user fills in a profile
(age, gender, goal). The app asks a language model for five tips and shows
them as cards. Opening a card asks the model for a detailed explanation with
steps. Tips can be bookmarked, and bookmarks persist in `localStorage`. When
a model request fails, the app quietly shows fixed fallback content.

This project models the logic under the UI in six files. Every part is a
pure function or a state transition.

- `values.dfy` (`Values`): parsed JSON values and JavaScript objects. An
  object is a map from key to value. Object spread `{ ...a, ...b }` is the
  map union in which `b` wins. A missing key reads as `undefined`, written
  `None`.
- `fences.dfy` (`Fences`): the cleaning step `.replace(/```json|```/g, '').trim()`
  applied to each reply. The replace is a leftmost, non-overlapping scan
  that tries "```json" before "```" at each position. The trim removes
  ECMAScript white space and line terminators from both ends.
- `saved_tips.dfy` (`SavedTips`): `isSaved` and `toggleSave`. This is the
  saved list in which a tip is identified by its `title` alone.
- `goals.dfy` (`Goals`): the five goals and the label lookup `goals.find(...)?.label`.
- `requests.dfy` (`Requests`): a request's outcome, `Success(payload) | Failure`,
  where the payload is whatever JSON.parse returned. Also the fixed
  fallback tips and fallback detail, and how a result is merged into the
  selected tip.
- `app.dfy` (`App`): the state record (screen, profile, tips, selection,
  saved list, two loading flags, and the storage slot). It also holds the
  transitions of `generateTips` and `generateDetail`, each split into a
  begin phase and a settle phase, plus the back buttons, the bookmark
  buttons and the enabled conditions of the generate buttons. `Step` applies
  one user or network event. `Run` applies a sequence of events. `Inv` is
  what holds in every reachable state.

The model keeps the gaps the code has. The code never checks the shape of a
successful reply. So the tip list is whatever was parsed, with any number of
tips, and a detail payload's keys override `title`, `preview` and `index` of
the selected tip. Only the failure paths are guaranteed to give five tips or
five steps.

Leaving the detail screen does not clear the selected tip: `src/App.js:328`
only sets the screen (`App.BackOnlyMovesScreen`).

## Model

| member | source | states |
|---|---|---|
| `Values.Spread` | src/App.js:109 | object spread: the result has the keys of both objects; a key of the later object takes that object's value; other keys keep the earlier object's value |
| `Fences.StripFences` | src/App.js:61 | the replace never lengthens the text |
| `Fences.StripFencesFenceFree` | src/App.js:61 | after the replace, no "```" is left anywhere in the text, including one formed by characters on both sides of a deleted fence |
| `Fences.StripFencesIdentity` | src/App.js:107 | text with no "```" comes through the replace unchanged |
| `Fences.StripFencesShrinks` | src/App.js:61 | the replace keeps the length exactly when the text has no "```" (both directions) |
| `Fences.StripAppendFence` | src/App.js:61 | appending "```" to any text does not change what the replace leaves |
| `Fences.StripClosingFence` | src/App.js:61 | a trailing "```" after fence-free text is deleted and the text is kept, even when that text ends in backticks |
| `Fences.StripJsonFenced` | src/App.js:61 | a reply wrapped as "```json" + u + "```", with u fence-free, comes back as u |
| `Fences.TrimStart` | src/App.js:61 | the result is a suffix of the input; everything dropped is white space; the result does not start with white space |
| `Fences.TrimEnd` | src/App.js:61 | the result is a prefix of the input; everything dropped is white space; the result does not end with white space |
| `Fences.Trim` | src/App.js:61 | the result is a slice of the input with only white space outside it, and it neither starts nor ends with white space |
| `Fences.TrimIdempotent` | src/App.js:61 | trimming twice is trimming once |
| `Fences.TrimKeepsFenceFree` | src/App.js:61 | trimming fence-free text leaves it fence-free, since the result is a slice of the input |
| `Fences.Clean` | src/App.js:61 | the text handed to JSON.parse contains no "```" and neither starts nor ends with white space |
| `Fences.CleanIdempotent` | src/App.js:107 | cleaning twice is cleaning once |
| `Fences.CleanUnwrapsJsonFence` | src/App.js:107 | any reply cleans to the same text whether or not the model wrapped it in "```json" ... "```" |
| `Goals.Find` | src/App.js:47 | like `find`: `None` exactly when no goal has the id; otherwise the earliest goal with that id |
| `Goals.Label` | src/App.js:47 | `goals.find(...)?.label` is `undefined` exactly when none of the five goals has the id; otherwise it is the name of a goal with that id |
| `Goals.EveryGoalHasLabel` | src/App.js:13-19 | each of the five goal buttons sets an id whose lookup gives that goal's own label |
| `SavedTips.IsSaved` | src/App.js:140 | a tip is saved exactly when some entry has the same title |
| `SavedTips.RemoveTitle` | src/App.js:132 | the filter keeps exactly the entries whose title differs and never grows the list |
| `SavedTips.RemoveTitleAppend` | src/App.js:132 | the filter works entry by entry: filtering a + b is filtering a, then b, so the kept entries keep their relative order |
| `SavedTips.RemoveAbsentTitle` | src/App.js:132 | filtering out a title that no entry has returns the list unchanged |
| `SavedTips.RemoveTitleUnique` | src/App.js:132 | filtering keeps titles distinct |
| `SavedTips.ToggleSave` | src/App.js:128-138 | toggling flips the tip's saved status; an unsaved tip is appended after the unchanged old entries; when some entry has the tip's title, the result is exactly the title filter of the old list, so every entry with another title stays in its order; distinct titles stay distinct |
| `SavedTips.RemoveKeepsOrder` | src/App.js:129-132 | toggling a tip whose title some entry x has (x need not be the same object) leaves, in original order, the entries before and after x that have other titles |
| `SavedTips.ToggleTwiceRestores` | src/App.js:128-138 | toggling an unsaved tip twice gives back exactly the original list |
| `SavedTips.ToggleTwiceTitles` | src/App.js:128-138 | toggling any tip twice gives back the original set of titles; a saved tip may move to the end |
| `Requests.Receive` | src/App.js:60-62 | a request succeeds exactly when a reply text arrived and JSON.parse accepted its cleaned form; the payload is what it returned |
| `Requests.CleanedReplyReceivesAlike` | src/App.js:61-62 | the text JSON.parse sees is already clean: a reply cleaned beforehand gives the same outcome as the raw reply, for any parser |
| `Requests.FencedReplyParsesAlike` | src/App.js:106-108 | any reply wrapped in a "```json" fence gives the same outcome as the bare reply, for any parser |
| `Requests.TipsFrom` | src/App.js:62-73 | on success the tip list is the parsed payload, unchecked; on failure it is five tips, each with a title and a preview, the first titled "Start with Morning Hydration" |
| `Requests.FallbackTitles` | src/App.js:67-72 | the first fallback tip is "Start with Morning Hydration" and the fourth "Create a Sleep Sanctuary" |
| `Requests.DetailFrom` | src/App.js:108-123 | on success the detail is the parsed payload, unchecked; on failure it has exactly the keys `explanation` and `steps` |
| `Requests.WithIndex` | src/App.js:80 | `{ ...tip, index }` has `index` set to the card position and every other key as in the tip |
| `Requests.MergeDetail` | src/App.js:109 | `{ ...tip, index, ...detail }`: every key of the detail wins, including `title`, `preview` and `index`; `index` is the card position unless the detail sets it; other keys are the tip's |
| `Requests.FailedDetailKeepsTip` | src/App.js:112-123 | with the fallback detail, title, preview and index stay as in the tip; the explanation is the fixed text; `steps` is the five fixed steps |
| `App.Start` | src/App.js:5-34 | the app starts on the profile screen with an empty profile, no tips, no selection and both flags down; the stored list is loaded when the slot is present, else the list is empty |
| `App.StartInv` | src/App.js:29-34 | a start state whose stored list has distinct titles satisfies the invariant |
| `App.CanGenerate` | src/App.js:208 | the submit button is disabled exactly when age, gender or goal is empty or a generation is loading |
| `App.BeginTips` | src/App.js:36-37 | before the await, the loading flag is raised and nothing else changes |
| `App.FinishTips` | src/App.js:60-76 | the settle lands on the tips screen with the flag lowered; the tips are the parsed payload on success and exactly the fallback list on failure; nothing but tips, screen and flag changes |
| `App.BeginDetail` | src/App.js:79-82 | before the await, the selection is the card with `index` set to its position and every other key as in the card; the detail flag is raised and the detail screen shows; nothing else changes |
| `App.FinishDetail` | src/App.js:106-125 | the settle spreads the detail (or the fallback) over the selection: every detail key wins, every other key keeps the selection's value; the flag is lowered; nothing else changes |
| `App.Toggle` | src/App.js:128-137 | a bookmark flips the tip's saved status, writes the whole new list to the storage slot and changes nothing else |
| `App.Step` | src/App.js:142-348 | of the controls on the three screens, only a settled tip request changes the tip list, and only the bookmark buttons change the saved list and the storage slot |
| `App.StepPreservesInv` | src/App.js:36-140 | every handler keeps the invariant: the detail screen and a pending detail request have a selection; the goal is empty or one of the five, and it is set once the profile screen is left or a generation is pending; saved titles are distinct; the slot holds the saved list |
| `App.RunPreservesInv` | src/App.js:36-140 | any sequence of events keeps the invariant |
| `App.ReloadRestoresSaved` | src/App.js:29-34 | after any session, a restart that loads the storage slot starts with exactly the saved list the session ended with, titles still distinct |
| `App.GenerateGuard` | src/App.js:206-243 | "Generate My Tips" works exactly on the profile screen with age, gender and goal all non-empty and no generation loading; "Regenerate" works exactly on the tips screen with no generation loading |
| `App.GenerateHasGoalLabel` | src/App.js:47 | in a reachable state, whenever "Generate My Tips" or "Regenerate" can start a generation, the goal-label lookup finds a label |
| `App.TipsRoundTrip` | src/App.js:36-77 | "Generate My Tips" or "Regenerate" gives exactly the old state with the loading flag raised; the settle always lands on the tips screen with the flag lowered; the tips are the parsed payload on success and exactly the fallback list on failure; saved list and selection are untouched |
| `App.DetailRoundTrip` | src/App.js:79-126 | opening card i immediately selects `{ ...tip, index: i }`, raises the detail flag and shows the detail screen; the settle sets the selection to `{ ...tip, index, ...detail }` (or the fallback) and lowers the flag |
| `App.FailedDetailRun` | src/App.js:110-125 | after a failed detail request the selection keeps the card's title, preview and index, and its `steps` are the five fallback steps |
| `App.BackOnlyMovesScreen` | src/App.js:235 | back goes from tips to profile and (line 328) from detail to tips, changing nothing but the screen; the profile screen has no back button |
| `App.OpenThenBack` | src/App.js:327-328 | opening a card and going back lands on the tips screen with the same tips, saved list and profile |
| `App.SaveFlips` | src/App.js:128-137 | each bookmark button (tip card, saved-tips panel, detail screen) flips its tip's saved status, writes the whole new list to the storage slot, and leaves screen, tips and selection alone |
| `App.SleepSession` | src/App.js:36-77 | profile 29 / female / sleep with a failed request ends on the tips screen with the five fallback tips, "Create a Sleep Sanctuary" among them; opening the first card raises the detail flag at once and the settle lowers it |

## Left out

- Rendering is not modelled: the JSX, styling and icons. Rendering can throw on values the code never checks, and React then unmounts the app. This happens when the selected tip's `index` is not 0 to 4: `src/App.js:323` looks up `tipIcons` without the fallback that line 258 has, so opening a sixth card of a longer parsed list fails. It also happens when `steps` is present and not null but is not an array (line 375 stops quietly at a missing or null `steps` and shows no steps), or when `title`, `preview` or `explanation` is an object. The model does not represent this crash: it goes on stepping from such states (`App.DetailRoundTrip` and `App.OpenThenBack` hold for every card of the list).
- The network is not modelled. `fetch`, the endpoint, the model id, the token budget and the prompt texts are replaced by the reply text passed to `Requests.Receive`, or directly by a request `Outcome`. The only part of the prompt that is modelled is the goal-label lookup.
- JSON.parse is not modelled: it is the `parse` parameter of `Requests.Receive`. JSON.stringify is not modelled either: the storage slot holds the saved list itself, as the last value written.
- A parsed tip payload is modelled as a list of objects. Each element is represented by its own keys. A payload that is not an array at all would make the card rendering throw, and that case is not modelled.
- A detail payload that is not an object (null, a number, a string, an array) is spread in the code without throwing and adds only the keys its spread produces (none for null and numbers, one per character or element for strings and arrays). The model represents every payload by the object of keys its spread adds.
- A corrupt stored value makes JSON.parse throw on mount. That is not modelled: a present slot is loaded as it is.
- JavaScript numbers are modelled as integers. No fractional or non-finite values are represented.
- Title identity uses structural equality. JavaScript `===` compares object and array titles by reference, and that is not modelled.
- Strings are sequences of Unicode scalar values, not UTF-16 code units.
- `Fences.IsSpace`: the white space `trim` removes is a fixed list. It has the ECMAScript WhiteSpace and LineTerminator characters, with the Unicode space separators listed explicitly.
- The stale-response race is not modelled. A detail reply settles on the current selection. When the user opens a second card before the first reply arrives, the code applies both replies in arrival order. The model has only one pending detail request (`detailLoading`), and it is always applied to the latest selection.
- The mount effect runs after the first render in the code. In the model it is part of the start state.
- `console.error` logging has no effect on state and is not modelled.
