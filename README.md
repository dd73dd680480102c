# Tile state manager of the bridge demo, in Dafny

This project models the basic demo page of the bridge app examples. A page
fetches a patient from the bridge SDK, keeps it in the tab's session store
and shows either a page of text or a coloured tile.

- `tile.dfy` (module `Tile`) models `basic-demo/src/tile.js`. This is the
  two-state tile manager. Its record `_internal` holds `tileState`
  (`"default"` or `"patient"`) and the colour derived from it (`"#000"` or
  `"#008000"`). The state is mirrored into the session store under the key
  `"tileState"`. The patient's JSON is kept there under the key `"patient"`.
  - `Apply`, `React` and `Initialize` give the effect of `applyTileState`,
    `reactToPatientChange` and `initializeTileState` on values.
  - The class `Manager` runs the same steps in place: it updates its own
    fields and a `SessionStorage` object, and each method is proved equal to
    the matching function.
  - `isTilePath` is modelled by `NormalizePath`, the path rule shared with
    the page, and by `IsTilePath`.
- `main_page.dfy` (module `MainPage`) models `basic-demo/src/main.js`.
  `RenderPatient` first updates the tile manager, swallowing any error it
  raises. It then writes the title and text that `SelectView` chooses from
  the normalised path and from whether a patient is present.
  `InitializeTile` hydrates the manager from the session before the first
  fetch is rendered.
- `session.dfy` (module `Session`) models `sessionStorage`. Any access may
  throw. Which accesses throw is fixed in advance by a script (`faults`),
  and each get, set or remove uses up one entry of it. The operations'
  contracts hold for every script. The idempotence and round-trip lemmas
  assume a working store, and the scenario lemma starts from an empty one.
- `json.dfy` (module `Json`) is the patient record, a flat list of string
  fields. It also holds the stand-ins for `JSON.stringify(p)` (`Serialize`,
  never empty, so it is truthy) and `JSON.stringify(p, null, 2)` (`Pretty`).
- `wrappers.dfy` holds `Option` (a patient or `null`, a stored value or
  `null`) and `Completion` (a call returned, or an exception escaped).

Three behaviours of the code are worth stating outright:
- The default colour is `"#000"`, the three-digit form the code writes
  (tile.js:3).
- `initializeTileState({hydrateFromSession: false})` leaves the current
  fields as they are. It does not reset them to the default.
- `reactToPatientChange` can let an error escape. This happens when the
  retry in its catch block throws as well. The error is swallowed only one
  level up, in `renderPatient` (main.js:23-28). `React` states exactly when
  the error escapes: when the second storage access throws and so does the
  first or the third.

## Model

| member | source | states |
|---|---|---|
| `Tile.StripTrailingSlashes` | basic-demo/src/tile.js:15 | the result is a prefix of the input, everything cut off is a slash, and the result does not end in a slash |
| `Tile.NormalizePath` | basic-demo/src/tile.js:15 | the normalised path is never empty and ends in `/` only when it is exactly `"/"` |
| `Tile.NormalizePathIdempotent` | basic-demo/src/tile.js:15 | normalising a normalised path changes nothing |
| `Tile.NormalizesToTile` | basic-demo/src/tile.js:15-16 | a path normalises to `"/tile"` exactly when it is `"/tile"` followed by any number of slashes |
| `Tile.IsTilePath` | basic-demo/src/tile.js:14-17 | `isTilePath` holds exactly for `"/tile"` followed by any number of slashes |
| `Tile.IsTilePathExamples` | basic-demo/src/tile.js:14-17 | `"/tile"`, `"/tile/"` and `"/tile///"` are accepted; `""`, `"/"`, `"/tiles"`, `"/tile/x"` and `"//tile"` are rejected |
| `Tile.Normalize` | basic-demo/src/tile.js:53-56 | the state is always `"patient"` or `"default"`, and it is `"patient"` exactly when the name given is `"patient"` |
| `Tile.ConsistentColors` | basic-demo/src/tile.js:3-9 | in a consistent record the colour is `"#008000"` exactly in the patient state and `"#000"` exactly in the default state |
| `Tile.Apply` | basic-demo/src/tile.js:53-70 | the record becomes the normalised state with its colour, even when the store write throws; the call returns that state exactly when the write succeeds, and then `"tileState"` holds it and the P/D letter is handed to the tile display; a failed write changes no item and hands over no letter |
| `Tile.React` | basic-demo/src/tile.js:77-90 | for every store, the state ends as `"patient"` exactly when a patient is given, with its colour; the error escapes exactly when the second access throws and the first or third does too; with a working store it returns normally, `"patient"` holds the serialised patient or is removed, and `"tileState"` mirrors the state |
| `Tile.Initialize` | basic-demo/src/tile.js:100-124 | when hydrating, the state is `"patient"` exactly when the read succeeds and finds a non-empty patient, and `"default"` otherwise (also when the read throws); without hydration the state and colour are kept; the result is the state, consistent, its letter is handed to the tile display, and `"tileState"` is written unless that write throws |
| `Tile.ApplyTwiceIsOnce` | basic-demo/src/tile.js:58-69 | when both writes succeed, applying a name twice leaves the same record, items and result as applying it once |
| `Tile.ReactTwiceIsOnce` | basic-demo/src/tile.js:77-85 | with a working store, reacting twice to the same patient leaves the same record, items and result as reacting once |
| `Tile.ReactIgnoresContent` | basic-demo/src/tile.js:79-88 | two different patients lead to the same record and the same result: only presence matters |
| `Tile.ReactWithStorageDisabled` | basic-demo/src/tile.js:58-89 | when the first two accesses throw, the state and colour still follow the patient, but no item changes, the letter is not updated and the error escapes |
| `Tile.HydrateAfterReact` | basic-demo/src/tile.js:79-110 | with a working store, hydrating a new record from the store that `reactToPatientChange(p)` left gives `"patient"` when `p` is present and `"default"` when it is absent |
| `Tile.InitializeTwiceIsOnce` | basic-demo/src/tile.js:100-124 | with a working store and a consistent record, initialising twice gives the same record as initialising once |
| `Tile.Scenario` | basic-demo/src/tile.js:77-124 | an empty store hydrates to `"default"`; the patient `{"id":"123"}` then gives `"patient"` and stores `{"id":"123"}` and `"patient"`; no patient then gives `"default"`, removes the patient and stores `"default"` |
| `Tile.Manager.constructor` | basic-demo/src/tile.js:6-9 | the record starts in the default state with colour `"#000"` and no letter handed to the tile display yet |
| `Tile.Manager.State` | basic-demo/src/tile.js:126-133 | the getters return the current state and colour; the state is one of the two names and the colour is the one its state calls for |
| `Tile.Manager.ApplyTileState` | basic-demo/src/tile.js:53-70 | assigning the fields and then writing the store in place has exactly the effect of `Apply`, and the record stays consistent |
| `Tile.Manager.ReactToPatientChange` | basic-demo/src/tile.js:77-90 | the try block and its catch, run in place, have exactly the effect of `React`; the state ends matching the presence of the patient |
| `Tile.Manager.InitializeTileState` | basic-demo/src/tile.js:100-124 | the read, the fallback, the letter handed to the tile display and the write ignoring failure, run in place, have exactly the effect of `Initialize`, and the method returns the new state |
| `Session.SessionStorage.SetItem` | basic-demo/src/tile.js:66 | `setItem` writes the item unless the access throws; it reports the failure and uses up one fault entry |
| `Session.SessionStorage.RemoveItem` | basic-demo/src/tile.js:83 | `removeItem` deletes the key unless the access throws; it reports the failure and uses up one fault entry |
| `Session.SessionStorage.GetItem` | basic-demo/src/tile.js:104 | `getItem` returns the stored value or `null`, changes no item, and has no value when it throws |
| `Json.Serialize` | basic-demo/src/tile.js:80 | the stored JSON text is an object, `{` to `}`, so it is never empty |
| `Json.Pretty` | basic-demo/src/main.js:11-13 | the indented JSON text is an object, and it is `{}` exactly for a patient without fields |
| `MainPage.SelectView` | basic-demo/src/main.js:30-51 | the root path shows `"Default Page"` with the no-patient line, or `"Patient Page"` with the explanatory line and then the pretty-printed patient; every other path shows `"Default Panel"` with the pretty-printed patient or the no-patient line |
| `MainPage.SelectViewTitles` | basic-demo/src/main.js:30-48 | the title is `"Patient Page"` exactly on the root path with a patient, `"Default Page"` exactly on the root path without one, and always `"Default Panel"` on the tile path |
| `MainPage.SelectViewShowsPatient` | basic-demo/src/main.js:35-51 | with a patient, the text ends with the pretty-printed patient; the text is the no-patient line exactly when there is no patient |
| `MainPage.Page.constructor` | basic-demo/src/main.js:7-8 | the page has an output element and a title element that may be missing (`hasTitle`), both starting empty; `RenderPatient` writes the title only when `hasTitle` holds |
| `MainPage.RenderPatient` | basic-demo/src/main.js:22-52 | the tile manager reacts first, with exactly the effect of `React`, so the state matches the patient's presence whatever the store does; the text is always written, and the title only when its element exists |
| `MainPage.InitializeTile` | basic-demo/src/main.js:54-67 | the manager is hydrated from the session first; a rejected fetch leaves the hydrated state and store as they are and shows the error; a resolved fetch is rendered over the hydrated state |

## Left out

- The DOM projection in `updateTileLetter` (tile.js:23-43) is left out: the body background, the `tile-mode` class and the tile's display style. Only the letter (`'P'`/`'D'`) handed to it is kept, as the field `letter`.
- `window.location.pathname` is a parameter of the path functions and of `RenderPatient`.
- The bridge SDK is left out because it is asynchronous foreign code. `getPatient()` becomes the settled value `Fetched`. Every `onPatientChanged` notification is one sequential call of `RenderPatient`. Subscribing (main.js:69-71) is not modelled.
- `JSON.stringify` is a foreign serialiser. It is modelled only for flat records of string fields. Escaping, nested values and non-string values are left out.
- `console.warn` and `console.error` logging is left out. It has no effect on state.
- `MainPage.RenderPatient`: assumes the output element exists. In the page a missing `out` element would make `out.textContent` throw, and that case is not modelled.
- `Tile.Initialize`: takes `hydrateFromSession` as a required boolean. In the source a missing options object, `{}` or an undefined option all count as `true`, and the option is tested by truthiness. Those cases are covered by passing `true` or `false`.
- `Tile.Apply`: takes the state name as a string. A missing argument behaves as `"default"` in the source, and so does any non-string value. Both cases are covered by passing `"default"`.
- Storage failures are given by a script rather than by their browser causes (storage disabled, quota exceeded). The operations' contracts quantify over the script, so they cover every pattern of failures.
- `src/main.js` is not part of this model. It is a standalone DOM and SDK glue page. Its store-or-remove handling repeats tile.js:79-84 and has no state of its own.
