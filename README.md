# The Pod: the container's view-state machine

This project models the view state of the astronomy-picture-of-the-day viewer's
container component, `AppContainer` (`app/containers/AppContainer.js`), and proves
properties of it in Dafny. In the component, navigation clicks choose a date and
issue a lookup for it. A rejected lookup is retried until `AppConstants.MAX_TRY`
retries have been made. A successful lookup shows the picture, either at once or
after the image has preloaded. Toggles show or hide the title, the description,
the overlay and the settings panel, and two boolean preferences are persisted.

The model has two layers:

- `ViewState` (view_state.dfy) holds the state as a value (`State`), with one
  transition per handler of the component, a closed set of `Event`s (clicks,
  lookup outcomes, preload completion) and `Step`/`Run` over them. This is where
  the properties are proved.
- `Container.AppContainer` (app_container.dfy) is the component itself: a class
  whose fields are the component's `state` plus the process-wide state its
  handlers touch (`DaySort.LATEST`, the pending preload of the shared
  `downloadImage`, the lookups issued so far, and the persisted settings). Every
  handler is a method that updates the fields. Each method is proved to perform
  the transition of the same name in `ViewState` and to keep its invariant.

`Navigation` (navigation.dfy) holds the date selection of `makeRequest` and the
way a retry is computed from the failed lookup. `UserSettings` (user_settings.dfy)
holds the two preferences, their defaults and their persisted copy.

Conventions:

- Dates are the datatype `Date`. `Undefined` is what `state.date` holds before
  the first successful lookup. The date helpers the component imports
  (`yesterday`, `tomorrow`, `isDateSafe`) and the constant `DaySort.NEWEST` are
  fields of a `Helpers` value that the model never looks inside.
- `shuffleDate()` is random, so its result is a parameter (`shuffled`) of the
  events that may call it.
- `MAX_TRY` is the constant `maxTry: nat`.
- `setState` is immediate assignment. In `handleRejection` and
  `handleActionClick`, the `makeRequest(...)` call in the callback position
  runs before the state update. Both orders give the same state here.
- Issuing a lookup appends `Request(date, type)` to `requests`. A lookup's
  outcome is the event `Resolved(date, data)` or `Rejected(date, type, shuffled)`.
  It carries the date and type its callback was bound to. Outcomes may arrive
  for any lookup, in any order, as in the component.

Behaviour of the code that the proofs make explicit:

- It takes `MAX_TRY + 1` consecutive rejections of one chain to reach the
  failure view. The first rejection is retried while `tries` is 0, so the chain
  issues `MAX_TRY` retries in all (`ViewState.GivesUpAfterMaxTryRetries`).
- A retry does not ask for the failed date again. `handleRejection` calls
  `makeRequest` with the failed target date and its type. As a result, a failed
  PREVIOUS or LATEST lookup moves one more day back per retry, a NEXT lookup
  moves one day forward, a SHUFFLE lookup draws a new date, and a failed NEWEST
  lookup (re-typed LATEST) is retried for the day before
  (`Navigation.RetryChainWalks`, `Navigation.NewestRetriedAsLatest`).
- `handleActionClick` resets neither `tries` nor `isFailure`. After a chain has
  given up, the next navigation's first rejection fails without a retry
  (`ViewState.NoRetryAfterExhaustion`). Until that navigation's lookup succeeds,
  the failure view stays on screen while `isLoading` is set
  (`ViewState.FailureShownWhileReloading`).
- The image URL does not depend on the `isHd` setting. The choice made from it
  (line 87) is overwritten by the `isDateSafe` choice (`ViewState.HdSettingIgnored`).

## Model

| member | source | states |
|---|---|---|
| `Navigation.PlanRequest` | app/containers/AppContainer.js:55-77 | NEWEST targets the current date and is re-typed LATEST, so no lookup carries NEWEST; LATEST and PREVIOUS target `yesterday`, NEXT `tomorrow`, SHUFFLE the drawn date; `DaySort.LATEST` is written exactly for NEWEST and LATEST |
| `Navigation.NewestRetriedAsLatest` | app/containers/AppContainer.js:58-82 | a failed NEWEST lookup for d is retried as LATEST for `yesterday(d)`, and the retry writes `DaySort.LATEST` |
| `Navigation.RetryKeepsKind` | app/containers/AppContainer.js:122-128 | retrying an issued lookup keeps its action type |
| `Navigation.RetryChainWalks` | app/containers/AppContainer.js:55-84 | after n retries, a LATEST or PREVIOUS chain targets `yesterday` applied n times to the first target, a NEXT chain `tomorrow` applied n times, and a SHUFFLE chain the last date drawn; the type never changes |
| `UserSettings.With` | app/containers/AppContainer.js:243-244 | writing a preference changes that key and no other |
| `UserSettings.Load` | app/containers/AppContainer.js:251-264 | each preference is the stored value when its key is present and the default otherwise |
| `UserSettings.LoadEmpty` | app/containers/AppContainer.js:27-30 | with nothing stored, both preferences are off |
| `UserSettings.StoreKeepsAgreement` | app/containers/AppContainer.js:241-248 | if memory equals what storage loads to, then after storing one key it still does |
| `ViewState.Initial` | app/containers/AppContainer.js:35-44 | the constructor's state: loading, no failure, `tries` 0, default settings, only the title shown, no title, explanation, date or image yet, nothing issued |
| `ViewState.InitialInvariant` | app/containers/AppContainer.js:35-44 | the constructor's state satisfies the invariant for every `maxTry` |
| `ViewState.MakeRequest` | app/containers/AppContainer.js:55-84 | appends the planned lookup to the issued ones, updates `DaySort.LATEST` only for NEWEST/LATEST, and changes nothing else |
| `ViewState.ImageUrl` | app/containers/AppContainer.js:87-91 | the URL is `hdurl` exactly when the date is safe and `url` otherwise, whatever `isHd` is |
| `ViewState.Receive` | app/containers/AppContainer.js:86-114 | sets title, explanation and date from the response, resets `tries` to 0 and clears `isFailure`; with `isAsync` shows the chosen URL and stops loading, otherwise leaves the picture and `isLoading` alone and starts the preload of that URL |
| `ViewState.ImageLoaded` | app/containers/AppContainer.js:101-112 | a pending preload completing shows its URL and stops loading; with none pending nothing changes |
| `ViewState.HandleRejection` | app/containers/AppContainer.js:116-130 | at `tries >= maxTry`: failure shown, loading stopped, `tries` and `DaySort.LATEST` kept, nothing issued; below it: `tries + 1`, exactly the retry of the failed lookup is issued, and `DaySort.LATEST` is rewritten with the retry's date exactly when it is a LATEST retry; `tries <= maxTry` is kept |
| `ViewState.HandleActionClick` | app/containers/AppContainer.js:132-142 | issues the planned lookup from `DaySort.NEWEST` for NEWEST and from the shown date otherwise; a NEWEST or LATEST click writes that lookup's date into `DaySort.LATEST`, other clicks keep it; raises `isLoading`, closes settings, keeps `tries` and `isFailure` |
| `ViewState.HandleDescriptionClick` | app/containers/AppContainer.js:144-148 | flips `showDescription` and nothing else |
| `ViewState.HandleTitleClick` | app/containers/AppContainer.js:150-154 | flips `showTitle` and nothing else |
| `ViewState.HandleImageClick` | app/containers/AppContainer.js:156-162 | opens the overlay and changes nothing else |
| `ViewState.HandleOverlayClick` | app/containers/AppContainer.js:164-170 | a click on `frame-image` changes nothing; any other click closes the overlay and changes nothing else |
| `ViewState.HandleSettingsClick` | app/containers/AppContainer.js:172-176 | flips `showSettings` and nothing else |
| `ViewState.SetSetting` | app/containers/AppContainer.js:241-249 | the key is stored with the value and set in memory; every other key keeps its stored and in-memory value |
| `ViewState.LoadSettings` | app/containers/AppContainer.js:251-269 | memory gets the stored value of each key, or its default when absent; nothing else changes |
| `ViewState.Mount` | app/containers/AppContainer.js:271-275 | loads the settings, then issues a LATEST lookup for `DaySort.NEWEST` and records it as `DaySort.LATEST` |
| `ViewState.SelectView` | app/containers/AppContainer.js:179-187 | the failure view exactly when `isFailure` (even while loading), the loading view exactly when loading without failure, and the picture otherwise |
| `ViewState.StepKeepsInvariant` | app/containers/AppContainer.js:55-176 | every handler keeps `tries <= maxTry` and never issues a NEWEST-typed lookup |
| `ViewState.RunKeepsInvariant` | app/containers/AppContainer.js:116-130 | in every sequence of events from an invariant state, including the constructor's, `tries` stays within `[0, maxTry]` |
| `ViewState.RejectionChainOutcome` | app/containers/AppContainer.js:116-130 | after n rejections from `tries = t`: `tries = min(t + n, maxTry)`; failure shown and loading stopped exactly when `t + n > maxTry`; one retry per rejection until then, the last being the n-th retry of the chain; earlier lookups untouched |
| `ViewState.GivesUpAfterMaxTryRetries` | app/containers/AppContainer.js:117-129 | from `tries = 0`, `maxTry` rejections leave the loading view with `maxTry` retries issued; one more shows the failure view with `tries = maxTry` and issues nothing more |
| `ViewState.NoRetryAfterExhaustion` | app/containers/AppContainer.js:132-142 | once `tries >= maxTry`, a new navigation's first rejection shows the failure view and issues no retry |
| `ViewState.FailureShownWhileReloading` | app/containers/AppContainer.js:179-187 | a navigation after a failure keeps the failure view while loading |
| `ViewState.RevealTiming` | app/containers/AppContainer.js:101-113 | with `isAsync` the picture shows as soon as the lookup succeeds; without it the picture shows with the chosen URL once the preload completes, and until then the view is unchanged when no failure was shown, while a failure view shown during a reload becomes the loading view |
| `ViewState.HdSettingIgnored` | app/containers/AppContainer.js:87-91 | a successful lookup gives the same state whether `isHd` is on or off |
| `ViewState.TogglesAreInvolutions` | app/containers/AppContainer.js:144-176 | the description, title and settings toggles each undo themselves |
| `ViewState.OverlayOpenThenClose` | app/containers/AppContainer.js:156-170 | opening the overlay and then clicking outside the image leaves it closed with everything else as before |
| `ViewState.SettingsStayPersisted` | app/containers/AppContainer.js:241-248 | once memory agrees with storage, `setSetting` keeps them in agreement |
| `ViewState.LoadedSettingsPersisted` | app/containers/AppContainer.js:251-268 | after `loadSettings`, memory agrees with storage |
| `Container.AppContainer.constructor` | app/containers/AppContainer.js:33-44 | the object's state is `ViewState.Initial` and satisfies the invariant |
| `Container.AppContainer.ComponentWillMount` | app/containers/AppContainer.js:271-275 | performs `ViewState.Mount` and keeps the invariant |
| `Container.AppContainer.MakeRequest` | app/containers/AppContainer.js:55-84 | performs `ViewState.MakeRequest` and keeps the invariant |
| `Container.AppContainer.Receive` | app/containers/AppContainer.js:86-114 | performs `ViewState.Receive` and keeps the invariant |
| `Container.AppContainer.ShowResponse` | app/containers/AppContainer.js:93-99 | sets title, explanation and date, resets `tries`, clears `isFailure`; changes nothing else |
| `Container.AppContainer.Update` | app/containers/AppContainer.js:101-106 | shows the given URL and stops loading; changes nothing else |
| `Container.AppContainer.ImageLoaded` | app/containers/AppContainer.js:111-112 | performs `ViewState.ImageLoaded` and keeps the invariant |
| `Container.AppContainer.HandleRejection` | app/containers/AppContainer.js:116-130 | performs `ViewState.HandleRejection` and keeps `tries <= maxTry` |
| `Container.AppContainer.HandleActionClick` | app/containers/AppContainer.js:132-142 | performs `ViewState.HandleActionClick` and keeps the invariant |
| `Container.AppContainer.HandleDescriptionClick` | app/containers/AppContainer.js:144-148 | performs `ViewState.HandleDescriptionClick` |
| `Container.AppContainer.HandleTitleClick` | app/containers/AppContainer.js:150-154 | performs `ViewState.HandleTitleClick` |
| `Container.AppContainer.HandleImageClick` | app/containers/AppContainer.js:156-162 | performs `ViewState.HandleImageClick` |
| `Container.AppContainer.HandleOverlayClick` | app/containers/AppContainer.js:164-170 | performs `ViewState.HandleOverlayClick` |
| `Container.AppContainer.HandleSettingsClick` | app/containers/AppContainer.js:172-176 | performs `ViewState.HandleSettingsClick` |
| `Container.AppContainer.SetSetting` | app/containers/AppContainer.js:241-249 | performs `ViewState.SetSetting` |
| `Container.AppContainer.LoadSettings` | app/containers/AppContainer.js:251-269 | performs `ViewState.LoadSettings` |
| `Container.AppContainer.Handle` | app/containers/AppContainer.js:46-52 | event wiring: the handlers bound here, plus mount, lookup outcomes and preload completion, each dispatched to its method; handling any event is the `ViewState.Step` transition and keeps the invariant |

## Left out

- Rendering: the JSX trees, the child components and the transition-group timings of `render` (lines 188-238). Only the choice among the loading, failure and picture views is modelled.
- The network lookup `getByDate` and its promise chain. Its outcomes are the `Resolved` and `Rejected` events. Responses are not tagged, so a late response for an abandoned lookup is handled like any other, as in the component.
- The shared `downloadImage` object is modelled only by the URL whose `onload` is pending, and by the `PreloadDone` event. Browser load semantics are not modelled: error events, and reassigning the same `src`. A preload left pending by a non-async success still fires after a later async success, as in the component.
- `localStorage` is a map from key to boolean. String encoding and `JSON.parse` are not modelled, so the exception a corrupt stored value would raise is not modelled.
- Object identity of the settings is not modelled. `setSetting` mutates the settings object in place, and that object starts out as the module-level `defaultSettings`. Settings here are values.
- `disableHoverEffectsOnMobile(window)` is a browser call.
- `handleImageClick` calls `e.preventDefault()` (line 157). That browser effect is not modelled; only the overlay flag is.
- The date helpers `yesterday`, `tomorrow`, `shuffleDate` and `isDateSafe` are not part of this model, and neither is the constants module. They are uninterpreted, and the range of valid dates is not modelled.
- `app/helpers/random-int.js` relies on randomness and floating point.
- `test/helpers/days-between.js` relies on `Date` arithmetic with floating millisecond division.
- `postcss.config.js` is build configuration.
- `app/icons/DescriptionIcon.js` is static markup.
