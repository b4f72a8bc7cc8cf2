/**
 * The view state of the picture-of-the-day container as a value, with one
 * transition per handler of the container and a closed set of events that
 * drive them: user clicks, the outcome of a lookup, and the completion of
 * an image preload. The imperative container in module Container is proved
 * to follow these transitions; the properties of the state machine are
 * proved here.
 *
 * Besides the component's own `state`, a State records the pieces of
 * process-wide state the handlers touch: `DaySort.LATEST`, the URL whose
 * preload is outstanding on the shared `downloadImage`, every lookup handed
 * to `getByDate` so far, and the persisted settings.
 */
module ViewState {
  import opened Wrappers
  import opened Navigation
  import opened UserSettings

  /** The fields of a successful lookup's response that the container reads. */
  datatype Data = Data(title: string, explanation: string, url: string, hdurl: string)

  datatype State = State(
    showOverlay: bool,
    showSettings: bool,
    showDescription: bool,
    showTitle: bool,
    settings: Settings,
    tries: nat,
    isFailure: bool,
    isLoading: bool,
    title: Option<string>,
    explanation: Option<string>,
    date: Date,
    imageUrl: Option<string>,
    latest: Date,               // DaySort.LATEST
    preload: Option<string>,    // src of downloadImage while its onload is pending
    requests: seq<Request>,     // every lookup issued, oldest first
    storage: Storage)

  /** The id of the image inside the overlay; clicks on it keep the overlay open. */
  const FrameImageId := "frame-image"

  /** The state the constructor sets up. `latest` is the initial value of
      `DaySort.LATEST` and `storage` whatever was persisted before. */
  function Initial(latest: Date, storage: Storage): (s: State)
    ensures s.tries == 0 && !s.isFailure && s.isLoading
    ensures s.settings == Defaults && s.showTitle
    ensures !s.showOverlay && !s.showSettings && !s.showDescription
    ensures s.requests == [] && s.preload == None
    ensures s.date == Undefined && s.imageUrl == None
    ensures s.title == None && s.explanation == None
    ensures s.latest == latest && s.storage == storage
  {
    State(false, false, false, true, Defaults, 0, false, true,
          None, None, Undefined, None, latest, None, [], storage)
  }

  /** The facts every reachable state keeps: the retry counter never passes
      the bound, and no lookup is ever issued with the NEWEST type. */
  ghost predicate Invariant(maxTry: nat, s: State)
  {
    && s.tries <= maxTry
    && forall i :: 0 <= i < |s.requests| ==> s.requests[i].kind != Newest
  }

  lemma InitialInvariant(maxTry: nat, latest: Date, storage: Storage)
    ensures Invariant(maxTry, Initial(latest, storage))
  {
  }

  // ---------------------------------------------------------------- lookups

  /** `makeRequest(current, kind)`: issues the planned lookup and, for
      NEWEST and LATEST, records its date in `DaySort.LATEST`. */
  function MakeRequest(h: Helpers, s: State, current: Date, kind: ActionType, shuffled: Date): (r: State)
    ensures var p := PlanRequest(h, current, kind, shuffled);
            && r.requests == s.requests + [p.request]
            && r.latest == (if p.recordsLatest then p.request.date else s.latest)
    ensures r.(latest := s.latest, requests := s.requests) == s
  {
    var p := PlanRequest(h, current, kind, shuffled);
    s.(latest := if p.recordsLatest then p.request.date else s.latest,
       requests := s.requests + [p.request])
  }

  /** The image URL `receive` shows. The choice made from the `isHd`
      setting is overwritten straight away, so the URL depends only on
      whether the date is safe for the HD image. */
  function ImageUrl(settings: Settings, safe: bool, data: Data): (u: string)
    ensures u == (if safe then data.hdurl else data.url)
  {
    var chosen := if settings.isHd then data.hdurl else data.url;
    var chosen := if safe then data.hdurl else data.url;
    chosen
  }

  /** `receive(date, data)`: shows the response's text and date, clears the
      failure state, and reveals the image either now (`isAsync`) or when the
      preload of its URL completes. */
  function Receive(h: Helpers, s: State, date: Date, data: Data): (r: State)
    ensures r.title == Some(data.title) && r.explanation == Some(data.explanation)
    ensures r.date == date && r.tries == 0 && !r.isFailure
    ensures var url := if h.isDateSafe(date) then data.hdurl else data.url;
            if s.settings.isAsync
            then r.imageUrl == Some(url) && !r.isLoading && r.preload == s.preload
            else r.imageUrl == s.imageUrl && r.isLoading == s.isLoading && r.preload == Some(url)
    ensures r.(title := s.title, explanation := s.explanation, date := s.date, tries := s.tries,
               isFailure := s.isFailure, imageUrl := s.imageUrl, isLoading := s.isLoading,
               preload := s.preload) == s
  {
    var url := ImageUrl(s.settings, h.isDateSafe(date), data);
    var shown := s.(title := Some(data.title), explanation := Some(data.explanation),
                    date := date, tries := 0, isFailure := false);
    if s.settings.isAsync then shown.(imageUrl := Some(url), isLoading := false)
    else shown.(preload := Some(url))
  }

  /** The `onload` of `downloadImage` firing: runs the pending `update` of
      the last synchronous `receive`. With no preload outstanding nothing
      happens. */
  function ImageLoaded(s: State): (r: State)
    ensures s.preload.Some? ==> r.imageUrl == s.preload && !r.isLoading && r.preload == None
    ensures s.preload.Some? ==> r.(imageUrl := s.imageUrl, isLoading := s.isLoading, preload := s.preload) == s
    ensures s.preload == None ==> r == s
  {
    match s.preload
    case None => s
    case Some(url) => s.(imageUrl := Some(url), isLoading := false, preload := None)
  }

  /** `handleRejection(err, date, kind)`: gives up once `tries` has reached
      `maxTry`; otherwise counts the failure and issues the retry at once. */
  function HandleRejection(h: Helpers, maxTry: nat, s: State, date: Date, kind: ActionType, shuffled: Date): (r: State)
    ensures s.tries >= maxTry ==>
              r.isFailure && !r.isLoading && r.tries == s.tries && r.requests == s.requests
    ensures s.tries < maxTry ==>
              && r.tries == s.tries + 1
              && r.requests == s.requests + [Retry(h, Request(date, kind), shuffled)]
              && r.isFailure == s.isFailure && r.isLoading == s.isLoading
    ensures s.tries >= maxTry ==> r.latest == s.latest
    ensures s.tries < maxTry ==>
              var p := PlanRequest(h, date, kind, shuffled);
              r.latest == (if p.recordsLatest then p.request.date else s.latest)
    ensures s.tries <= maxTry ==> r.tries <= maxTry
    ensures r.(isFailure := s.isFailure, isLoading := s.isLoading, tries := s.tries,
               requests := s.requests, latest := s.latest) == s
  {
    if s.tries >= maxTry then s.(isFailure := true, isLoading := false)
    else MakeRequest(h, s, date, kind, shuffled).(tries := s.tries + 1)
  }

  // ------------------------------------------------------------ user events

  /** `handleActionClick(kind)`: NEWEST starts from `DaySort.NEWEST`, every
      other action from the date on show; the settings panel closes and the
      loading flag is raised. `tries` and `isFailure` are left as they are. */
  function HandleActionClick(h: Helpers, s: State, kind: ActionType, shuffled: Date): (r: State)
    ensures var from := if kind == Newest then h.newest else s.date;
            var p := PlanRequest(h, from, kind, shuffled);
            && r.requests == s.requests + [p.request]
            && r.latest == (if p.recordsLatest then p.request.date else s.latest)
    ensures r.isLoading && !r.showSettings
    ensures r.tries == s.tries && r.isFailure == s.isFailure
    ensures r.(isLoading := s.isLoading, showSettings := s.showSettings, requests := s.requests,
               latest := s.latest) == s
  {
    var from := if kind == Newest then h.newest else s.date;
    MakeRequest(h, s, from, kind, shuffled).(isLoading := true, showSettings := false)
  }

  /** `handleDescriptionClick`: flips `showDescription` and nothing else. */
  function HandleDescriptionClick(s: State): (r: State)
    ensures r.showDescription != s.showDescription
    ensures r.(showDescription := s.showDescription) == s
  {
    s.(showDescription := !s.showDescription)
  }

  /** `handleTitleClick`: flips `showTitle` and nothing else. */
  function HandleTitleClick(s: State): (r: State)
    ensures r.showTitle != s.showTitle
    ensures r.(showTitle := s.showTitle) == s
  {
    s.(showTitle := !s.showTitle)
  }

  /** `handleSettingsClick`: flips `showSettings` and nothing else. */
  function HandleSettingsClick(s: State): (r: State)
    ensures r.showSettings != s.showSettings
    ensures r.(showSettings := s.showSettings) == s
  {
    s.(showSettings := !s.showSettings)
  }

  /** `handleImageClick`: opens the overlay. */
  function HandleImageClick(s: State): (r: State)
    ensures r.showOverlay
    ensures r.(showOverlay := s.showOverlay) == s
  {
    s.(showOverlay := true)
  }

  /** `handleOverlayClick`: a click on the framed image itself is ignored;
      any other click closes the overlay. */
  function HandleOverlayClick(s: State, targetId: string): (r: State)
    ensures targetId == FrameImageId ==> r == s
    ensures targetId != FrameImageId ==> !r.showOverlay && r.(showOverlay := s.showOverlay) == s
  {
    if targetId == FrameImageId then s else s.(showOverlay := false)
  }

  // --------------------------------------------------------------- settings

  /** `setSetting(key, value)`: writes the value through to storage and into
      the in-memory settings, under that key only. */
  function SetSetting(s: State, key: SettingType, value: bool): (r: State)
    ensures key in r.storage && r.storage[key] == value
    ensures forall k :: k != key ==> (k in r.storage <==> k in s.storage)
    ensures forall k :: k != key && k in s.storage ==> r.storage[k] == s.storage[k]
    ensures Get(r.settings, key) == value
    ensures forall k :: k != key ==> Get(r.settings, k) == Get(s.settings, k)
    ensures r.(settings := s.settings, storage := s.storage) == s
  {
    s.(storage := s.storage[key := value], settings := With(s.settings, key, value))
  }

  /** `loadSettings`: replaces the in-memory settings by what storage holds,
      with the defaults for keys never stored. */
  function LoadSettings(s: State): (r: State)
    ensures forall k :: Get(r.settings, k) == if k in s.storage then s.storage[k] else Get(Defaults, k)
    ensures r.(settings := s.settings) == s
  {
    s.(settings := Load(s.storage))
  }

  /** `componentWillMount`: loads the settings, then asks for the newest
      picture. NEWEST never calls `shuffleDate`, so no draw is passed on. */
  function Mount(h: Helpers, s: State): (r: State)
    ensures r.settings == Load(s.storage)
    ensures r.requests == s.requests + [Request(h.newest, Latest)] && r.latest == h.newest
    ensures r.(settings := s.settings, requests := s.requests, latest := s.latest) == s
  {
    MakeRequest(h, LoadSettings(s), h.newest, Newest, Undefined)
  }

  // ------------------------------------------------------------------ view

  /** Which of the three views `render` puts in the transition group. */
  datatype View = LoadingView | FailureView(tries: nat) | AppView(imageUrl: Option<string>, showOverlay: bool)

  /** The selection in `render`: the loading view is chosen first and then
      overwritten by the failure view, so a failure shows even while
      loading; the picture shows only when neither flag is set. */
  function SelectView(s: State): (v: View)
    ensures v.FailureView? <==> s.isFailure
    ensures v.LoadingView? <==> !s.isFailure && s.isLoading
    ensures v.AppView? <==> !s.isFailure && !s.isLoading
    ensures v.FailureView? ==> v.tries == s.tries
    ensures v.AppView? ==> v.imageUrl == s.imageUrl && v.showOverlay == s.showOverlay
  {
    var component: Option<View> := if s.isLoading then Some(LoadingView) else None;
    var component := if s.isFailure then Some(FailureView(s.tries)) else component;
    if component.None? then AppView(s.imageUrl, s.showOverlay) else component.value
  }

  // ----------------------------------------------------------------- events

  /** The events that drive the container. Lookup outcomes carry the date
      and type their callbacks were bound to; `shuffled` is what
      `shuffleDate()` returns if the event issues a SHUFFLE lookup. */
  datatype Event =
    | Mounted
    | ActionClicked(kind: ActionType, shuffled: Date)
    | Resolved(date: Date, data: Data)
    | Rejected(date: Date, kind: ActionType, shuffled: Date)
    | PreloadDone
    | DescriptionClicked
    | TitleClicked
    | ImageClicked
    | OverlayClicked(targetId: string)
    | SettingsClicked
    | SettingChanged(key: SettingType, value: bool)

  function Step(h: Helpers, maxTry: nat, s: State, e: Event): State
  {
    match e
    case Mounted => Mount(h, s)
    case ActionClicked(kind, shuffled) => HandleActionClick(h, s, kind, shuffled)
    case Resolved(date, data) => Receive(h, s, date, data)
    case Rejected(date, kind, shuffled) => HandleRejection(h, maxTry, s, date, kind, shuffled)
    case PreloadDone => ImageLoaded(s)
    case DescriptionClicked => HandleDescriptionClick(s)
    case TitleClicked => HandleTitleClick(s)
    case ImageClicked => HandleImageClick(s)
    case OverlayClicked(targetId) => HandleOverlayClick(s, targetId)
    case SettingsClicked => HandleSettingsClick(s)
    case SettingChanged(key, value) => SetSetting(s, key, value)
  }

  function Run(h: Helpers, maxTry: nat, s: State, events: seq<Event>): State
    decreases |events|
  {
    if events == [] then s else Run(h, maxTry, Step(h, maxTry, s, events[0]), events[1..])
  }

  /** Every handler keeps the invariant. */
  lemma StepKeepsInvariant(h: Helpers, maxTry: nat, s: State, e: Event)
    requires Invariant(maxTry, s)
    ensures Invariant(maxTry, Step(h, maxTry, s, e))
  {
  }

  /** In every run from a state that keeps the invariant, in particular from
      the constructor's state, `tries` stays within `[0, maxTry]` (it is a
      `nat`, and `Invariant` bounds it by `maxTry`) and no lookup carries the
      NEWEST type. */
  lemma {:induction false} RunKeepsInvariant(h: Helpers, maxTry: nat, s: State, events: seq<Event>)
    requires Invariant(maxTry, s)
    ensures Invariant(maxTry, Run(h, maxTry, s, events))
    decreases |events|
  {
    if events != [] {
      StepKeepsInvariant(h, maxTry, s, events[0]);
      RunKeepsInvariant(h, maxTry, Step(h, maxTry, s, events[0]), events[1..]);
    }
  }

  // ------------------------------------------------------- retry behaviour

  /** Consecutive rejections of one lookup chain: the k-th rejection answers
      the lookup the (k-1)-th retry issued, and the chain ends when the
      container gives up. */
  function RejectionChain(h: Helpers, maxTry: nat, s: State, req: Request, draws: seq<Date>): State
    decreases |draws|
  {
    if draws == [] then s
    else
      var next := HandleRejection(h, maxTry, s, req.date, req.kind, draws[0]);
      if s.tries >= maxTry then next
      else RejectionChain(h, maxTry, next, Retry(h, req, draws[0]), draws[1..])
  }

  /** After n consecutive rejections starting at `tries = t`: the counter is
      `min(t + n, maxTry)`; the failure view is reached, and loading stops,
      exactly when `t + n > maxTry`; one retry is issued per rejection until
      then, the last of them being the n-th retry of the chain. */
  lemma {:induction false} RejectionChainOutcome(h: Helpers, maxTry: nat, s: State, req: Request, draws: seq<Date>)
    requires s.tries <= maxTry
    ensures var r := RejectionChain(h, maxTry, s, req, draws);
            var n := |draws|;
            && r.tries == (if s.tries + n <= maxTry then s.tries + n else maxTry)
            && r.isFailure == (s.isFailure || s.tries + n > maxTry)
            && r.isLoading == (s.isLoading && s.tries + n <= maxTry)
            && |r.requests| == |s.requests| + (if s.tries + n <= maxTry then n else maxTry - s.tries)
            && r.requests[..|s.requests|] == s.requests
            && (0 < n && s.tries + n <= maxTry ==> r.requests[|r.requests| - 1] == RetryChain(h, req, draws))
    decreases |draws|
  {
    if draws != [] && s.tries < maxTry {
      var next := HandleRejection(h, maxTry, s, req.date, req.kind, draws[0]);
      var retry := Retry(h, req, draws[0]);
      RejectionChainOutcome(h, maxTry, next, retry, draws[1..]);
      var r := RejectionChain(h, maxTry, next, retry, draws[1..]);
      assert r.requests[..|next.requests|] == next.requests;
      assert r.requests[..|s.requests|] == next.requests[..|s.requests|];
      if |draws| == 1 {
        assert draws[1..] == [];
        assert RetryChain(h, req, draws) == RetryChain(h, retry, []);
      }
    }
  }

  /** From a fresh chain (`tries = 0`), `maxTry` rejections are all retried
      and the failure view is not reached; the next rejection shows it, stops
      loading, leaves `tries = maxTry`, and issues nothing more. */
  lemma {:induction false} GivesUpAfterMaxTryRetries(h: Helpers, maxTry: nat, s: State, req: Request, draws: seq<Date>)
    requires s.tries == 0 && !s.isFailure && s.isLoading
    ensures |draws| <= maxTry ==>
              var r := RejectionChain(h, maxTry, s, req, draws);
              !r.isFailure && r.isLoading && SelectView(r) == LoadingView
              && |r.requests| == |s.requests| + |draws|
    ensures |draws| > maxTry ==>
              var r := RejectionChain(h, maxTry, s, req, draws);
              r.isFailure && !r.isLoading && r.tries == maxTry
              && SelectView(r) == FailureView(maxTry)
              && |r.requests| == |s.requests| + maxTry
  {
    RejectionChainOutcome(h, maxTry, s, req, draws);
  }

  /** `tries` is not reset by a new navigation: once a chain has used up its
      retries, the next action's first rejection shows the failure view
      without any retry. */
  lemma NoRetryAfterExhaustion(h: Helpers, maxTry: nat, s: State, kind: ActionType, s0: Date, s1: Date)
    requires s.tries >= maxTry
    ensures var clicked := HandleActionClick(h, s, kind, s0);
            var req := clicked.requests[|clicked.requests| - 1];
            var r := HandleRejection(h, maxTry, clicked, req.date, req.kind, s1);
            r.isFailure && !r.isLoading && r.requests == clicked.requests
  {
  }

  /** A new navigation does not clear `isFailure`: until its lookup resolves,
      the failure view stays on screen although the container is loading. */
  lemma FailureShownWhileReloading(h: Helpers, s: State, kind: ActionType, shuffled: Date)
    requires s.isFailure
    ensures var r := HandleActionClick(h, s, kind, shuffled);
            r.isLoading && r.isFailure && SelectView(r) == FailureView(s.tries)
  {
  }

  // ------------------------------------------------------ success behaviour

  /** With `isAsync` a successful lookup shows the picture at once. Without
      it the picture shows only when the preload completes. Until then the
      view is unchanged, unless a failure was on screen: clearing
      `isFailure` then turns the failure view into the loading view. */
  lemma RevealTiming(h: Helpers, s: State, date: Date, data: Data)
    ensures var url := if h.isDateSafe(date) then data.hdurl else data.url;
            var r := Receive(h, s, date, data);
            if s.settings.isAsync then SelectView(r) == AppView(Some(url), s.showOverlay)
            else && (!s.isFailure ==> SelectView(r) == SelectView(s))
                 && (s.isFailure && s.isLoading ==> SelectView(r) == LoadingView)
                 && SelectView(ImageLoaded(r)) == AppView(Some(url), s.showOverlay)
  {
  }

  /** The HD setting has no effect on the URL shown: a date safe for HD gets
      `hdurl` and any other date `url`, whatever `isHd` says. */
  lemma HdSettingIgnored(h: Helpers, s: State, date: Date, data: Data)
    ensures Receive(h, s.(settings := s.settings.(isHd := true)), date, data).(settings := s.settings)
         == Receive(h, s.(settings := s.settings.(isHd := false)), date, data).(settings := s.settings)
  {
  }

  // ---------------------------------------------------------- toggles

  /** Each toggle undoes itself. */
  lemma TogglesAreInvolutions(s: State)
    ensures HandleDescriptionClick(HandleDescriptionClick(s)) == s
    ensures HandleTitleClick(HandleTitleClick(s)) == s
    ensures HandleSettingsClick(HandleSettingsClick(s)) == s
  {
  }

  /** Opening the overlay and then clicking outside the framed image returns
      to a closed overlay with everything else as before. */
  lemma OverlayOpenThenClose(s: State, targetId: string)
    requires targetId != FrameImageId
    ensures HandleOverlayClick(HandleImageClick(s), targetId) == s.(showOverlay := false)
  {
  }

  /** Once settings have been loaded, memory and storage agree, and every
      later `setSetting` keeps them in agreement. */
  lemma SettingsStayPersisted(s: State, key: SettingType, value: bool)
    requires Load(s.storage) == s.settings
    ensures Load(SetSetting(s, key, value).storage) == SetSetting(s, key, value).settings
  {
  }

  lemma LoadedSettingsPersisted(s: State)
    ensures Load(LoadSettings(s).storage) == LoadSettings(s).settings
  {
  }
}
