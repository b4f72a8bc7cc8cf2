/**
 * The container component itself: an object whose handlers update its view
 * state field by field. Each handler is proved to perform the transition of
 * the same name in module ViewState, and to keep that module's invariant.
 */
module Container {
  import opened Wrappers
  import opened Navigation
  import opened UserSettings
  import opened ViewState

  class AppContainer {
    /** The imported date helpers and `DaySort.NEWEST`. */
    const helpers: Helpers
    /** `AppConstants.MAX_TRY`. */
    const maxTry: nat

    // the component's `state`
    var showOverlay: bool
    var showSettings: bool
    var showDescription: bool
    var showTitle: bool
    var settings: Settings
    var tries: nat
    var isFailure: bool
    var isLoading: bool
    var title: Option<string>
    var explanation: Option<string>
    var date: Date
    var imageUrl: Option<string>

    // process-wide state the handlers touch
    var latest: Date               // DaySort.LATEST
    var preload: Option<string>    // src of downloadImage while its onload is pending
    var requests: seq<Request>     // every lookup handed to getByDate
    var storage: Storage           // localStorage

    /** The object's state as a ViewState value. */
    ghost function Snapshot(): State
      reads this
    {
      State(showOverlay, showSettings, showDescription, showTitle, settings, tries,
            isFailure, isLoading, title, explanation, date, imageUrl,
            latest, preload, requests, storage)
    }

    ghost predicate Valid()
      reads this
    {
      Invariant(maxTry, Snapshot())
    }

    /** The constructor's initial `state`; `latest` is the initial value of
        `DaySort.LATEST` and `storage` what was persisted before. */
    constructor (helpers: Helpers, maxTry: nat, latest: Date, storage: Storage)
      ensures Valid() && Snapshot() == Initial(latest, storage)
      ensures this.helpers == helpers && this.maxTry == maxTry
    {
      this.helpers, this.maxTry := helpers, maxTry;
      showOverlay, showSettings, showDescription, showTitle := false, false, false, true;
      settings := Defaults;
      tries, isFailure, isLoading := 0, false, true;
      title, explanation, date, imageUrl := None, None, Undefined, None;
      this.latest, preload, requests, this.storage := latest, None, [], storage;
    }

    method ComponentWillMount()
      requires Valid()
      modifies this
      ensures Valid() && Snapshot() == Mount(helpers, old(Snapshot()))
    {
      LoadSettings();
      MakeRequest(helpers.newest, Newest, Undefined);
    }

    /** `makeRequest(current, kind)`; `shuffled` is what `shuffleDate()`
        returns if it is called. */
    method MakeRequest(current: Date, kind: ActionType, shuffled: Date)
      requires Valid()
      modifies this
      ensures Valid()
      ensures Snapshot() == ViewState.MakeRequest(helpers, old(Snapshot()), current, kind, shuffled)
    {
      var target: Date;
      var issued := kind;
      match kind {
        case Newest =>
          target := current;
          issued := Latest;
          latest := target;
        case Latest =>
          target := helpers.yesterday(current);
          latest := target;
        case Previous =>
          target := helpers.yesterday(current);
        case Next =>
          target := helpers.tomorrow(current);
        case Shuffle =>
          target := shuffled;
      }
      requests := requests + [Request(target, issued)];
    }

    /** `receive(date, data)`. */
    method Receive(date: Date, data: Data)
      requires Valid()
      modifies this
      ensures Valid()
      ensures Snapshot() == ViewState.Receive(helpers, old(Snapshot()), date, data)
    {
      var url := ImageUrl(settings, helpers.isDateSafe(date), data);
      ShowResponse(date, data);
      if settings.isAsync {
        Update(url);
      } else {
        preload := Some(url);
      }
    }

    /** The first `setState` of `receive`: the response's text and date, and
        a cleared failure state. */
    method ShowResponse(date: Date, data: Data)
      modifies this
      ensures Snapshot() == old(Snapshot()).(title := Some(data.title), explanation := Some(data.explanation),
                                             date := date, tries := 0, isFailure := false)
    {
      title, explanation := Some(data.title), Some(data.explanation);
      this.date, tries, isFailure := date, 0, false;
    }

    /** The `update` closure of `receive`: shows the image and stops loading. */
    method Update(url: string)
      modifies this
      ensures Snapshot() == old(Snapshot()).(imageUrl := Some(url), isLoading := false)
    {
      imageUrl, isLoading := Some(url), false;
    }

    /** The `onload` of `downloadImage`: the pending `update` of `receive`. */
    method ImageLoaded()
      requires Valid()
      modifies this
      ensures Valid()
      ensures Snapshot() == ViewState.ImageLoaded(old(Snapshot()))
    {
      if preload.Some? {
        imageUrl, isLoading := preload, false;
        preload := None;
      }
    }

    /** `handleRejection(err, date, kind)`; `shuffled` is what
        `shuffleDate()` returns if the retry calls it. */
    method HandleRejection(date: Date, kind: ActionType, shuffled: Date)
      requires Valid()
      modifies this
      ensures Valid()
      ensures Snapshot() == ViewState.HandleRejection(helpers, maxTry, old(Snapshot()), date, kind, shuffled)
    {
      if tries >= maxTry {
        isFailure, isLoading := true, false;
      } else {
        MakeRequest(date, kind, shuffled);
        tries := tries + 1;
      }
    }

    /** `handleActionClick(kind)`. */
    method HandleActionClick(kind: ActionType, shuffled: Date)
      requires Valid()
      modifies this
      ensures Valid()
      ensures Snapshot() == ViewState.HandleActionClick(helpers, old(Snapshot()), kind, shuffled)
    {
      var from := if kind == Newest then helpers.newest else date;
      MakeRequest(from, kind, shuffled);
      isLoading, showSettings := true, false;
    }

    method HandleDescriptionClick()
      requires Valid()
      modifies this
      ensures Valid()
      ensures Snapshot() == ViewState.HandleDescriptionClick(old(Snapshot()))
    {
      showDescription := !showDescription;
    }

    method HandleTitleClick()
      requires Valid()
      modifies this
      ensures Valid()
      ensures Snapshot() == ViewState.HandleTitleClick(old(Snapshot()))
    {
      showTitle := !showTitle;
    }

    method HandleImageClick()
      requires Valid()
      modifies this
      ensures Valid()
      ensures Snapshot() == ViewState.HandleImageClick(old(Snapshot()))
    {
      showOverlay := true;
    }

    /** `handleOverlayClick(e)`, with `targetId` the id of the clicked element. */
    method HandleOverlayClick(targetId: string)
      requires Valid()
      modifies this
      ensures Valid()
      ensures Snapshot() == ViewState.HandleOverlayClick(old(Snapshot()), targetId)
    {
      if targetId == FrameImageId {
        return;
      }
      showOverlay := false;
    }

    method HandleSettingsClick()
      requires Valid()
      modifies this
      ensures Valid()
      ensures Snapshot() == ViewState.HandleSettingsClick(old(Snapshot()))
    {
      showSettings := !showSettings;
    }

    method SetSetting(key: SettingType, value: bool)
      requires Valid()
      modifies this
      ensures Valid()
      ensures Snapshot() == ViewState.SetSetting(old(Snapshot()), key, value)
    {
      storage := storage[key := value];
      match key
      case IsAsync => settings := settings.(isAsync := value);
      case IsHd => settings := settings.(isHd := value);
    }

    method LoadSettings()
      requires Valid()
      modifies this
      ensures Valid()
      ensures Snapshot() == ViewState.LoadSettings(old(Snapshot()))
    {
      var isAsync := if IsAsync in storage then storage[IsAsync] else Defaults.isAsync;
      var isHd := if IsHd in storage then storage[IsHd] else Defaults.isHd;
      settings := Settings(isAsync, isHd);
    }

    /** Dispatches one event to its handler. */
    method Handle(e: Event)
      requires Valid()
      modifies this
      ensures Valid()
      ensures Snapshot() == Step(helpers, maxTry, old(Snapshot()), e)
    {
      match e
      case Mounted => ComponentWillMount();
      case ActionClicked(kind, shuffled) => HandleActionClick(kind, shuffled);
      case Resolved(date, data) => Receive(date, data);
      case Rejected(date, kind, shuffled) => HandleRejection(date, kind, shuffled);
      case PreloadDone => ImageLoaded();
      case DescriptionClicked => HandleDescriptionClick();
      case TitleClicked => HandleTitleClick();
      case ImageClicked => HandleImageClick();
      case OverlayClicked(targetId) => HandleOverlayClick(targetId);
      case SettingsClicked => HandleSettingsClick();
      case SettingChanged(key, value) => SetSetting(key, value);
    }
  }
}
