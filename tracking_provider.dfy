/** The location-tracking session of the web portal: the enabled flag, the
    sampling profile, the last location and error, the persisted settings,
    and the single geolocation watch the session holds. The browser's
    geolocation service and `localStorage` are modelled as fields the
    session updates: the set of live watches with their options, a counter
    for the ids `watchPosition` hands out, and the two stored values. */
module Tracking {
  import opened Prelude

  /** `TrackingInterval`. */
  datatype Interval = Realtime | Balanced | Saver

  /** The `PositionOptions` passed to `watchPosition`; times in milliseconds. */
  datatype PositionOptions = PositionOptions(enableHighAccuracy: bool, maximumAge: nat, timeout: nat)

  /** `INTERVAL_OPTIONS`. */
  function Options(iv: Interval): PositionOptions {
    match iv
    case Realtime => PositionOptions(true, 0, 5000)
    case Balanced => PositionOptions(true, 30000, 10000)
    case Saver => PositionOptions(false, 300000, 20000)
  }

  /** The three profiles, and how they compare: fresher fixes cost more,
      each step from realtime to saver allows older cached positions and
      waits longer. */
  lemma OptionsOrdered()
    ensures Options(Realtime) == PositionOptions(true, 0, 5000)
    ensures Options(Balanced) == PositionOptions(true, 30000, 10000)
    ensures Options(Saver) == PositionOptions(false, 300000, 20000)
    ensures Options(Realtime).maximumAge < Options(Balanced).maximumAge < Options(Saver).maximumAge
    ensures Options(Realtime).timeout < Options(Balanced).timeout < Options(Saver).timeout
    ensures Options(Realtime).enableHighAccuracy && Options(Balanced).enableHighAccuracy
    ensures !Options(Saver).enableHighAccuracy
  {
  }

  function IntervalName(iv: Interval): string {
    match iv
    case Realtime => "realtime"
    case Balanced => "balanced"
    case Saver => "saver"
  }

  /** The stored text of an interval, when it names one. */
  function ParseInterval(s: string): (r: Option<Interval>)
    ensures r.Some? ==> IntervalName(r.value) == s
    ensures r.None? ==> forall iv :: IntervalName(iv) != s
  {
    if s == "realtime" then Some(Realtime)
    else if s == "balanced" then Some(Balanced)
    else if s == "saver" then Some(Saver)
    else None
  }

  lemma IntervalNameRoundTrip(iv: Interval)
    ensures ParseInterval(IntervalName(iv)) == Some(iv)
  {
  }

  /** Keys every JavaScript object inherits from `Object.prototype`; looking
      one of them up in `INTERVAL_OPTIONS` yields a truthy value. */
  const PrototypeKeys: set<string> := {
    "constructor", "hasOwnProperty", "isPrototypeOf", "propertyIsEnumerable",
    "toLocaleString", "toString", "valueOf", "__proto__",
    "__defineGetter__", "__defineSetter__", "__lookupGetter__", "__lookupSetter__"
  }

  /** The guard `savedInterval && INTERVAL_OPTIONS[savedInterval]` as
      written: a non-empty string that is an own key or an inherited one. */
  predicate StoredIntervalAcceptedAsWritten(saved: string) {
    saved != "" && (ParseInterval(saved).Some? || saved in PrototypeKeys)
  }

  /** The written guard lets an inherited key through that names no
      interval, so the session would adopt `"toString"` as its profile. */
  lemma InheritedKeyAccepted()
    ensures StoredIntervalAcceptedAsWritten("toString")
    ensures ParseInterval("toString").None?
  {
    assert "toString" in PrototypeKeys;
  }

  /** Both guards agree on every string that is not an inherited key. */
  lemma GuardsAgreeOffPrototype(saved: string)
    requires saved !in PrototypeKeys
    ensures StoredIntervalAcceptedAsWritten(saved) <==> ParseInterval(saved).Some?
  {
  }

  /** What `localStorage` holds: the parsed `isTrackingEnabled` and the raw
      `trackingInterval` text, each possibly absent. */
  datatype Storage = Storage(enabled: Option<bool>, interval: Option<string>)

  /** The interval the load effect restores: the stored one when it names an
      interval, otherwise `current` stays. */
  function RestoredInterval(stored: Option<string>, current: Interval): (r: Interval)
    ensures stored.Some? && ParseInterval(stored.value).Some? ==> r == ParseInterval(stored.value).value
    ensures (stored.None? || ParseInterval(stored.value).None?) ==> r == current
  {
    if stored.Some? && ParseInterval(stored.value).Some? then ParseInterval(stored.value).value
    else current
  }

  /** What the handlers persist, a later load restores. */
  lemma PersistRoundTrip(enabled: bool, iv: Interval, current: Interval)
    ensures Storage(Some(enabled), Some(IntervalName(iv))).enabled.GetOr(true) == enabled
    ensures RestoredInterval(Storage(Some(enabled), Some(IntervalName(iv))).interval, current) == iv
  {
    IntervalNameRoundTrip(iv);
  }

  /** A position fix, in units of 10^-5 degree. */
  datatype Location = Location(latitude: int, longitude: int)

  const FallbackErrorMessage: string :=
    "Could not fetch location. Please grant permission or check your browser settings."
  const UnsupportedMessage: string := "Geolocation is not supported by your browser."

  /** `error.message || <fallback>`: an empty message falls back. */
  function ErrorMessage(message: string): (r: string)
    ensures r != ""
    ensures message != "" ==> r == message
    ensures message == "" ==> r == FallbackErrorMessage
  {
    if message != "" then message else FallbackErrorMessage
  }

  class TrackingSession {
    var isTrackingEnabled: bool
    var location: Option<Location>
    var locationError: Option<string>
    var isInitializing: bool
    var trackingInterval: Interval
    /** `watchIdRef.current`. */
    var watchId: Option<nat>
    const geolocationSupported: bool
    var storage: Storage
    /** The browser's live watches and the options each was started with. */
    var liveWatches: map<nat, PositionOptions>
    /** The id the next `watchPosition` call returns. */
    var nextWatchId: nat

    /** The watch id the session holds is the only live watch, and an id
        never handed out yet is above it. */
    ghost predicate WatchTracked()
      reads this
    {
      (watchId.Some? ==> watchId.value < nextWatchId && liveWatches.Keys == {watchId.value})
      && (watchId.None? ==> liveWatches == map[])
    }

    ghost predicate Valid()
      reads this
    {
      WatchTracked()
      && (watchId.Some? ==>
            isTrackingEnabled && !isInitializing && geolocationSupported
            && liveWatches[watchId.value] == Options(trackingInterval))
      && (location.Some? ==> watchId.Some?)
      && ((isInitializing || !isTrackingEnabled) ==> location.None? && locationError.None?)
    }

    /** The first render: tracking on, `balanced`, initializing, nothing
        watched yet. */
    constructor (supported: bool, stored: Storage)
      ensures Valid()
      ensures isTrackingEnabled && isInitializing && trackingInterval == Balanced
      ensures location.None? && locationError.None? && watchId.None?
      ensures geolocationSupported == supported && storage == stored
    {
      isTrackingEnabled := true;
      location := None;
      locationError := None;
      isInitializing := true;
      trackingInterval := Balanced;
      watchId := None;
      geolocationSupported := supported;
      storage := stored;
      liveWatches := map[];
      nextWatchId := 1;
    }

    /** `stopWatching`: clear the watch if there is one; always forget the
        location and the error. Repeating it changes nothing more. */
    method StopWatching()
      modifies this
      ensures watchId.None? && location.None? && locationError.None?
      ensures liveWatches == if old(watchId).Some? then old(liveWatches) - {old(watchId).value}
                             else old(liveWatches)
      ensures isTrackingEnabled == old(isTrackingEnabled) && isInitializing == old(isInitializing)
      ensures trackingInterval == old(trackingInterval) && storage == old(storage)
      ensures nextWatchId == old(nextWatchId)
    {
      if watchId.Some? {
        liveWatches := liveWatches - {watchId.value};
        watchId := None;
      }
      location := None;
      locationError := None;
    }

    /** `startWatching` as created in a render whose interval was `iv`: stop
        first, then start one watch with that interval's options, or record
        that the browser has no geolocation. */
    method StartWatching(iv: Interval)
      requires WatchTracked()
      modifies this
      ensures WatchTracked()
      ensures location.None?
      ensures geolocationSupported ==>
                watchId == Some(old(nextWatchId)) && liveWatches == map[old(nextWatchId) := Options(iv)]
                && locationError.None? && nextWatchId == old(nextWatchId) + 1
      ensures !geolocationSupported ==>
                watchId.None? && liveWatches == map[] && locationError == Some(UnsupportedMessage)
                && nextWatchId == old(nextWatchId)
      ensures isTrackingEnabled == old(isTrackingEnabled) && isInitializing == old(isInitializing)
      ensures trackingInterval == old(trackingInterval) && storage == old(storage)
    {
      StopWatching();
      locationError := None;
      if geolocationSupported {
        watchId := Some(nextWatchId);
        liveWatches := liveWatches[nextWatchId := Options(iv)];
        nextWatchId := nextWatchId + 1;
      } else {
        locationError := Some(UnsupportedMessage);
      }
    }

    /** The enable/initializing effect re-run after its dependencies
        changed: the previous run's cleanup stops watching, then the effect
        starts a watch exactly when tracking is on and initializing is over. */
    method RerunEffect()
      requires WatchTracked()
      modifies this
      ensures Valid()
      ensures isTrackingEnabled == old(isTrackingEnabled) && isInitializing == old(isInitializing)
      ensures trackingInterval == old(trackingInterval) && storage == old(storage)
      ensures location.None?
      ensures watchId.Some? <==> isTrackingEnabled && !isInitializing && geolocationSupported
      ensures locationError == if isTrackingEnabled && !isInitializing && !geolocationSupported
                               then Some(UnsupportedMessage) else None
    {
      StopWatching();
      if isTrackingEnabled && !isInitializing {
        StartWatching(trackingInterval);
      } else {
        StopWatching();
      }
    }

    /** The first commit: the load effect reads the stored settings and the
        enable effect runs once with the initial state (stopping, since
        initializing is still on); the restored state then re-runs it. */
    method Mount()
      requires Valid() && isInitializing && isTrackingEnabled && trackingInterval == Balanced
      modifies this
      ensures Valid()
      ensures !isInitializing
      ensures isTrackingEnabled == old(storage).enabled.GetOr(true)
      ensures trackingInterval == RestoredInterval(old(storage).interval, Balanced)
      ensures storage == old(storage) && location.None?
      ensures watchId.Some? <==> isTrackingEnabled && geolocationSupported
      ensures locationError == if isTrackingEnabled && !geolocationSupported
                               then Some(UnsupportedMessage) else None
    {
      var restoredEnabled := storage.enabled.GetOr(isTrackingEnabled);
      var restoredInterval := RestoredInterval(storage.interval, trackingInterval);
      StopWatching();
      isTrackingEnabled := restoredEnabled;
      trackingInterval := restoredInterval;
      isInitializing := false;
      RerunEffect();
    }

    /** `setTrackingInterval(iv)`: store the interval, restart watching with
        the handler's own (previous) interval when tracking is on, and let
        the effect restart it again with `iv` when the interval changed. The
        enabled flag is never touched. */
    method SetTrackingInterval(iv: Interval)
      requires Valid() && !isInitializing
      modifies this
      ensures Valid()
      ensures trackingInterval == iv
      ensures storage == old(storage).(interval := Some(IntervalName(iv)))
      ensures isTrackingEnabled == old(isTrackingEnabled) && !isInitializing
      ensures isTrackingEnabled ==>
                location.None? && (watchId.Some? <==> geolocationSupported)
                && locationError == if geolocationSupported then None else Some(UnsupportedMessage)
      ensures !isTrackingEnabled ==>
                watchId.None? && location.None? && locationError.None? && liveWatches == old(liveWatches)
    {
      var previous := trackingInterval;
      trackingInterval := iv;
      storage := storage.(interval := Some(IntervalName(iv)));
      if isTrackingEnabled {
        StartWatching(previous);
      }
      if iv != previous {
        RerunEffect();
      }
    }

    /** `handleSetIsTrackingEnabled(b)`: store the flag; when it changed, the
        effect stops watching or starts again. */
    method HandleSetIsTrackingEnabled(b: bool)
      requires Valid() && !isInitializing
      modifies this
      ensures Valid()
      ensures isTrackingEnabled == b && !isInitializing
      ensures storage == old(storage).(enabled := Some(b))
      ensures trackingInterval == old(trackingInterval)
      ensures b != old(isTrackingEnabled) ==>
                location.None? && (watchId.Some? <==> b && geolocationSupported)
                && locationError == if b && !geolocationSupported then Some(UnsupportedMessage) else None
      ensures b == old(isTrackingEnabled) ==>
                watchId == old(watchId) && location == old(location)
                && locationError == old(locationError) && liveWatches == old(liveWatches)
    {
      var previous := isTrackingEnabled;
      isTrackingEnabled := b;
      storage := storage.(enabled := Some(b));
      if b != previous {
        RerunEffect();
      }
    }

    /** The watch's success callback: the fix replaces the location and the
        error is cleared. */
    method OnPosition(fix: Location)
      requires Valid() && watchId.Some?
      modifies this
      ensures Valid()
      ensures location == Some(fix) && locationError.None?
      ensures watchId == old(watchId) && liveWatches == old(liveWatches)
      ensures isTrackingEnabled == old(isTrackingEnabled) && trackingInterval == old(trackingInterval)
      ensures isInitializing == old(isInitializing) && storage == old(storage)
    {
      location := Some(fix);
      locationError := None;
    }

    /** The watch's error callback as written: the error is recorded and
        then `stopWatching` runs, which clears it again, so the error never
        survives the callback. */
    method OnWatchErrorAsWritten(message: string)
      requires Valid() && watchId.Some?
      modifies this
      ensures Valid()
      ensures watchId.None? && liveWatches == map[] && location.None?
      ensures locationError.None?
      ensures isTrackingEnabled == old(isTrackingEnabled) && trackingInterval == old(trackingInterval)
      ensures isInitializing == old(isInitializing) && storage == old(storage)
    {
      locationError := Some(ErrorMessage(message));
      StopWatching();
    }

    /** The watch's error callback as intended: stop watching and keep the
        error for the page to show. */
    method OnWatchError(message: string)
      requires Valid() && watchId.Some?
      modifies this
      ensures Valid()
      ensures watchId.None? && liveWatches == map[] && location.None?
      ensures locationError == Some(ErrorMessage(message))
      ensures isTrackingEnabled == old(isTrackingEnabled) && trackingInterval == old(trackingInterval)
      ensures isInitializing == old(isInitializing) && storage == old(storage)
    {
      StopWatching();
      locationError := Some(ErrorMessage(message));
    }

    /** Unmounting runs the effect's cleanup: no watch is left behind. */
    method Unmount()
      requires Valid()
      modifies this
      ensures watchId.None? && liveWatches == map[]
      ensures location.None? && locationError.None?
    {
      StopWatching();
    }
  }
}
