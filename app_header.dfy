/** The SOS control in the application header: the confirmation dialog, the
    choice between the tracked location and a one-off position request, the
    `Lat: …, Lon: …` text the report carries, and what happens when the
    report settles. */
module AppHeader {
  import opened Prelude
  import opened Incidents
  import opened IncidentsMap
  import opened Tracking

  /** `x.toFixed(5)` for a coordinate `x` given in units of 10^-5 degree:
      the sign, the whole degrees, a point and exactly five decimals. */
  function FixedNumeral(x: int): Numeral {
    var a := if x < 0 then -x else x;
    assert Pow10(5) == 100000 by {
      assert Pow10(2) == 100;
      assert Pow10(4) == 10000;
    }
    Numeral(x < 0, NatToDigits(a / 100000), PadDigits(a % 100000, 5))
  }

  function FormatCoordinate(x: int): string {
    NumeralText(FixedNumeral(x))
  }

  /** Five decimals are always printed, and the numeral stands for `x`
      exactly. */
  lemma FixedNumeralValue(x: int)
    ensures WellFormed(FixedNumeral(x))
    ensures |FixedNumeral(x).fraction| == 5
    ensures NumeralValue(FixedNumeral(x)) == Fixed(x, 5)
  {
    var n := FixedNumeral(x);
    var a := if x < 0 then -x else x;
    assert Pow10(5) == 100000 by {
      assert Pow10(2) == 100;
      assert Pow10(4) == 10000;
    }
    DigitsValueAppend(n.whole, n.fraction);
    assert DigitsValue(n.whole + n.fraction) == (a / 100000) * 100000 + a % 100000;
  }

  /** The location text of a report: `Lat: <lat>, Lon: <lng>`. */
  function LocationString(loc: Location): string {
    MatchText(Match(FixedNumeral(loc.latitude), FixedNumeral(loc.longitude)))
  }

  /** The map reads back exactly the position the header wrote. */
  lemma LocationRoundTrip(loc: Location)
    ensures ParseLocation(LocationString(loc))
         == Some(Coords(Fixed(loc.latitude, 5), Fixed(loc.longitude, 5)))
  {
    var m := Match(FixedNumeral(loc.latitude), FixedNumeral(loc.longitude));
    FixedNumeralValue(loc.latitude);
    FixedNumeralValue(loc.longitude);
    ParseMatchText(m);
  }

  /** Different positions give different texts. */
  lemma LocationStringInjective(a: Location, b: Location)
    requires LocationString(a) == LocationString(b)
    ensures a == b
  {
    LocationRoundTrip(a);
    LocationRoundTrip(b);
  }

  /** An incident whose location is a header-written text is placed on the
      map at that position. */
  lemma SosIncidentIsMapped(v: IncidentView, loc: Location)
    requires v.location == LocationString(loc)
    ensures Locate(v) == Some(Located(v, Coords(Fixed(loc.latitude, 5), Fixed(loc.longitude, 5))))
  {
    LocationRoundTrip(loc);
  }

  /** The input `sendSOSReport` hands to `createIncidentReport`. */
  datatype SosRequest = SosRequest(kind: string, severity: string, description: string,
                                   location: string, isSos: bool)

  const SosDescription: string :=
    "Urgent SOS alert triggered from user's device. Immediate assistance required. Notifying emergency contacts."

  function SosReport(locationString: string): (r: SosRequest)
    ensures r.location == locationString && r.isSos
    ensures r.kind == "SOS Emergency" && r.severity == "High"
  {
    SosRequest("SOS Emergency", "High", SosDescription, locationString, true)
  }

  /** How the report call settled: `success` true, `success` false with a
      message, or a thrown value (an `Error` with its message, or something
      else). */
  datatype Outcome = Succeeded | Declined(message: string) | Threw(errorMessage: Option<string>)

  /** The toasts the header raises. */
  datatype Notice =
    | SosSent
    | SosFailed(description: string)
    | GeolocationUnsupported
    | PositionUnavailable

  /** The description of the "SOS Failed" toast. */
  function FailureText(o: Outcome): (r: Option<string>)
    ensures r.None? <==> o.Succeeded?
    ensures o.Declined? ==> r == Some(o.message)
    ensures o.Threw? && o.errorMessage.Some? ==> r == o.errorMessage
    ensures o.Threw? && o.errorMessage.None? ==> r == Some("An unknown error occurred.")
  {
    match o
    case Succeeded => None
    case Declined(m) => Some(m)
    case Threw(e) => Some(e.GetOr("An unknown error occurred."))
  }

  const IncidentsRoute: string := "/incidents"

  class SosAlert {
    var isSendingSOS: bool
    var isDialogOpen: bool
    /** A `getCurrentPosition` request is outstanding. */
    var awaitingPosition: bool
    /** A `createIncidentReport` call is outstanding. */
    var reportInFlight: bool
    var requests: seq<SosRequest>
    var notices: seq<Notice>
    var navigations: seq<string>
    const geolocationSupported: bool

    /** Sending is on exactly while one of the two asynchronous steps is
        outstanding, and every report sent carries a location the map can
        place. */
    ghost predicate Valid()
      reads this
    {
      (isSendingSOS <==> awaitingPosition || reportInFlight)
      && !(awaitingPosition && reportInFlight)
      && forall k :: 0 <= k < |requests| ==> requests[k].isSos && ParseLocation(requests[k].location).Some?
    }

    constructor (supported: bool)
      ensures Valid()
      ensures !isSendingSOS && !isDialogOpen && requests == [] && notices == [] && navigations == []
      ensures geolocationSupported == supported
    {
      isSendingSOS := false;
      isDialogOpen := false;
      awaitingPosition := false;
      reportInFlight := false;
      requests := [];
      notices := [];
      navigations := [];
      geolocationSupported := supported;
    }

    /** The dialog's `onOpenChange`. */
    method SetDialogOpen(open: bool)
      requires Valid()
      modifies this
      ensures Valid() && isDialogOpen == open
      ensures isSendingSOS == old(isSendingSOS) && awaitingPosition == old(awaitingPosition)
      ensures reportInFlight == old(reportInFlight) && requests == old(requests)
      ensures notices == old(notices) && navigations == old(navigations)
    {
      isDialogOpen := open;
    }

    /** `sendSOSReport(locationString)` up to the awaited call. */
    method SendReport(locationString: string)
      requires isSendingSOS && !awaitingPosition && !reportInFlight
      requires ParseLocation(locationString).Some?
      requires forall k :: 0 <= k < |requests| ==> requests[k].isSos && ParseLocation(requests[k].location).Some?
      modifies this
      ensures Valid() && reportInFlight && isSendingSOS
      ensures requests == old(requests) + [SosReport(locationString)]
      ensures isDialogOpen == old(isDialogOpen) && awaitingPosition == old(awaitingPosition)
      ensures notices == old(notices) && navigations == old(navigations)
    {
      requests := requests + [SosReport(locationString)];
      reportInFlight := true;
    }

    /** `handleSendSOS`, from the confirm button, which is disabled while
        sending: report the tracked location at once when there is one;
        otherwise ask for the current position, or give up when the browser
        has no geolocation. */
    method HandleSendSOS(tracked: Option<Location>)
      requires Valid() && !isSendingSOS
      modifies this
      ensures Valid()
      ensures navigations == old(navigations)
      ensures tracked.Some? ==>
                reportInFlight && isSendingSOS && !awaitingPosition && notices == old(notices)
                && requests == old(requests) + [SosReport(LocationString(tracked.value))]
                && isDialogOpen == old(isDialogOpen)
      ensures tracked.None? && geolocationSupported ==>
                awaitingPosition && isSendingSOS && requests == old(requests)
                && notices == old(notices) && isDialogOpen == old(isDialogOpen)
      ensures tracked.None? && !geolocationSupported ==>
                !isSendingSOS && !isDialogOpen && requests == old(requests)
                && notices == old(notices) + [GeolocationUnsupported]
    {
      isSendingSOS := true;
      if tracked.Some? {
        LocationRoundTrip(tracked.value);
        SendReport(LocationString(tracked.value));
        return;
      }
      if !geolocationSupported {
        notices := notices + [GeolocationUnsupported];
        isSendingSOS := false;
        isDialogOpen := false;
        return;
      }
      awaitingPosition := true;
    }

    /** The position request succeeded: the fix is reported. */
    method OnCurrentPosition(fix: Location)
      requires Valid() && awaitingPosition
      modifies this
      ensures Valid() && reportInFlight && isSendingSOS && !awaitingPosition
      ensures requests == old(requests) + [SosReport(LocationString(fix))]
      ensures isDialogOpen == old(isDialogOpen)
      ensures notices == old(notices) && navigations == old(navigations)
    {
      awaitingPosition := false;
      LocationRoundTrip(fix);
      SendReport(LocationString(fix));
    }

    /** The position request failed: nothing is reported. */
    method OnCurrentPositionError()
      requires Valid() && awaitingPosition
      modifies this
      ensures Valid() && !isSendingSOS && !isDialogOpen && !awaitingPosition
      ensures requests == old(requests) && navigations == old(navigations)
      ensures notices == old(notices) + [PositionUnavailable]
    {
      notices := notices + [PositionUnavailable];
      isSendingSOS := false;
      isDialogOpen := false;
      awaitingPosition := false;
    }

    /** The report call settled: on success the user is told and taken to the
        incidents page, otherwise the failure is shown; either way sending
        ends and the dialog closes. */
    method OnReportSettled(o: Outcome)
      requires Valid() && reportInFlight
      modifies this
      ensures Valid() && !isSendingSOS && !isDialogOpen && !reportInFlight
      ensures requests == old(requests)
      ensures o.Succeeded? ==>
                notices == old(notices) + [SosSent] && navigations == old(navigations) + [IncidentsRoute]
      ensures !o.Succeeded? ==>
                notices == old(notices) + [SosFailed(FailureText(o).value)] && navigations == old(navigations)
    {
      var failure := FailureText(o);
      if failure.None? {
        notices := notices + [SosSent];
        navigations := navigations + [IncidentsRoute];
      } else {
        notices := notices + [SosFailed(failure.value)];
      }
      isSendingSOS := false;
      isDialogOpen := false;
      reportInFlight := false;
    }
  }
}
