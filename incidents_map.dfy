/** The incidents map: `parseLocation`, which finds
    `Lat: <number>, Lon: <number>` anywhere in a location string with the
    regular expression `/Lat: ([-]?\d+\.\d+), Lon: ([-]?\d+\.\d+)/`, the
    `validIncidents` filter built on it, and the selected-marker state. */
module IncidentsMap {
  import opened Prelude
  import opened Incidents

  /** An exact decimal, `mantissa / 10^places`: the number a captured numeral
      spells (`parseFloat` would round it to the nearest double). */
  datatype Fixed = Fixed(mantissa: int, places: nat)

  datatype Coords = Coords(lat: Fixed, lng: Fixed)

  /** A numeral of the form `[-]?\d+\.\d+`. */
  datatype Numeral = Numeral(negative: bool, whole: string, fraction: string)

  predicate WellFormed(n: Numeral) {
    |n.whole| > 0 && |n.fraction| > 0 && AllDigits(n.whole) && AllDigits(n.fraction)
  }

  function NumeralText(n: Numeral): string {
    (if n.negative then "-" else "") + n.whole + "." + n.fraction
  }

  function NumeralValue(n: Numeral): Fixed
    requires WellFormed(n)
  {
    DigitsValueAppend(n.whole, n.fraction);
    var d: int := DigitsValue(n.whole + n.fraction);
    Fixed(if n.negative then -d else d, |n.fraction|)
  }

  /** The two captures of one match, latitude first. */
  datatype Match = Match(lat: Numeral, lon: Numeral)

  const LatTag: string := "Lat: "
  const LonTag: string := ", Lon: "

  function MatchText(m: Match): string {
    LatTag + NumeralText(m.lat) + LonTag + NumeralText(m.lon)
  }

  predicate WellFormedMatch(m: Match) {
    WellFormed(m.lat) && WellFormed(m.lon)
  }

  function CoordsOf(m: Match): Coords
    requires WellFormedMatch(m)
  {
    Coords(NumeralValue(m.lat), NumeralValue(m.lon))
  }

  predicate StartsWith(t: string, w: string) {
    |w| <= |t| && t[..|w|] == w
  }

  // ---------------------------------------------------------------------
  // The matcher, scanning suffixes of the input. `\d+` is greedy and a
  // digit is never `.` or `,`, so each capture's digit runs are maximal;
  // `[-]?` takes a `-` when there is one.

  /** A split of the input into a leading run of digits and what follows. */
  datatype Split = Split(run: string, rest: string)

  /** The run of digits `t` starts with (all of them: `\d+` is greedy). */
  function Digits(t: string): Split {
    if t != [] && IsDigit(t[0]) then
      var tail := Digits(t[1..]);
      Split([t[0]] + tail.run, tail.rest)
    else Split([], t)
  }

  /** A capture and the input left after it. */
  datatype Scan = Scan(numeral: Numeral, rest: string)

  /** The capture `([-]?\d+\.\d+)` at the start of `t`, if there is one. */
  function Number(t: string): Option<Scan> {
    var negative := t != [] && t[0] == '-';
    var whole := Digits(if negative then t[1..] else t);
    if whole.run == [] || whole.rest == [] || whole.rest[0] != '.' then None
    else
      var fraction := Digits(whole.rest[1..]);
      if fraction.run == [] then None
      else Some(Scan(Numeral(negative, whole.run, fraction.run), fraction.rest))
  }

  datatype MatchScan = MatchScan(found: Match, rest: string)

  /** The expression matched at the start of `t`. */
  function MatchPrefix(t: string): Option<MatchScan> {
    if !StartsWith(t, LatTag) then None
    else match Number(t[|LatTag|..])
      case None => None
      case Some(a) =>
        if !StartsWith(a.rest, LonTag) then None
        else match Number(a.rest[|LonTag|..])
          case None => None
          case Some(b) => Some(MatchScan(Match(a.numeral, b.numeral), b.rest))
  }

  /** The coordinates of the leftmost match in `t`. */
  function ParseFrom(t: string): Option<Coords>
    decreases |t|
  {
    match MatchPrefix(t)
    case Some(ms) =>
      MatchPrefixSound(t, ms.found, ms.rest);
      Some(CoordsOf(ms.found))
    case None =>
      if t == [] then None else ParseFrom(t[1..])
  }

  /** `parseLocation(location)`. */
  function ParseLocation(s: string): Option<Coords> {
    ParseFrom(s)
  }

  // ---------------------------------------------------------------------
  // The matcher against the language of the expression.

  predicate NoDigitFirst(t: string) {
    t == [] || !IsDigit(t[0])
  }

  lemma {:induction false} DigitsSpec(t: string)
    ensures t == Digits(t).run + Digits(t).rest
    ensures AllDigits(Digits(t).run) && NoDigitFirst(Digits(t).rest)
  {
    if t != [] && IsDigit(t[0]) {
      var tail := Digits(t[1..]);
      DigitsSpec(t[1..]);
      assert Digits(t) == Split([t[0]] + tail.run, tail.rest);
      assert AllDigits([t[0]]);
      AllDigitsAppend([t[0]], tail.run);
      calc {
        t;
        [t[0]] + t[1..];
        [t[0]] + (tail.run + tail.rest);
        { Assoc([t[0]], tail.run, tail.rest); }
        [t[0]] + tail.run + tail.rest;
      }
    }
  }

  lemma {:induction false} DigitsAppend(w: string, x: string)
    requires AllDigits(w)
    ensures Digits(w + x) == Split(w + Digits(x).run, Digits(x).rest)
  {
    if w == [] {
      assert w + x == x;
    } else {
      assert (w + x)[0] == w[0];
      assert (w + x)[1..] == w[1..] + x;
      DigitsAppend(w[1..], x);
      assert [w[0]] + (w[1..] + Digits(x).run) == w + Digits(x).run;
    }
  }

  lemma DigitsStop(x: string)
    requires NoDigitFirst(x)
    ensures Digits(x) == Split([], x)
  {
  }

  /** What a capture finds is a well-formed numeral spelled at the start of
      the input, and no digit follows it. */
  lemma NumberSound(t: string, n: Numeral, rest: string)
    requires Number(t) == Some(Scan(n, rest))
    ensures WellFormed(n) && t == NumeralText(n) + rest && NoDigitFirst(rest)
  {
    var negative := t != [] && t[0] == '-';
    var u := if negative then t[1..] else t;
    var whole := Digits(u);
    var fraction := Digits(whole.rest[1..]);
    DigitsSpec(u);
    DigitsSpec(whole.rest[1..]);
    assert whole.rest == "." + (n.fraction + rest);
    assert t == (if negative then "-" else "") + u;
    Concat5(if negative then "-" else "", n.whole, ".", n.fraction, rest);
  }

  lemma Concat5(a: string, b: string, c: string, d: string, e: string)
    ensures a + b + c + d + e == a + (b + (c + (d + e)))
  {
  }

  /** A numeral spelled at the start of the input is captured with its sign
      and whole part, and entirely when no digit follows it. */
  lemma NumberFinds(n: Numeral, rest: string)
    requires WellFormed(n)
    ensures Number(NumeralText(n) + rest).Some?
    ensures Number(NumeralText(n) + rest).value.numeral.negative == n.negative
    ensures Number(NumeralText(n) + rest).value.numeral.whole == n.whole
    ensures NoDigitFirst(rest) ==> Number(NumeralText(n) + rest) == Some(Scan(n, rest))
  {
    var t := NumeralText(n) + rest;
    var sign := if n.negative then "-" else "";
    var after := "." + (n.fraction + rest);
    var u := n.whole + after;
    Concat5(sign, n.whole, ".", n.fraction, rest);
    assert t == sign + u;
    if n.negative {
      assert t[0] == '-' && t[1..] == u;
    } else {
      assert t == u && t[0] == n.whole[0] && IsDigit(n.whole[0]);
    }
    assert (t != [] && t[0] == '-') == n.negative;
    assert (if n.negative then t[1..] else t) == u;
    assert after[0] == '.';
    DigitsAppend(n.whole, after);
    DigitsStop(after);
    assert Digits(u) == Split(n.whole, after);
    assert after[1..] == n.fraction + rest;
    DigitsAppend(n.fraction, rest);
    var more := Digits(rest);
    assert Number(t) == Some(Scan(Numeral(n.negative, n.whole, n.fraction + more.run), more.rest));
    if NoDigitFirst(rest) {
      DigitsStop(rest);
      assert n.fraction + [] == n.fraction;
    }
  }

  /** What the expression matches is a well-formed match spelled at the
      start of the input, and no digit follows it. */
  lemma MatchPrefixSound(t: string, m: Match, rest: string)
    requires MatchPrefix(t) == Some(MatchScan(m, rest))
    ensures WellFormedMatch(m) && t == MatchText(m) + rest && NoDigitFirst(rest)
  {
    var a := Number(t[|LatTag|..]).value;
    NumberSound(t[|LatTag|..], m.lat, a.rest);
    NumberSound(a.rest[|LonTag|..], m.lon, rest);
    var t1 := NumeralText(m.lat);
    var t2 := NumeralText(m.lon);
    assert t == LatTag + (t1 + (LonTag + (t2 + rest))) by {
      assert t == LatTag + t[|LatTag|..];
      assert a.rest == LonTag + a.rest[|LonTag|..];
    }
    Concat5(LatTag, t1, LonTag, t2, rest);
  }

  /** A match spelled at the start of the input is found with its latitude
      numeral intact, and entirely when no digit follows it. */
  lemma MatchPrefixFinds(m: Match, rest: string)
    requires WellFormedMatch(m)
    ensures MatchPrefix(MatchText(m) + rest).Some?
    ensures MatchPrefix(MatchText(m) + rest).value.found.lat == m.lat
    ensures NoDigitFirst(rest) ==> MatchPrefix(MatchText(m) + rest) == Some(MatchScan(m, rest))
  {
    var t := MatchText(m) + rest;
    var t1 := NumeralText(m.lat);
    var t2 := NumeralText(m.lon);
    var after := LonTag + (t2 + rest);
    Concat5(LatTag, t1, LonTag, t2, rest);
    assert t == LatTag + (t1 + after);
    DropPrefix(LatTag, t1 + after);
    NumberFinds(m.lat, after);
    assert Number(t[|LatTag|..]) == Some(Scan(m.lat, after));
    DropPrefix(LonTag, t2 + rest);
    NumberFinds(m.lon, rest);
  }

  lemma DropPrefix(a: string, x: string)
    ensures StartsWith(a + x, a) && (a + x)[|a|..] == x
  {
    assert (a + x)[..|a|] == a;
  }

  /** `m` occurs in `s` after the prefix `p`, with no digit right after it:
      both captures take their whole digit runs, as greedy `\d+` does. */
  predicate OccursAfter(s: string, p: string, m: Match) {
    WellFormedMatch(m) && |p| + |MatchText(m)| <= |s| && s[..|p|] == p
      && s[|p|..|p| + |MatchText(m)|] == MatchText(m)
      && NoDigitFirst(s[|p| + |MatchText(m)|..])
  }

  lemma OccursAfterSplit(s: string, p: string, m: Match)
    requires OccursAfter(s, p, m)
    ensures s == p + MatchText(m) + s[|p| + |MatchText(m)|..]
  {
    assert s == s[..|p|] + s[|p|..|p| + |MatchText(m)|] + s[|p| + |MatchText(m)|..];
  }

  lemma OccursAfterJoin(p: string, m: Match, q: string)
    requires WellFormedMatch(m) && NoDigitFirst(q)
    ensures OccursAfter(p + MatchText(m) + q, p, m)
  {
    var s := p + MatchText(m) + q;
    assert s[..|p|] == p;
    assert s[|p|..|p| + |MatchText(m)|] == MatchText(m);
    assert s[|p| + |MatchText(m)|..] == q;
  }

  /** Wherever the expression's text is spelled, even with digits right
      after it, the greedy match starts there. */
  lemma WidenAt(p: string, m: Match, q: string)
    requires WellFormedMatch(m)
    ensures exists m' :: OccursAfter(p + MatchText(m) + q, p, m')
  {
    MatchPrefixFinds(m, q);
    var ms := MatchPrefix(MatchText(m) + q).value;
    MatchPrefixSound(MatchText(m) + q, ms.found, ms.rest);
    calc {
      p + MatchText(m) + q;
      { Assoc(p, MatchText(m), q); }
      p + (MatchText(m) + q);
      p + (MatchText(ms.found) + ms.rest);
      { Assoc(p, MatchText(ms.found), ms.rest); }
      p + MatchText(ms.found) + ms.rest;
    }
    OccursAfterJoin(p, ms.found, ms.rest);
  }

  lemma OccursAtStart(t: string, ms: MatchScan)
    requires MatchPrefix(t) == Some(ms)
    ensures OccursAfter(t, [], ms.found)
  {
    MatchPrefixSound(t, ms.found, ms.rest);
    OccursAfterJoin([], ms.found, ms.rest);
    assert [] + MatchText(ms.found) + ms.rest == t;
  }

  lemma NoneAtStart(t: string, m: Match)
    requires MatchPrefix(t).None?
    ensures !OccursAfter(t, [], m)
  {
    if OccursAfter(t, [], m) {
      OccursAfterSplit(t, [], m);
      var q := t[|MatchText(m)|..];
      assert t == MatchText(m) + q;
      MatchPrefixFinds(m, q);
    }
  }

  lemma OccursShiftDown(t: string, p: string, m: Match)
    requires OccursAfter(t, p, m) && p != []
    ensures OccursAfter(t[1..], p[1..], m)
  {
    OccursAfterSplit(t, p, m);
    var q := t[|p| + |MatchText(m)|..];
    assert t[1..] == p[1..] + MatchText(m) + q;
    OccursAfterJoin(p[1..], m, q);
  }

  lemma OccursShiftUp(t: string, p: string, m: Match)
    requires t != [] && OccursAfter(t[1..], p, m)
    ensures OccursAfter(t, [t[0]] + p, m)
  {
    OccursAfterSplit(t[1..], p, m);
    var q := t[1..][|p| + |MatchText(m)|..];
    assert t == [t[0]] + p + MatchText(m) + q;
    OccursAfterJoin([t[0]] + p, m, q);
  }

  /** Without a match at the start, every occurrence is one in the tail. */
  lemma OccursLater(t: string)
    requires MatchPrefix(t).None?
    ensures forall p, m :: OccursAfter(t, p, m) ==> |p| >= 1 && OccursAfter(t[1..], p[1..], m)
  {
    forall p, m | OccursAfter(t, p, m) ensures |p| >= 1 && OccursAfter(t[1..], p[1..], m) {
      NoneAtStart(t, m);
      OccursShiftDown(t, p, m);
    }
  }

  /** What the suffix scan promises for `t`: a result exactly when the
      expression occurs, and then the coordinates of the leftmost
      occurrence. */
  ghost predicate ScanFinds(t: string) {
    (ParseFrom(t).Some? <==> exists p, m :: OccursAfter(t, p, m))
    && (ParseFrom(t).Some? ==>
          exists p, m :: OccursAfter(t, p, m) && ParseFrom(t).value == CoordsOf(m)
            && forall p', m' :: OccursAfter(t, p', m') ==> |p'| >= |p|)
  }

  /** With no match at the start, the scan of `t` keeps what the scan of its
      tail promises. */
  lemma ScanStep(t: string)
    requires t != [] && MatchPrefix(t).None? && ScanFinds(t[1..])
    ensures ScanFinds(t)
  {
    OccursLater(t);
    if ParseFrom(t).Some? {
      var p, m :| OccursAfter(t[1..], p, m) && ParseFrom(t[1..]).value == CoordsOf(m)
                  && forall p', m' :: OccursAfter(t[1..], p', m') ==> |p'| >= |p|;
      OccursShiftUp(t, p, m);
    } else {
      forall p, m | OccursAfter(t[1..], p, m) ensures false {
        OccursShiftUp(t, p, m);
      }
    }
  }

  lemma {:induction false} ParseFromSpec(t: string)
    ensures ParseFrom(t).Some? <==> exists p, m :: OccursAfter(t, p, m)
    ensures ParseFrom(t).Some? ==>
              exists p, m :: OccursAfter(t, p, m) && ParseFrom(t).value == CoordsOf(m)
                && forall p', m' :: OccursAfter(t, p', m') ==> |p'| >= |p|
    decreases |t|
  {
    match MatchPrefix(t)
    case Some(ms) =>
      OccursAtStart(t, ms);
    case None =>
      if t != [] {
        ParseFromSpec(t[1..]);
        ScanStep(t);
      }
  }

  /** `parseLocation` returns coordinates exactly when the string contains
      `Lat: <number>, Lon: <number>` somewhere; the coordinates then come
      from the leftmost such occurrence, latitude from the first number and
      longitude from the second. */
  lemma ParseLocationSpec(s: string)
    ensures ParseLocation(s).Some? <==> exists p, m :: OccursAfter(s, p, m)
    ensures ParseLocation(s).Some? ==>
              exists p, m :: OccursAfter(s, p, m) && ParseLocation(s).value == CoordsOf(m)
                && forall p', m' :: OccursAfter(s, p', m') ==> |p'| >= |p|
  {
    ParseFromSpec(s);
  }

  /** A string without a decimal point never yields coordinates: whole
      numbers such as `Lat: 40, Lon: -3` are rejected. */
  lemma NoPointNoLocation(s: string)
    requires forall k :: 0 <= k < |s| ==> s[k] != '.'
    ensures ParseLocation(s) == None
  {
    ParseLocationSpec(s);
    forall p, m | OccursAfter(s, p, m) ensures false {
      PointInMatch(s, p, m);
    }
  }

  lemma PointInMatch(s: string, p: string, m: Match)
    requires OccursAfter(s, p, m)
    ensures exists k :: 0 <= k < |s| && s[k] == '.'
  {
    var k := |LatTag| + (if m.lat.negative then 1 else 0) + |m.lat.whole|;
    assert MatchText(m)[k] == '.';
    assert s[|p|..|p| + |MatchText(m)|][k] == '.';
    assert s[|p| + k] == '.';
  }

  /** The match is unanchored: text around a location does not hide it. */
  lemma FoundInContext(pre: string, s: string, post: string)
    requires ParseLocation(s).Some?
    ensures ParseLocation(pre + s + post).Some?
  {
    ParseLocationSpec(s);
    var p, m :| OccursAfter(s, p, m);
    OccursAfterSplit(s, p, m);
    var x := MatchText(m);
    var q := s[|p| + |x|..];
    Regroup(pre, p, x, q, post);
    WidenAt(pre + p, m, q + post);
    var m' :| OccursAfter((pre + p) + x + (q + post), pre + p, m');
    assert OccursAfter(pre + s + post, pre + p, m');
    ParseLocationSpec(pre + s + post);
  }

  lemma Regroup(a: string, b: string, c: string, d: string, e: string)
    ensures a + (b + c + d) + e == (a + b) + c + (d + e)
  {
  }

  /** Both captures are greedy: in `Lat: 1.2, Lon: 3.45` the longitude is
      3.45, not 3.4. */
  lemma WholeLongitudeRun()
    ensures ParseLocation("Lat: 1.2, Lon: 3.45") == Some(Coords(Fixed(12, 1), Fixed(345, 2)))
  {
    var m := Match(Numeral(false, "1", "2"), Numeral(false, "3", "45"));
    assert NumeralText(m.lat) == "1.2";
    assert NumeralText(m.lon) == "3.45";
    assert MatchText(m) == "Lat: 1.2, Lon: 3.45";
    assert AllDigits("12") && AllDigits("345");
    assert DigitsValue("12") == 12 by {
      assert "12"[..1] == "1";
      assert DigitsValue("1") == 1;
    }
    assert DigitsValue("345") == 345 by {
      assert "345"[..2] == "34";
      assert "34"[..1] == "3";
      assert DigitsValue("3") == 3;
      assert DigitsValue("34") == 34;
    }
    assert "1" + "2" == "12";
    assert "3" + "45" == "345";
    assert CoordsOf(m) == Coords(Fixed(12, 1), Fixed(345, 2));
    ParseMatchText(m);
  }

  /** A cut-short longitude is no occurrence: a digit follows it. */
  lemma NoTruncatedLongitude()
    ensures !OccursAfter("Lat: 1.2, Lon: 3.45", [], Match(Numeral(false, "1", "2"), Numeral(false, "3", "4")))
  {
    var short := Match(Numeral(false, "1", "2"), Numeral(false, "3", "4"));
    var s := "Lat: 1.2, Lon: 3.45";
    assert MatchText(short) == "Lat: 1.2, Lon: 3.4";
    assert s[18..] == "5";
  }

  /** A string that is exactly one match reads back as its two numbers. */
  lemma ParseMatchText(m: Match)
    requires WellFormedMatch(m)
    ensures ParseLocation(MatchText(m)) == Some(CoordsOf(m))
  {
    MatchPrefixFinds(m, []);
    assert MatchText(m) + [] == MatchText(m);
  }

  // ---------------------------------------------------------------------
  // `validIncidents`

  datatype Located = Located(incident: IncidentView, coords: Coords)

  /** An incident with the coordinates its location parses to, if any. */
  function Locate(x: IncidentView): Option<Located> {
    match ParseLocation(x.location)
    case Some(c) => Some(Located(x, c))
    case None => None
  }

  /** `validIncidents`: the incidents whose location parses, in order, each
      with its coords. */
  function ValidIncidents(xs: seq<IncidentView>): seq<Located> {
    KeepSome(xs, Locate)
  }

  /** `validIncidents` keeps exactly the incidents whose location parses,
      each paired with the coordinates parsed from it, and never grows. */
  lemma ValidIncidentsSpec(xs: seq<IncidentView>)
    ensures |ValidIncidents(xs)| <= |xs|
    ensures forall l :: l in ValidIncidents(xs) ==>
              l.incident in xs && ParseLocation(l.incident.location) == Some(l.coords)
    ensures forall v :: v in xs && ParseLocation(v.location).Some? ==>
              Located(v, ParseLocation(v.location).value) in ValidIncidents(xs)
  {
    KeepSomeLength(xs, Locate);
    forall l | l in ValidIncidents(xs)
      ensures l.incident in xs && ParseLocation(l.incident.location) == Some(l.coords)
    {
      KeepSomeSound(xs, Locate, l);
      var v :| v in xs && Locate(v) == Some(l);
    }
    forall v | v in xs && ParseLocation(v.location).Some?
      ensures Located(v, ParseLocation(v.location).value) in ValidIncidents(xs)
    {
      KeepSomeComplete(xs, Locate, v);
    }
  }

  /** The filter works element by element, so it keeps the input order. */
  lemma ValidIncidentsAppend(a: seq<IncidentView>, b: seq<IncidentView>)
    ensures ValidIncidents(a + b) == ValidIncidents(a) + ValidIncidents(b)
  {
    KeepSomeAppend(a, b, Locate);
  }

  // ---------------------------------------------------------------------
  // Marker selection

  /** `handleMarkerClick(id)`: clicking the selected marker deselects it,
      clicking any other selects that one. */
  function Toggle(selected: Option<string>, id: string): (r: Option<string>)
    ensures r.None? <==> selected == Some(id)
    ensures r.Some? ==> r == Some(id)
  {
    if selected == Some(id) then None else Some(id)
  }

  /** From nothing selected, or this marker selected, two clicks on the same
      marker come back to where they started. */
  lemma ClickTwice(selected: Option<string>, id: string)
    requires selected.None? || selected == Some(id)
    ensures Toggle(Toggle(selected, id), id) == selected
  {
  }

  /** `validIncidents.find(i => i.id === selectedIncidentId)`. */
  function SelectedIncident(valid: seq<Located>, selected: Option<string>): (r: Option<Located>)
    ensures r.Some? ==> selected.Some? && r.value in valid && r.value.incident.id == selected.value
    ensures r.None? <==> selected.None? || forall l :: l in valid ==> l.incident.id != selected.value
    ensures r.Some? ==>
              (exists k :: 0 <= k < |valid| && valid[k] == r.value
                 && (forall j :: 0 <= j < k ==> valid[j].incident.id != selected.value))
  {
    if selected.None? || valid == [] then None
    else if valid[0].incident.id == selected.value then Some(valid[0])
    else
      var rest := SelectedIncident(valid[1..], selected);
      assert valid == [valid[0]] + valid[1..];
      if rest.Some? then
        var k :| 0 <= k < |valid[1..]| && valid[1..][k] == rest.value
                 && forall j :: 0 <= j < k ==> valid[1..][j].incident.id != selected.value;
        assert valid[k + 1] == rest.value;
        assert forall j :: 0 <= j < k + 1 ==> valid[j].incident.id != selected.value by {
          forall j | 0 <= j < k + 1 ensures valid[j].incident.id != selected.value {
            if j > 0 { assert valid[j] == valid[1..][j - 1]; }
          }
        }
        rest
      else rest
  }

  /** The `selectedIncidentId` state cell and the events that set it. */
  class MapSelection {
    var selected: Option<string>

    constructor ()
      ensures selected.None?
    {
      selected := None;
    }

    method MarkerClick(id: string)
      modifies this
      ensures selected == Toggle(old(selected), id)
    {
      selected := if selected == Some(id) then None else Some(id);
    }

    /** Dragging the map, or closing the info window, clears the selection. */
    method DragStart()
      modifies this
      ensures selected.None?
    {
      selected := None;
    }

    method CloseInfoWindow()
      modifies this
      ensures selected.None?
    {
      selected := None;
    }

    /** The focus effect: once the map is loaded, a focused incident becomes
        the selected one. */
    method Focus(mapLoaded: bool, focused: Option<Located>)
      modifies this
      ensures mapLoaded && focused.Some? ==> selected == Some(focused.value.incident.id)
      ensures !(mapLoaded && focused.Some?) ==> selected == old(selected)
    {
      if mapLoaded && focused.Some? {
        selected := Some(focused.value.incident.id);
      }
    }
  }
}
