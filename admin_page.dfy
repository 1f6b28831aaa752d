/** The authority dashboard: the counters over the incident list, the status
    tabs, the table rows (only incidents whose location parses), the
    per-status actions, and the details dialog with its digital-ID lookup and
    E-FIR request. */
module AdminPage {
  import opened Prelude
  import opened Incidents
  import opened IncidentsMap
  import DigitalIds

  // ---------------------------------------------------------------------
  // Counters

  predicate IsActive(v: IncidentView) {
    v.status == Reported || v.status == InProgress
  }

  predicate IsHighPriority(v: IncidentView) {
    v.severity == "High" && IsActive(v)
  }

  predicate IsResolved(v: IncidentView) {
    v.status == Resolved
  }

  function ActiveCount(xs: seq<IncidentView>): nat {
    |Filter(xs, IsActive)|
  }

  function HighPriorityCount(xs: seq<IncidentView>): nat {
    |Filter(xs, IsHighPriority)|
  }

  function ResolvedList(xs: seq<IncidentView>): seq<IncidentView> {
    Filter(xs, IsResolved)
  }

  /** The "Recently Resolved" card: `resolvedIncidentsList.slice(0, 2)`. */
  function RecentlyResolved(xs: seq<IncidentView>): seq<IncidentView> {
    var resolved := ResolvedList(xs);
    if |resolved| <= 2 then resolved else resolved[..2]
  }

  /** The active count counts exactly the Reported and In Progress
      incidents. */
  lemma ActiveCountSpec(xs: seq<IncidentView>)
    ensures ActiveCount(xs) <= |xs|
    ensures forall v :: v in Filter(xs, IsActive) <==>
              v in xs && (v.status == Reported || v.status == InProgress)
  {
    FilterMembers(xs, IsActive);
  }

  /** Every high-priority incident is active, so the count never exceeds
      the active count. */
  lemma HighPriorityAtMostActive(xs: seq<IncidentView>)
    ensures HighPriorityCount(xs) <= ActiveCount(xs)
    ensures forall v :: v in Filter(xs, IsHighPriority) <==> v in xs && v.severity == "High" && IsActive(v)
  {
    FilterWeaker(xs, IsHighPriority, IsActive);
    FilterMembers(xs, IsHighPriority);
  }

  /** Status takes one of three values, so active and resolved add up to
      the whole list. */
  lemma ActivePlusResolved(xs: seq<IncidentView>)
    ensures ActiveCount(xs) + |ResolvedList(xs)| == |xs|
  {
    var always := (v: IncidentView) => true;
    FilterDisjoint(xs, IsActive, IsResolved, always);
    FilterAll(xs, always);
  }

  /** The card shows at most two incidents: the first two resolved ones in
      list order, or all of them when there are fewer. */
  lemma RecentlyResolvedSpec(xs: seq<IncidentView>)
    ensures |RecentlyResolved(xs)| == if |ResolvedList(xs)| < 2 then |ResolvedList(xs)| else 2
    ensures RecentlyResolved(xs) == ResolvedList(xs)[..|RecentlyResolved(xs)|]
    ensures forall v :: v in RecentlyResolved(xs) ==> v in xs && v.status == Resolved
  {
    FilterMembers(xs, IsResolved);
    var resolved := ResolvedList(xs);
    forall v | v in RecentlyResolved(xs) ensures v in resolved {
      if |resolved| > 2 {
        var k :| 0 <= k < 2 && resolved[..2][k] == v;
        assert resolved[k] == v;
      }
    }
  }

  // ---------------------------------------------------------------------
  // Tabs and table rows

  datatype Tab = AllTab | ReportedTab | InProgressTab | ResolvedTab

  function HasStatus(s: Status): IncidentView -> bool {
    (v: IncidentView) => v.status == s
  }

  /** The list each tab hands to its table. */
  function TabIncidents(tab: Tab, xs: seq<IncidentView>): seq<IncidentView> {
    match tab
    case AllTab => xs
    case ReportedTab => Filter(xs, HasStatus(Reported))
    case InProgressTab => Filter(xs, HasStatus(InProgress))
    case ResolvedTab => Filter(xs, HasStatus(Resolved))
  }

  predicate TabShows(tab: Tab, s: Status) {
    match tab
    case AllTab => true
    case ReportedTab => s == Reported
    case InProgressTab => s == InProgress
    case ResolvedTab => s == Resolved
  }

  /** Each status tab keeps exactly the incidents with that status. */
  lemma TabIncidentsSpec(tab: Tab, xs: seq<IncidentView>)
    ensures forall v :: v in TabIncidents(tab, xs) <==> v in xs && TabShows(tab, v.status)
  {
    match tab
    case AllTab =>
    case ReportedTab => FilterMembers(xs, HasStatus(Reported));
    case InProgressTab => FilterMembers(xs, HasStatus(InProgress));
    case ResolvedTab => FilterMembers(xs, HasStatus(Resolved));
  }

  /** The three status tabs split the list: together they hold every
      incident once, and the first two hold the active ones. */
  lemma TabsPartition(xs: seq<IncidentView>)
    ensures |TabIncidents(ReportedTab, xs)| + |TabIncidents(InProgressTab, xs)| == ActiveCount(xs)
    ensures ActiveCount(xs) + |TabIncidents(ResolvedTab, xs)| == |xs|
  {
    FilterDisjoint(xs, HasStatus(Reported), HasStatus(InProgress), IsActive);
    var always := (v: IncidentView) => true;
    FilterDisjoint(xs, IsActive, HasStatus(Resolved), always);
    FilterAll(xs, always);
  }

  /** The rows an `IncidentTable` renders: `parseLocation` of each incident,
      skipping those that give `null`; the same filter the map uses. */
  function TableRows(xs: seq<IncidentView>): seq<Located> {
    ValidIncidents(xs)
  }

  /** A tab's rows are exactly its incidents whose location parses, each
      with its coordinates. */
  lemma TableRowsSpec(tab: Tab, xs: seq<IncidentView>)
    ensures |TableRows(TabIncidents(tab, xs))| <= |xs|
    ensures forall l :: l in TableRows(TabIncidents(tab, xs)) ==>
              l.incident in xs && TabShows(tab, l.incident.status)
              && ParseLocation(l.incident.location) == Some(l.coords)
    ensures forall v :: v in xs && TabShows(tab, v.status) && ParseLocation(v.location).Some? ==>
              Located(v, ParseLocation(v.location).value) in TableRows(TabIncidents(tab, xs))
  {
    var shown := TabIncidents(tab, xs);
    TabIncidentsSpec(tab, xs);
    ValidIncidentsSpec(shown);
    if tab != AllTab {
      FilterMembers(xs, HasStatus(match tab case ReportedTab => Reported
                                            case InProgressTab => InProgress
                                            case _ => Resolved));
    }
  }

  // ---------------------------------------------------------------------
  // Status actions

  datatype StatusAction = MarkInProgress | MarkResolved

  function ActionTarget(a: StatusAction): Status {
    match a
    case MarkInProgress => InProgress
    case MarkResolved => Resolved
  }

  /** The `disabled` props of the two menu items, negated. */
  predicate ActionEnabled(a: StatusAction, s: Status) {
    match a
    case MarkInProgress => !(s == InProgress || s == Resolved)
    case MarkResolved => s != Resolved
  }

  /** The lifecycle order Reported < In Progress < Resolved. */
  function Rank(s: Status): nat {
    match s
    case Reported => 0
    case InProgress => 1
    case Resolved => 2
  }

  /** An action is offered exactly when it moves the status forward, so
      status never moves backward through the menu. */
  lemma ActionsMoveForward(a: StatusAction, s: Status)
    ensures ActionEnabled(a, s) <==> Rank(s) < Rank(ActionTarget(a))
    ensures a == MarkInProgress ==> (ActionEnabled(a, s) <==> s == Reported)
  {
  }

  // ---------------------------------------------------------------------
  // The details dialog

  /** A digital-ID lookup `handleViewDetails` started, for the incident it
      was started from and that incident's user. */
  datatype Lookup = Lookup(incident: Located, userId: string)

  /** The pair of JSON documents `generateEfir` receives. */
  datatype EfirRequest = EfirRequest(incident: Located, tourist: DigitalIds.DigitalIdView)

  /** The ID the dialog comes to show when a lookup settles with `found`, as
      written: whatever the lookup found, even when the dialog has since
      moved to another incident. */
  function ShownIdAsWritten(selected: Option<Located>, l: Lookup, found: Option<DigitalIds.DigitalIdView>,
                            current: Option<DigitalIds.DigitalIdView>): Option<DigitalIds.DigitalIdView>
  {
    found
  }

  /** As intended: a lookup for an incident that is no longer shown is
      dropped. */
  function ShownId(selected: Option<Located>, l: Lookup, found: Option<DigitalIds.DigitalIdView>,
                   current: Option<DigitalIds.DigitalIdView>): Option<DigitalIds.DigitalIdView>
  {
    if selected == Some(l.incident) then found else current
  }

  /** The shown ID belongs to the user of the shown incident. */
  predicate IdMatches(selected: Option<Located>, id: Option<DigitalIds.DigitalIdView>) {
    id.Some? ==> selected.Some? && selected.value.incident.userId == Some(id.value.userId)
  }

  /** Open incident A (user "u"), then incident B (no user) before A's
      lookup settles: A's answer lands in B's dialog. */
  lemma StaleLookupAsWritten(a: Located, b: Located, docs: seq<DigitalIds.DigitalId>)
    requires a.incident.userId == Some("u") && b.incident.userId.None?
    requires DigitalIds.GetDigitalIdForUser(docs, "u").Some?
    ensures IdMatches(Some(b), None)
    ensures !IdMatches(Some(b), ShownIdAsWritten(Some(b), Lookup(a, "u"),
                                                 DigitalIds.GetDigitalIdForUser(docs, "u"), None))
  {
  }

  /** The intended rule keeps the shown ID matching the shown incident. */
  lemma ShownIdKeepsMatch(selected: Option<Located>, l: Lookup, docs: seq<DigitalIds.DigitalId>,
                          current: Option<DigitalIds.DigitalIdView>)
    requires l.incident.incident.userId == Some(l.userId)
    ensures IdMatches(selected, current) ==>
              IdMatches(selected, ShownId(selected, l, DigitalIds.GetDigitalIdForUser(docs, l.userId), current))
    ensures selected == Some(l.incident) ==>
              ShownId(selected, l, DigitalIds.GetDigitalIdForUser(docs, l.userId), current)
              == DigitalIds.GetDigitalIdForUser(docs, l.userId)
  {
  }

  /** `!incident.userId`: no user, or the empty string. */
  predicate HasUser(v: IncidentView) {
    v.userId.Some? && v.userId.value != ""
  }

  class IncidentDetails {
    var selected: Option<Located>
    var digitalId: Option<DigitalIds.DigitalIdView>
    var isIdLoading: bool
    var efirContent: Option<string>
    var isEfirGenerating: bool
    /** Lookups started and not yet settled. */
    var lookups: seq<Lookup>
    /** Every E-FIR request issued. */
    var efirRequests: seq<EfirRequest>

    /** Every lookup is for its incident's own user. */
    ghost predicate LookupsWellFormed()
      reads this
    {
      forall k :: 0 <= k < |lookups| ==>
        lookups[k].userId != "" && lookups[k].incident.incident.userId == Some(lookups[k].userId)
    }

    /** What the intended behaviour keeps: the ID on screen is the shown
        tourist's, and so is the ID in every E-FIR request. */
    ghost predicate Consistent()
      reads this
    {
      LookupsWellFormed()
      && IdMatches(selected, digitalId)
      && forall k :: 0 <= k < |efirRequests| ==>
           efirRequests[k].incident.incident.userId == Some(efirRequests[k].tourist.userId)
    }

    constructor ()
      ensures Consistent()
      ensures selected.None? && digitalId.None? && efirContent.None? && lookups == [] && efirRequests == []
    {
      selected := None;
      digitalId := None;
      isIdLoading := false;
      efirContent := None;
      isEfirGenerating := false;
      lookups := [];
      efirRequests := [];
    }

    /** `handleViewDetails(incident)`: show it with no ID or E-FIR yet, and
        look up its user's ID only when it has a user. */
    method ViewDetails(incident: Located)
      requires LookupsWellFormed()
      modifies this
      ensures LookupsWellFormed()
      ensures old(Consistent()) ==> Consistent()
      ensures selected == Some(incident) && digitalId.None? && efirContent.None?
      ensures efirRequests == old(efirRequests) && isEfirGenerating == old(isEfirGenerating)
      ensures !HasUser(incident.incident) ==> lookups == old(lookups) && isIdLoading == old(isIdLoading)
      ensures HasUser(incident.incident) ==>
                lookups == old(lookups) + [Lookup(incident, incident.incident.userId.value)] && isIdLoading
    {
      selected := Some(incident);
      digitalId := None;
      efirContent := None;
      if !HasUser(incident.incident) {
        return;
      }
      isIdLoading := true;
      lookups := lookups + [Lookup(incident, incident.incident.userId.value)];
    }

    /** Lookup `k` settles: `failed` when the call threw, otherwise with
        what `getDigitalIdForUser` found in `docs`. As written, the answer is
        shown whatever incident the dialog now holds. */
    method OnLookupSettledAsWritten(k: nat, failed: bool, docs: seq<DigitalIds.DigitalId>)
      requires LookupsWellFormed() && k < |lookups|
      modifies this
      ensures LookupsWellFormed()
      ensures lookups == old(lookups[..k] + lookups[k + 1..]) && !isIdLoading
      ensures digitalId == ShownIdAsWritten(old(selected), old(lookups[k]),
                                            if failed then None
                                            else DigitalIds.GetDigitalIdForUser(docs, old(lookups[k]).userId),
                                            old(digitalId))
      ensures selected == old(selected) && efirContent == old(efirContent)
      ensures efirRequests == old(efirRequests) && isEfirGenerating == old(isEfirGenerating)
    {
      var l := lookups[k];
      var found := if failed then None else DigitalIds.GetDigitalIdForUser(docs, l.userId);
      lookups := lookups[..k] + lookups[k + 1..];
      digitalId := ShownIdAsWritten(selected, l, found, digitalId);
      isIdLoading := false;
    }

    /** Lookup `k` settles, as intended: the answer is shown only while its
        incident is still the one in the dialog. */
    method OnLookupSettled(k: nat, failed: bool, docs: seq<DigitalIds.DigitalId>)
      requires LookupsWellFormed() && k < |lookups|
      modifies this
      ensures LookupsWellFormed()
      ensures old(Consistent()) ==> Consistent()
      ensures lookups == old(lookups[..k] + lookups[k + 1..]) && !isIdLoading
      ensures digitalId == ShownId(old(selected), old(lookups[k]),
                                   if failed then None
                                   else DigitalIds.GetDigitalIdForUser(docs, old(lookups[k]).userId),
                                   old(digitalId))
      ensures selected == old(selected) && efirContent == old(efirContent)
      ensures efirRequests == old(efirRequests) && isEfirGenerating == old(isEfirGenerating)
    {
      var l := lookups[k];
      var found := if failed then None else DigitalIds.GetDigitalIdForUser(docs, l.userId);
      assert l.incident.incident.userId == Some(l.userId);
      ShownIdKeepsMatch(selected, l, docs, digitalId);
      lookups := lookups[..k] + lookups[k + 1..];
      digitalId := ShownId(selected, l, found, digitalId);
      isIdLoading := false;
    }

    /** `handleGenerateEfir`: nothing happens without both an incident and a
        digital ID; otherwise the pair is sent for an E-FIR. */
    method GenerateEfir()
      requires LookupsWellFormed()
      modifies this
      ensures LookupsWellFormed()
      ensures old(Consistent()) ==> Consistent()
      ensures selected == old(selected) && digitalId == old(digitalId) && lookups == old(lookups)
      ensures efirContent == old(efirContent) && isIdLoading == old(isIdLoading)
      ensures (selected.None? || digitalId.None?) ==>
                efirRequests == old(efirRequests) && isEfirGenerating == old(isEfirGenerating)
      ensures selected.Some? && digitalId.Some? ==>
                efirRequests == old(efirRequests) + [EfirRequest(selected.value, digitalId.value)]
                && isEfirGenerating
    {
      if selected.None? || digitalId.None? {
        return;
      }
      isEfirGenerating := true;
      efirRequests := efirRequests + [EfirRequest(selected.value, digitalId.value)];
    }

    /** The E-FIR call settled: its text on success (`None` when it threw,
        which leaves the content as it was). */
    method OnEfirSettled(text: Option<string>)
      requires LookupsWellFormed()
      modifies this
      ensures LookupsWellFormed()
      ensures old(Consistent()) ==> Consistent()
      ensures !isEfirGenerating
      ensures efirContent == if text.Some? then text else old(efirContent)
      ensures selected == old(selected) && digitalId == old(digitalId) && lookups == old(lookups)
      ensures efirRequests == old(efirRequests) && isIdLoading == old(isIdLoading)
    {
      if text.Some? {
        efirContent := text;
      }
      isEfirGenerating := false;
    }

    /** `closeDetails`. */
    method CloseDetails()
      requires LookupsWellFormed()
      modifies this
      ensures LookupsWellFormed()
      ensures old(Consistent()) ==> Consistent()
      ensures selected.None? && digitalId.None? && efirContent.None?
      ensures lookups == old(lookups) && efirRequests == old(efirRequests)
      ensures isIdLoading == old(isIdLoading) && isEfirGenerating == old(isEfirGenerating)
    {
      selected := None;
      digitalId := None;
      efirContent := None;
    }
  }
}
