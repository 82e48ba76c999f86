/** What frontend/src/pages/AlertsPage.jsx decides about the alerts it
    lists: which alerts pass the severity filter, how each card is styled,
    the "Just now" label and the "All Systems Nominal" empty state.  The
    locale date text is not modelled. */
module AlertsPage {
  import opened Models
  import opened Seqs

  /** `alert.status || 'active'`. */
  function StatusOf(a: Doc<Alert>): string
  {
    if a.fields.status == "" then "active" else a.fields.status
  }

  predicate Acknowledged(a: Doc<Alert>) { StatusOf(a) == "acknowledged" }

  /** The filter callback for the selected `filterSeverity`. */
  function Visible(filter: string): Doc<Alert> -> bool
  {
    (a: Doc<Alert>) =>
      !Acknowledged(a) && (filter == "all" || SeverityName(a.fields.severity) == filter)
  }

  /** `filteredAlerts`. */
  function FilteredAlerts(alerts: seq<Doc<Alert>>, filter: string): (r: seq<Doc<Alert>>)
    ensures |r| <= |alerts|
  {
    Filter(alerts, Visible(filter))
  }

  /** Whatever the filter, an acknowledged alert is never listed; an alert
      without a status counts as active. */
  lemma AcknowledgedNeverShown(alerts: seq<Doc<Alert>>, filter: string)
    ensures forall a :: a in FilteredAlerts(alerts, filter) ==> a in alerts && !Acknowledged(a)
    ensures forall a: Doc<Alert> :: a.fields.status == "" ==> StatusOf(a) == "active" && !Acknowledged(a)
  {
  }

  /** With 'all', the list holds every alert that is not acknowledged, in
      the order of the store. */
  lemma AllShowsEveryActive(alerts: seq<Doc<Alert>>)
    ensures forall a :: a in FilteredAlerts(alerts, "all") <==> a in alerts && !Acknowledged(a)
    ensures (forall a :: a in alerts ==> !Acknowledged(a)) ==> FilteredAlerts(alerts, "all") == alerts
  {
    if forall a :: a in alerts ==> !Acknowledged(a) {
      FilterKeepsAll(alerts, Visible("all"));
    }
  }

  /** With any other filter, an alert is listed exactly when it is not
      acknowledged and the name of its severity equals the filter. */
  lemma OtherFilterMatchesSeverity(alerts: seq<Doc<Alert>>, filter: string)
    requires filter != "all"
    ensures forall a :: a in FilteredAlerts(alerts, filter) <==>
      a in alerts && !Acknowledged(a) && SeverityName(a.fields.severity) == filter
  {
  }

  /** A filter that is neither 'all' nor the name of a severity lists
      nothing. */
  lemma UnknownFilterShowsNothing(alerts: seq<Doc<Alert>>, filter: string)
    requires filter != "all" && forall s: Severity :: SeverityName(s) != filter
    ensures FilteredAlerts(alerts, filter) == []
  {
    FilterKeepsNone(alerts, Visible(filter));
  }

  /** The listed alerts are the store's alerts with some left out, in the
      store's order. */
  lemma FilteredIsSubsequence(alerts: seq<Doc<Alert>>, filter: string)
    ensures IsSubsequence(FilteredAlerts(alerts, filter), alerts)
  {
    FilterIsSubsequence(alerts, Visible(filter));
  }

  /** Choosing a severity after 'all' is the same as choosing it directly:
      the 'all' list holds every alert the narrower filter keeps. */
  lemma NarrowingAll(alerts: seq<Doc<Alert>>, filter: string)
    ensures FilteredAlerts(FilteredAlerts(alerts, "all"), filter) == FilteredAlerts(alerts, filter)
  {
    FilterFilter(alerts, Visible("all"), Visible(filter), Visible(filter));
  }

  // --------------------------------------------------------------- styling

  /** The colour family of `getSeverityStyles`. */
  datatype Style = RedStyle | OrangeStyle | BlueStyle | GrayStyle

  /** `getSeverityStyles(severity)`: a switch on the severity's text. */
  function SeverityStyle(severity: string): (s: Style)
    ensures s == RedStyle <==> severity == "high"
    ensures s == OrangeStyle <==> severity == "medium"
    ensures s == BlueStyle <==> severity == "low"
    ensures s == GrayStyle <==> severity != "high" && severity != "medium" && severity != "low"
  {
    if severity == "high" then RedStyle
    else if severity == "medium" then OrangeStyle
    else if severity == "low" then BlueStyle
    else GrayStyle
  }

  /** Every severity the schema admits gets a colour of its own: the gray
      fallback is never used for a stored alert. */
  lemma StoredSeverityStyled(a: Severity, b: Severity)
    ensures SeverityStyle(SeverityName(a)) != GrayStyle
    ensures SeverityStyle(SeverityName(a)) == SeverityStyle(SeverityName(b)) <==> a == b
  {
  }

  // ----------------------------------------------------------------- time

  /** What `formatTime` shows: 'Just now', or the alert's own date. */
  datatype TimeLabel = JustNow | At(time: int)

  /** `formatTime(isoString)`: a missing timestamp reads 'Just now'. */
  function FormatTime(timestamp: Option<int>): (l: TimeLabel)
    ensures l == JustNow <==> timestamp.None?
    ensures timestamp.Some? ==> l == At(timestamp.value)
  {
    match timestamp
    case None => JustNow
    case Some(t) => At(t)
  }

  // ----------------------------------------------------------- empty state

  /** "All Systems Nominal" is shown when nothing is loading and the
      filtered list is empty. */
  predicate ShowsEmptyState(loading: bool, alerts: seq<Doc<Alert>>, filter: string)
  {
    !loading && |FilteredAlerts(alerts, filter)| == 0
  }

  /** Under 'all', the empty state means every alert is acknowledged. */
  lemma EmptyStateUnderAll(loading: bool, alerts: seq<Doc<Alert>>)
    ensures ShowsEmptyState(loading, alerts, "all") <==>
      !loading && forall a :: a in alerts ==> Acknowledged(a)
  {
    var r := FilteredAlerts(alerts, "all");
    if r != [] {
      assert r[0] in r;
    }
  }
}
