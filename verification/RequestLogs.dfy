/** The request-log panel: queries and detail requests run in the background and may answer in
    any order; two version counters decide which answers still count. An asynchronous function
    is two steps here, up to its request and from the answer on. */
module RequestLogs {
  import opened Runs
  import opened Wrappers

  datatype DateInput = Absent | Malformed | At(time: int)

  datatype Filters = Filters(from: DateInput, to: DateInput, model: string, endpoint: string, status: string)

  datatype Page = Page(items: seq<string>, hasMore: bool)

  datatype Detail = Detail(id: string, body: string)

  datatype Query = Query(filters: Filters, offset: int)

  const EMPTY_FILTERS := Filters(Absent, Absent, "", "", "")
  const EMPTY_PAGE := Page([], false)
  const PAGE_SIZE: nat := 10

  /** The list on show, its counter, and the queries still waiting for an answer, each under
      the version its function captured. */
  datatype Listing = Listing(
    page: Page, applied: Filters, offset: int, loading: bool, error: Option<string>,
    version: nat, waiting: map<nat, Query>)

  /** The detail on show, with its own counter and waiting requests. */
  datatype Viewer = Viewer(
    detail: Option<Detail>, loading: bool, error: Option<string>, version: nat, waiting: map<nat, string>)

  datatype Panel = Panel(native: bool, mounted: bool, list: Listing, viewer: Viewer)

  datatype Event =
    | Mount
    | Unmount
    | Submit(filters: Filters)
    | PreviousPage
    | NextPage
    | QueryAnswered(version: nat, page: Page)
    | QueryFailed(version: nat, cause: string)
    | ShowDetail(id: string)
    | DetailAnswered(version: nat, body: string)
    | DetailFailed(version: nat, cause: string)
    | CloseDetail

  function Fresh(native: bool): (r: Panel) {
    Panel(native, false, Listing(EMPTY_PAGE, EMPTY_FILTERS, 0, false, None, 0, map[]),
          Viewer(None, false, None, 0, map[]))
  }

  predicate DatesOk(f: Filters) {
    && !f.from.Malformed? && !f.to.Malformed?
    && (f.from.At? && f.to.At? ==> f.from.time <= f.to.time)
  }

  // ---------- the list ----------

  /** Outside the desktop shell or with bad dates the query stops before it is sent, and
      leaves the loading flag as it was. */
  predicate Sends(native: bool, q: Query) {
    native && DatesOk(q.filters)
  }

  function StartListing(native: bool, l: Listing, q: Query): (r: Listing) {
    var next := l.(version := l.version + 1, error := None);
    if !native then next.(error := Some("desktop only"))
    else if !DatesOk(q.filters) then next.(error := Some("dates"))
    else next.(loading := true, waiting := l.waiting[next.version := q])
  }

  function AnswerListing(l: Listing, v: nat, page: Page): (r: Listing)
    requires v in l.waiting
  {
    var next := l.(waiting := l.waiting - {v});
    if v != l.version then next
    else next.(page := page, applied := l.waiting[v].filters, offset := l.waiting[v].offset, loading := false)
  }

  function FailListing(l: Listing, v: nat, cause: string): (r: Listing) {
    var next := l.(waiting := l.waiting - {v});
    if v != l.version then next else next.(error := Some(cause), loading := false)
  }

  // ---------- the detail viewer ----------

  function ResetViewer(d: Viewer): (r: Viewer) {
    d.(version := d.version + 1, detail := None, error := None, loading := false)
  }

  function AskViewer(d: Viewer, id: string): (r: Viewer) {
    Viewer(None, true, None, d.version + 1, d.waiting[d.version + 1 := id])
  }

  function AnswerViewer(d: Viewer, v: nat, body: string): (r: Viewer)
    requires v in d.waiting
  {
    var next := d.(waiting := d.waiting - {v});
    if v != d.version then next else next.(detail := Some(Detail(d.waiting[v], body)), loading := false)
  }

  function FailViewer(d: Viewer, v: nat, cause: string): (r: Viewer) {
    var next := d.(waiting := d.waiting - {v});
    if v != d.version then next else next.(error := Some(cause), loading := false)
  }

  // ---------- one event ----------

  /** `queryLogs` up to its request. */
  function StartQuery(p: Panel, q: Query): (r: Panel) {
    p.(list := StartListing(p.native, p.list, q), viewer := ResetViewer(p.viewer))
  }

  /** The query an event starts, if it starts one. */
  function QueryOf(p: Panel, e: Event): (r: Option<Query>) {
    match e
    case Mount => Some(Query(EMPTY_FILTERS, 0))
    case Submit(filters) => Some(Query(filters, 0))
    case PreviousPage => Some(Query(p.list.applied, p.list.offset - PAGE_SIZE))
    case NextPage => Some(Query(p.list.applied, p.list.offset + PAGE_SIZE))
    case _ => None
  }

  /** The buttons' disabled rules, and that only a waiting request can be answered. */
  predicate Enabled(p: Panel, e: Event) {
    match e
    case Mount => !p.mounted
    case Unmount => p.mounted
    case Submit(_) => p.mounted && !p.list.loading
    case PreviousPage => p.mounted && !p.list.loading && p.list.offset != 0
    case NextPage => p.mounted && !p.list.loading && p.list.page.hasMore
    case QueryAnswered(v, _) => v in p.list.waiting
    case QueryFailed(v, _) => v in p.list.waiting
    case ShowDetail(id) => p.mounted && !p.list.loading && id in p.list.page.items
    case DetailAnswered(v, _) => v in p.viewer.waiting
    case DetailFailed(v, _) => v in p.viewer.waiting
    case CloseDetail => p.mounted && p.viewer.detail.Some?
  }

  function Advance(p: Panel, e: Event): (r: Panel) {
    if !Enabled(p, e) then p
    else
      match e
      case Unmount =>
        p.(mounted := false, list := p.list.(version := p.list.version + 1),
           viewer := p.viewer.(version := p.viewer.version + 1))
      case QueryAnswered(v, page) => p.(list := AnswerListing(p.list, v, page))
      case QueryFailed(v, cause) => p.(list := FailListing(p.list, v, cause))
      case ShowDetail(id) => p.(viewer := AskViewer(p.viewer, id))
      case DetailAnswered(v, body) => p.(viewer := AnswerViewer(p.viewer, v, body))
      case DetailFailed(v, cause) => p.(viewer := FailViewer(p.viewer, v, cause))
      case CloseDetail => p.(viewer := p.viewer.(version := p.viewer.version + 1, detail := None))
      case _ => StartQuery(p.(mounted := true), QueryOf(p, e).value)
  }

  // ---------- what each step keeps ----------

  predicate PageStart(offset: int) {
    offset >= 0 && offset % PAGE_SIZE == 0
  }

  /** Queries are no newer than the counter and all offsets are page starts; while the panel
      is mounted, the loading flag says exactly whether the newest query is still waiting. */
  ghost predicate ListingOk(l: Listing, native: bool, mounted: bool) {
    && PageStart(l.offset)
    && (forall v :: v in l.waiting ==> v <= l.version && PageStart(l.waiting[v].offset))
    && (!native ==> !l.loading && l.waiting == map[])
    && (mounted ==> (l.loading <==> l.version in l.waiting))
  }

  ghost predicate ViewerOk(d: Viewer, mounted: bool) {
    && (forall v :: v in d.waiting ==> v <= d.version)
    && (mounted ==> (d.loading <==> d.version in d.waiting))
    && (mounted && d.detail.Some? ==> !d.loading)
  }

  ghost predicate PanelOk(p: Panel) {
    ListingOk(p.list, p.native, p.mounted) && ViewerOk(p.viewer, p.mounted)
  }

  /** The loading flag goes wrong exactly when a query that cannot be sent starts while another
      one is still waiting; the disabled buttons are what rules that out. */
  lemma LoadingFlagExact(l: Listing, native: bool, q: Query)
    requires ListingOk(l, native, true) && PageStart(q.offset)
    ensures ListingOk(StartListing(native, l, q), native, true) <==> (!l.loading || Sends(native, q))
  {}

  lemma AdvanceKeepsListing(p: Panel, e: Event)
    requires PanelOk(p)
    ensures ListingOk(Advance(p, e).list, p.native, Advance(p, e).mounted)
  {}

  lemma AdvanceKeepsViewer(p: Panel, e: Event)
    requires PanelOk(p)
    ensures ViewerOk(Advance(p, e).viewer, Advance(p, e).mounted)
  {}

  /** An answer that a newer request, a close or an unmount has overtaken changes nothing but
      the list of waiting requests. */
  lemma SupersededChangesNothing(p: Panel, e: Event)
    requires || ((e.QueryAnswered? || e.QueryFailed?) && e.version != p.list.version)
             || ((e.DetailAnswered? || e.DetailFailed?) && e.version != p.viewer.version)
    ensures var q := Advance(p, e);
            q.(list := q.list.(waiting := p.list.waiting), viewer := q.viewer.(waiting := p.viewer.waiting)) == p
  {}

  // ---------- histories ----------

  /** A detail request, and its answer once it has come. */
  datatype Asked = Asked(version: nat, id: string, answer: Option<string>)

  /** The panel with its history: every query sent, the query whose answer is on show, and the
      last detail request unless a query, a close or an unmount came after it. */
  datatype History = History(
    panel: Panel, sent: map<nat, Query>, shown: Option<(nat, Page)>, asked: Option<Asked>)

  function Record(h: History, e: Event): (r: History) {
    var p := h.panel;
    if !Enabled(p, e) then h
    else History(Advance(p, e), RecordSent(h, e), RecordShown(h, e), RecordAsked(h, e))
  }

  function RecordSent(h: History, e: Event): (r: map<nat, Query>) {
    var q := QueryOf(h.panel, e);
    if q.Some? && Sends(h.panel.native, q.value) then h.sent[h.panel.list.version + 1 := q.value] else h.sent
  }

  function RecordShown(h: History, e: Event): (r: Option<(nat, Page)>) {
    if e.QueryAnswered? && e.version == h.panel.list.version then Some((e.version, e.page)) else h.shown
  }

  function RecordAsked(h: History, e: Event): (r: Option<Asked>) {
    match e
    case ShowDetail(id) => Some(Asked(h.panel.viewer.version + 1, id, None))
    case DetailAnswered(v, body) =>
      if h.asked.Some? && h.asked.value.version == v then Some(h.asked.value.(answer := Some(body))) else h.asked
    case _ => if e.Unmount? || e.CloseDetail? || QueryOf(h.panel, e).Some? then None else h.asked
  }

  function FreshHistory(native: bool): (r: History) {
    History(Fresh(native), map[], None, None)
  }

  /** What is on show comes from one query: its page, its filters and its offset together, or
      all three are still initial. */
  ghost predicate ShownIsOneQuery(l: Listing, sent: map<nat, Query>, shown: Option<(nat, Page)>) {
    && (forall v :: v in l.waiting ==> v in sent && sent[v] == l.waiting[v])
    && (forall v :: v in sent ==> v <= l.version)
    && match shown
       case None => l.page == EMPTY_PAGE && l.applied == EMPTY_FILTERS && l.offset == 0
       case Some((v, page)) =>
         v in sent && l.page == page && l.applied == sent[v].filters && l.offset == sent[v].offset
  }

  /** On show is exactly the answer of the last detail request, if it has come and no query, close
      or unmount came after the request. */
  function DetailFor(asked: Option<Asked>): (r: Option<Detail>) {
    if asked.Some? && asked.value.answer.Some? then Some(Detail(asked.value.id, asked.value.answer.value)) else None
  }

  ghost predicate DetailIsLatest(d: Viewer, mounted: bool, asked: Option<Asked>) {
    && (mounted ==> d.detail == DetailFor(asked))
    && (mounted && asked.Some? ==> asked.value.version == d.version)
    && (mounted && d.version in d.waiting ==>
          asked.Some? && asked.value.answer.None? && d.waiting[d.version] == asked.value.id)
    && (asked.Some? ==> asked.value.version <= d.version)
  }

  ghost predicate Consistent(h: History) {
    && PanelOk(h.panel)
    && ShownIsOneQuery(h.panel.list, h.sent, h.shown)
    && DetailIsLatest(h.panel.viewer, h.panel.mounted, h.asked)
  }

  lemma RecordKeepsShown(h: History, e: Event)
    requires Consistent(h)
    ensures var n := Record(h, e);
            ShownIsOneQuery(n.panel.list, n.sent, n.shown)
  {}

  lemma RecordKeepsDetail(h: History, e: Event)
    requires Consistent(h)
    ensures var n := Record(h, e);
            DetailIsLatest(n.panel.viewer, n.panel.mounted, n.asked)
  {}

  lemma RecordKeepsConsistent(h: History, e: Event)
    requires Consistent(h)
    ensures Consistent(Record(h, e))
  {
    AdvanceKeepsListing(h.panel, e);
    AdvanceKeepsViewer(h.panel, e);
    RecordKeepsShown(h, e);
    RecordKeepsDetail(h, e);
  }

  ghost function ConsistentOf(): (r: History -> bool) {
    h => Consistent(h)
  }

  /** In every interleaving of queries, detail requests, closes, remounts and answers: what is
      on show is one query's answer, a shown detail belongs to the latest request, offsets are
      page starts and the loading flags are right. */
  lemma EveryInterleaving(native: bool, events: seq<Event>)
    ensures Consistent(Run(Record, FreshHistory(native), events))
  {
    forall h, e | ConsistentOf()(h) ensures ConsistentOf()(Record(h, e)) { RecordKeepsConsistent(h, e); }
    Kept(Record, ConsistentOf(), FreshHistory(native), events);
  }

  // ---------- single steps ----------

  /** The query that a button or the filter form asks for goes out when it can be sent: the form's
      filters from the start, or the applied filters one page back or on. */
  lemma QueriesAsked(p: Panel, e: Event)
    requires Enabled(p, e) && p.native
    ensures var next := Advance(p, e).list;
            match e
            case Mount => next.waiting == p.list.waiting[p.list.version + 1 := Query(EMPTY_FILTERS, 0)]
            case Submit(f) =>
              DatesOk(f) ==> next.waiting == p.list.waiting[p.list.version + 1 := Query(f, 0)]
            case PreviousPage =>
              DatesOk(p.list.applied) ==>
                next.waiting == p.list.waiting[p.list.version + 1 := Query(p.list.applied, p.list.offset - 10)]
            case NextPage =>
              DatesOk(p.list.applied) ==>
                next.waiting == p.list.waiting[p.list.version + 1 := Query(p.list.applied, p.list.offset + 10)]
            case _ => true
  {}

  /** A query with bad dates is not sent and says so; outside the desktop shell none is. */
  lemma QueriesRefused(p: Panel, f: Filters)
    requires Enabled(p, Submit(f))
    ensures var next := Advance(p, Submit(f)).list;
            (!p.native || !DatesOk(f)) ==> next.waiting == p.list.waiting && next.error.Some?
    ensures DatesOk(f)
       <==> !(f.from.Malformed? || f.to.Malformed? || (f.from.At? && f.to.At? && f.to.time < f.from.time))
  {}

  /** The failure of the newest request is shown and ends its loading; the list stays. */
  lemma NewestFailureShows(p: Panel, v: nat, cause: string)
    ensures v in p.list.waiting && v == p.list.version ==>
      var next := Advance(p, QueryFailed(v, cause)).list;
      next.error == Some(cause) && !next.loading && next.page == p.list.page && next.applied == p.list.applied
      && next.offset == p.list.offset
    ensures v in p.viewer.waiting && v == p.viewer.version ==>
      var next := Advance(p, DetailFailed(v, cause)).viewer;
      next.error == Some(cause) && !next.loading && next.detail == p.viewer.detail
  {}

  /** Leaving the panel overtakes every request under way. */
  lemma UnmountOvertakes(p: Panel)
    requires PanelOk(p) && p.mounted
    ensures var next := Advance(p, Unmount);
            && !next.mounted
            && (forall v :: v in next.list.waiting ==> v < next.list.version)
            && (forall v :: v in next.viewer.waiting ==> v < next.viewer.version)
  {}

  // ---------- the component ----------

  class LogPanel {
    const native: bool
    var mounted: bool
    var page: Page
    var applied: Filters
    var offset: int
    var loading: bool
    var error: Option<string>
    var detail: Option<Detail>
    var detailLoading: bool
    var detailError: Option<string>
    var queryVersion: nat
    var detailVersion: nat
    var queries: map<nat, Query>
    var details: map<nat, string>

    ghost function List(): (l: Listing)
      reads this
    {
      Listing(page, applied, offset, loading, error, queryVersion, queries)
    }

    ghost function Shown(): (d: Viewer)
      reads this
    {
      Viewer(detail, detailLoading, detailError, detailVersion, details)
    }

    ghost function View(): (p: Panel)
      reads this
    {
      Panel(native, mounted, List(), Shown())
    }

    constructor (native: bool)
      ensures View() == Fresh(native)
    {
      this.native, mounted, applied, page, offset := native, false, EMPTY_FILTERS, EMPTY_PAGE, 0;
      loading, error, detail, detailLoading, detailError := false, None, None, false, None;
      queryVersion, detailVersion, queries, details := 0, 0, map[], map[];
    }

    method QueryLogs(nextFilters: Filters, nextOffset: int)
      modifies this
      ensures View() == StartQuery(old(View()), Query(nextFilters, nextOffset))
    {
      queryVersion := queryVersion + 1;
      var version := queryVersion;
      detailVersion := detailVersion + 1;
      detail, detailError, detailLoading, error := None, None, false, None;
      if !native {
        error := Some("desktop only");
        return;
      }
      if !DatesOk(nextFilters) {
        error := Some("dates");
        return;
      }
      loading := true;
      queries := queries[version := Query(nextFilters, nextOffset)];
    }

    method QueryAnswered(version: nat, result: Page)
      requires version in queries
      modifies this
      ensures View() == old(View()).(list := AnswerListing(old(List()), version, result))
    {
      var request := queries[version];
      queries := queries - {version};
      if version != queryVersion {
        return;
      }
      page := result;
      applied := request.filters;
      offset := request.offset;
      loading := false;
    }

    method QueryFailed(version: nat, cause: string)
      requires version in queries
      modifies this
      ensures View() == old(View()).(list := FailListing(old(List()), version, cause))
    {
      queries := queries - {version};
      if version == queryVersion {
        error := Some(cause);
      }
      if version == queryVersion {
        loading := false;
      }
    }

    method ShowDetail(id: string)
      modifies this
      ensures View() == old(View()).(viewer := AskViewer(old(Shown()), id))
    {
      detailVersion := detailVersion + 1;
      detail, detailError, detailLoading := None, None, true;
      details := details[detailVersion := id];
    }

    method DetailAnswered(version: nat, body: string)
      requires version in details
      modifies this
      ensures View() == old(View()).(viewer := AnswerViewer(old(Shown()), version, body))
    {
      var id := details[version];
      details := details - {version};
      if version == detailVersion {
        detail := Some(Detail(id, body));
      }
      if version == detailVersion {
        detailLoading := false;
      }
    }

    method CloseDetail()
      modifies this
      ensures View() == old(View()).(viewer := old(Shown()).(version := old(detailVersion) + 1, detail := None))
    {
      detailVersion := detailVersion + 1;
      detail := None;
    }

    method DetailFailed(version: nat, cause: string)
      requires version in details
      modifies this
      ensures View() == old(View()).(viewer := FailViewer(old(Shown()), version, cause))
    {
      details := details - {version};
      if version == detailVersion {
        detailError := Some(cause);
      }
      if version == detailVersion {
        detailLoading := false;
      }
    }
  }
}
