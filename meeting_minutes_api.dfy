/** `meetingMinutesAPI` and `healthCheck`: what each operation computes
    locally around its round trips to the store. */
module MeetingMinutesApi {
  import opened Wrappers
  import opened SupabaseTypes
  import opened ApiEnvelope
  import opened RemoteStore

  // ---------------------------------------------------------------- getAll

  /** The optional `filters` argument; `{}` is every field `None`. */
  datatype ListFilters = ListFilters(
    status: Option<MeetingStatus>,
    limit: Option<int>,
    offset: Option<int>,
    search: Option<string>)

  /** Inclusive row range passed to `.range(from, to)`. */
  datatype Range = Range(from: int, to: int)

  /** The parameters the query builder has received when it is awaited. */
  datatype ListQuery = ListQuery(
    table: string,
    columns: string,
    orderColumn: string,
    ascending: bool,
    statusEquals: Option<MeetingStatus>,
    search: Option<string>,
    limit: Option<int>,
    range: Option<Range>)

  const DefaultPageSize: int := 10

  /** A number filter is truthy when given and not 0. */
  predicate NumberGiven(n: Option<int>) {
    n.Some? && n.value != 0
  }

  /** A text filter is truthy when given and not empty. */
  predicate TextGiven(s: Option<string>) {
    s.Some? && s.value != ""
  }

  /** `filters.limit || 10` */
  function PageSize(limit: Option<int>): (n: int)
    ensures !NumberGiven(limit) ==> n == DefaultPageSize
    ensures NumberGiven(limit) ==> n == limit.value
  {
    if NumberGiven(limit) then limit.value else DefaultPageSize
  }

  /** The query `getAll(filters)` sends: most recent meeting first, and each
      filter applied only when it is truthy. */
  function ListQueryFor(filters: ListFilters): (q: ListQuery)
    ensures q.table == "meeting_minutes" && q.columns == "*"
    ensures q.orderColumn == "meeting_date" && !q.ascending
    ensures q.statusEquals == filters.status
    ensures q.search.Some? <==> TextGiven(filters.search)
    ensures q.search.Some? ==> q.search == filters.search
    ensures q.limit.Some? <==> NumberGiven(filters.limit)
    ensures q.limit.Some? ==> q.limit == filters.limit
    ensures q.range.Some? <==> NumberGiven(filters.offset)
    ensures q.range.Some? ==> && q.range.value.from == filters.offset.value
                              && q.range.value.to - q.range.value.from + 1 == PageSize(filters.limit)
  {
    ListQuery(
      "meeting_minutes", "*", "meeting_date", false,
      filters.status,
      if TextGiven(filters.search) then filters.search else None,
      if NumberGiven(filters.limit) then filters.limit else None,
      if NumberGiven(filters.offset)
      then Some(Range(filters.offset.value, filters.offset.value + PageSize(filters.limit) - 1))
      else None)
  }

  /** A limit, offset or search that is 0 or empty is the same as none. */
  lemma FalsyFiltersIgnored(filters: ListFilters)
    ensures ListQueryFor(filters.(limit := Some(0))) == ListQueryFor(filters.(limit := None))
    ensures ListQueryFor(filters.(offset := Some(0))) == ListQueryFor(filters.(offset := None))
    ensures ListQueryFor(filters.(search := Some(""))) == ListQueryFor(filters.(search := None))
  {
  }

  /** `getAll(filters)`: builds the query one conditional step at a time,
      awaits it, and wraps the store's answer. */
  method GetAll(filters: ListFilters, reply: Reply<seq<MeetingMinute>>)
    returns (sent: ListQuery, r: ApiResponse<seq<MeetingMinute>>)
    ensures sent == ListQueryFor(filters)
    ensures r == Respond(reply)
  {
    var query := ListQuery("meeting_minutes", "*", "meeting_date", false, None, None, None, None);
    if filters.status.Some? {
      query := query.(statusEquals := filters.status);
    }
    if TextGiven(filters.search) {
      query := query.(search := filters.search);
    }
    if NumberGiven(filters.limit) {
      query := query.(limit := filters.limit);
    }
    if NumberGiven(filters.offset) {
      var pageSize := if NumberGiven(filters.limit) then filters.limit.value else DefaultPageSize;
      query := query.(range := Some(Range(filters.offset.value, filters.offset.value + pageSize - 1)));
    }
    sent := query;
    r := Respond(reply);
  }

  // --------------------------------------------------------------- getById

  /** One element of `meeting_attendees(attendance_status, attendees(*))`;
      the joined attendee is `None` when the store sends `null`. */
  datatype LinkRow = LinkRow(attendance_status: AttendanceStatus, attendees: Option<Attendee>)

  /** The single row `getById` selects: the meeting's columns and its links. */
  datatype JoinedMeeting = JoinedMeeting(row: MeetingMinute, meeting_attendees: Option<seq<LinkRow>>)

  /** `{ ...ma.attendees, attendance_status: ma.attendance_status }`; spreading
      `null` contributes no attendee fields. */
  datatype AttendeeEntry = AttendeeEntry(attendee: Option<Attendee>, attendance_status: AttendanceStatus)

  /** The meeting's columns plus `attendees`; `meeting_attendees` is gone. */
  datatype MeetingDetail = MeetingDetail(row: MeetingMinute, attendees: seq<AttendeeEntry>)

  function Entry(link: LinkRow): AttendeeEntry {
    AttendeeEntry(link.attendees, link.attendance_status)
  }

  /** `links.map(ma => ({ ...ma.attendees, attendance_status: ma.attendance_status }))` */
  function FlattenLinks(links: seq<LinkRow>): (entries: seq<AttendeeEntry>)
    ensures |entries| == |links|
    ensures forall i :: 0 <= i < |links| ==>
              entries[i].attendee == links[i].attendees
              && entries[i].attendance_status == links[i].attendance_status
  {
    if links == [] then [] else [Entry(links[0])] + FlattenLinks(links[1..])
  }

  /** The link row an entry was built from. */
  function LinkOf(entry: AttendeeEntry): LinkRow {
    LinkRow(entry.attendance_status, entry.attendee)
  }

  function UnflattenEntries(entries: seq<AttendeeEntry>): (links: seq<LinkRow>)
    ensures |links| == |entries|
  {
    if entries == [] then [] else [LinkOf(entries[0])] + UnflattenEntries(entries[1..])
  }

  /** Flattening loses nothing that was selected from the link rows. */
  lemma {:induction false} FlattenLinksRoundTrip(links: seq<LinkRow>)
    ensures UnflattenEntries(FlattenLinks(links)) == links
  {
    if links != [] {
      FlattenLinksRoundTrip(links[1..]);
      assert FlattenLinks(links)[1..] == FlattenLinks(links[1..]);
    }
  }

  /** Flattening keeps the order of the links: it distributes over `+`. */
  lemma FlattenLinksAppend(a: seq<LinkRow>, b: seq<LinkRow>)
    ensures FlattenLinks(a + b) == FlattenLinks(a) + FlattenLinks(b)
  {
  }

  /** `getById(id)`: a failed fetch is returned before any transformation;
      otherwise the links are flattened, a missing list giving `[]`. */
  function GetById(reply: Reply<JoinedMeeting>): (r: ApiResponse<MeetingDetail>)
    ensures WellFormed(r)
    ensures r.success <==> reply.Answered?
    ensures !reply.Answered? ==> r.error == Some(ErrorText(reply.Failure()))
    ensures reply.Answered? ==>
              && r.data.Some?
              && r.data.value.row == reply.data.row
              && r.data.value.attendees == FlattenLinks(reply.data.meeting_attendees.GetOr([]))
    ensures reply.Answered? && reply.data.meeting_attendees.None? ==> r.data.value.attendees == []
  {
    match reply
    case Answered(data) =>
      var attendees := if data.meeting_attendees.Some? then FlattenLinks(data.meeting_attendees.value) else [];
      HandleApiResponse(Some(MeetingDetail(data.row, attendees)), None)
    case Rejected(error) => HandleApiResponse(None, Some(error))
    case Raised(exception) => HandleApiResponse(None, Some(exception))
  }

  // ------------------------------------------------------------- duplicate

  const CopySuffix: string := " (Copy)"

  /** The caller-supplied columns of a row, as an insert payload. */
  function InsertOf(row: MeetingMinute): (p: MeetingMinuteInsert)
    ensures p.status == Some(row.status)
  {
    MeetingMinuteInsert(row.title, row.content, row.meeting_date, row.location,
                        Some(row.status), row.created_by, row.tags)
  }

  /** The row the store holds once it has assigned an id and timestamps to an
      insert payload; an absent status takes the column default `draft`. */
  function Persisted(p: MeetingMinuteInsert, id: Id, createdAt: Timestamp, updatedAt: Timestamp)
    : MeetingMinute
  {
    MeetingMinute(id, p.title, p.content, p.meeting_date, p.location, p.status.GetOr(Draft),
                  createdAt, updatedAt, p.created_by, p.tags)
  }

  /** Stripping the generated columns and letting the store put them back
      gives the row again. */
  lemma InsertOfRoundTrip(row: MeetingMinute)
    ensures Persisted(InsertOf(row), row.id, row.created_at, row.updated_at) == row
  {
  }

  /** `{ ...original, id: undefined, title: `${original.title} (Copy)`,
      status: 'draft', created_at: undefined, updated_at: undefined }` */
  function DuplicatePayload(original: MeetingMinute): (p: MeetingMinuteInsert)
    ensures p.title == original.title + CopySuffix
    ensures p.status == Some(Draft)
    ensures p == InsertOf(original.(title := original.title + CopySuffix, status := Draft))
  {
    InsertOf(original).(title := original.title + CopySuffix, status := Some(Draft))
  }

  /** The copy differs from its source only in id, title, status and
      timestamps, whatever the source's status was. */
  lemma DuplicateIsRenamedDraft(original: MeetingMinute, id: Id, createdAt: Timestamp, updatedAt: Timestamp)
    ensures Persisted(DuplicatePayload(original), id, createdAt, updatedAt)
         == original.(id := id, title := original.title + CopySuffix, status := Draft,
                      created_at := createdAt, updated_at := updatedAt)
  {
  }

  /** A `duplicate` run: the insert it issued, if any, and its envelope. */
  datatype DuplicateRun = DuplicateRun(inserted: Option<MeetingMinuteInsert>, response: ApiResponse<MeetingMinute>)

  /** `duplicate(id)`: fetch the source row, then insert the payload built
      from it; `insert` is the store's answer to a given insert. */
  function Duplicate(fetched: Reply<MeetingMinute>, insert: MeetingMinuteInsert -> Reply<MeetingMinute>)
    : (run: DuplicateRun)
    ensures WellFormed(run.response)
    ensures !fetched.Answered? ==>
              && run.inserted.None?
              && !run.response.success
              && run.response.error == Some(ErrorText(fetched.Failure()))
    ensures fetched.Answered? ==>
              && run.inserted == Some(DuplicatePayload(fetched.data))
              && run.response == Respond(insert(DuplicatePayload(fetched.data)))
  {
    match fetched
    case Rejected(fetchError) => DuplicateRun(None, HandleApiResponse(None, Some(fetchError)))
    case Raised(exception) => DuplicateRun(None, HandleApiResponse(None, Some(exception)))
    case Answered(original) =>
      var payload := DuplicatePayload(original);
      DuplicateRun(Some(payload), Respond(insert(payload)))
  }

  // -------------------------------------------------------------- getStats

  datatype MeetingStats = MeetingStats(total: nat, published: nat, draft: nat, archived: nat)

  /** `statuses.filter(s => s === status).length` */
  function CountStatus(statuses: seq<string>, status: string): (n: nat)
    ensures n <= |statuses|
    ensures n == multiset(statuses)[status]
  {
    if statuses == [] then 0
    else
      assert statuses == [statuses[0]] + statuses[1..];
      (if statuses[0] == status then 1 else 0) + CountStatus(statuses[1..], status)
  }

  predicate Recognised(status: string) {
    status == Draft.Text() || status == Published.Text() || status == Archived.Text()
  }

  /** Rows whose status is none of the three named ones. */
  function CountUnrecognised(statuses: seq<string>): (n: nat)
    ensures n <= |statuses|
  {
    if statuses == [] then 0
    else (if Recognised(statuses[0]) then 0 else 1) + CountUnrecognised(statuses[1..])
  }

  function NamedSum(statuses: seq<string>): nat {
    CountStatus(statuses, Draft.Text()) + CountStatus(statuses, Published.Text())
    + CountStatus(statuses, Archived.Text())
  }

  /** Every row is counted exactly once: in one named bucket or as unrecognised. */
  lemma {:induction false} StatusCountsPartition(statuses: seq<string>)
    ensures NamedSum(statuses) + CountUnrecognised(statuses) == |statuses|
  {
    if statuses != [] {
      StatusCountsPartition(statuses[1..]);
    }
  }

  lemma {:induction false} NoneUnrecognised(statuses: seq<string>)
    ensures CountUnrecognised(statuses) == 0 <==> forall i :: 0 <= i < |statuses| ==> Recognised(statuses[i])
  {
    if statuses != [] {
      NoneUnrecognised(statuses[1..]);
      if CountUnrecognised(statuses) == 0 {
        forall i | 0 <= i < |statuses| ensures Recognised(statuses[i]) {
          if i > 0 { assert statuses[i] == statuses[1..][i - 1]; }
        }
      } else if Recognised(statuses[0]) {
        var j :| 0 <= j < |statuses[1..]| && !Recognised(statuses[1..][j]);
        assert statuses[j + 1] == statuses[1..][j];
      }
    }
  }

  /** The counters `getStats` computes client-side from the status column. */
  function Stats(statuses: seq<string>): (st: MeetingStats)
    ensures st.total == |statuses|
    ensures st.draft == multiset(statuses)[Draft.Text()]
    ensures st.published == multiset(statuses)[Published.Text()]
    ensures st.archived == multiset(statuses)[Archived.Text()]
    ensures st.draft + st.published + st.archived <= st.total
  {
    StatusCountsPartition(statuses);
    MeetingStats(|statuses|, CountStatus(statuses, Published.Text()),
                 CountStatus(statuses, Draft.Text()), CountStatus(statuses, Archived.Text()))
  }

  /** The named counters add up to `total` exactly when every row's status
      is one of the three. */
  lemma StatsExactIffAllRecognised(statuses: seq<string>)
    ensures Stats(statuses).draft + Stats(statuses).published + Stats(statuses).archived == Stats(statuses).total
            <==> forall i :: 0 <= i < |statuses| ==> Recognised(statuses[i])
  {
    StatusCountsPartition(statuses);
    NoneUnrecognised(statuses);
  }

  /** `getStats()`: a fetch error is returned as is, otherwise the counters. */
  function GetStats(reply: Reply<seq<string>>): (r: ApiResponse<MeetingStats>)
    ensures WellFormed(r)
    ensures r.success <==> reply.Answered?
    ensures !reply.Answered? ==> r.error == Some(ErrorText(reply.Failure()))
    ensures reply.Answered? ==> r.data == Some(Stats(reply.data))
  {
    match reply
    case Answered(statuses) => HandleApiResponse(Some(Stats(statuses)), None)
    case Rejected(error) => HandleApiResponse(None, Some(error))
    case Raised(exception) => HandleApiResponse(None, Some(exception))
  }

  // ---------------------------------------------------------------- delete

  /** `delete(id)`: `data` is always null; the row goes only if the store
      answered without error. */
  function DeleteMeeting(db: Tables, id: Id, reply: Reply<()>): (w: Written<()>)
    ensures WellFormed(w.response)
    ensures w.response.data.None?
    ensures w.response.success <==> reply.Answered?
    ensures !reply.Answered? ==> w.response.error == Some(ErrorText(reply.Failure()))
    ensures w.response == RespondNull(reply)
    ensures reply.Answered? ==> id !in w.tables.meetings
    ensures reply.Answered? ==> w.tables == db.(meetings := db.meetings - {id})
    ensures !reply.Answered? ==> w.tables == db
  {
    if reply.Answered? then Written(db.(meetings := db.meetings - {id}), RespondNull(reply))
    else Written(db, RespondNull(reply))
  }

  /** When the store answers both deletes without error, a second delete of
      the same id finds nothing to remove, so it gives the tables and the
      envelope of the first. */
  lemma DeleteMeetingIdempotent(db: Tables, id: Id)
    ensures DeleteMeeting(DeleteMeeting(db, id, Answered(())).tables, id, Answered(()))
         == DeleteMeeting(db, id, Answered(()))
  {
  }

  // ----------------------------------------------------------- healthCheck

  /** `healthCheck()`: `!error` when the store answers, `false` when the
      call throws. */
  function HealthCheck(reply: Reply<seq<Id>>): (healthy: bool)
    ensures healthy <==> reply.Answered?
    ensures healthy == Respond(reply).success
  {
    match reply
    case Answered(_) => true
    case Rejected(_) => false
    case Raised(_) => false
  }
}
