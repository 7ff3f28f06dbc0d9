/** Row and payload shapes of the three tables the data-access module talks
    to (meeting_minutes, attendees, meeting_attendees), and the shape of an
    answer from the remote store. */
module SupabaseTypes {
  import opened Wrappers

  type Id = string
  /** Timestamps are kept as the text the store sends. */
  type Timestamp = string

  datatype MeetingStatus = Draft | Published | Archived {
    /** The column value the store holds for this status. */
    function Text(): string {
      match this
      case Draft => "draft"
      case Published => "published"
      case Archived => "archived"
    }
  }

  datatype AttendanceStatus = Invited | Attended | Absent

  datatype MeetingMinute = MeetingMinute(
    id: Id,
    title: string,
    content: string,
    meeting_date: Timestamp,
    location: Option<string>,
    status: MeetingStatus,
    created_at: Timestamp,
    updated_at: Timestamp,
    created_by: Option<Id>,
    tags: Option<seq<string>>)

  /** What a caller sends to create a meeting: no id, no timestamps. */
  datatype MeetingMinuteInsert = MeetingMinuteInsert(
    title: string,
    content: string,
    meeting_date: Timestamp,
    location: Option<string>,
    status: Option<MeetingStatus>,
    created_by: Option<Id>,
    tags: Option<seq<string>>)

  datatype Attendee = Attendee(
    id: Id,
    name: string,
    email: string,
    role: Option<string>,
    department: Option<string>,
    created_at: Timestamp,
    updated_at: Timestamp)

  datatype MeetingAttendee = MeetingAttendee(
    id: Id,
    meeting_id: Id,
    attendee_id: Id,
    attendance_status: AttendanceStatus,
    created_at: Timestamp)

  datatype MeetingAttendeeInsert = MeetingAttendeeInsert(
    meeting_id: Id,
    attendee_id: Id,
    attendance_status: Option<AttendanceStatus>)

  /** An error object, from the store or thrown; its `message` is `""` when
      it has none (both are falsy in `error.message || ...`). */
  datatype StoreError = StoreError(message: string)

  /** The answer to one awaited round trip: the store answered with data
      (`error` null), the store answered with an `error` object, or the call
      threw and the surrounding `catch` received the exception. */
  datatype Reply<T> =
    | Answered(data: T)
    | Rejected(error: StoreError)
    | Raised(exception: StoreError)
  {
    /** The error object a failed reply carries. */
    function Failure(): StoreError
      requires !Answered?
    {
      if Rejected? then error else exception
    }
  }
}
