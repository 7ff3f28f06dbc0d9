/** The meeting shape the page and the drawer work with. */
module MeetingTypes {
  import opened SupabaseTypes

  /** `Meeting`: `time` is the timestamp text; `content` is markdown. */
  datatype Meeting = Meeting(
    id: Id,
    title: string,
    time: string,
    content: string,
    created_at: string,
    updated_at: string)

  /** `CreateMeetingData`, and `UpdateMeetingData` with every field given. */
  datatype MeetingData = MeetingData(title: string, time: string, content: string)
}
