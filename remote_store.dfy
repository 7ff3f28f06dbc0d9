/** The remote store seen as one map from id to row per table. Only the
    keyed deletes the data-access module issues are given a row-level
    effect here; filtered and ordered reads stay answers of the store. */
module RemoteStore {
  import opened SupabaseTypes
  import opened ApiEnvelope

  datatype Tables = Tables(
    meetings: map<Id, MeetingMinute>,
    attendees: map<Id, Attendee>,
    links: map<Id, MeetingAttendee>)

  /** The store after one write request, with the envelope returned for it. */
  datatype Written<T> = Written(tables: Tables, response: ApiResponse<T>)

  /** The link rows `.eq('meeting_id', m).eq('attendee_id', a)` selects. */
  predicate LinkMatches(link: MeetingAttendee, meetingId: Id, attendeeId: Id) {
    link.meeting_id == meetingId && link.attendee_id == attendeeId
  }

  /** The link table once every row naming this meeting and attendee is gone. */
  function WithoutLinks(links: map<Id, MeetingAttendee>, meetingId: Id, attendeeId: Id)
    : (rest: map<Id, MeetingAttendee>)
    ensures forall k :: k in rest <==> k in links && !LinkMatches(links[k], meetingId, attendeeId)
    ensures forall k :: k in rest ==> rest[k] == links[k]
  {
    map k | k in links && !LinkMatches(links[k], meetingId, attendeeId) :: links[k]
  }
}
