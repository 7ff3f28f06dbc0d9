/** `attendeesAPI` and `meetingAttendeesAPI`. Their reads, creates and
    updates return the store's answer through `Respond`; what they compute
    locally is the link insert payload and the keyed deletes. */
module AttendeesApi {
  import opened Wrappers
  import opened SupabaseTypes
  import opened ApiEnvelope
  import opened RemoteStore

  /** The row `addToMeeting(meetingId, attendeeId, status = 'invited')`
      inserts: the status is always sent, `invited` when not given. */
  function LinkInsert(meetingId: Id, attendeeId: Id, status: Option<AttendanceStatus>)
    : (p: MeetingAttendeeInsert)
    ensures p.meeting_id == meetingId && p.attendee_id == attendeeId
    ensures p.attendance_status.Some?
    ensures status.Some? ==> p.attendance_status == status
    ensures status.None? ==> p.attendance_status == Some(Invited)
  {
    MeetingAttendeeInsert(meetingId, attendeeId, Some(status.GetOr(Invited)))
  }

  /** `attendeesAPI.delete(id)`: `data` is always null. */
  function DeleteAttendee(db: Tables, id: Id, reply: Reply<()>): (w: Written<()>)
    ensures WellFormed(w.response)
    ensures w.response.data.None?
    ensures w.response.success <==> reply.Answered?
    ensures !reply.Answered? ==> w.response.error == Some(ErrorText(reply.Failure()))
    ensures w.response == RespondNull(reply)
    ensures reply.Answered? ==> w.tables == db.(attendees := db.attendees - {id})
    ensures !reply.Answered? ==> w.tables == db
  {
    if reply.Answered? then Written(db.(attendees := db.attendees - {id}), RespondNull(reply))
    else Written(db, RespondNull(reply))
  }

  /** `removeFromMeeting(meetingId, attendeeId)`: deletes by the composite
      key; `data` is always null. */
  function RemoveFromMeeting(db: Tables, meetingId: Id, attendeeId: Id, reply: Reply<()>): (w: Written<()>)
    ensures WellFormed(w.response)
    ensures w.response.data.None?
    ensures w.response.success <==> reply.Answered?
    ensures !reply.Answered? ==> w.response.error == Some(ErrorText(reply.Failure()))
    ensures w.response == RespondNull(reply)
    ensures !reply.Answered? ==> w.tables == db
    ensures reply.Answered? ==>
              && w.tables.meetings == db.meetings
              && w.tables.attendees == db.attendees
              && w.tables.links == WithoutLinks(db.links, meetingId, attendeeId)
  {
    if reply.Answered? then Written(db.(links := WithoutLinks(db.links, meetingId, attendeeId)), RespondNull(reply))
    else Written(db, RespondNull(reply))
  }

  /** After a successful removal no link pairs the two, and every link of
      another pair is kept as it was. */
  lemma RemoveFromMeetingIsExact(db: Tables, meetingId: Id, attendeeId: Id)
    ensures var links := RemoveFromMeeting(db, meetingId, attendeeId, Answered(())).tables.links;
            && (forall k :: k in links ==> !LinkMatches(links[k], meetingId, attendeeId))
            && (forall k :: k in db.links && !LinkMatches(db.links[k], meetingId, attendeeId) ==>
                  k in links && links[k] == db.links[k])
  {
  }

  /** Removing the same pair twice leaves the tables as removing it once. */
  lemma RemoveFromMeetingIdempotent(db: Tables, meetingId: Id, attendeeId: Id)
    ensures var once := RemoveFromMeeting(db, meetingId, attendeeId, Answered(())).tables;
            RemoveFromMeeting(once, meetingId, attendeeId, Answered(())).tables == once
  {
  }
}
