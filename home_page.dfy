/** The meeting list page: the list of meetings, which one is selected, and
    whether the drawer is open. */
module HomePage {
  import opened Wrappers
  import opened MeetingTypes
  import opened ApiEnvelope

  const LoadFailedMessage: string := "Failed to load meetings"

  /** `prev.map(m => m.id === saved.id ? saved : m)` */
  function ReplaceById(meetings: seq<Meeting>, saved: Meeting): (r: seq<Meeting>)
    ensures |r| == |meetings|
    ensures forall i :: 0 <= i < |meetings| ==>
              r[i] == (if meetings[i].id == saved.id then saved else meetings[i])
  {
    if meetings == [] then []
    else [if meetings[0].id == saved.id then saved else meetings[0]] + ReplaceById(meetings[1..], saved)
  }

  /** Every position keeps its id, so the list's shape is unchanged. */
  lemma ReplaceByIdKeepsIds(meetings: seq<Meeting>, saved: Meeting)
    ensures forall i :: 0 <= i < |meetings| ==> ReplaceById(meetings, saved)[i].id == meetings[i].id
  {
  }

  /** Saving the same meeting again changes nothing more. */
  lemma ReplaceByIdIdempotent(meetings: seq<Meeting>, saved: Meeting)
    ensures ReplaceById(ReplaceById(meetings, saved), saved) == ReplaceById(meetings, saved)
  {
  }

  /** A saved meeting whose id is not in the list leaves the list as it was. */
  lemma ReplaceByIdWithoutMatch(meetings: seq<Meeting>, saved: Meeting)
    requires forall i :: 0 <= i < |meetings| ==> meetings[i].id != saved.id
    ensures ReplaceById(meetings, saved) == meetings
  {
  }

  class Home {
    var meetings: seq<Meeting>
    var loading: bool
    var selectedMeeting: Option<Meeting>
    var isDrawerOpen: bool
    var error: Option<string>

    /** A closed drawer never holds a selection. */
    ghost predicate Valid()
      reads this
    {
      !isDrawerOpen ==> selectedMeeting.None?
    }

    /** The `useState` initial values. */
    constructor ()
      ensures Valid()
      ensures meetings == [] && loading && selectedMeeting.None? && !isDrawerOpen && error.None?
    {
      meetings := [];
      loading := true;
      selectedMeeting := None;
      isDrawerOpen := false;
      error := None;
    }

    /** The part of `loadMeetings` before the request is awaited. */
    method StartLoading()
      requires Valid()
      modifies this
      ensures Valid()
      ensures loading && error.None?
      ensures meetings == old(meetings)
      ensures selectedMeeting == old(selectedMeeting) && isDrawerOpen == old(isDrawerOpen)
    {
      loading := true;
      error := None;
    }

    /** The part of `loadMeetings` after the envelope has arrived. */
    method FinishLoading(response: ApiResponse<seq<Meeting>>)
      requires Valid()
      modifies this
      ensures Valid()
      ensures !loading
      ensures response.success && response.data.Some? ==>
                meetings == response.data.value && error == old(error)
      ensures !(response.success && response.data.Some?) ==>
                meetings == old(meetings) && error == Some(MessageOr(response.error, LoadFailedMessage))
      ensures selectedMeeting == old(selectedMeeting) && isDrawerOpen == old(isDrawerOpen)
    {
      if response.success && response.data.Some? {
        meetings := response.data.value;
      } else {
        error := Some(MessageOr(response.error, LoadFailedMessage));
      }
      loading := false;
    }

    /** `loadMeetings()`, with `result` what the awaited `getAll()` does.
        Nothing in the function catches a throw, so a throwing call ends it
        right after the two updates made before the await. */
    method LoadMeetings(result: Awaited<seq<Meeting>>)
      requires Valid()
      modifies this
      ensures Valid()
      ensures selectedMeeting == old(selectedMeeting) && isDrawerOpen == old(isDrawerOpen)
      ensures Delivered(result) ==>
                !loading && meetings == result.response.data.value && error.None?
      ensures result.Returned? && !Delivered(result) ==>
                && !loading && meetings == old(meetings)
                && error == Some(MessageOr(result.response.error, LoadFailedMessage))
      ensures result.Threw? ==> loading && error.None? && meetings == old(meetings)
    {
      StartLoading();
      if result.Threw? {
        return;
      }
      FinishLoading(result.response);
    }

    /** `loadMeetings()` wrapped as the drawer wraps its own call:
        `try { ... } catch { setError('Failed to load meetings') }
         finally { setLoading(false) }`. Loading always ends, and a failed
        load always shows an error. */
    method LoadMeetingsSettled(result: Awaited<seq<Meeting>>)
      requires Valid()
      modifies this
      ensures Valid()
      ensures !loading
      ensures selectedMeeting == old(selectedMeeting) && isDrawerOpen == old(isDrawerOpen)
      ensures Delivered(result) <==> error.None?
      ensures Delivered(result) ==> meetings == result.response.data.value
      ensures result.Returned? && !Delivered(result) ==>
                meetings == old(meetings) && error == Some(MessageOr(result.response.error, LoadFailedMessage))
      ensures result.Threw? ==> meetings == old(meetings) && error == Some(LoadFailedMessage)
    {
      StartLoading();
      if result.Threw? {
        error := Some(LoadFailedMessage);
      } else {
        FinishLoading(result.response);
      }
      loading := false;
    }

    /** `handleRowClick(meeting)`, and the row's edit button. */
    method HandleRowClick(meeting: Meeting)
      requires Valid()
      modifies this
      ensures Valid()
      ensures selectedMeeting == Some(meeting) && isDrawerOpen
      ensures meetings == old(meetings) && loading == old(loading) && error == old(error)
    {
      selectedMeeting := Some(meeting);
      isDrawerOpen := true;
    }

    /** `handleAddMeeting()` */
    method HandleAddMeeting()
      requires Valid()
      modifies this
      ensures Valid()
      ensures selectedMeeting.None? && isDrawerOpen
      ensures meetings == old(meetings) && loading == old(loading) && error == old(error)
    {
      selectedMeeting := None;
      isDrawerOpen := true;
    }

    /** `handleMeetingSaved(meeting)`: replace by id while a meeting is
        selected, otherwise put the new meeting first. */
    method HandleMeetingSaved(saved: Meeting)
      requires Valid()
      modifies this
      ensures Valid()
      ensures old(selectedMeeting).Some? ==> meetings == ReplaceById(old(meetings), saved)
      ensures old(selectedMeeting).None? ==>
                |meetings| == |old(meetings)| + 1 && meetings[0] == saved && meetings[1..] == old(meetings)
      ensures selectedMeeting == old(selectedMeeting) && isDrawerOpen == old(isDrawerOpen)
      ensures loading == old(loading) && error == old(error)
    {
      if selectedMeeting.Some? {
        meetings := ReplaceById(meetings, saved);
      } else {
        meetings := [saved] + meetings;
      }
    }

    /** `handleDrawerClose()` */
    method HandleDrawerClose()
      requires Valid()
      modifies this
      ensures Valid()
      ensures !isDrawerOpen && selectedMeeting.None?
      ensures meetings == old(meetings) && loading == old(loading) && error == old(error)
    {
      isDrawerOpen := false;
      selectedMeeting := None;
    }
  }

  /** The first load, as mounting runs it, when `getAll()` throws: the page
      is left loading with no error to show. */
  method FirstLoadThrows() returns (home: Home)
    ensures home.Valid()
    ensures home.loading && home.error.None? && home.meetings == []
  {
    home := new Home();
    home.LoadMeetings(Threw);
  }

  /** The same first load with the throw caught: loading ends and the
      failure is shown. */
  method FirstLoadThrowsSettled() returns (home: Home)
    ensures home.Valid()
    ensures !home.loading && home.error == Some(LoadFailedMessage) && home.meetings == []
  {
    home := new Home();
    home.LoadMeetingsSettled(Threw);
  }
}
