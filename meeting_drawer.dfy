/** The drawer's form: viewing or editing one meeting, or creating one. */
module MeetingDrawerForm {
  import opened Wrappers
  import opened SupabaseTypes
  import opened MeetingTypes
  import opened ApiEnvelope
  import opened JsString

  const TitleRequiredMessage: string := "Title is required"
  const UpdateFailedMessage: string := "Failed to update meeting"
  const CreateFailedMessage: string := "Failed to create meeting"
  const UnexpectedErrorMessage: string := "An unexpected error occurred"

  /** The call `handleSave` makes on the meetings collaborator. */
  datatype SaveRequest = UpdateMeeting(id: Id, data: MeetingData) | CreateMeeting(data: MeetingData)

  /** What that call does: resolves to an envelope, or throws. */
  type CallResult = Awaited<Meeting>

  /** The payload both branches of `handleSave` send. */
  function FormData(title: string, time: string, content: string): (d: MeetingData)
    ensures d.title == Trim(title) && d.content == Trim(content) && d.time == time
    ensures Trimmed(d.title) && Trimmed(d.content)
    ensures |d.title| <= |title| && |d.content| <= |content|
  {
    TrimSpec(title);
    TrimSpec(content);
    MeetingData(Trim(title), time, Trim(content))
  }

  /** A title that passes `handleSave`'s check gives a non-empty payload title. */
  lemma CheckedTitleIsNonEmpty(title: string, time: string, content: string)
    requires !IsBlank(title)
    ensures FormData(title, time, content).title != ""
    ensures exists i :: 0 <= i < |title| && !IsWhiteSpace(title[i])
  {
    BlankIffAllWhiteSpace(title);
  }

  class MeetingDrawer {
    /** The `meeting` prop. */
    var meeting: Option<Meeting>
    var isEditing: bool
    var title: string
    /** The form's `Date`, as the text `toISOString()` gives for it; `None`
        is an Invalid Date, on which `toISOString()` throws. */
    var time: Option<string>
    var content: string
    var loading: bool
    var error: Option<string>
    /** `new Date(text)` as the `time` field holds it: the ISO text of the
        parsed instant, or `None` when the text does not parse. */
    const parseDate: string -> Option<string>

    /** Between handlers nothing is in flight, and a new meeting is always
        being edited. */
    ghost predicate Valid()
      reads this
    {
      !loading && (meeting.None? ==> isEditing)
    }

    /** The form gets past `handleSave`'s check and builds its payload
        without throwing. */
    predicate ReadyToSend()
      reads this
    {
      !IsBlank(title) && time.Some?
    }

    /** Mounting: the `useState` initial values, then the effect's first run.
        `now` is the ISO text of the clock reading `new Date()` takes. */
    constructor (meeting: Option<Meeting>, now: string, parseDate: string -> Option<string>)
      ensures Valid()
      ensures this.meeting == meeting && this.parseDate == parseDate && error.None?
      ensures meeting.Some? ==>
                && title == meeting.value.title && time == parseDate(meeting.value.time)
                && content == meeting.value.content && !isEditing
      ensures meeting.None? ==> title == "" && time == Some(now) && content == "" && isEditing
    {
      this.meeting := meeting;
      this.parseDate := parseDate;
      isEditing := false;
      title := "";
      time := Some(now);
      content := "";
      loading := false;
      error := None;
      new;
      InitializeForm(now);
    }

    /** The effect body: copy the meeting into the form and show it, or
        clear the form for a new meeting and start editing. */
    method InitializeForm(now: string)
      modifies this
      ensures meeting == old(meeting) && loading == old(loading)
      ensures error.None?
      ensures meeting.Some? ==>
                && title == meeting.value.title && time == parseDate(meeting.value.time)
                && content == meeting.value.content && !isEditing
      ensures meeting.None? ==> title == "" && time == Some(now) && content == "" && isEditing
    {
      if meeting.Some? {
        title := meeting.value.title;
        time := parseDate(meeting.value.time);
        content := meeting.value.content;
        isEditing := false;
      } else {
        title := "";
        time := Some(now);
        content := "";
        isEditing := true;
      }
      error := None;
    }

    /** A new `meeting` prop: the effect runs only when it differs from the
        previous one. */
    method ReceiveMeeting(next: Option<Meeting>, now: string)
      requires Valid()
      modifies this
      ensures Valid()
      ensures meeting == next
      ensures next == old(meeting) ==>
                && isEditing == old(isEditing) && title == old(title) && time == old(time)
                && content == old(content) && error == old(error)
      ensures next != old(meeting) && next.Some? ==>
                && title == next.value.title && time == parseDate(next.value.time)
                && content == next.value.content && !isEditing && error.None?
      ensures next != old(meeting) && next.None? ==>
                title == "" && time == Some(now) && content == "" && isEditing && error.None?
    {
      if next != meeting {
        meeting := next;
        InitializeForm(now);
      }
    }

    /** `handleSave()`, with `result` what the awaited update or create call
        does. Returns the call made, the meeting passed to `onSave`, and
        whether `onClose` was called. */
    method HandleSave(result: CallResult)
      returns (request: Option<SaveRequest>, saved: Option<Meeting>, closeRequested: bool)
      requires Valid()
      modifies this
      ensures Valid()
      ensures meeting == old(meeting)
      ensures title == old(title) && time == old(time) && content == old(content)
      ensures IsBlank(title) ==>
                && request.None? && saved.None? && !closeRequested
                && error == Some(TitleRequiredMessage) && isEditing == old(isEditing)
      ensures !IsBlank(title) && time.None? ==>
                && request.None? && saved.None? && !closeRequested
                && error == Some(UnexpectedErrorMessage) && isEditing == old(isEditing)
      ensures ReadyToSend() && meeting.Some? ==>
                request == Some(UpdateMeeting(meeting.value.id, FormData(title, time.value, content)))
      ensures ReadyToSend() && meeting.None? ==>
                request == Some(CreateMeeting(FormData(title, time.value, content)))
      ensures ReadyToSend() && Delivered(result) ==>
                && saved == result.response.data && error.None?
                && (meeting.Some? ==> !isEditing && !closeRequested)
                && (meeting.None? ==> closeRequested && isEditing == old(isEditing))
      ensures ReadyToSend() && result.Returned? && !Delivered(result) ==>
                && saved.None? && !closeRequested && isEditing == old(isEditing)
                && error == Some(MessageOr(result.response.error,
                                           if meeting.Some? then UpdateFailedMessage else CreateFailedMessage))
      ensures ReadyToSend() && result.Threw? ==>
                && saved.None? && !closeRequested && isEditing == old(isEditing)
                && error == Some(UnexpectedErrorMessage)
    {
      if IsBlank(title) {
        error := Some(TitleRequiredMessage);
        return None, None, false;
      }
      loading := true;
      error := None;
      if time.None? {
        // `time.toISOString()` throws before either call is made.
        error := Some(UnexpectedErrorMessage);
        loading := false;
        return None, None, false;
      }
      var data := FormData(title, time.value, content);
      request := Some(if meeting.Some? then UpdateMeeting(meeting.value.id, data) else CreateMeeting(data));
      saved, closeRequested := Settle(result);
      loading := false;
    }

    /** The branches of `handleSave` after the call, through `finally`. */
    method Settle(result: CallResult) returns (saved: Option<Meeting>, closeRequested: bool)
      requires meeting.None? ==> isEditing
      modifies this`isEditing, this`error, this`loading
      ensures Valid()
      ensures Delivered(result) ==>
                && saved == result.response.data && error == old(error)
                && (meeting.Some? ==> !isEditing && !closeRequested)
                && (meeting.None? ==> closeRequested && isEditing == old(isEditing))
      ensures result.Returned? && !Delivered(result) ==>
                && saved.None? && !closeRequested && isEditing == old(isEditing)
                && error == Some(MessageOr(result.response.error,
                                           if meeting.Some? then UpdateFailedMessage else CreateFailedMessage))
      ensures result.Threw? ==>
                && saved.None? && !closeRequested && isEditing == old(isEditing)
                && error == Some(UnexpectedErrorMessage)
    {
      saved, closeRequested := None, false;
      if result.Threw? {
        error := Some(UnexpectedErrorMessage);
      } else if Delivered(result) {
        saved := result.response.data;
        if meeting.Some? {
          isEditing := false;
        } else {
          closeRequested := true;
        }
      } else {
        error := Some(MessageOr(result.response.error,
                                if meeting.Some? then UpdateFailedMessage else CreateFailedMessage));
      }
      loading := false;
    }

    /** `handleCancel()`: restore the meeting and stop editing, or ask to
        close for a new meeting. */
    method HandleCancel() returns (closeRequested: bool)
      requires Valid()
      modifies this
      ensures Valid()
      ensures meeting == old(meeting) && error.None?
      ensures meeting.Some? ==>
                && title == meeting.value.title && time == parseDate(meeting.value.time)
                && content == meeting.value.content && !isEditing && !closeRequested
      ensures meeting.None? ==>
                && closeRequested && isEditing == old(isEditing)
                && title == old(title) && time == old(time) && content == old(content)
    {
      closeRequested := false;
      if meeting.Some? {
        title := meeting.value.title;
        time := parseDate(meeting.value.time);
        content := meeting.value.content;
        isEditing := false;
      } else {
        closeRequested := true;
      }
      error := None;
    }

    /** `handleEdit()` */
    method HandleEdit()
      requires Valid()
      modifies this
      ensures Valid()
      ensures isEditing && error.None?
      ensures meeting == old(meeting) && title == old(title) && time == old(time)
      ensures content == old(content)
    {
      isEditing := true;
      error := None;
    }
  }
}
