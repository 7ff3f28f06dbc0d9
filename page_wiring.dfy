/** How the page hands its state to the drawer: `meeting={selectedMeeting}`,
    `onSave={handleMeetingSaved}`, `onClose={handleDrawerClose}`. */
module PageWiring {
  import opened Wrappers
  import opened MeetingTypes
  import opened ApiEnvelope
  import opened HomePage
  import opened MeetingDrawerForm

  /** A press of the drawer's save button, with the callbacks it triggers
      run on the page. */
  method SaveFromDrawer(home: Home, drawer: MeetingDrawer, result: CallResult)
    returns (request: Option<SaveRequest>)
    requires home.Valid() && drawer.Valid()
    requires home.isDrawerOpen && drawer.meeting == home.selectedMeeting
    modifies home, drawer
    ensures home.Valid() && drawer.Valid()
    ensures home.loading == old(home.loading) && home.error == old(home.error)
    ensures drawer.meeting == old(drawer.meeting) && drawer.title == old(drawer.title)
    ensures drawer.time == old(drawer.time) && drawer.content == old(drawer.content)
    ensures request.Some? <==> old(drawer.ReadyToSend())
    ensures old(drawer.ReadyToSend()) && Delivered(result) && old(home.selectedMeeting).Some? ==>
              && home.meetings == ReplaceById(old(home.meetings), result.response.data.value)
              && home.isDrawerOpen && home.selectedMeeting == old(home.selectedMeeting)
              && !drawer.isEditing && drawer.error.None?
    ensures old(drawer.ReadyToSend()) && Delivered(result) && old(home.selectedMeeting).None? ==>
              && home.meetings == [result.response.data.value] + old(home.meetings)
              && !home.isDrawerOpen && home.selectedMeeting.None? && drawer.error.None?
    ensures !old(drawer.ReadyToSend()) || !Delivered(result) ==>
              && home.meetings == old(home.meetings) && home.isDrawerOpen
              && home.selectedMeeting == old(home.selectedMeeting)
              && drawer.isEditing == old(drawer.isEditing) && drawer.error.Some?
  {
    var saved, closeRequested;
    request, saved, closeRequested := drawer.HandleSave(result);
    if saved.Some? {
      home.HandleMeetingSaved(saved.value);
    }
    if closeRequested {
      home.HandleDrawerClose();
    }
  }
}
