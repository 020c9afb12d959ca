/** The status slice: the application is either loading or idle. */
module StatusSlice {

  datatype AppStatus = Loading | Idle

  class StatusState {
    var status: AppStatus

    /** `initialState`: idle. */
    constructor ()
      ensures status == Idle
    {
      status := Idle;
    }

    method SetLoading()
      modifies this
      ensures status == Loading
    {
      status := Loading;
    }

    method SetFinishLoading()
      modifies this
      ensures status == Idle
    {
      status := Idle;
    }
  }
}
