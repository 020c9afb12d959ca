/** The user slice: the display name and the id of the local user. */
module UserSlice {
  import opened Wrappers

  class UserState {
    var displayName: Option<string>
    var id: Option<int>

    /** `initialState`: neither a display name nor an id. */
    constructor ()
      ensures displayName == None && id == None
    {
      displayName := None;
      id := None;
    }

    method SetDisplayName(name: string)
      modifies this
      ensures displayName == Some(name) && id == old(id)
    {
      displayName := Some(name);
    }

    method ClearDisplayName()
      modifies this
      ensures displayName == None && id == old(id)
    {
      displayName := None;
    }
  }
}
