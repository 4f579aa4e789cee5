/**
 * The client's Session variables, and the two handlers that only touch
 * them: the router's `main` and the tag-filter toggle.
 */
module UiSession {
  import opened Wrappers
  import opened Records

  /** The filter a click on the tag entry `selected` leaves, when `current` is active. */
  function Toggle(current: Option<Tag>, selected: Option<Tag>): (r: Option<Tag>)
    // re-selecting the active tag clears the filter
    ensures selected == current ==> r == None
    // the "All items" entry always clears it
    ensures selected == None ==> r == None
    // any other tag becomes the filter
    ensures selected != current ==> r == selected
  {
    if current == selected then None else selected
  }

  /**
   * Two clicks on the same entry: on the active entry they restore it, on
   * any other entry they leave no filter, whatever was active before.
   */
  lemma ToggleTwice(current: Option<Tag>, selected: Option<Tag>)
    ensures Toggle(Toggle(current, selected), selected) == if selected == current then current else None
  {
  }

  class Session {
    var roomId: Option<Id>            // 'room_id'
    var tagFilter: Option<Tag>        // 'tag_filter'
    var editingAddTag: Option<Id>     // 'editing_addtag'
    var editingRoomName: Option<Id>   // 'editing_roomname'
    var editingItemName: Option<Id>   // 'editing_itemname'

    /** `Session.setDefault` of the five variables to null. */
    constructor ()
      ensures roomId == None && tagFilter == None
      ensures editingAddTag == None && editingRoomName == None && editingItemName == None
    {
      roomId, tagFilter := None, None;
      editingAddTag, editingRoomName, editingItemName := None, None, None;
    }

    /**
     * `CommentsRouter.main`, the handler of the route `:room_id`, which
     * `setRoom` reaches through `navigate`: a new room resets the tag filter,
     * the current room changes nothing.
     */
    method Route(routed: Option<Id>)
      modifies this`roomId, this`tagFilter
      ensures old(roomId) != routed ==> roomId == routed && tagFilter == None
      ensures old(roomId) == routed ==> roomId == old(roomId) && tagFilter == old(tagFilter)
    {
      var oldRoom := roomId;
      if oldRoom != routed {
        roomId := routed;
        tagFilter := None;
      }
    }

    /** The `mousedown` handler of a tag entry whose tag is `tag` (null for "All items"). */
    method SelectTag(tag: Option<Tag>)
      modifies this`tagFilter
      ensures tagFilter == Toggle(old(tagFilter), tag)
    {
      if tagFilter == tag {
        tagFilter := None;
      } else {
        tagFilter := tag;
      }
    }
  }
}
