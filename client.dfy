/**
 * The client's event handlers: each reads and writes the Session and the
 * local collections. Handlers on an inline input go through
 * `EditEvents.Classify` and run the field's `ok` or `cancel` callback.
 */
module Client {
  import opened Wrappers
  import opened Records
  import opened Ordering
  import opened EditEvents
  import opened Collections
  import opened UiSession
  import opened Queries

  /**
   * `Rooms.findOne({}, {sort: {name: 1}})`: a room with the smallest name.
   * Among rooms of equal name the query fixes no choice; this one takes the
   * first stored.
   */
  function FirstByName(rs: seq<Room>): (r: Option<Room>)
    ensures r.None? <==> rs == []
    ensures r.Some? ==> r.value in rs
  {
    if rs == [] then None
    else
      var rest := FirstByName(rs[1..]);
      if rest.None? || !StrLt(rest.value.name, rs[0].name) then Some(rs[0]) else rest
  }

  /** No room has a name below the one `FirstByName` picks. */
  lemma {:induction false} FirstByNameIsLeast(rs: seq<Room>)
    ensures FirstByName(rs).Some? ==> forall x :: x in rs ==> !StrLt(x.name, FirstByName(rs).value.name)
  {
    if rs != [] {
      FirstByNameIsLeast(rs[1..]);
      var rest := FirstByName(rs[1..]);
      assert forall x :: x in rs ==> x == rs[0] || x in rs[1..];
      StrLtIrreflexive(rs[0].name);
      if rest.None? || !StrLt(rest.value.name, rs[0].name) {
        forall x | x in rs[1..]
          ensures !StrLt(x.name, rs[0].name)
        {
          NotBelowTransitive(rs[0].name, rest.value.name, x.name);
        }
      } else {
        StrLtAsymmetric(rest.value.name, rs[0].name);
      }
    }
  }

  /** The callback of the `rooms` subscription: with no room selected, route to the first room by name. */
  method RoomsReady(s: Session, db: Store)
    modifies s`roomId, s`tagFilter
    ensures Truthy(old(s.roomId)) || db.rooms == [] ==> s.roomId == old(s.roomId) && s.tagFilter == old(s.tagFilter)
    ensures !Truthy(old(s.roomId)) && db.rooms != [] ==>
              && s.roomId == Some(FirstByName(db.rooms).value.id)
              && s.tagFilter == (if old(s.roomId) == s.roomId then old(s.tagFilter) else None)
  {
    if !Truthy(s.roomId) {
      var room := FirstByName(db.rooms);
      if room.Some? {
        s.Route(Some(room.value.id));
      }
    }
  }

  /** `mousedown .room`: `Router.setRoom(id)`. */
  method SelectRoom(s: Session, id: Id)
    modifies s`roomId, s`tagFilter
    ensures s.roomId == Some(id)
    ensures s.tagFilter == (if old(s.roomId) == Some(id) then old(s.tagFilter) else None)
  {
    s.Route(Some(id));
  }

  /** `dblclick .room`: start editing the room's name. */
  method StartEditingRoomName(s: Session, id: Id)
    modifies s`editingRoomName
    ensures s.editingRoomName == Some(id)
  {
    s.editingRoomName := Some(id);
  }

  lemma IdsOfPrefix(items: seq<Comment>, i: nat)
    requires i < |items|
    ensures IdsOf(items[..i + 1]) == IdsOf(items[..i]) + {items[i].id}
  {
    assert forall k :: 0 <= k < i ==> items[..i + 1][k] == items[..i][k];
  }

  /** `items.forEach(item => Comments.remove(item._id))`. */
  method RemoveEach(db: Store, items: seq<Comment>)
    requires db.Valid()
    modifies db
    ensures db.Valid() && db.rooms == old(db.rooms)
    ensures db.comments == WithoutIds(old(db.comments), IdsOf(items))
  {
    ghost var before := db.comments;
    ghost var gone: set<Id> := {};
    WithoutNoIds(before);
    var i := 0;
    while i < |items|
      invariant 0 <= i <= |items|
      invariant db.Valid() && db.rooms == old(db.rooms)
      invariant gone == IdsOf(items[..i])
      invariant db.comments == WithoutIds(before, gone)
    {
      WithoutIdsTwice(before, gone, {items[i].id});
      IdsOfPrefix(items, i);
      db.RemoveComment(items[i].id);
      gone := gone + {items[i].id};
      i := i + 1;
    }
    assert items[..i] == items;
  }

  /**
   * `click .destroy`: remove the room, then each comment the room's query
   * returns, then clear the selected room. `setRoom(null)` navigates to the
   * empty path, which may never reach `main`; whether or not it does,
   * `room_id` is already null, so the tag filter is left as it was. Here
   * `Route(None)` is then a no-op.
   */
  method DestroyRoom(s: Session, db: Store, room: Id)
    requires db.Valid()
    modifies db, s`roomId, s`tagFilter
    ensures db.Valid()
    ensures db.rooms == RoomsWithout(old(db.rooms), room) && !HasRoom(db.rooms, room)
    ensures forall c :: c in db.comments ==> c.roomId != Some(room)
    ensures forall c :: multiset(db.comments)[c] ==
              if c.roomId == Some(room) then 0 else multiset(old(db.comments))[c]
    ensures s.roomId == None && s.tagFilter == old(s.tagFilter)
  {
    db.RemoveRoom(room);
    var items := InRoom(db.comments, Some(room));
    CascadeRemovesExactlyTheRoom(db.comments, room);
    RemoveEach(db, items);
    s.roomId := None;
    s.Route(None);
  }

  /** `#new-room` input: ok inserts a room with the text and routes to it; there is no cancel callback. */
  method NewRoomInput(s: Session, db: Store, kind: EventKind, which: int, value: string, newId: Id)
    requires db.Valid() && !HasRoom(db.rooms, newId)
    modifies db, s`roomId, s`tagFilter
    ensures db.Valid() && db.comments == old(db.comments)
    ensures match Classify(kind, which, value)
      case Ok(text) =>
        && db.rooms == old(db.rooms) + [Room(newId, text)]
        && s.roomId == Some(newId)
        && s.tagFilter == (if old(s.roomId) == Some(newId) then old(s.tagFilter) else None)
      case _ =>
        db.rooms == old(db.rooms) && s.roomId == old(s.roomId) && s.tagFilter == old(s.tagFilter)
  {
    match Classify(kind, which, value)
    case Ok(text) =>
      db.InsertRoom(newId, text);
      s.Route(Some(newId));
    case Cancel =>
    case Ignore =>
  }

  /** `#room-name-input`: ok renames the room and stops editing; cancel stops editing. */
  method RoomNameInput(s: Session, db: Store, room: Id, kind: EventKind, which: int, value: string)
    requires db.Valid()
    modifies db, s`editingRoomName
    ensures db.Valid() && db.comments == old(db.comments)
    ensures match Classify(kind, which, value)
      case Ok(text) => db.rooms == RenamedRooms(old(db.rooms), room, text) && s.editingRoomName == None
      case Cancel => db.rooms == old(db.rooms) && s.editingRoomName == None
      case Ignore => db.rooms == old(db.rooms) && s.editingRoomName == old(s.editingRoomName)
  {
    match Classify(kind, which, value)
    case Ok(text) =>
      db.UpdateRoomName(room, text);
      s.editingRoomName := None;
    case Cancel =>
      s.editingRoomName := None;
    case Ignore =>
  }

  /** The document the `#new-comment` ok callback inserts. */
  function NewComment(id: Id, text: string, roomId: Option<Id>, tagFilter: Option<Tag>, now: int,
                      owner: Id, address: string): (c: Comment)
    ensures c.id == id && c.text == text && c.roomId == roomId && !c.done && c.timestamp == now
    ensures c.tags == (if Truthy(tagFilter) then [tagFilter.value] else [])
    ensures c.owner == owner && c.ownerName == LocalPart(address)
  {
    Comment(id, text, roomId, false, now, if Truthy(tagFilter) then [tagFilter.value] else [],
            owner, LocalPart(address))
  }

  /**
   * A comment created in the selected room while a tag filter is active is
   * tagged with it, so it is listed in the filtered pane it was typed into.
   */
  lemma NewCommentIsShown(id: Id, text: string, roomId: Option<Id>, tagFilter: Option<Tag>, now: int,
                          owner: Id, address: string)
    requires Truthy(roomId)
    ensures Shown(roomId, tagFilter, NewComment(id, text, roomId, tagFilter, now, owner, address))
  {
  }

  /**
   * `#new-comment` input: ok inserts a comment into the selected room, tagged
   * with the active filter. With nobody signed in, reading `Meteor.user()._id`
   * throws before the insert, and so does reading `emails[0].address` for a
   * user without an address: in both cases nothing changes.
   */
  method NewCommentInput(s: Session, db: Store, kind: EventKind, which: int, value: string,
                         newId: Id, now: int, user: Option<User>)
    requires db.Valid() && !HasComment(db.comments, newId)
    modifies db
    ensures db.Valid() && db.rooms == old(db.rooms)
    ensures match Classify(kind, which, value)
      case Ok(text) =>
        db.comments == old(db.comments) + if user.Some? && user.value.emails != []
          then [NewComment(newId, text, s.roomId, s.tagFilter, now, user.value.id, user.value.emails[0])]
          else []
      case _ => db.comments == old(db.comments)
  {
    match Classify(kind, which, value)
    case Ok(text) =>
      if user.Some? && user.value.emails != [] {
        db.InsertComment(NewComment(newId, text, s.roomId, s.tagFilter, now, user.value.id, user.value.emails[0]));
      }
    case Cancel =>
    case Ignore =>
  }

  /** `click .addtag`: open the tag input of the comment. */
  method StartAddingTag(s: Session, id: Id)
    modifies s`editingAddTag
    ensures s.editingAddTag == Some(id)
  {
    s.editingAddTag := Some(id);
  }

  /** `dblclick .display .comment-text`: start editing the comment's text. */
  method StartEditingComment(s: Session, id: Id)
    modifies s`editingItemName
    ensures s.editingItemName == Some(id)
  {
    s.editingItemName := Some(id);
  }

  /** `click .remove` on a tag of a comment: `$pull` the tag (applied at once; the source waits 300 ms). */
  method RemoveTag(db: Store, comment: Id, tag: Tag)
    requires db.Valid()
    modifies db
    ensures db.Valid() && db.rooms == old(db.rooms)
    ensures db.comments == UpdatedComments(old(db.comments), comment, Pull(tag))
  {
    db.UpdateComment(comment, Pull(tag));
  }

  /** `#comment-input`: ok sets the comment's text and stops editing; cancel stops editing. */
  method CommentTextInput(s: Session, db: Store, comment: Id, kind: EventKind, which: int, value: string)
    requires db.Valid()
    modifies db, s`editingItemName
    ensures db.Valid() && db.rooms == old(db.rooms)
    ensures match Classify(kind, which, value)
      case Ok(text) =>
        db.comments == UpdatedComments(old(db.comments), comment, SetText(text)) && s.editingItemName == None
      case Cancel => db.comments == old(db.comments) && s.editingItemName == None
      case Ignore => db.comments == old(db.comments) && s.editingItemName == old(s.editingItemName)
  {
    match Classify(kind, which, value)
    case Ok(text) =>
      db.UpdateComment(comment, SetText(text));
      s.editingItemName := None;
    case Cancel =>
      s.editingItemName := None;
    case Ignore =>
  }

  /** `#edittag-input`: ok adds the tag with `$addToSet` and closes the input; cancel closes it. */
  method AddTagInput(s: Session, db: Store, comment: Id, kind: EventKind, which: int, value: string)
    requires db.Valid()
    modifies db, s`editingAddTag
    ensures db.Valid() && db.rooms == old(db.rooms)
    ensures match Classify(kind, which, value)
      case Ok(text) =>
        db.comments == UpdatedComments(old(db.comments), comment, AddToSet(text)) && s.editingAddTag == None
      case Cancel => db.comments == old(db.comments) && s.editingAddTag == None
      case Ignore => db.comments == old(db.comments) && s.editingAddTag == old(s.editingAddTag)
  {
    match Classify(kind, which, value)
    case Ok(text) =>
      db.UpdateComment(comment, AddToSet(text));
      s.editingAddTag := None;
    case Cancel =>
      s.editingAddTag := None;
    case Ignore =>
  }
}
