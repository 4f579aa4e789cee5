/**
 * The server's two publications: `rooms`, every room, and
 * `comments(room_id)`, the comments of one room after `check(room_id, String)`.
 */
module Publish {
  import opened Wrappers
  import opened Records
  import opened Queries

  /** The argument of a subscription as the client sent it: any JSON value. */
  datatype JsonValue =
    | JsonString(s: string)
    | JsonNumber(n: int)
    | JsonBool(b: bool)
    | JsonNull
    | JsonUndefined
    | JsonArray(elems: seq<JsonValue>)
    | JsonObject(fields: seq<(string, JsonValue)>)

  /** The `Match.Error` that `check` throws, which fails the subscription. */
  datatype MatchError = MatchError(expected: string)

  /** `check(value, String)`: only a string passes. */
  function CheckString(value: JsonValue): (r: Result<string, MatchError>)
    ensures r.Success? <==> value.JsonString?
    ensures r.Success? ==> r.value == value.s
  {
    if value.JsonString? then Success(value.s) else Failure(MatchError("String"))
  }

  /** `Meteor.publish('rooms', ...)`: `Rooms.find()`, every room, unfiltered. */
  function PublishRooms(rooms: seq<Room>): (r: seq<Room>)
    ensures r == rooms
  {
    rooms
  }

  /** `Meteor.publish('comments', ...)`. */
  function PublishComments(roomArg: JsonValue, comments: seq<Comment>): (r: Result<seq<Comment>, MatchError>)
    // an argument that is not a string is rejected, not answered
    ensures r.Failure? <==> !roomArg.JsonString?
    // every published comment belongs to the requested room
    ensures r.Success? ==> forall c :: c in r.value ==> c.roomId == Some(roomArg.s)
    // no stored comment of the room is left out
    ensures r.Success? ==> forall c :: c in comments && c.roomId == Some(roomArg.s) ==> c in r.value
    ensures r.Success? ==> forall c ::
              multiset(r.value)[c] == if c.roomId == Some(roomArg.s) then multiset(comments)[c] else 0
  {
    match CheckString(roomArg)
    case Failure(e) => Failure(e)
    case Success(roomId) => Success(InRoom(comments, Some(roomId)))
  }

  /** Narrowing to the selector's room first does not change what a selector picks. */
  lemma {:induction false} SelectWithinRoom(cs: seq<Comment>, sel: Selector)
    ensures Select(InRoom(cs, Some(sel.room)), sel) == Select(cs, sel)
  {
    if cs != [] {
      SelectWithinRoom(cs[1..], sel);
    }
  }

  /**
   * Subscribing to `comments(room_id)` loses nothing the main pane lists: the
   * pane computed over the published comments equals the pane computed over
   * the whole server collection.
   */
  lemma PaneNeedsOnlyPublished(comments: seq<Comment>, roomId: Option<Id>, tagFilter: Option<Tag>)
    requires Truthy(roomId)
    ensures var published := PublishComments(JsonString(roomId.value), comments);
      published.Success? && CommentsShown(published.value, roomId, tagFilter) == CommentsShown(comments, roomId, tagFilter)
  {
    SelectWithinRoom(comments, SelectorFor(roomId, tagFilter).value);
  }
}
