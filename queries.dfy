/**
 * `Template.comments.comments`: the selector the main pane builds from the
 * selected room and the tag filter, and the query it runs with it, newest
 * comment first.
 */
module Queries {
  import opened Wrappers
  import opened Records

  /** A comments selector: `{room_id: room}`, with `tags: tag` when a tag is given. */
  datatype Selector = Selector(room: Id, tag: Option<Tag>)

  /** Whether a comment matches a selector; `tags: t` matches an array that contains `t`. */
  predicate Matches(sel: Selector, c: Comment)
  {
    c.roomId == Some(sel.room) && (sel.tag.Some? ==> sel.tag.value in c.tags)
  }

  /** The selector for the session's `room_id` and `tag_filter`; None when no room is selected. */
  function SelectorFor(roomId: Option<Id>, tagFilter: Option<Tag>): (sel: Option<Selector>)
    ensures sel.None? <==> !Truthy(roomId)
    ensures sel.Some? ==> sel.value.room == roomId.value
    ensures sel.Some? ==> (sel.value.tag.Some? <==> Truthy(tagFilter))
    ensures sel.Some? && sel.value.tag.Some? ==> sel.value.tag == tagFilter
  {
    if !Truthy(roomId) then None
    else if Truthy(tagFilter) then Some(Selector(roomId.value, tagFilter))
    else Some(Selector(roomId.value, None))
  }

  /** The comments that match `sel`, in store order. */
  function Select(cs: seq<Comment>, sel: Selector): (r: seq<Comment>)
    ensures forall c :: multiset(r)[c] == if Matches(sel, c) then multiset(cs)[c] else 0
    ensures forall c :: c in r <==> c in cs && Matches(sel, c)
  {
    if cs == [] then []
    else
      assert cs == [cs[0]] + cs[1..];
      if Matches(sel, cs[0]) then [cs[0]] + Select(cs[1..], sel) else Select(cs[1..], sel)
  }

  /** Ordered by `timestamp`, largest first (`sort: {timestamp: -1}`). */
  ghost predicate NewestFirst(cs: seq<Comment>)
  {
    forall i, j :: 0 <= i < j < |cs| ==> cs[i].timestamp >= cs[j].timestamp
  }

  function InsertByTime(c: Comment, s: seq<Comment>): (r: seq<Comment>)
    ensures multiset(r) == multiset(s) + multiset{c}
    ensures |r| == |s| + 1 && (r[0] == c || (s != [] && r[0] == s[0]))
  {
    if s == [] || c.timestamp >= s[0].timestamp then [c] + s
    else
      assert s == [s[0]] + s[1..];
      [s[0]] + InsertByTime(c, s[1..])
  }

  /** A comment no older than the first of a newest-first list can lead it. */
  lemma ConsNewestFirst(c: Comment, s: seq<Comment>)
    requires NewestFirst(s)
    requires s != [] ==> c.timestamp >= s[0].timestamp
    ensures NewestFirst([c] + s)
  {
    forall j | 0 < j < |[c] + s|
      ensures c.timestamp >= ([c] + s)[j].timestamp
    {
      assert ([c] + s)[j] == s[j - 1];
    }
  }

  /** Insertion into a newest-first list keeps it newest first. */
  lemma {:induction false} InsertByTimeSorted(c: Comment, s: seq<Comment>)
    requires NewestFirst(s)
    ensures NewestFirst(InsertByTime(c, s))
  {
    if s == [] || c.timestamp >= s[0].timestamp {
      ConsNewestFirst(c, s);
    } else {
      InsertByTimeSorted(c, s[1..]);
      ConsNewestFirst(s[0], InsertByTime(c, s[1..]));
    }
  }

  /** The sort step of the query. */
  function SortNewestFirst(cs: seq<Comment>): (r: seq<Comment>)
    ensures NewestFirst(r)
    ensures multiset(r) == multiset(cs)
  {
    if cs == [] then []
    else
      assert cs == [cs[0]] + cs[1..];
      var rest := SortNewestFirst(cs[1..]);
      InsertByTimeSorted(cs[0], rest);
      InsertByTime(cs[0], rest)
  }

  /** Whether the main pane shows comment `c` for the given session state. */
  predicate Shown(roomId: Option<Id>, tagFilter: Option<Tag>, c: Comment)
  {
    Truthy(roomId) && c.roomId == roomId && (Truthy(tagFilter) ==> tagFilter.value in c.tags)
  }

  /**
   * The comments the main pane lists: nothing when no room is selected (the
   * helper answers `{}`), otherwise exactly the comments of the room that
   * carry the active tag, each as often as it is stored, newest first.
   */
  function CommentsShown(cs: seq<Comment>, roomId: Option<Id>, tagFilter: Option<Tag>): (r: seq<Comment>)
    ensures !Truthy(roomId) ==> r == []
    ensures NewestFirst(r)
    ensures forall c :: multiset(r)[c] == if Shown(roomId, tagFilter, c) then multiset(cs)[c] else 0
    ensures forall c :: c in r <==> c in cs && Shown(roomId, tagFilter, c)
  {
    match SelectorFor(roomId, tagFilter)
    case None => []
    case Some(sel) => SortNewestFirst(Select(cs, sel))
  }
}
