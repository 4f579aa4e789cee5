/**
 * The client's cache of the `Rooms` and `Comments` collections and the
 * mutations the client applies to it: insert, update with a modifier, and
 * remove by `_id`.
 */
module Collections {
  import opened Records

  /** The update modifiers the client sends to `Comments.update`. */
  datatype Modifier =
    | SetText(text: string)    // {$set: {text: text}}
    | AddToSet(tag: Tag)       // {$addToSet: {tags: tag}}
    | Pull(tag: Tag)           // {$pull: {tags: tag}}

  /** `$addToSet`: append `v` unless it is already there. */
  function AddToSetTags(tags: seq<Tag>, v: Tag): (r: seq<Tag>)
    ensures v in r
    ensures forall t :: t in r <==> t in tags || t == v
    ensures multiset(r)[v] == if v in tags then multiset(tags)[v] else 1
    ensures forall t :: t != v ==> multiset(r)[t] == multiset(tags)[t]
    ensures tags <= r
  {
    if v in tags then tags else tags + [v]
  }

  /** `$pull`: drop every occurrence of `t`. */
  function PullTags(tags: seq<Tag>, t: Tag): (r: seq<Tag>)
    ensures t !in r
    ensures forall x :: x != t ==> multiset(r)[x] == multiset(tags)[x]
    ensures t !in tags ==> r == tags
  {
    if tags == [] then []
    else
      assert tags == [tags[0]] + tags[1..];
      if tags[0] == t then PullTags(tags[1..], t) else [tags[0]] + PullTags(tags[1..], t)
  }

  /** Adding a tag twice adds it once. */
  lemma AddToSetIdempotent(tags: seq<Tag>, v: Tag)
    ensures AddToSetTags(AddToSetTags(tags, v), v) == AddToSetTags(tags, v)
  {
  }

  /** Pulling a tag twice pulls it once: a repeated deferred removal is harmless. */
  lemma PullIdempotent(tags: seq<Tag>, t: Tag)
    ensures PullTags(PullTags(tags, t), t) == PullTags(tags, t)
  {
  }

  /** Pulling a tag undoes adding it. */
  lemma {:induction false} PullUndoesAddToSet(tags: seq<Tag>, v: Tag)
    ensures PullTags(AddToSetTags(tags, v), v) == PullTags(tags, v)
  {
    if v !in tags {
      PullAppend(tags, v);
    }
  }

  lemma {:induction false} PullAppend(tags: seq<Tag>, v: Tag)
    ensures PullTags(tags + [v], v) == PullTags(tags, v)
  {
    if tags == [] {
      assert [] + [v] == [v];
      assert [v][1..] == [];
    } else {
      assert (tags + [v])[1..] == tags[1..] + [v];
      PullAppend(tags[1..], v);
    }
  }

  /** One comment after `Comments.update(id, m)`. */
  function Apply(c: Comment, m: Modifier): (r: Comment)
    ensures r.id == c.id && r.roomId == c.roomId && r.done == c.done && r.timestamp == c.timestamp
    ensures r.owner == c.owner && r.ownerName == c.ownerName
    ensures r.text == if m.SetText? then m.text else c.text
    ensures m.AddToSet? ==> r.tags == AddToSetTags(c.tags, m.tag)
    ensures m.Pull? ==> r.tags == PullTags(c.tags, m.tag)
    ensures m.SetText? ==> r.tags == c.tags
  {
    match m
    case SetText(text) => c.(text := text)
    case AddToSet(tag) => c.(tags := AddToSetTags(c.tags, tag))
    case Pull(tag) => c.(tags := PullTags(c.tags, tag))
  }

  /** The comments after `Comments.update(id, m)`: the one with `_id` `id`, if any, is changed. */
  function UpdatedComments(cs: seq<Comment>, id: Id, m: Modifier): (r: seq<Comment>)
    ensures |r| == |cs|
    ensures forall k :: 0 <= k < |r| ==> r[k].id == cs[k].id
    ensures forall k :: 0 <= k < |r| && cs[k].id != id ==> r[k] == cs[k]
    ensures forall k :: 0 <= k < |r| && cs[k].id == id ==> r[k] == Apply(cs[k], m)
    ensures !HasComment(cs, id) ==> r == cs
  {
    seq(|cs|, k requires 0 <= k < |cs| => if cs[k].id == id then Apply(cs[k], m) else cs[k])
  }

  /** The rooms after `Rooms.update(id, {$set: {name: name}})`. */
  function RenamedRooms(rs: seq<Room>, id: Id, name: string): (r: seq<Room>)
    ensures |r| == |rs|
    ensures forall k :: 0 <= k < |r| ==> r[k].id == rs[k].id
    ensures forall k :: 0 <= k < |r| ==> r[k].name == if rs[k].id == id then name else rs[k].name
    ensures !HasRoom(rs, id) ==> r == rs
  {
    seq(|rs|, k requires 0 <= k < |rs| => if rs[k].id == id then rs[k].(name := name) else rs[k])
  }

  class Store {
    var rooms: seq<Room>
    var comments: seq<Comment>

    /** Every document of a collection has its own `_id`. */
    ghost predicate Valid()
      reads this
    {
      DistinctRoomIds(rooms) && DistinctCommentIds(comments)
    }

    constructor ()
      ensures Valid() && rooms == [] && comments == []
    {
      rooms := [];
      comments := [];
    }

    /** `Rooms.insert({name: name})`; `id` is the fresh `_id` Meteor generates. */
    method InsertRoom(id: Id, name: string)
      requires Valid() && !HasRoom(rooms, id)
      modifies this
      ensures Valid()
      ensures rooms == old(rooms) + [Room(id, name)] && comments == old(comments)
    {
      rooms := rooms + [Room(id, name)];
    }

    /** `Rooms.update(id, {$set: {name: name}})`. */
    method UpdateRoomName(id: Id, name: string)
      requires Valid()
      modifies this
      ensures Valid()
      ensures rooms == RenamedRooms(old(rooms), id, name) && comments == old(comments)
    {
      rooms := RenamedRooms(rooms, id, name);
    }

    /** `Rooms.remove(id)`. */
    method RemoveRoom(id: Id)
      requires Valid()
      modifies this
      ensures Valid()
      ensures rooms == RoomsWithout(old(rooms), id) && comments == old(comments)
    {
      RoomsWithoutKeepsDistinct(rooms, id);
      rooms := RoomsWithout(rooms, id);
    }

    /** `Comments.insert(c)`; `c.id` is the fresh `_id` Meteor generates. */
    method InsertComment(c: Comment)
      requires Valid() && !HasComment(comments, c.id)
      modifies this
      ensures Valid()
      ensures comments == old(comments) + [c] && rooms == old(rooms)
    {
      comments := comments + [c];
    }

    /** `Comments.update(id, m)`. */
    method UpdateComment(id: Id, m: Modifier)
      requires Valid()
      modifies this
      ensures Valid()
      ensures comments == UpdatedComments(old(comments), id, m) && rooms == old(rooms)
    {
      comments := UpdatedComments(comments, id, m);
    }

    /** `Comments.remove(id)`. */
    method RemoveComment(id: Id)
      requires Valid()
      modifies this
      ensures Valid()
      ensures comments == WithoutIds(old(comments), {id}) && rooms == old(rooms)
    {
      WithoutIdsKeepsDistinct(comments, {id});
      comments := WithoutIds(comments, {id});
    }
  }
}
