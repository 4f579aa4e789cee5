/**
 * The documents of the two collections, `Rooms` and `Comments`, and the
 * selections over them that both the client and the server make.
 */
module Records {
  import opened Wrappers

  /** A document `_id`, as Meteor generates it. */
  type Id = string
  type Tag = string

  /** A `Rooms` document: `{_id, name}`. */
  datatype Room = Room(id: Id, name: string)

  /**
   * A `Comments` document. `roomId` is the session's `room_id` at the time of
   * insertion, which may be null; `owner` and `ownerName` come from the signed-in user.
   */
  datatype Comment = Comment(
    id: Id,
    text: string,
    roomId: Option<Id>,
    done: bool,
    timestamp: int,
    tags: seq<Tag>,
    owner: Id,
    ownerName: string)

  /**
   * The signed-in user: `_id` and the addresses of `emails`, in order. A user
   * record without `emails` has none.
   */
  datatype User = User(id: Id, emails: seq<string>)

  /** JavaScript truthiness of a value that is null or a string: `null` and `""` are falsy. */
  predicate Truthy(v: Option<string>)
  {
    v.Some? && v.value != ""
  }

  predicate HasRoom(rs: seq<Room>, id: Id)
  {
    exists k :: 0 <= k < |rs| && rs[k].id == id
  }

  predicate HasComment(cs: seq<Comment>, id: Id)
  {
    exists k :: 0 <= k < |cs| && cs[k].id == id
  }

  /** No two documents of a collection share an `_id`. */
  ghost predicate DistinctRoomIds(rs: seq<Room>)
  {
    forall i, j :: 0 <= i < j < |rs| ==> rs[i].id != rs[j].id
  }

  ghost predicate DistinctCommentIds(cs: seq<Comment>)
  {
    forall i, j :: 0 <= i < j < |cs| ==> cs[i].id != cs[j].id
  }

  /** The `_id`s of a sequence of comments. */
  ghost function IdsOf(cs: seq<Comment>): set<Id>
  {
    set k | 0 <= k < |cs| :: cs[k].id
  }

  /**
   * `Comments.find({room_id: room})`: the comments whose `room_id` equals
   * `room`, in store order. A null `room` selects the comments stored with a
   * null `room_id`, as a Mongo equality selector on null does.
   */
  function InRoom(cs: seq<Comment>, room: Option<Id>): (r: seq<Comment>)
    ensures forall c :: multiset(r)[c] == if c.roomId == room then multiset(cs)[c] else 0
    ensures forall c :: c in r <==> c in cs && c.roomId == room
  {
    if cs == [] then []
    else
      assert cs == [cs[0]] + cs[1..];
      if cs[0].roomId == room then [cs[0]] + InRoom(cs[1..], room) else InRoom(cs[1..], room)
  }

  /** What `Comments.remove(id)` leaves for every `id` in `ids`, in store order. */
  function WithoutIds(cs: seq<Comment>, ids: set<Id>): (r: seq<Comment>)
    ensures forall c :: multiset(r)[c] == if c.id in ids then 0 else multiset(cs)[c]
    ensures forall c :: c in r <==> c in cs && c.id !in ids
  {
    if cs == [] then []
    else
      assert cs == [cs[0]] + cs[1..];
      if cs[0].id in ids then WithoutIds(cs[1..], ids) else [cs[0]] + WithoutIds(cs[1..], ids)
  }

  /** What `Rooms.remove(id)` leaves, in store order. */
  function RoomsWithout(rs: seq<Room>, id: Id): (r: seq<Room>)
    ensures forall x :: multiset(r)[x] == if x.id == id then 0 else multiset(rs)[x]
    ensures forall x :: x in r <==> x in rs && x.id != id
  {
    if rs == [] then []
    else
      assert rs == [rs[0]] + rs[1..];
      if rs[0].id == id then RoomsWithout(rs[1..], id) else [rs[0]] + RoomsWithout(rs[1..], id)
  }

  lemma {:induction false} WithoutNoIds(cs: seq<Comment>)
    ensures WithoutIds(cs, {}) == cs
  {
    if cs != [] {
      WithoutNoIds(cs[1..]);
      assert cs == [cs[0]] + cs[1..];
    }
  }

  /** Removing one set of ids and then another removes their union. */
  lemma {:induction false} WithoutIdsTwice(cs: seq<Comment>, a: set<Id>, b: set<Id>)
    ensures WithoutIds(WithoutIds(cs, a), b) == WithoutIds(cs, a + b)
  {
    if cs != [] {
      WithoutIdsTwice(cs[1..], a, b);
    }
  }

  lemma ConsDistinctComments(c: Comment, rest: seq<Comment>)
    requires DistinctCommentIds(rest)
    requires forall k :: 0 <= k < |rest| ==> rest[k].id != c.id
    ensures DistinctCommentIds([c] + rest)
  {
    forall i, j | 0 <= i < j < |[c] + rest|
      ensures ([c] + rest)[i].id != ([c] + rest)[j].id
    {
      if i > 0 {
        assert ([c] + rest)[i] == rest[i - 1];
      }
      assert ([c] + rest)[j] == rest[j - 1];
    }
  }

  lemma ConsDistinctRooms(x: Room, rest: seq<Room>)
    requires DistinctRoomIds(rest)
    requires forall k :: 0 <= k < |rest| ==> rest[k].id != x.id
    ensures DistinctRoomIds([x] + rest)
  {
    forall i, j | 0 <= i < j < |[x] + rest|
      ensures ([x] + rest)[i].id != ([x] + rest)[j].id
    {
      if i > 0 {
        assert ([x] + rest)[i] == rest[i - 1];
      }
      assert ([x] + rest)[j] == rest[j - 1];
    }
  }

  lemma {:induction false} WithoutIdsKeepsDistinct(cs: seq<Comment>, ids: set<Id>)
    requires DistinctCommentIds(cs)
    ensures DistinctCommentIds(WithoutIds(cs, ids))
  {
    if cs != [] {
      var rest := WithoutIds(cs[1..], ids);
      WithoutIdsKeepsDistinct(cs[1..], ids);
      if cs[0].id !in ids {
        forall k | 0 <= k < |rest|
          ensures rest[k].id != cs[0].id
        {
          assert rest[k] in cs[1..];
          var m :| 0 <= m < |cs[1..]| && cs[1..][m] == rest[k];
          assert cs[m + 1] == rest[k];
        }
        ConsDistinctComments(cs[0], rest);
      }
    }
  }

  lemma {:induction false} RoomsWithoutKeepsDistinct(rs: seq<Room>, id: Id)
    requires DistinctRoomIds(rs)
    ensures DistinctRoomIds(RoomsWithout(rs, id))
  {
    if rs != [] {
      var rest := RoomsWithout(rs[1..], id);
      RoomsWithoutKeepsDistinct(rs[1..], id);
      if rs[0].id != id {
        forall k | 0 <= k < |rest|
          ensures rest[k].id != rs[0].id
        {
          assert rest[k] in rs[1..];
          var m :| 0 <= m < |rs[1..]| && rs[1..][m] == rest[k];
          assert rs[m + 1] == rest[k];
        }
        ConsDistinctRooms(rs[0], rest);
      }
    }
  }

  /** In a collection with distinct `_id`s a document is determined by its `_id`. */
  lemma SameIdSameComment(cs: seq<Comment>, c: Comment, d: Comment)
    requires DistinctCommentIds(cs) && c in cs && d in cs && c.id == d.id
    ensures c == d
  {
    var a :| 0 <= a < |cs| && cs[a] == c;
    var b :| 0 <= b < |cs| && cs[b] == d;
    assert a == b;
  }

  /**
   * Removing, one `_id` at a time, every comment that `find({room_id: room})`
   * returned removes exactly the room's comments and keeps every other one.
   */
  lemma CascadeRemovesExactlyTheRoom(cs: seq<Comment>, room: Id)
    requires DistinctCommentIds(cs)
    ensures forall c :: multiset(WithoutIds(cs, IdsOf(InRoom(cs, Some(room)))))[c]
                        == if c.roomId == Some(room) then 0 else multiset(cs)[c]
  {
    var inRoom := InRoom(cs, Some(room));
    var ids := IdsOf(inRoom);
    forall c | c in cs
      ensures c.id in ids <==> c.roomId == Some(room)
    {
      if c.roomId == Some(room) {
        assert c in inRoom;
        var k :| 0 <= k < |inRoom| && inRoom[k] == c;
        assert inRoom[k].id in ids;
      }
      if c.id in ids {
        var k :| 0 <= k < |inRoom| && inRoom[k].id == c.id;
        assert inRoom[k] in inRoom;
        SameIdSameComment(cs, c, inRoom[k]);
      }
    }
  }

  /** `address.split('@')[0]`: the part of an address before its first `@`. */
  function LocalPart(address: string): (r: string)
    ensures '@' !in r
    ensures r <= address
    ensures |r| < |address| ==> address[|r|] == '@'
  {
    if address == [] || address[0] == '@' then []
    else [address[0]] + LocalPart(address[1..])
  }

  /** For `name@host` the local part is `name`, whatever `host` contains. */
  lemma {:induction false} LocalPartOfAddress(name: string, host: string)
    requires '@' !in name
    ensures LocalPart(name + "@" + host) == name
  {
    if name != [] {
      assert (name + "@" + host)[1..] == name[1..] + "@" + host;
      LocalPartOfAddress(name[1..], host);
    }
  }
}
