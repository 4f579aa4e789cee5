/**
 * `Template.tag_filter.tags`: the list of tags of the selected room's
 * comments, each with its number of occurrences, sorted by tag and headed by
 * an "All items" entry that counts the room's comments.
 */
module TagFilter {
  import opened Wrappers
  import opened Records
  import opened Ordering

  /** One entry of the list: `{tag, count}`; `tag` is null for "All items". */
  datatype TagInfo = TagInfo(tag: Option<Tag>, count: nat)

  /**
   * The order `_.sortBy` puts the entries in: tags by `<`. Placing null first
   * is this model's choice (JavaScript orders null against no string); no
   * null key reaches the sort, since every tally entry has a tag.
   */
  predicate KeyLt(a: Option<Tag>, b: Option<Tag>)
  {
    match (a, b)
    case (None, Some(_)) => true
    case (Some(x), Some(y)) => StrLt(x, y)
    case _ => false
  }

  predicate KeyLe(a: Option<Tag>, b: Option<Tag>)
  {
    a == b || KeyLt(a, b)
  }

  lemma KeyLtTotal(a: Option<Tag>, b: Option<Tag>)
    requires a != b
    ensures KeyLt(a, b) || KeyLt(b, a)
  {
    if a.Some? && b.Some? {
      StrLtTotal(a.value, b.value);
    }
  }

  lemma KeyLeTransitive(a: Option<Tag>, b: Option<Tag>, c: Option<Tag>)
    requires KeyLe(a, b) && KeyLe(b, c)
    ensures KeyLe(a, c)
  {
    if a != b && b != c && a.Some? {
      StrLtTransitive(a.value, b.value, c.value);
    }
  }

  ghost predicate Sorted(s: seq<TagInfo>)
  {
    forall i, j :: 0 <= i < j < |s| ==> KeyLe(s[i].tag, s[j].tag)
  }

  ghost predicate DistinctTags(s: seq<TagInfo>)
  {
    forall i, j :: 0 <= i < j < |s| ==> s[i].tag != s[j].tag
  }

  /** The sum of the counts of a list of entries. */
  function TotalCount(s: seq<TagInfo>): nat
  {
    if s == [] then 0 else s[0].count + TotalCount(s[1..])
  }

  lemma {:induction false} TotalCountAppend(s: seq<TagInfo>, x: TagInfo)
    ensures TotalCount(s + [x]) == TotalCount(s) + x.count
  {
    if s != [] {
      assert (s + [x])[1..] == s[1..] + [x];
      TotalCountAppend(s[1..], x);
    }
  }

  /** `count++` on one entry adds one to the sum. */
  lemma {:induction false} TotalCountBump(s: seq<TagInfo>, k: nat)
    requires k < |s|
    ensures TotalCount(s[k := s[k].(count := s[k].count + 1)]) == TotalCount(s) + 1
  {
    if k > 0 {
      assert s[k := s[k].(count := s[k].count + 1)][1..] == s[1..][k - 1 := s[k].(count := s[k].count + 1)];
      TotalCountBump(s[1..], k - 1);
    }
  }

  /** A sorted list stays sorted under a head that is below its first entry. */
  lemma HeadBelowAll(x: TagInfo, s: seq<TagInfo>)
    requires Sorted(s) && s != [] && KeyLe(x.tag, s[0].tag)
    ensures Sorted([x] + s)
  {
    forall k | 0 <= k < |s|
      ensures KeyLe(x.tag, s[k].tag)
    {
      if k > 0 {
        KeyLeTransitive(x.tag, s[0].tag, s[k].tag);
      }
    }
  }

  /** A permutation of a list none of whose tags is `y` has no tag `y` either. */
  lemma PermutationAvoidsTag(y: Option<Tag>, a: seq<TagInfo>, b: seq<TagInfo>)
    requires multiset(a) == multiset(b)
    requires forall k :: 0 <= k < |b| ==> b[k].tag != y
    ensures forall k :: 0 <= k < |a| ==> a[k].tag != y
  {
    forall k | 0 <= k < |a|
      ensures a[k].tag != y
    {
      assert a[k] in multiset(b);
    }
  }

  /** Insertion of one entry before the first entry it is not above. */
  function Insert(x: TagInfo, s: seq<TagInfo>): (r: seq<TagInfo>)
    ensures multiset(r) == multiset(s) + multiset{x}
    ensures |r| == |s| + 1 && (r[0] == x || (s != [] && r[0] == s[0]))
  {
    if s == [] then [x]
    else if KeyLe(x.tag, s[0].tag) then [x] + s
    else
      assert s == [s[0]] + s[1..];
      [s[0]] + Insert(x, s[1..])
  }

  /** Insertion into an ascending list keeps it ascending. */
  lemma {:induction false} InsertSorted(x: TagInfo, s: seq<TagInfo>)
    requires Sorted(s)
    ensures Sorted(Insert(x, s))
  {
    if s == [] {
    } else if KeyLe(x.tag, s[0].tag) {
      HeadBelowAll(x, s);
    } else {
      KeyLtTotal(x.tag, s[0].tag);
      InsertSorted(x, s[1..]);
      HeadBelowAll(s[0], Insert(x, s[1..]));
    }
  }

  /** Insertion adds the count of the new entry to the sum. */
  lemma {:induction false} InsertTotal(x: TagInfo, s: seq<TagInfo>)
    ensures TotalCount(Insert(x, s)) == x.count + TotalCount(s)
  {
    if s != [] && !KeyLe(x.tag, s[0].tag) {
      var r := Insert(x, s[1..]);
      InsertTotal(x, s[1..]);
      assert ([s[0]] + r)[1..] == r;
    }
  }

  /** `_.sortBy(tag_infos, x => x.tag)`, as an insertion sort. */
  function SortByTag(s: seq<TagInfo>): (r: seq<TagInfo>)
    ensures Sorted(r)
    ensures multiset(r) == multiset(s)
    ensures TotalCount(r) == TotalCount(s)
  {
    if s == [] then []
    else
      assert s == [s[0]] + s[1..];
      var rest := SortByTag(s[1..]);
      InsertSorted(s[0], rest);
      InsertTotal(s[0], rest);
      Insert(s[0], rest)
  }

  /** Ascending with no two entries for one tag. */
  ghost predicate StrictlySorted(s: seq<TagInfo>)
  {
    forall i, j :: 0 <= i < j < |s| ==> KeyLt(s[i].tag, s[j].tag)
  }

  lemma KeyLtTransitive(a: Option<Tag>, b: Option<Tag>, c: Option<Tag>)
    requires KeyLt(a, b) && KeyLt(b, c)
    ensures KeyLt(a, c)
  {
    if a.Some? {
      StrLtTransitive(a.value, b.value, c.value);
    }
  }

  lemma HeadStrictlyBelowAll(x: TagInfo, s: seq<TagInfo>)
    requires StrictlySorted(s) && s != [] && KeyLt(x.tag, s[0].tag)
    ensures StrictlySorted([x] + s)
  {
    forall k | 0 < k < |s|
      ensures KeyLt(x.tag, s[k].tag)
    {
      KeyLtTransitive(x.tag, s[0].tag, s[k].tag);
    }
  }

  /** Inserting an entry for a new tag into a strictly ascending list keeps it strictly ascending. */
  lemma {:induction false} InsertStrict(x: TagInfo, s: seq<TagInfo>)
    requires StrictlySorted(s)
    requires forall k :: 0 <= k < |s| ==> s[k].tag != x.tag
    ensures StrictlySorted(Insert(x, s))
  {
    if s == [] {
    } else if KeyLe(x.tag, s[0].tag) {
      HeadStrictlyBelowAll(x, s);
    } else {
      KeyLtTotal(x.tag, s[0].tag);
      InsertStrict(x, s[1..]);
      HeadStrictlyBelowAll(s[0], Insert(x, s[1..]));
    }
  }

  /** Sorting a list with one entry per tag puts the tags in strictly ascending order. */
  lemma {:induction false} SortStrict(s: seq<TagInfo>)
    requires DistinctTags(s)
    ensures StrictlySorted(SortByTag(s))
  {
    if s != [] {
      var rest := SortByTag(s[1..]);
      SortStrict(s[1..]);
      PermutationAvoidsTag(s[0].tag, rest, s[1..]);
      InsertStrict(s[0], rest);
    }
  }

  /** Every tag of every comment, comment after comment. */
  function AllTags(cs: seq<Comment>): seq<Tag>
  {
    if cs == [] then [] else AllTags(cs[..|cs| - 1]) + cs[|cs| - 1].tags
  }

  /** How often `t` occurs in the tags of `cs`. */
  function Occurrences(t: Tag, cs: seq<Comment>): nat
  {
    multiset(AllTags(cs))[t]
  }

  /**
   * `tally` has one entry per distinct tag of `seen`, holding the number of
   * its occurrences: what the counting loop keeps for the tags it has visited.
   */
  ghost predicate Tally(tally: seq<TagInfo>, seen: seq<Tag>)
  {
    && DistinctTags(tally)
    && (forall k :: 0 <= k < |tally| ==>
          tally[k].tag.Some? && tally[k].tag.value in seen && tally[k].count == multiset(seen)[tally[k].tag.value])
    && (forall t :: t in seen ==> exists k :: 0 <= k < |tally| && tally[k].tag == Some(t))
    && TotalCount(tally) == |seen|
  }

  /** A tag seen for the first time gets a new entry with count 1. */
  lemma TallyPush(tally: seq<TagInfo>, seen: seq<Tag>, tag: Tag)
    requires Tally(tally, seen)
    requires forall m :: 0 <= m < |tally| ==> tally[m].tag != Some(tag)
    ensures Tally(tally + [TagInfo(Some(tag), 1)], seen + [tag])
  {
    var tally' := tally + [TagInfo(Some(tag), 1)];
    var seen' := seen + [tag];
    assert tag !in seen;
    TotalCountAppend(tally, TagInfo(Some(tag), 1));
    forall i, j | 0 <= i < j < |tally'|
      ensures tally'[i].tag != tally'[j].tag
    {
      assert tally'[i] == tally[i];
    }
    forall m | 0 <= m < |tally'|
      ensures tally'[m].tag.Some? && tally'[m].tag.value in seen'
      ensures tally'[m].count == multiset(seen')[tally'[m].tag.value]
    {
      if m < |tally| {
        assert tally'[m] == tally[m];
        assert tally[m].tag.value != tag;
      }
    }
    forall t | t in seen'
      ensures exists k :: 0 <= k < |tally'| && tally'[k].tag == Some(t)
    {
      if t == tag {
        assert tally'[|tally|].tag == Some(t);
      } else {
        var k :| 0 <= k < |tally| && tally[k].tag == Some(t);
        assert tally'[k].tag == Some(t);
      }
    }
  }

  /** A tag seen before has its entry's count raised by one. */
  lemma TallyBump(tally: seq<TagInfo>, seen: seq<Tag>, tag: Tag, k: nat)
    requires Tally(tally, seen)
    requires k < |tally| && tally[k].tag == Some(tag)
    ensures Tally(tally[k := tally[k].(count := tally[k].count + 1)], seen + [tag])
  {
    var tally' := tally[k := tally[k].(count := tally[k].count + 1)];
    var seen' := seen + [tag];
    TotalCountBump(tally, k);
    forall i, j | 0 <= i < j < |tally'|
      ensures tally'[i].tag != tally'[j].tag
    {
      assert tally'[i].tag == tally[i].tag && tally'[j].tag == tally[j].tag;
    }
    forall m | 0 <= m < |tally'|
      ensures tally'[m].tag.Some? && tally'[m].tag.value in seen'
      ensures tally'[m].count == multiset(seen')[tally'[m].tag.value]
    {
      if m != k {
        assert tally'[m] == tally[m];
        assert tally[m].tag != tally[k].tag;
      }
    }
    forall t | t in seen'
      ensures exists m :: 0 <= m < |tally'| && tally'[m].tag == Some(t)
    {
      if t == tag {
        assert tally'[k].tag == Some(t);
      } else {
        var m :| 0 <= m < |tally| && tally[m].tag == Some(t);
        assert tally'[m].tag == Some(t);
      }
    }
  }

  /** Each entry of a sorted tally is the entry of a tag of `seen`, holding its count. */
  lemma SortedTallyCounts(tally: seq<TagInfo>, seen: seq<Tag>, k: nat)
    requires Tally(tally, seen)
    requires k < |SortByTag(tally)|
    ensures var e := SortByTag(tally)[k];
      e.tag.Some? && e.tag.value in seen && e.count == multiset(seen)[e.tag.value]
  {
    assert SortByTag(tally)[k] in multiset(tally);
  }

  /** Every tag of `seen` has an entry in the sorted tally. */
  lemma SortedTallyCovers(tally: seq<TagInfo>, seen: seq<Tag>, t: Tag)
    requires Tally(tally, seen) && t in seen
    ensures exists k :: 0 <= k < |SortByTag(tally)| && SortByTag(tally)[k].tag == Some(t)
  {
    var s := SortByTag(tally);
    var m :| 0 <= m < |tally| && tally[m].tag == Some(t);
    assert tally[m] in multiset(s);
    var k :| 0 <= k < |s| && s[k] == tally[m];
  }

  /** `_.find(tag_infos, x => x.tag === tag)`: the index of the first entry for `tag`, or `|tally|`. */
  method FindTag(tally: seq<TagInfo>, tag: Tag) returns (k: nat)
    ensures k <= |tally|
    ensures k < |tally| ==> tally[k].tag == Some(tag)
    ensures forall m :: 0 <= m < k ==> tally[m].tag != Some(tag)
  {
    k := 0;
    while k < |tally| && tally[k].tag != Some(tag)
      invariant k <= |tally|
      invariant forall m :: 0 <= m < k ==> tally[m].tag != Some(tag)
    {
      k := k + 1;
    }
  }

  /** The callback of `_.each(comment.tags, ...)`: counts one occurrence of `tag`. */
  method CountTag(tally: seq<TagInfo>, ghost seen: seq<Tag>, tag: Tag) returns (tally': seq<TagInfo>)
    requires Tally(tally, seen)
    ensures Tally(tally', seen + [tag])
    // a tag without an entry gets a new one at the end
    ensures (forall m :: 0 <= m < |tally| ==> tally[m].tag != Some(tag)) ==>
      tally' == tally + [TagInfo(Some(tag), 1)]
    // otherwise its entry's count rises by one, in place, and no other entry changes
    ensures (exists m :: 0 <= m < |tally| && tally[m].tag == Some(tag)) ==>
      |tally'| == |tally| &&
      forall m :: 0 <= m < |tally| ==>
        tally'[m] == if tally[m].tag == Some(tag) then tally[m].(count := tally[m].count + 1) else tally[m]
  {
    var k := FindTag(tally, tag);
    if k == |tally| {
      TallyPush(tally, seen, tag);
      tally' := tally + [TagInfo(Some(tag), 1)];
    } else {
      TallyBump(tally, seen, tag, k);
      tally' := tally[k := tally[k].(count := tally[k].count + 1)];
    }
  }

  /** The `_.each(comment.tags, ...)` loop: counts the tags of one comment into the tally. */
  method CountTags(tally: seq<TagInfo>, ghost seen: seq<Tag>, tags: seq<Tag>) returns (tally': seq<TagInfo>)
    requires Tally(tally, seen)
    ensures Tally(tally', seen + tags)
  {
    tally' := tally;
    ghost var visited := seen;
    var j := 0;
    while j < |tags|
      invariant 0 <= j <= |tags|
      invariant visited == seen + tags[..j]
      invariant Tally(tally', visited)
    {
      assert seen + tags[..j + 1] == visited + [tags[j]];
      tally' := CountTag(tally', visited, tags[j]);
      visited := visited + [tags[j]];
      j := j + 1;
    }
    assert tags[..j] == tags;
  }

  /** The `forEach` over the room's comments: tallies their tags and counts the comments. */
  method CountRoom(inRoom: seq<Comment>) returns (tally: seq<TagInfo>, total: nat)
    ensures Tally(tally, AllTags(inRoom))
    ensures total == |inRoom|
  {
    tally := [];
    total := 0;
    var i := 0;
    while i < |inRoom|
      invariant 0 <= i <= |inRoom| && total == i
      invariant Tally(tally, AllTags(inRoom[..i]))
    {
      assert inRoom[..i + 1][..i] == inRoom[..i];
      tally := CountTags(tally, AllTags(inRoom[..i]), inRoom[i].tags);
      total := total + 1;
      i := i + 1;
    }
    assert inRoom[..i] == inRoom;
  }

  /**
   * The tag list for the comments of `room`: first `{tag: null, count: the
   * number of the room's comments}`, then one entry per distinct tag of those
   * comments in ascending order, counting its occurrences; the counts of the
   * tag entries add up to the number of tag occurrences in the room.
   */
  method TagSummary(comments: seq<Comment>, room: Option<Id>) returns (infos: seq<TagInfo>)
    ensures |infos| >= 1 && infos[0] == TagInfo(None, |InRoom(comments, room)|)
    ensures forall k :: 1 <= k < |infos| ==> infos[k].tag.Some?
    ensures forall i, j :: 1 <= i < j < |infos| ==> StrLt(infos[i].tag.value, infos[j].tag.value)
    ensures forall k :: 1 <= k < |infos| ==>
              infos[k].count == Occurrences(infos[k].tag.value, InRoom(comments, room))
    ensures forall t :: t in AllTags(InRoom(comments, room)) <==>
              exists k :: 1 <= k < |infos| && infos[k].tag == Some(t)
    ensures TotalCount(infos[1..]) == |AllTags(InRoom(comments, room))|
  {
    var inRoom := InRoom(comments, room);
    var tagInfos, total := CountRoom(inRoom);
    ghost var seen := AllTags(inRoom);
    var sorted := SortByTag(tagInfos);
    SortStrict(tagInfos);
    forall k | 0 <= k < |sorted|
      ensures sorted[k].tag.Some? && sorted[k].tag.value in seen
      ensures sorted[k].count == multiset(seen)[sorted[k].tag.value]
    {
      SortedTallyCounts(tagInfos, seen, k);
    }
    forall t | t in seen
      ensures exists k :: 0 <= k < |sorted| && sorted[k].tag == Some(t)
    {
      SortedTallyCovers(tagInfos, seen, t);
    }
    infos := [TagInfo(None, total)] + sorted;
    assert infos[1..] == sorted;
  }
}
