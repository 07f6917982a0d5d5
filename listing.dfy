/** GET /tasks/:email: the aggregation pipeline ($match on the owner email,
    $group by category, rank todo=1, inprogress=2, done=3, anything else 4,
    $sort by rank) and the post-pass that always answers the three known
    categories in that order, an absent one with an empty task list.
    MongoDB does not fix the order of `$push` inside a group; the model keeps
    the collection's order, and the lemmas below state only membership and
    multiplicity, which hold whatever that order is. */
module Listing {
  import opened Documents
  import opened Board

  /** The categories the post-pass answers, in display order. */
  const Categories: seq<string> := ["todo", "inprogress", "done"]

  /** One document out of `$group`: a category value and its tasks. */
  datatype Bucket = Bucket(key: Option<string>, tasks: seq<Task>)

  /** One element of the response's `data`. */
  datatype Group = Group(category: string, tasks: seq<Task>)

  /** The order-preserving selection of the tasks that satisfy `p`. */
  function Filter(tasks: seq<Task>, p: Task -> bool): (r: seq<Task>)
    ensures forall t :: t in r <==> t in tasks && p(t)
  {
    if tasks == [] then []
    else (if p(tasks[0]) then [tasks[0]] else []) + Filter(tasks[1..], p)
  }

  /** Each task occurs in the selection as often as in the input when it
      satisfies `p`, and not at all otherwise. */
  lemma {:induction false} FilterCount(tasks: seq<Task>, p: Task -> bool, t: Task)
    ensures multiset(Filter(tasks, p))[t] == if p(t) then multiset(tasks)[t] else 0
  {
    if tasks != [] {
      FilterCount(tasks[1..], p, t);
      assert tasks == [tasks[0]] + tasks[1..];
    }
  }

  /** `{ $match: { email } }` */
  function Owned(tasks: seq<Task>, email: string): (r: seq<Task>)
    ensures forall t :: t in r <==> t in tasks && t.email == Some(email)
  {
    Filter(tasks, (t: Task) => t.email == Some(email))
  }

  /** The tasks `$push`ed into the group of `key`. */
  function InCategory(tasks: seq<Task>, key: Option<string>): (r: seq<Task>)
    ensures forall t :: t in r <==> t in tasks && t.category == key
  {
    Filter(tasks, (t: Task) => t.category == key)
  }

  function CategoriesOf(tasks: seq<Task>): set<Option<string>>
  {
    set t | t in tasks :: t.category
  }

  /** The distinct `$category` values, one group key each. */
  function Keys(tasks: seq<Task>): (r: seq<Option<string>>)
    ensures forall k :: k in r <==> k in CategoriesOf(tasks)
    ensures forall i, j | 0 <= i < j < |r| :: r[i] != r[j]
  {
    if tasks == [] then []
    else
      var rest := Keys(tasks[1..]);
      assert forall k :: k in CategoriesOf(tasks) <==> k == tasks[0].category || k in CategoriesOf(tasks[1..]) by {
        assert tasks == [tasks[0]] + tasks[1..];
      }
      if tasks[0].category in rest then rest else [tasks[0].category] + rest
  }

  function KeySet(buckets: seq<Bucket>): set<Option<string>>
  {
    set b | b in buckets :: b.key
  }

  predicate DistinctKeys(buckets: seq<Bucket>)
  {
    forall i, j | 0 <= i < j < |buckets| :: buckets[i].key != buckets[j].key
  }

  /** `{ $group: { _id: "$category", tasks: { $push: "$$ROOT" } } }`: one
      bucket per category that occurs, holding exactly that category's tasks. */
  function GroupBy(tasks: seq<Task>): (r: seq<Bucket>)
    ensures DistinctKeys(r)
    ensures KeySet(r) == CategoriesOf(tasks)
    ensures forall b | b in r :: b.tasks == InCategory(tasks, b.key) && b.tasks != []
  {
    var keys := Keys(tasks);
    var r := seq(|keys|, i requires 0 <= i < |keys| => Bucket(keys[i], InCategory(tasks, keys[i])));
    assert forall b | b in r :: b.tasks == InCategory(tasks, b.key) && b.tasks != [] by {
      forall b | b in r ensures b.tasks == InCategory(tasks, b.key) && b.tasks != [] {
        var i :| 0 <= i < |r| && r[i] == b;
        assert keys[i] in CategoriesOf(tasks);
        var t :| t in tasks && t.category == keys[i];
        assert t in b.tasks;
      }
    }
    assert KeySet(r) == CategoriesOf(tasks) by {
      forall k | k in CategoriesOf(tasks) ensures k in KeySet(r) {
        var i :| 0 <= i < |keys| && keys[i] == k;
        assert r[i] in r;
      }
    }
    r
  }

  /** The `$switch` of `$addFields: { sortOrder }`: a known category ranks
      by its place in display order, anything else after all of them. */
  function Rank(key: Option<string>): (r: nat)
    ensures forall i | 0 <= i < |Categories| :: r == i + 1 <==> key == Some(Categories[i])
    ensures r == |Categories| + 1 <==> forall c | c in Categories :: key != Some(c)
    ensures 1 <= r <= |Categories| + 1
  {
    if key == Some("todo") then 1
    else if key == Some("inprogress") then 2
    else if key == Some("done") then 3
    else 4
  }

  predicate Sorted(buckets: seq<Bucket>)
  {
    forall i, j | 0 <= i < j < |buckets| :: Rank(buckets[i].key) <= Rank(buckets[j].key)
  }

  /** Places a bucket before the first one of a rank at least its own. */
  function InsertByRank(b: Bucket, s: seq<Bucket>): (r: seq<Bucket>)
    ensures multiset(r) == multiset(s) + multiset{b}
  {
    if s == [] || Rank(b.key) <= Rank(s[0].key) then [b] + s
    else
      assert s == [s[0]] + s[1..];
      [s[0]] + InsertByRank(b, s[1..])
  }

  /** A bucket whose rank is at most every rank in a rank-ordered sequence
      may go in front of it. */
  lemma SortedCons(x: Bucket, s: seq<Bucket>)
    requires Sorted(s) && forall y | y in s :: Rank(x.key) <= Rank(y.key)
    ensures Sorted([x] + s)
  {
  }

  /** Every rank after an insertion is at least a common lower bound. */
  lemma InsertLowerBound(b: Bucket, s: seq<Bucket>, low: nat)
    requires low <= Rank(b.key) && forall y | y in s :: low <= Rank(y.key)
    ensures forall y | y in InsertByRank(b, s) :: low <= Rank(y.key)
  {
  }

  /** Inserting into a rank-ordered sequence keeps it rank-ordered. */
  lemma {:induction false} InsertKeepsSorted(b: Bucket, s: seq<Bucket>)
    requires Sorted(s)
    ensures Sorted(InsertByRank(b, s))
  {
    if s == [] || Rank(b.key) <= Rank(s[0].key) {
      SortedCons(b, s);
    } else {
      var tail := s[1..];
      assert Sorted(tail);
      InsertKeepsSorted(b, tail);
      assert forall y | y in tail :: Rank(s[0].key) <= Rank(y.key);
      InsertLowerBound(b, tail, Rank(s[0].key));
      SortedCons(s[0], InsertByRank(b, tail));
    }
  }

  /** Inserting a bucket whose key no bucket has keeps the keys distinct. */
  lemma {:induction false} InsertKeepsDistinct(b: Bucket, s: seq<Bucket>)
    requires DistinctKeys(s) && forall x | x in s :: x.key != b.key
    ensures DistinctKeys(InsertByRank(b, s))
  {
    if s != [] && Rank(b.key) > Rank(s[0].key) {
      InsertKeepsDistinct(b, s[1..]);
      var rest := InsertByRank(b, s[1..]);
      forall x | x in rest ensures x.key != s[0].key {
        assert x in multiset(rest);
        if x != b {
          var j :| 0 <= j < |s[1..]| && s[1..][j] == x;
          assert s[j + 1] == x;
        }
      }
    }
  }

  /** `{ $sort: { sortOrder: 1 } }`: a permutation of the buckets in rank order. */
  function SortByRank(buckets: seq<Bucket>): (r: seq<Bucket>)
    ensures multiset(r) == multiset(buckets)
    ensures Sorted(r)
  {
    if buckets == [] then []
    else
      assert buckets == [buckets[0]] + buckets[1..];
      InsertKeepsSorted(buckets[0], SortByRank(buckets[1..]));
      InsertByRank(buckets[0], SortByRank(buckets[1..]))
  }

  /** Sorting keeps one bucket per key. */
  lemma {:induction false} SortKeepsDistinct(buckets: seq<Bucket>)
    requires DistinctKeys(buckets)
    ensures DistinctKeys(SortByRank(buckets))
  {
    if buckets != [] {
      var tail := buckets[1..];
      SortKeepsDistinct(tail);
      forall x | x in SortByRank(tail) ensures x.key != buckets[0].key {
        assert x in multiset(SortByRank(tail));
        var j :| 0 <= j < |tail| && tail[j] == x;
        assert buckets[j + 1] == x;
      }
      InsertKeepsDistinct(buckets[0], SortByRank(tail));
    }
  }

  /** Permuting buckets does not change the set of keys. */
  lemma PermutationKeySet(a: seq<Bucket>, b: seq<Bucket>)
    requires multiset(a) == multiset(b)
    ensures KeySet(a) == KeySet(b)
  {
    assert forall x :: x in a <==> x in b by {
      forall x ensures x in a <==> x in b {
        assert x in a <==> x in multiset(a);
      }
    }
  }

  /** The whole pipeline: the user's categories, one bucket each, in rank
      order, each holding exactly the user's tasks of that category. */
  function Aggregate(tasks: seq<Task>, email: string): (r: seq<Bucket>)
    ensures Sorted(r) && DistinctKeys(r)
    ensures KeySet(r) == CategoriesOf(Owned(tasks, email))
    ensures forall b | b in r :: b.tasks == InCategory(Owned(tasks, email), b.key) && b.tasks != []
  {
    var grouped := GroupBy(Owned(tasks, email));
    var r := SortByRank(grouped);
    SortKeepsDistinct(grouped);
    PermutationKeySet(r, grouped);
    assert forall b | b in r :: b in grouped by {
      forall b | b in r ensures b in grouped {
        assert b in multiset(r);
      }
    }
    r
  }

  /** `tasks.find(task => task.category === category)` */
  function FindCategory(buckets: seq<Bucket>, category: string): (r: Option<Bucket>)
    ensures r.Some? ==> r.value in buckets && r.value.key == Some(category)
    ensures r.None? ==> forall b | b in buckets :: b.key != Some(category)
  {
    if buckets == [] then None
    else if buckets[0].key == Some(category) then Some(buckets[0])
    else FindCategory(buckets[1..], category)
  }

  /** `categories.map(...)`: the three known categories in display order, each
      with the tasks of its bucket, or none. */
  function Backfill(buckets: seq<Bucket>): (r: seq<Group>)
    ensures |r| == |Categories|
    ensures forall i | 0 <= i < |r| :: r[i].category == Categories[i]
  {
    seq(|Categories|, i requires 0 <= i < |Categories| =>
      Group(Categories[i], match FindCategory(buckets, Categories[i])
                           case Some(b) => b.tasks
                           case None => []))
  }

  /** GET /tasks/:email: whatever the store holds, exactly three groups, in the
      order todo, inprogress, done. */
  function ListByUser(tasks: seq<Task>, email: string): (r: seq<Group>)
    ensures |r| == 3
    ensures r[0].category == "todo" && r[1].category == "inprogress" && r[2].category == "done"
  {
    Backfill(Aggregate(tasks, email))
  }

  /** Each answered group is the user's tasks of that category, kept in the
      collection's order. */
  lemma GroupIsSelection(tasks: seq<Task>, email: string, i: nat)
    requires i < 3
    ensures ListByUser(tasks, email)[i].tasks == InCategory(Owned(tasks, email), Some(Categories[i]))
  {
    var owned := Owned(tasks, email);
    var agg := Aggregate(tasks, email);
    var c := Categories[i];
    if InCategory(owned, Some(c)) != [] {
      var t := InCategory(owned, Some(c))[0];
      assert t in InCategory(owned, Some(c));
      assert Some(c) in KeySet(agg);
      assert FindCategory(agg, c).Some?;
    }
  }

  /** A task appears in the group of category `Categories[i]` exactly when it
      is stored, belongs to `email` and has that category. */
  lemma Listed(tasks: seq<Task>, email: string, i: nat, t: Task)
    requires i < 3
    ensures t in ListByUser(tasks, email)[i].tasks <==>
            t in tasks && t.email == Some(email) && t.category == Some(Categories[i])
  {
    GroupIsSelection(tasks, email, i);
  }

  /** The group of category `Categories[i]` holds each of the user's tasks of
      that category as many times as the store does, and nothing else. */
  lemma ListedCount(tasks: seq<Task>, email: string, i: nat, t: Task)
    requires i < 3
    ensures multiset(ListByUser(tasks, email)[i].tasks)[t] ==
            if t.email == Some(email) && t.category == Some(Categories[i]) then multiset(tasks)[t] else 0
  {
    GroupIsSelection(tasks, email, i);
    FilterCount(Owned(tasks, email), (t: Task) => t.category == Some(Categories[i]), t);
    FilterCount(tasks, (t: Task) => t.email == Some(email), t);
  }

  /** A task whose category is not one of the three (rank 4, or no category)
      is never answered: the post-pass drops its bucket. */
  lemma UnknownCategoryNotListed(tasks: seq<Task>, email: string, t: Task)
    requires Rank(t.category) == 4
    ensures forall i | 0 <= i < 3 :: t !in ListByUser(tasks, email)[i].tasks
  {
  }

  /** A user without tasks gets three empty groups. */
  lemma NoTasksThreeEmptyGroups(tasks: seq<Task>, email: string)
    requires forall t | t in tasks :: t.email != Some(email)
    ensures forall i | 0 <= i < 3 :: ListByUser(tasks, email)[i].tasks == []
  {
  }

  /** The task a drag-and-drop upsert inserts has no owner email, so it is
      never answered by GET /tasks/:email, for any user. */
  lemma UpsertedNeverListed(tasks: seq<Task>, id: string, oid: ObjectId, body: MoveBody, email: string)
    requires UniqueIds(tasks) && ToObjectId(id) == Some(oid)
    requires forall k | 0 <= k < |tasks| :: tasks[k].id != oid
    ensures var after := MoveCategory(tasks, id, Some(body)).state;
            forall i | 0 <= i < 3 :: Upserted(oid, body) !in ListByUser(after, email)[i].tasks
  {
  }
}
