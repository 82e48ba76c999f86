/** Collections of documents as sequences in insertion order: their `_id`s,
    lookup and deletion by `_id` (`findById`, `findByIdAndDelete`, and the
    frontend's `filter(d => d._id !== id)`), and the facts about unique
    `_id`s that deletion and retention rely on. */
module Documents {
  import opened Models
  import opened Seqs

  /** The `_id`s present in a collection. */
  function IdSet<T>(s: seq<Doc<T>>): set<Id>
  {
    set i | 0 <= i < |s| :: s[i].id
  }

  /** No two documents of the collection share an `_id`. */
  ghost predicate UniqueIds<T>(s: seq<Doc<T>>)
  {
    forall i, j :: 0 <= i < j < |s| ==> s[i].id != s[j].id
  }

  /** Every `_id` in the collection was handed out before `next`. */
  ghost predicate IdsBelow<T>(s: seq<Doc<T>>, next: Id)
  {
    forall i :: 0 <= i < |s| ==> s[i].id < next
  }

  ghost predicate WellFormed<T>(s: seq<Doc<T>>, next: Id)
  {
    UniqueIds(s) && IdsBelow(s, next)
  }

  /** `Model.findById(id)`. */
  function FindById<T>(s: seq<Doc<T>>, id: Id): (r: Option<Doc<T>>)
    ensures r.Some? <==> id in IdSet(s)
    ensures r.Some? ==> r.value in s && r.value.id == id
  {
    if s == [] then None
    else if s[0].id == id then Some(s[0])
    else
      var r := FindById(s[1..], id);
      assert IdSet(s) == {s[0].id} + IdSet(s[1..]) by {
        assert forall i :: 0 <= i < |s[1..]| ==> s[1..][i] == s[i + 1];
      }
      r
  }

  /** The test "this document's `_id` is not one of `ids`". */
  function IdNotIn<T>(ids: set<Id>): Doc<T> -> bool
  {
    (d: Doc<T>) => d.id !in ids
  }

  /** The collection without the documents whose `_id` is in `ids`, the
      others kept in order. */
  function WithoutIds<T(==,!new)>(s: seq<Doc<T>>, ids: set<Id>): (r: seq<Doc<T>>)
    ensures forall d :: d in r <==> d in s && d.id !in ids
  {
    Filter(s, IdNotIn(ids))
  }

  /** The collection after `Model.findByIdAndDelete(id)` completed; equally
      `s.filter(d => d._id !== id)`. */
  function WithoutId<T(==,!new)>(s: seq<Doc<T>>, id: Id): (r: seq<Doc<T>>)
    ensures forall d :: d in r <==> d in s && d.id != id
  {
    WithoutIds(s, {id})
  }

  /** Deleting the `_id`s of `ids` and then `id` deletes those of `ids + {id}`. */
  lemma WithoutIdsStep<T(!new)>(s: seq<Doc<T>>, ids: set<Id>, id: Id)
    ensures WithoutId(WithoutIds(s, ids), id) == WithoutIds(s, ids + {id})
  {
    FilterFilter(s, IdNotIn(ids), IdNotIn({id}), IdNotIn(ids + {id}));
  }

  /** With unique `_id`s, deleting an `_id` that is present removes exactly
      one document, and deleting one that is absent removes none. */
  lemma {:induction false} WithoutIdCount<T(!new)>(s: seq<Doc<T>>, id: Id)
    requires UniqueIds(s)
    ensures |WithoutId(s, id)| == if id in IdSet(s) then |s| - 1 else |s|
  {
    if id !in IdSet(s) {
      IdSetMembers(s);
      FilterKeepsAll(s, IdNotIn<T>({id}));
    } else if s[0].id == id {
      var t := s[1..];
      assert forall i :: 0 <= i < |t| ==> t[i] == s[i + 1];
      IdSetMembers(t);
      FilterKeepsAll(t, IdNotIn<T>({id}));
    } else {
      var t := s[1..];
      assert forall i :: 0 <= i < |t| ==> t[i] == s[i + 1];
      assert id in IdSet(t) by {
        var i :| 0 <= i < |s| && s[i].id == id;
        assert t[i - 1].id == id;
      }
      WithoutIdCount(t, id);
    }
  }

  /** Deleting the `_id` of a document just appended with a fresh `_id`
      gives back the collection as it was. */
  lemma WithoutIdAfterAppend<T(!new)>(s: seq<Doc<T>>, d: Doc<T>)
    requires d.id !in IdSet(s)
    ensures WithoutId(s + [d], d.id) == s
  {
    IdSetMembers(s);
    FilterAppend(s, [d], IdNotIn<T>({d.id}));
    FilterKeepsAll(s, IdNotIn<T>({d.id}));
  }

  // ------------------------------------------------------ lemmas on `_id`s

  lemma IdSetMembers<T>(s: seq<Doc<T>>)
    ensures forall d :: d in s ==> d.id in IdSet(s)
    ensures forall id :: id in IdSet(s) ==> exists d :: d in s && d.id == id
  {
    forall d | d in s ensures d.id in IdSet(s) {
      var i :| 0 <= i < |s| && s[i] == d;
    }
  }

  /** Two arrangements of the same documents have the same `_id`s. */
  lemma IdSetPermutation<T>(a: seq<Doc<T>>, b: seq<Doc<T>>)
    requires multiset(a) == multiset(b)
    ensures IdSet(a) == IdSet(b)
  {
    IdSetMembers(a);
    IdSetMembers(b);
    assert forall d :: d in a <==> d in b by {
      forall d ensures d in a <==> d in b {
        assert d in a <==> d in multiset(a);
        assert d in b <==> d in multiset(b);
      }
    }
  }

  /** With unique `_id`s, a document is the only one carrying its `_id`. */
  lemma UniqueIdsSameDoc<T>(s: seq<Doc<T>>, x: Doc<T>, y: Doc<T>)
    requires UniqueIds(s) && x in s && y in s && x.id == y.id
    ensures x == y
  {
    var i :| 0 <= i < |s| && s[i] == x;
    var j :| 0 <= j < |s| && s[j] == y;
  }

  lemma IdSetSnoc<T>(t: seq<Doc<T>>, last: Doc<T>)
    ensures IdSet(t + [last]) == IdSet(t) + {last.id}
  {
    var s := t + [last];
    assert forall i :: 0 <= i < |t| ==> s[i] == t[i];
    assert s[|t|] == last;
  }

  lemma UniqueIdsSnoc<T>(t: seq<Doc<T>>, last: Doc<T>)
    ensures UniqueIds(t + [last]) <==> UniqueIds(t) && last.id !in IdSet(t)
  {
    var s := t + [last];
    assert forall i :: 0 <= i < |t| ==> s[i] == t[i];
    if last.id in IdSet(t) {
      var i :| 0 <= i < |t| && t[i].id == last.id;
      assert s[i].id == s[|t|].id;
    } else if UniqueIds(t) {
      forall i, j | 0 <= i < j < |s| ensures s[i].id != s[j].id {
        if j == |t| {
          assert t[i].id in IdSet(t);
        }
      }
    }
  }

  /** `_id`s are unique exactly when there are as many of them as documents. */
  lemma {:induction false} UniqueIdsCard<T>(s: seq<Doc<T>>)
    ensures |IdSet(s)| <= |s|
    ensures UniqueIds(s) <==> |IdSet(s)| == |s|
  {
    if s != [] {
      var t := s[..|s| - 1];
      var last := s[|s| - 1];
      assert s == t + [last];
      UniqueIdsCard(t);
      IdSetSnoc(t, last);
      UniqueIdsSnoc(t, last);
    }
  }

  /** Rearranging a collection keeps its `_id`s unique. */
  lemma UniqueIdsPermutation<T>(a: seq<Doc<T>>, b: seq<Doc<T>>)
    requires UniqueIds(a) && multiset(a) == multiset(b)
    ensures UniqueIds(b)
  {
    UniqueIdsCard(a);
    IdSetPermutation(a, b);
    assert |a| == |multiset(a)| == |multiset(b)| == |b|;
    UniqueIdsCard(b);
  }

  /** With unique `_id`s, no document after position `n` shares an `_id`
      with one before it. */
  lemma UniqueIdsSplit<T>(s: seq<Doc<T>>, n: nat)
    requires UniqueIds(s) && n <= |s|
    ensures forall d :: d in s[n..] ==> d.id !in IdSet(s[..n])
  {
    forall d | d in s[n..] ensures d.id !in IdSet(s[..n]) {
      var j :| n <= j < |s| && s[j] == d;
      assert forall i :: 0 <= i < n ==> s[..n][i].id != s[j].id;
    }
  }

  /** With unique `_id`s, deleting the `_id`s of the first `n` documents
      leaves exactly the documents after them. */
  lemma WithoutLeadingIds<T(!new)>(s: seq<Doc<T>>, n: nat)
    requires UniqueIds(s) && n <= |s|
    ensures WithoutIds(s, IdSet(s[..n])) == s[n..]
  {
    LeadingIdsDropped(s[..n]);
    TrailingIdsKept(s, n);
    FilterDropsPrefix(s, n, IdNotIn<T>(IdSet(s[..n])));
  }

  lemma LeadingIdsDropped<T(!new)>(older: seq<Doc<T>>)
    ensures Filter(older, IdNotIn<T>(IdSet(older))) == []
  {
    IdSetMembers(older);
    FilterKeepsNone(older, IdNotIn<T>(IdSet(older)));
  }

  lemma TrailingIdsKept<T(!new)>(s: seq<Doc<T>>, n: nat)
    requires UniqueIds(s) && n <= |s|
    ensures Filter(s[n..], IdNotIn<T>(IdSet(s[..n]))) == s[n..]
  {
    UniqueIdsSplit(s, n);
    FilterKeepsAll(s[n..], IdNotIn<T>(IdSet(s[..n])));
  }

  /** A document with a fresh `_id` keeps the collection well formed. */
  lemma AppendFresh<T>(s: seq<Doc<T>>, next: Id, x: T)
    requires WellFormed(s, next)
    ensures WellFormed(s + [Doc(next, x)], next + 1)
  {
  }

  /** Leaving documents out keeps the `_id`s unique. */
  lemma UniqueIdsSubsequence<T>(a: seq<Doc<T>>, b: seq<Doc<T>>, next: Id)
    requires IsSubsequence(a, b) && WellFormed(b, next)
    ensures WellFormed(a, next)
  {
    var idx :| Embeds(a, b, idx);
  }

  lemma FilterWellFormed<T(!new)>(s: seq<Doc<T>>, p: Doc<T> -> bool, next: Id)
    requires WellFormed(s, next)
    ensures WellFormed(Filter(s, p), next)
  {
    FilterIsSubsequence(s, p);
    UniqueIdsSubsequence(Filter(s, p), s, next);
  }
}
