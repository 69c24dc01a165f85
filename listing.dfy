/**
 * What `loadPlant` returns: each stored plant with its display hour, ordered
 * by its reminder instant compared in whole seconds.
 */
module Listing {
  import opened PlantTypes

  /**
   * `Math.floor(t / 1000)`. Dafny's `/` rounds toward negative infinity for a
   * positive divisor, so this is the floor for instants before the epoch too.
   */
  function Seconds(t: Time): (s: int)
    ensures s * 1000 <= t < s * 1000 + 1000
  {
    t / 1000
  }

  /** A stored plant as listed: its data with `hour` derived from its reminder instant. */
  function Shown(data: Plant, cal: Calendar): (p: Plant)
    ensures p.hour == cal.hourMinute(data.dateTimeNotification)
    ensures p.(hour := data.hour) == data
  {
    data.(hour := cal.hourMinute(data.dateTimeNotification))
  }

  /** Non-decreasing in the whole second of the reminder instant; nothing is said about ties. */
  predicate SortedBySeconds(s: seq<Plant>)
  {
    forall i, j :: 0 <= i < j < |s| ==> Seconds(s[i].dateTimeNotification) <= Seconds(s[j].dateTimeNotification)
  }

  /** Places `p` into a sorted sequence, after the entries whose second is not later than its own. */
  function Insert(p: Plant, s: seq<Plant>): (r: seq<Plant>)
    requires SortedBySeconds(s)
    ensures SortedBySeconds(r)
    ensures multiset(r) == multiset(s) + multiset{p}
  {
    if s == [] || Seconds(p.dateTimeNotification) <= Seconds(s[0].dateTimeNotification) then
      [p] + s
    else
      var rest := Insert(p, s[1..]);
      assert s == [s[0]] + s[1..];
      ConsSorted(s[0], s[1..], p, rest);
      [s[0]] + rest
  }

  /** Putting `a` in front of the insertion of a later `p` into a sorted tail keeps the order. */
  lemma ConsSorted(a: Plant, tail: seq<Plant>, p: Plant, rest: seq<Plant>)
    requires SortedBySeconds([a] + tail) && SortedBySeconds(rest)
    requires Seconds(a.dateTimeNotification) < Seconds(p.dateTimeNotification)
    requires multiset(rest) == multiset(tail) + multiset{p}
    ensures SortedBySeconds([a] + rest)
  {
    forall x | x in rest ensures Seconds(a.dateTimeNotification) <= Seconds(x.dateTimeNotification) {
      assert x in multiset(rest);
      if x != p {
        assert x in multiset(tail);
        var k :| 0 <= k < |tail| && tail[k] == x;
        assert ([a] + tail)[0] == a && ([a] + tail)[k + 1] == x;
        assert Seconds(([a] + tail)[0].dateTimeNotification) <= Seconds(([a] + tail)[k + 1].dateTimeNotification);
      }
    }
    forall i, j | 0 <= i < j < |[a] + rest|
      ensures Seconds(([a] + rest)[i].dateTimeNotification) <= Seconds(([a] + rest)[j].dateTimeNotification)
    {
      if i == 0 {
        assert ([a] + rest)[j] == rest[j - 1];
        assert rest[j - 1] in rest;
      } else {
        assert ([a] + rest)[i] == rest[i - 1] && ([a] + rest)[j] == rest[j - 1];
      }
    }
  }

  /**
   * The ordering of `Array.prototype.sort` under the comparator
   * `floor(a / 1000) - floor(b / 1000)`: a permutation of the input that is
   * non-decreasing in whole seconds.
   */
  function SortBySeconds(s: seq<Plant>): (r: seq<Plant>)
    ensures SortedBySeconds(r)
    ensures multiset(r) == multiset(s)
    ensures |r| == |s|
  {
    if s == [] then []
    else
      assert s == [s[0]] + s[1..];
      Insert(s[0], SortBySeconds(s[1..]))
  }

  /** In a sorted listing an entry due in an earlier second always comes first. */
  lemma EarlierSecondListedFirst(s: seq<Plant>, i: nat, j: nat)
    requires SortedBySeconds(s) && i < |s| && j < |s|
    requires Seconds(s[i].dateTimeNotification) < Seconds(s[j].dateTimeNotification)
    ensures i < j
  {
  }

  /** Sorting keeps every plant and adds none: an element is in the output exactly when it is in the input. */
  lemma SortKeepsElements(s: seq<Plant>, p: Plant)
    ensures p in SortBySeconds(s) <==> p in s
  {
    assert p in multiset(SortBySeconds(s)) <==> p in multiset(s);
  }

  /** Every element of `listed` is the display form of the entry stored under its id. */
  ghost predicate ShowsEntries(listed: seq<Plant>, plants: map<string, StoredPlant>, cal: Calendar)
  {
    forall i :: 0 <= i < |listed| ==>
      listed[i].id in plants && listed[i] == Shown(plants[listed[i].id].data, cal)
  }

  /** Every id in `ids` has an element in `listed`. */
  ghost predicate CoversIds(listed: seq<Plant>, ids: set<string>)
  {
    forall id :: id in ids ==> exists i :: 0 <= i < |listed| && listed[i].id == id
  }

  /** Appending the display form of the entry under `id` keeps the listing faithful and covers `id` as well. */
  lemma ShowOneMore(shown: seq<Plant>, plants: map<string, StoredPlant>, cal: Calendar, done: set<string>, id: string)
    requires id in plants && plants[id].data.id == id
    requires ShowsEntries(shown, plants, cal) && CoversIds(shown, done)
    ensures ShowsEntries(shown + [Shown(plants[id].data, cal)], plants, cal)
    ensures CoversIds(shown + [Shown(plants[id].data, cal)], done + {id})
  {
    var longer := shown + [Shown(plants[id].data, cal)];
    assert longer[|shown|].id == id;
    forall other | other in done + {id} ensures exists i :: 0 <= i < |longer| && longer[i].id == other {
      if other != id {
        var i :| 0 <= i < |shown| && shown[i].id == other;
        assert longer[i] == shown[i];
      }
    }
  }

  /** Sorting a listing keeps it faithful to the stored entries and keeps every id it covered. */
  lemma SortedListing(shown: seq<Plant>, plants: map<string, StoredPlant>, cal: Calendar, ids: set<string>)
    requires ShowsEntries(shown, plants, cal) && CoversIds(shown, ids)
    ensures ShowsEntries(SortBySeconds(shown), plants, cal)
    ensures CoversIds(SortBySeconds(shown), ids)
  {
    var listed := SortBySeconds(shown);
    forall i | 0 <= i < |listed|
      ensures listed[i].id in plants && listed[i] == Shown(plants[listed[i].id].data, cal)
    {
      SortKeepsElements(shown, listed[i]);
    }
    forall id | id in ids ensures exists i :: 0 <= i < |listed| && listed[i].id == id {
      var k :| 0 <= k < |shown| && shown[k].id == id;
      SortKeepsElements(shown, shown[k]);
      var i :| 0 <= i < |listed| && listed[i] == shown[k];
    }
  }

  /** No two elements of `s` carry the same id. */
  ghost predicate DistinctIds(s: seq<Plant>)
  {
    forall i, j :: 0 <= i < j < |s| ==> s[i].id != s[j].id
  }

  /** A plant whose id is not among those of a sequence with distinct ids can go in front. */
  lemma ConsDistinct(a: Plant, rest: seq<Plant>)
    requires DistinctIds(rest)
    requires forall x :: x in rest ==> x.id != a.id
    ensures DistinctIds([a] + rest)
  {
    var r := [a] + rest;
    forall i, j | 0 <= i < j < |r| ensures r[i].id != r[j].id {
      assert r[j] == rest[j - 1] && rest[j - 1] in rest;
      if i > 0 { assert r[i] == rest[i - 1]; }
    }
  }

  /** In a sequence with distinct ids the tail keeps them distinct and does not repeat the head's id. */
  lemma HeadIdNotInTail(s: seq<Plant>)
    requires s != [] && DistinctIds(s)
    ensures DistinctIds(s[1..])
    ensures forall x :: x in s[1..] ==> x.id != s[0].id
  {
    var tail := s[1..];
    forall i, j | 0 <= i < j < |tail| ensures tail[i].id != tail[j].id {
      assert tail[i] == s[i + 1] && tail[j] == s[j + 1];
    }
    forall x | x in tail ensures x.id != s[0].id {
      var k :| 0 <= k < |tail| && tail[k] == x;
      assert s[k + 1] == x;
    }
  }

  /** Inserting a plant whose id is new keeps the ids distinct. */
  lemma {:induction false} InsertKeepsIdsDistinct(p: Plant, s: seq<Plant>)
    requires SortedBySeconds(s) && DistinctIds(s)
    requires forall x :: x in s ==> x.id != p.id
    ensures DistinctIds(Insert(p, s))
  {
    if s == [] || Seconds(p.dateTimeNotification) <= Seconds(s[0].dateTimeNotification) {
      ConsDistinct(p, s);
    } else {
      var tail := s[1..];
      HeadIdNotInTail(s);
      assert forall x :: x in tail ==> x in s;
      InsertKeepsIdsDistinct(p, tail);
      var rest := Insert(p, tail);
      forall x | x in rest ensures x.id != s[0].id {
        assert x in multiset(rest);
        assert s[0] in s;
      }
      ConsDistinct(s[0], rest);
    }
  }

  /** Sorting keeps the ids distinct. */
  lemma {:induction false} SortKeepsIdsDistinct(s: seq<Plant>)
    requires DistinctIds(s)
    ensures DistinctIds(SortBySeconds(s))
  {
    if s != [] {
      var tail := s[1..];
      HeadIdNotInTail(s);
      SortKeepsIdsDistinct(tail);
      forall x | x in SortBySeconds(tail) ensures x.id != s[0].id {
        SortKeepsElements(tail, x);
      }
      InsertKeepsIdsDistinct(s[0], SortBySeconds(tail));
    }
  }

  /** Appending a plant whose id is still pending keeps the ids distinct and none of them pending. */
  lemma AppendPending(shown: seq<Plant>, q: Plant, pending: set<string>)
    requires DistinctIds(shown) && q.id in pending
    requires forall i :: 0 <= i < |shown| ==> shown[i].id !in pending
    ensures DistinctIds(shown + [q])
    ensures forall i :: 0 <= i < |shown + [q]| ==> (shown + [q])[i].id !in pending - {q.id}
  {
    var r := shown + [q];
    forall i, j | 0 <= i < j < |r| ensures r[i].id != r[j].id {
      assert r[i] == shown[i];
    }
    forall i | 0 <= i < |r| ensures r[i].id !in pending - {q.id} {
      if i < |shown| { assert r[i] == shown[i]; }
    }
  }
}
