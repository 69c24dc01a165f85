/**
 * The plant-reminder store: the user record and the plant collection held in
 * the key-value store, beside the notification scheduler whose handles the
 * collection refers to. Every operation runs to completion before the next
 * starts.
 */
module Storage {
  import opened PlantTypes
  import opened Reminder
  import opened Listing

  /** The user shown before anyone has identified themselves. */
  const DefaultUser: User := User("Visitante", "")

  /** `picture ? picture : ''`: an absent or empty picture is stored as the empty string. */
  function StoredPicture(picture: Option<string>): (s: string)
    ensures s == "" <==> picture == None || picture == Some("")
    ensures s != "" ==> picture == Some(s)
  {
    match picture
    case None => ""
    case Some(p) => p
  }

  /** What `getUser` yields for a stored record: the record itself, or the default when none was ever saved. */
  function UserOrDefault(stored: Option<User>): (u: User)
    ensures stored.Some? ==> u == stored.value
    ensures stored.None? ==> u.name == "Visitante" && u.picture == ""
  {
    if stored.Some? then stored.value else DefaultUser
  }

  /**
   * `{...newPlant, ...oldPlants}`. In Dafny's map union the right operand wins
   * on a shared key, as the later spread does: an id already stored keeps its
   * old entry, and a new id gets `{data: plant, notificationId: h}`.
   */
  function Merge(stored: map<string, StoredPlant>, plant: Plant, h: Handle): (m: map<string, StoredPlant>)
    ensures m.Keys == stored.Keys + {plant.id}
    ensures plant.id in stored ==> m == stored
    ensures plant.id !in stored ==> m[plant.id] == StoredPlant(plant, h)
    ensures forall id :: id in stored ==> m[id] == stored[id]
  {
    map[plant.id := StoredPlant(plant, h)] + stored
  }

  /**
   * The persisted state: the user record, the plant collection, every request
   * the scheduler has accepted (a handle is its request's position) and the
   * handles of the notifications still scheduled.
   */
  class PlantStore {
    var user: Option<User>
    var plants: map<string, StoredPlant>
    var requests: seq<Request>
    var live: set<Handle>

    /**
     * Every entry is filed under its own id, refers to a live notification
     * scheduled for that very plant, and no two entries share a handle.
     */
    ghost predicate Valid()
      reads this
      ensures Valid() ==> forall id :: id in plants ==> plants[id].notificationId < |requests|
    {
      (forall h :: h in live ==> h < |requests|) &&
      (forall id :: id in plants ==>
        plants[id].data.id == id &&
        plants[id].notificationId in live &&
        requests[plants[id].notificationId].plant == plants[id].data) &&
      (forall id1, id2 :: id1 in plants && id2 in plants && id1 != id2 ==>
        plants[id1].notificationId != plants[id2].notificationId)
    }

    /** A fresh installation: no user, no plants, nothing scheduled. */
    constructor ()
      ensures Valid()
      ensures user == None && plants == map[] && requests == [] && live == {}
    {
      user := None;
      plants := map[];
      requests := [];
      live := {};
    }

    /** `saveUser`: overwrites the user record; nothing else changes. */
    method SaveUser(name: string, picture: Option<string>)
      requires Valid()
      modifies this`user
      ensures Valid()
      ensures user == Some(User(name, StoredPicture(picture)))
      ensures GetUser() == User(name, StoredPicture(picture))
    {
      user := Some(User(name, StoredPicture(picture)));
    }

    /** `getUser`: the stored record, or the default one; a missing record is not an error. */
    function GetUser(): (u: User)
      reads this`user
      ensures user == None ==> u == DefaultUser
      ensures user != None ==> u == user.value
    {
      UserOrDefault(user)
    }

    /** The scheduler accepts `r` and hands back a handle never given out before. */
    method Schedule(r: Request) returns (h: Handle)
      modifies this`requests, this`live
      ensures h == old(|requests|)
      ensures requests == old(requests) + [r]
      ensures live == old(live) + {h}
    {
      h := |requests|;
      requests := requests + [r];
      live := live + {h};
    }

    /** The scheduler drops the notification `h`; cancelling an unknown handle changes nothing. */
    method Cancel(h: Handle)
      modifies this`live
      ensures live == old(live) - {h}
    {
      live := live - {h};
    }

    /**
     * `savePlant`: schedules a one-shot reminder for `plant`, then merges
     * `{plant.id: {data: plant, notificationId}}` under the stored collection.
     * When the id is already stored the collection is unchanged and the new
     * reminder stays scheduled with no entry referring to it.
     */
    method SavePlant(plant: Plant, now: Time, cal: Calendar)
      requires Valid()
      requires Schedulable(plant.frequency)
      modifies this`requests, this`live, this`plants
      ensures Valid()
      ensures requests == old(requests) + [Request(plant, ReminderTrigger(plant, now, cal))]
      ensures live == old(live) + {old(|requests|)} && old(|requests|) !in old(live)
      ensures plants == Merge(old(plants), plant, old(|requests|))
      ensures plant.id !in old(plants) ==> plants == old(plants)[plant.id := StoredPlant(plant, old(|requests|))]
      ensures plant.id in old(plants) ==> plants == old(plants)
    {
      var nextTime := NextTime(plant, now, cal);
      var notificationId := Schedule(Request(plant, TriggerFor(DelayMs(now, nextTime))));
      var oldPlants := plants;
      plants := Merge(oldPlants, plant, notificationId);
    }

    /**
     * `loadPlant`: one element per stored entry, its data with the derived
     * display hour, ordered by the reminder instant in whole seconds.
     */
    method LoadPlant(cal: Calendar) returns (listed: seq<Plant>)
      requires Valid()
      ensures SortedBySeconds(listed)
      ensures |listed| == |plants|
      ensures ShowsEntries(listed, plants, cal)
      ensures CoversIds(listed, plants.Keys)
      ensures DistinctIds(listed)
    {
      var keys := plants.Keys;
      var shown: seq<Plant> := [];
      while keys != {}
        invariant keys <= plants.Keys
        invariant |shown| + |keys| == |plants|
        invariant ShowsEntries(shown, plants, cal)
        invariant CoversIds(shown, plants.Keys - keys)
        invariant DistinctIds(shown)
        invariant forall i :: 0 <= i < |shown| ==> shown[i].id !in keys
        decreases keys
      {
        var id :| id in keys;
        ShowOneMore(shown, plants, cal, plants.Keys - keys, id);
        AppendPending(shown, Shown(plants[id].data, cal), keys);
        shown := shown + [Shown(plants[id].data, cal)];
        assert plants.Keys - (keys - {id}) == (plants.Keys - keys) + {id};
        keys := keys - {id};
      }
      assert plants.Keys - keys == plants.Keys;
      SortedListing(shown, plants, cal, plants.Keys);
      SortKeepsIdsDistinct(shown);
      listed := SortBySeconds(shown);
    }

    /**
     * `removePlant`: cancels the entry's reminder, deletes the entry and
     * writes the collection back. An unknown id fails on reading its handle,
     * before anything is cancelled or written.
     */
    method RemovePlant(id: string) returns (outcome: Outcome)
      requires Valid()
      modifies this`live, this`plants
      ensures Valid()
      ensures id in old(plants) ==>
        outcome == Done &&
        live == old(live) - {old(plants)[id].notificationId} &&
        plants == old(plants) - {id}
      ensures id !in old(plants) ==>
        outcome == Failed(UnknownPlant(id)) && live == old(live) && plants == old(plants)
    {
      if id !in plants {
        return Failed(UnknownPlant(id));
      }
      Cancel(plants[id].notificationId);
      var remaining := plants - {id};
      plants := remaining;
      outcome := Done;
    }
  }

  /**
   * Saving a plant under a new id and listing the collection shows that
   * plant's data with its display hour; re-saving a stored id lists the old
   * entry's data.
   */
  method SaveThenLoad(store: PlantStore, plant: Plant, now: Time, cal: Calendar) returns (listed: seq<Plant>)
    requires store.Valid()
    requires Schedulable(plant.frequency)
    modifies store
    ensures plant.id !in old(store.plants) ==> Shown(plant, cal) in listed
    ensures plant.id in old(store.plants) ==> Shown(old(store.plants)[plant.id].data, cal) in listed
    ensures SortedBySeconds(listed) && |listed| == |store.plants|
  {
    store.SavePlant(plant, now, cal);
    listed := store.LoadPlant(cal);
    var i :| 0 <= i < |listed| && listed[i].id == plant.id;
    assert listed[i] == Shown(store.plants[plant.id].data, cal);
  }

  /** Removing a stored plant and listing the collection never shows that plant's id. */
  method RemoveThenLoad(store: PlantStore, id: string, cal: Calendar) returns (outcome: Outcome, listed: seq<Plant>)
    requires store.Valid()
    modifies store
    ensures outcome == Done <==> id in old(store.plants)
    ensures forall i :: 0 <= i < |listed| ==> listed[i].id != id
    ensures SortedBySeconds(listed) && |listed| == |store.plants|
  {
    outcome := store.RemovePlant(id);
    listed := store.LoadPlant(cal);
  }
}
