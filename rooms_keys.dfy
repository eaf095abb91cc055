/** The room query keys and what each room mutation invalidates. */
module RoomKeys {
  import opened QueryKey

  const Root := Str("rooms")

  function All(): Key { [Root] }
  function Lists(): Key { All() + [Str("list")] }
  function List(filters: string): Key { Lists() + [Filters(filters)] }
  function Details(): Key { All() + [Str("detail")] }
  function Detail(id: int): Key { Details() + [Num(id)] }
  function Available(): Key { All() + [Str("available")] }

  /** Every key starts with `['rooms']`; the lists and available keys are distinct and
      neither is a prefix of the other; distinct ids give distinct detail keys. */
  lemma KeysShape(filters: string, id: int, id2: int)
    ensures forall k :: k in [Lists(), List(filters), Details(), Detail(id), Available()] ==> StartsWith(k, All())
    ensures Lists() == [Str("rooms"), Str("list")] && Available() == [Str("rooms"), Str("available")]
    ensures Detail(id) == [Str("rooms"), Str("detail"), Num(id)]
    ensures !(Lists() <= Available()) && !(Available() <= Lists())
    ensures Detail(id) == Detail(id2) <==> id == id2
  {
    if Detail(id) == Detail(id2) { assert Detail(id)[2] == Detail(id2)[2]; }
    assert Lists()[1] != Available()[1];
  }

  datatype Mutation = Create | Update(id: int) | UpdateAvailability(id: int) | Delete(id: int)

  /** The `queryKey`s each `onSuccess` invalidates. */
  function Invalidations(m: Mutation): seq<Key> {
    match m
    case Create => [All()]
    case Delete(_) => [All()]
    case Update(id) => [Detail(id), Lists(), Available()]
    case UpdateAvailability(id) => [Detail(id), Lists(), Available()]
  }

  /** Create and delete reach every room key; an update reaches exactly that room's detail,
      every list and the available rooms, and no other room's detail. */
  lemma InvalidationReach(m: Mutation, key: Key)
    ensures (m.Create? || m.Delete?) ==> (CoveredBy(key, Invalidations(m)) <==> StartsWith(key, All()))
    ensures (m.Update? || m.UpdateAvailability?) ==>
      (CoveredBy(key, Invalidations(m)) <==>
        StartsWith(key, Detail(m.id)) || StartsWith(key, Lists()) || StartsWith(key, Available()))
    ensures (m.Update? || m.UpdateAvailability?) ==> forall other :: other != m.id ==> !CoveredBy(Detail(other), Invalidations(m))
  {
    var fs := Invalidations(m);
    if m.Create? || m.Delete? {
      if StartsWith(key, All()) { assert StartsWith(key, fs[0]); }
    } else {
      if StartsWith(key, Detail(m.id)) { assert StartsWith(key, fs[0]); }
      if StartsWith(key, Lists()) { assert StartsWith(key, fs[1]); }
      if StartsWith(key, Available()) { assert StartsWith(key, fs[2]); }
      forall other | other != m.id ensures !CoveredBy(Detail(other), fs) {
        var d := Detail(other);
        assert d[2] != fs[0][2] && d[1] != fs[1][1] && d[1] != fs[2][1];
        forall i | 0 <= i < |fs| ensures !StartsWith(d, fs[i]) {
          assert |fs[i]| >= 2;
        }
      }
    }
  }

  /** The query keys of the room hooks. */
  function RoomsQueryKey(): Key { Lists() }
  function AvailableRoomsQueryKey(): Key { Available() }
  function RoomQueryKey(id: int): Key { Detail(id) }

  /** `enabled: !!id`. */
  function RoomQueryEnabled(id: int): bool
  {
    id != 0
  }

  /** The single-room query reads the detail key of its id and runs exactly for a non-zero
      id. */
  lemma SingleRoomQuery(id: int)
    ensures RoomQueryKey(id) == [Str("rooms"), Str("detail"), Num(id)]
    ensures RoomQueryEnabled(id) <==> id != 0
  {
  }
}
