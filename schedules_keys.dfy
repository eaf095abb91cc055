/** The schedule query keys, the queries that use them, and what each mutation invalidates. */
module ScheduleKeys {
  import opened Wrappers
  import opened QueryKey

  const Root := Str("schedules")

  function All(): Key { [Root] }
  function Lists(): Key { All() + [Str("list")] }
  function List(filters: string): Key { Lists() + [Filters(filters)] }
  function Details(): Key { All() + [Str("detail")] }
  function Detail(id: int): Key { Details() + [Num(id)] }
  function My(): Key { All() + [Str("my")] }
  function Upcoming(): Key { All() + [Str("upcoming")] }

  /** Every factory's key starts with `all`, and `list`/`detail` extend `lists`/`details`. */
  lemma KeysUnderAll(filters: string, id: int)
    ensures forall k :: k in [Lists(), List(filters), Details(), Detail(id), My(), Upcoming()] ==> StartsWith(k, All())
    ensures StartsWith(List(filters), Lists()) && |List(filters)| == |Lists()| + 1
    ensures StartsWith(Detail(id), Details()) && |Detail(id)| == |Details()| + 1
  {
  }

  /** Distinct ids and distinct filter strings give distinct keys. */
  lemma DetailInjective(id1: int, id2: int, f1: string, f2: string)
    ensures Detail(id1) == Detail(id2) <==> id1 == id2
    ensures List(f1) == List(f2) <==> f1 == f2
  {
    if Detail(id1) == Detail(id2) { assert Detail(id1)[2] == Detail(id2)[2]; }
    if List(f1) == List(f2) { assert List(f1)[2] == List(f2)[2]; }
  }

  /** The lists, details, my and upcoming keys differ at index 1, so none is a prefix of
      another. */
  lemma SecondAtomsDistinct()
    ensures var ks := [Lists(), Details(), My(), Upcoming()];
      forall i, j :: 0 <= i < 4 && 0 <= j < 4 && i != j ==> ks[i][1] != ks[j][1] && !(ks[i] <= ks[j])
  {
  }

  /** `queryKey[0] === 'schedules' && queryKey[1] === 'paginated'`. */
  predicate PaginatedPredicate(key: Key) {
    At(key, 0) == Some(Str("schedules")) && At(key, 1) == Some(Str("paginated"))
  }

  /** `queryKey[0] === 'schedules' && queryKey[1] === 'my' && queryKey[2] === 'paginated'`. */
  predicate MyPaginatedPredicate(key: Key) {
    At(key, 0) == Some(Str("schedules")) && At(key, 1) == Some(Str("my")) && At(key, 2) == Some(Str("paginated"))
  }

  lemma PredicatesMeaning(key: Key)
    ensures PaginatedPredicate(key) <==> StartsWith(key, [Str("schedules"), Str("paginated")])
    ensures MyPaginatedPredicate(key) <==> StartsWith(key, [Str("schedules"), Str("my"), Str("paginated")])
    ensures !(PaginatedPredicate(key) && MyPaginatedPredicate(key))
  {
  }

  /** None of the factories' keys satisfies either predicate. */
  lemma FactoriesNotPaginated(filters: string, id: int)
    ensures forall k :: k in [All(), Lists(), List(filters), Details(), Detail(id), My(), Upcoming()] ==>
      !PaginatedPredicate(k) && !MyPaginatedPredicate(k)
  {
  }

  /** An invalidation filter. */
  datatype KeyFilter = ByKey(key: Key) | Paginated | MyPaginated

  predicate Selects(f: KeyFilter, key: Key) {
    match f
    case ByKey(prefix) => StartsWith(key, prefix)
    case Paginated => PaginatedPredicate(key)
    case MyPaginated => MyPaginatedPredicate(key)
  }

  datatype Mutation = Create | Update(id: int) | UpdateStatus(id: int) | Cancel(id: int) | Delete(id: int)

  /** The `onSuccess` invalidations, in order. */
  function Invalidations(m: Mutation): (fs: seq<KeyFilter>)
    ensures ByKey(All()) in fs && Paginated in fs && MyPaginated in fs
    ensures (m.Update? || m.UpdateStatus?) ==> ByKey(Detail(m.id)) in fs
    ensures |fs| == if m.Update? || m.UpdateStatus? then 4 else 3
  {
    var common := [ByKey(All()), Paginated, MyPaginated];
    match m
    case Update(id) => [ByKey(Detail(id))] + common
    case UpdateStatus(id) => [ByKey(Detail(id))] + common
    case _ => common
  }

  /** Every mutation of a schedule invalidates every key under `schedules`. */
  lemma InvalidatesEverySchedule(m: Mutation, key: Key)
    requires StartsWith(key, All())
    ensures exists i :: 0 <= i < |Invalidations(m)| && Selects(Invalidations(m)[i], key)
  {
    var fs := Invalidations(m);
    var i := if m.Update? || m.UpdateStatus? then 1 else 0;
    assert fs[i] == ByKey(All());
  }

  /** A key outside `schedules` is never invalidated by a schedule mutation. */
  lemma OthersUntouched(m: Mutation, key: Key)
    requires key == [] || key[0] != Root
    ensures forall i :: 0 <= i < |Invalidations(m)| ==> !Selects(Invalidations(m)[i], key)
  {
    var fs := Invalidations(m);
    forall i | 0 <= i < |fs| ensures !Selects(fs[i], key) {
      if fs[i].ByKey? {
        assert |fs[i].key| >= 1 && fs[i].key[0] == Root;
      }
    }
  }

  /** The query keys of the schedule hooks. */
  function SchedulesQueryKey(): Key { Lists() }
  function MySchedulesQueryKey(): Key { My() }
  function UpcomingQueryKey(): Key { Upcoming() }
  function ScheduleQueryKey(id: int): Key { Detail(id) }

  /** `enabled: !!id`: the single-schedule query runs only for a non-zero id. */
  function ScheduleQueryEnabled(id: int): bool
  {
    id != 0
  }

  /** The single-schedule query reads the detail key of its id, lies under `all`, and runs
      exactly for a non-zero id. */
  lemma SingleScheduleQuery(id: int)
    ensures ScheduleQueryKey(id) == [Str("schedules"), Str("detail"), Num(id)]
    ensures StartsWith(ScheduleQueryKey(id), All())
    ensures ScheduleQueryEnabled(id) <==> id != 0
    ensures !ScheduleQueryEnabled(0)
  {
  }
}
