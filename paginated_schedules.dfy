/** The two paginated schedule queries' keys. */
module PaginatedSchedules {
  import opened Wrappers
  import opened QueryKey
  import ScheduleKeys

  const DefaultPage := 1
  const DefaultLimit := 10

  /** `['schedules', 'paginated', { page, limit }]`, page and limit defaulting to 1 and 10. */
  function PaginatedKey(page: Option<int>, limit: Option<int>): Key
  {
    [Str("schedules"), Str("paginated"), PageLimit(page.GetOr(DefaultPage), limit.GetOr(DefaultLimit))]
  }

  /** `['schedules', 'my', 'paginated', { page, limit }]`. */
  function MyPaginatedKey(page: Option<int>, limit: Option<int>): Key
  {
    [Str("schedules"), Str("my"), Str("paginated"), PageLimit(page.GetOr(DefaultPage), limit.GetOr(DefaultLimit))]
  }

  /** Both keys live under `scheduleKeys.all`, and each satisfies exactly its own predicate. */
  lemma KeysAndPredicates(page: Option<int>, limit: Option<int>)
    ensures StartsWith(PaginatedKey(page, limit), ScheduleKeys.All())
    ensures StartsWith(MyPaginatedKey(page, limit), ScheduleKeys.All())
    ensures ScheduleKeys.PaginatedPredicate(PaginatedKey(page, limit))
    ensures !ScheduleKeys.MyPaginatedPredicate(PaginatedKey(page, limit))
    ensures ScheduleKeys.MyPaginatedPredicate(MyPaginatedKey(page, limit))
    ensures !ScheduleKeys.PaginatedPredicate(MyPaginatedKey(page, limit))
  {
  }

  /** Distinct (page, limit) pairs give distinct keys, and the two families never meet nor
      prefix one another. */
  lemma KeysDistinct(p1: Option<int>, l1: Option<int>, p2: Option<int>, l2: Option<int>)
    ensures PaginatedKey(p1, l1) == PaginatedKey(p2, l2) <==>
      p1.GetOr(DefaultPage) == p2.GetOr(DefaultPage) && l1.GetOr(DefaultLimit) == l2.GetOr(DefaultLimit)
    ensures MyPaginatedKey(p1, l1) == MyPaginatedKey(p2, l2) <==>
      p1.GetOr(DefaultPage) == p2.GetOr(DefaultPage) && l1.GetOr(DefaultLimit) == l2.GetOr(DefaultLimit)
    ensures !(PaginatedKey(p1, l1) <= MyPaginatedKey(p2, l2)) && !(MyPaginatedKey(p2, l2) <= PaginatedKey(p1, l1))
  {
    if PaginatedKey(p1, l1) == PaginatedKey(p2, l2) { assert PaginatedKey(p1, l1)[2] == PaginatedKey(p2, l2)[2]; }
    if MyPaginatedKey(p1, l1) == MyPaginatedKey(p2, l2) { assert MyPaginatedKey(p1, l1)[3] == MyPaginatedKey(p2, l2)[3]; }
    assert PaginatedKey(p1, l1)[1] != MyPaginatedKey(p2, l2)[1];
  }

  /** Every schedule mutation invalidates both paginated queries, already through `all`. */
  lemma MutationsReachPaginated(m: ScheduleKeys.Mutation, page: Option<int>, limit: Option<int>)
    ensures exists i :: 0 <= i < |ScheduleKeys.Invalidations(m)| && ScheduleKeys.Selects(ScheduleKeys.Invalidations(m)[i], PaginatedKey(page, limit))
    ensures exists i :: 0 <= i < |ScheduleKeys.Invalidations(m)| && ScheduleKeys.Selects(ScheduleKeys.Invalidations(m)[i], MyPaginatedKey(page, limit))
  {
    KeysAndPredicates(page, limit);
    ScheduleKeys.InvalidatesEverySchedule(m, PaginatedKey(page, limit));
    ScheduleKeys.InvalidatesEverySchedule(m, MyPaginatedKey(page, limit));
  }
}
