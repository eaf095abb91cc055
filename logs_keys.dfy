/** The log query keys, the hooks' default page and limit, and the create invalidation. */
module LogsKeys {
  import opened Wrappers
  import opened QueryKey

  const Root := Str("logs")
  const DefaultPage := 1
  const DefaultLimit := 10

  function All(): Key { [Root] }
  function Lists(): Key { All() + [Str("list")] }
  function List(page: int, limit: int): Key { Lists() + [PageLimit(page, limit)] }
  function Details(): Key { All() + [Str("detail")] }
  function Detail(id: int): Key { Details() + [Num(id)] }
  function My(page: int, limit: int): Key { All() + [Str("my"), PageLimit(page, limit)] }
  function Module(moduleName: string, page: int, limit: int): Key { All() + [Str("module"), Str(moduleName), PageLimit(page, limit)] }

  /** Every key starts with `['logs']`, and the literal shapes of list, my and module. */
  lemma KeysShape(moduleName: string, page: int, limit: int, id: int)
    ensures forall k :: k in [Lists(), List(page, limit), Details(), Detail(id), My(page, limit), Module(moduleName, page, limit)] ==>
      StartsWith(k, All())
    ensures List(page, limit) == [Str("logs"), Str("list"), PageLimit(page, limit)]
    ensures My(page, limit) == [Str("logs"), Str("my"), PageLimit(page, limit)]
    ensures Module(moduleName, page, limit) == [Str("logs"), Str("module"), Str(moduleName), PageLimit(page, limit)]
  {
  }

  /** List, my and module keys never coincide, whatever their arguments; each family is
      injective in its arguments. */
  lemma KeysDistinct(m1: string, p1: int, l1: int, m2: string, p2: int, l2: int)
    ensures List(p1, l1) != My(p2, l2)
    ensures List(p1, l1) != Module(m2, p2, l2)
    ensures My(p1, l1) != Module(m2, p2, l2)
    ensures List(p1, l1) == List(p2, l2) <==> p1 == p2 && l1 == l2
    ensures My(p1, l1) == My(p2, l2) <==> p1 == p2 && l1 == l2
    ensures Module(m1, p1, l1) == Module(m2, p2, l2) <==> m1 == m2 && p1 == p2 && l1 == l2
  {
    assert List(p1, l1)[1] != My(p2, l2)[1];
    assert List(p1, l1)[1] != Module(m2, p2, l2)[1];
    assert My(p1, l1)[1] != Module(m2, p2, l2)[1];
    if List(p1, l1) == List(p2, l2) { assert List(p1, l1)[2] == List(p2, l2)[2]; }
    if My(p1, l1) == My(p2, l2) { assert My(p1, l1)[2] == My(p2, l2)[2]; }
    if Module(m1, p1, l1) == Module(m2, p2, l2) {
      assert Module(m1, p1, l1)[2] == Module(m2, p2, l2)[2];
      assert Module(m1, p1, l1)[3] == Module(m2, p2, l2)[3];
    }
  }

  /** The hooks' keys; an omitted page or limit takes its default. */
  function LogsQueryKey(page: Option<int>, limit: Option<int>): Key
  {
    List(page.GetOr(DefaultPage), limit.GetOr(DefaultLimit))
  }

  function MyLogsQueryKey(page: Option<int>, limit: Option<int>): Key
  {
    My(page.GetOr(DefaultPage), limit.GetOr(DefaultLimit))
  }

  function ModuleLogsQueryKey(moduleName: string, page: Option<int>, limit: Option<int>): Key
  {
    Module(moduleName, page.GetOr(DefaultPage), limit.GetOr(DefaultLimit))
  }

  /** With page and limit omitted every log query asks for page 1 with 10 entries. */
  lemma Defaults(moduleName: string)
    ensures LogsQueryKey(None, None) == [Str("logs"), Str("list"), PageLimit(1, 10)]
    ensures MyLogsQueryKey(None, None) == [Str("logs"), Str("my"), PageLimit(1, 10)]
    ensures ModuleLogsQueryKey(moduleName, None, None) == [Str("logs"), Str("module"), Str(moduleName), PageLimit(1, 10)]
  {
  }

  /** `enabled: !!module`. */
  function ModuleQueryEnabled(moduleName: string): bool
  {
    moduleName != ""
  }

  /** The by-module query runs exactly for a non-empty module name. */
  lemma ModuleQuery(moduleName: string, page: Option<int>, limit: Option<int>)
    ensures ModuleQueryEnabled(moduleName) <==> moduleName != ""
    ensures ModuleLogsQueryKey(moduleName, page, limit)[2] == Str(moduleName)
  {
  }

  /** Creating a log invalidates `logsKeys.all`, which every log query key starts with. */
  function CreateInvalidations(): seq<Key> { [All()] }

  lemma CreateReachesEveryLogQuery(moduleName: string, page: Option<int>, limit: Option<int>)
    ensures CoveredBy(LogsQueryKey(page, limit), CreateInvalidations())
    ensures CoveredBy(MyLogsQueryKey(page, limit), CreateInvalidations())
    ensures CoveredBy(ModuleLogsQueryKey(moduleName, page, limit), CreateInvalidations())
  {
    var fs := CreateInvalidations();
    assert StartsWith(LogsQueryKey(page, limit), fs[0]);
    assert StartsWith(MyLogsQueryKey(page, limit), fs[0]);
    assert StartsWith(ModuleLogsQueryKey(moduleName, page, limit), fs[0]);
  }
}
