/** The users table: name/date filtering, eight users per page, and the optimistic map from
    user id to the shown status, updated on a toggle and rolled back when the update fails. */
module UsersTable {
  import opened Wrappers
  import opened Text
  import opened Seqs
  import opened AuthTypes
  import TimeOfDay
  import Pagination

  const ItemsPerPage := 8

  /** `if (name)`: an empty filter matches everyone, otherwise the lowercased
      "first last" must contain the lowercased filter. */
  predicate MatchesName(u: User, name: string) {
    name == "" || Contains(Lower(u.firstName + " " + u.lastName), Lower(name))
  }

  /** `if (date)`: without a (non-empty) date everyone matches, otherwise the part of
      `createdAt` before the first 'T' must equal it. */
  predicate MatchesDate(u: User, date: Option<string>) {
    date.None? || date.value == "" || BeforeFirst(u.createdAt, 'T') == date.value
  }

  function FilteredUsers(users: seq<User>, name: string, date: Option<string>): (r: seq<User>)
    ensures |r| <= |users|
    ensures forall i :: 0 <= i < |r| ==> MatchesName(r[i], name) && MatchesDate(r[i], date)
  {
    Filter(u => MatchesName(u, name) && MatchesDate(u, date), users)
  }

  /** A user is shown iff it is in the list and matches both filters; the order of the list
      is kept; without filters the whole list is shown. */
  lemma FilteredUsersMeaning(users: seq<User>, name: string, date: Option<string>)
    ensures forall u :: u in FilteredUsers(users, name, date) <==>
      u in users && MatchesName(u, name) && MatchesDate(u, date)
    ensures IsSubsequence(FilteredUsers(users, name, date), users)
    ensures name == "" && (date.None? || date.value == "") ==> FilteredUsers(users, name, date) == users
  {
    var p := (u: User) => MatchesName(u, name) && MatchesDate(u, date);
    forall u ensures u in Filter(p, users) <==> u in users && p(u) {
      FilterMembership(p, users, u);
    }
    FilterIsSubsequence(p, users);
    if name == "" && (date.None? || date.value == "") {
      FilterKeepsAll(p, users);
    }
  }

  /** `Math.max(1, Math.ceil(total / itemsPerPage))`. */
  function TotalPages(total: nat): (n: nat)
    ensures n >= 1
  {
    Pagination.Max(1, TimeOfDay.CeilDiv(total, ItemsPerPage)) as nat
  }

  /** There is always a page, the pages hold every item, and the last page is not empty
      unless there are no items at all. */
  lemma TotalPagesBounds(total: nat)
    ensures total <= TotalPages(total) * ItemsPerPage
    ensures total == 0 ==> TotalPages(total) == 1
    ensures total > 0 ==> (TotalPages(total) - 1) * ItemsPerPage < total
  {
    var c := TimeOfDay.CeilDiv(total, ItemsPerPage);
    if total > 0 {
      TimeOfDay.BelowIffUnderCeil(total, ItemsPerPage, c);
      TimeOfDay.BelowIffUnderCeil(total, ItemsPerPage, c - 1);
    }
  }

  /** JavaScript's index normalisation in `slice`: a negative index counts from the end. */
  function SliceIndex(i: int, n: nat): (k: nat)
    ensures k <= n
  {
    if i < 0 then Pagination.Max(0, n + i) as nat else Pagination.Min(i, n) as nat
  }

  /** `s.slice(start, end)`: the items from the normalised start up to the normalised end. */
  function Slice<T>(s: seq<T>, start: int, end: int): (r: seq<T>)
    ensures var a, b := SliceIndex(start, |s|), SliceIndex(end, |s|);
      && |r| == (if a < b then b - a else 0)
      && forall i :: 0 <= i < |r| ==> r[i] == s[a + i]
  {
    var a, b := SliceIndex(start, |s|), SliceIndex(end, |s|);
    if a < b then s[a..b] else []
  }

  /** `filteredUsers.slice((currentPage - 1) * 8, currentPage * 8)`: any page number, in
      range or not, gives at most eight items of the list. */
  function PageOf<T>(s: seq<T>, page: int): (r: seq<T>)
    ensures |r| <= ItemsPerPage
    ensures forall x :: x in r ==> x in s
  {
    Slice(s, (page - 1) * ItemsPerPage, page * ItemsPerPage)
  }

  /** Page `p` holds the items `(p-1)*8 .. p*8` that exist: at most eight, none past the
      last page. */
  lemma PageOfShape<T>(s: seq<T>, page: int)
    requires page >= 1
    ensures PageOf(s, page) == s[Pagination.Min((page - 1) * ItemsPerPage, |s|)..Pagination.Min(page * ItemsPerPage, |s|)]
    ensures |PageOf(s, page)| <= ItemsPerPage
    ensures page > TotalPages(|s|) ==> PageOf(s, page) == []
  {
    TotalPagesBounds(|s|);
    if page > TotalPages(|s|) {
      TimeOfDay.MulMono(TotalPages(|s|), page - 1, ItemsPerPage);
    }
  }

  /** Pages `1..k` laid end to end. */
  function FirstPages<T>(s: seq<T>, k: nat): seq<T> {
    if k == 0 then [] else FirstPages(s, k - 1) + PageOf(s, k)
  }

  lemma {:induction false} FirstPagesPrefix<T>(s: seq<T>, k: nat)
    ensures FirstPages(s, k) == s[..Pagination.Min(k * ItemsPerPage, |s|)]
  {
    if k > 0 {
      var a := Pagination.Min((k - 1) * ItemsPerPage, |s|);
      var b := Pagination.Min(k * ItemsPerPage, |s|);
      var earlier, page := FirstPages(s, k - 1), PageOf(s, k);
      FirstPagesPrefix(s, k - 1);
      assert earlier == s[..a];
      PageOfShape(s, k);
      assert page == s[a..b];
      assert FirstPages(s, k) == earlier + page;
      assert s[..a] + s[a..b] == s[..b];
    }
  }

  /** Pages `1..totalPages` concatenate back to the filtered list. */
  lemma PagesCoverList<T>(s: seq<T>)
    ensures FirstPages(s, TotalPages(|s|)) == s
  {
    FirstPagesPrefix(s, TotalPages(|s|));
    TotalPagesBounds(|s|);
  }

  /** The status map the `users` effect builds, in list order: a later user with the same
      id overwrites an earlier one. */
  function StatusOf(users: seq<User>): (m: map<int, bool>)
    ensures forall i :: 0 <= i < |users| ==> users[i].id in m
  {
    if users == [] then map[]
    else StatusOf(users[..|users| - 1])[users[|users| - 1].id := users[|users| - 1].status]
  }

  /** `users.forEach(user => { initialStatus[user.id] = user.status })`. */
  method BuildInitialStatus(users: seq<User>) returns (m: map<int, bool>)
    ensures m == StatusOf(users)
  {
    m := map[];
    var i := 0;
    while i < |users|
      invariant 0 <= i <= |users|
      invariant m == StatusOf(users[..i])
    {
      assert users[..i + 1][..i] == users[..i];
      m := m[users[i].id := users[i].status];
      i := i + 1;
    }
    assert users[..i] == users;
  }

  /** The map has exactly the listed ids, and each holds the status of the last user
      listed with that id. */
  lemma {:induction false} StatusOfMeaning(users: seq<User>)
    ensures forall id :: id in StatusOf(users) <==> exists i :: 0 <= i < |users| && users[i].id == id
    ensures forall i :: 0 <= i < |users| && (forall j :: i < j < |users| ==> users[j].id != users[i].id) ==>
      users[i].id in StatusOf(users) && StatusOf(users)[users[i].id] == users[i].status
  {
    if users != [] {
      var init := users[..|users| - 1];
      StatusOfMeaning(init);
      forall id | id in StatusOf(users) ensures exists i :: 0 <= i < |users| && users[i].id == id {
        if id != users[|users| - 1].id {
          assert id in StatusOf(init);
          var i :| 0 <= i < |init| && init[i].id == id;
          assert users[i].id == id;
        }
      }
      forall i | 0 <= i < |users| - 1 ensures init[i] == users[i] { }
    }
  }

  /** The status shown by a switch: `localUserStatus[user.id] ?? user.status`. */
  function Shown(m: map<int, bool>, u: User): (shown: bool)
    ensures u.id in m ==> shown == m[u.id]
    ensures u.id !in m ==> shown == u.status
  {
    if u.id in m then m[u.id] else u.status
  }

  /** An error after a toggle leaves `!newStatus` for that user and nothing else changed. */
  lemma ToggleThenError(m: map<int, bool>, userId: int, newStatus: bool)
    ensures m[userId := newStatus][userId := !newStatus] == m[userId := !newStatus]
    ensures forall id :: id in m && id != userId ==> m[userId := newStatus][userId := !newStatus][id] == m[id]
  {
  }

  /** A switch sends the negation of what it shows, and then the rollback restores what
      the user saw before the click. */
  lemma SwitchRollbackRestores(m: map<int, bool>, u: User)
    ensures var newStatus := !Shown(m, u);
      Shown(m[u.id := newStatus][u.id := !newStatus], u) == Shown(m, u)
  {
  }

  /** The rollback negates the request instead of restoring a saved value: a request equal
      to the shown status (a repeated event) flips the shown status when it fails. */
  lemma RollbackIsNotRestore(m: map<int, bool>, u: User)
    ensures var newStatus := Shown(m, u);
      Shown(m[u.id := newStatus][u.id := !newStatus], u) != Shown(m, u)
  {
  }

  /** The `updateUserStatus` request a toggle sends. */
  datatype StatusRequest = StatusRequest(id: int, isActive: bool)

  /** One table row. */
  datatype Row = Row(
    user: User,
    roleLabel: string,
    addressLabel: string,
    checked: bool,
    switchDisabled: bool,
    ownAccountTag: bool)

  /** What the component renders. */
  datatype Screen =
    | Spinner
    | LoadError(message: string)
    | NoUsers(message: string)
    | Table(rows: seq<Row>, pagination: Pagination.View)

  function RoleLabel(t: AccountType): string {
    if t == Admin then "Administrador" else "Cliente"
  }

  function AddressParts(a: Address): seq<string> {
    [a.street, a.number, a.district, a.city, a.state, a.zipCode]
  }

  /** The address cell: the non-empty parts of an address object joined by ", ", a
      non-empty string as it is, and otherwise 'Endereço não informado'. */
  function AddressLabel(a: UserAddress): (cell: string)
    ensures !a.AddressObject? ==> cell != ""
    ensures a.AddressText? && a.text != "" ==> cell == a.text
    ensures a.NoAddress? ==> cell == "Endereço não informado"
  {
    match a
    case AddressObject(addr) => Join(Filter(s => s != "", AddressParts(addr)), ", ")
    case AddressText(t) => if t != "" then t else "Endereço não informado"
    case NoAddress => "Endereço não informado"
  }

  /** Every non-empty part of an address object appears in its label; an object whose six
      parts are all empty shows an empty cell, not the fallback text. */
  lemma AddressLabelParts(addr: Address)
    ensures forall s :: s in AddressParts(addr) && s != "" ==> Contains(AddressLabel(AddressObject(addr)), s)
    ensures (forall s :: s in AddressParts(addr) ==> s == "") ==> AddressLabel(AddressObject(addr)) == ""
  {
    var p := (s: string) => s != "";
    var kept := Filter(p, AddressParts(addr));
    forall s | s in AddressParts(addr) && s != "" ensures Contains(Join(kept, ", "), s) {
      FilterMembership(p, AddressParts(addr), s);
      var i :| 0 <= i < |kept| && kept[i] == s;
      JoinContainsEach(kept, ", ", i);
    }
    if forall s :: s in AddressParts(addr) ==> s == "" {
      var parts := AddressParts(addr);
      forall i | 0 <= i < |parts| ensures !p(parts[i]) {
        assert parts[i] in parts;
      }
      FilterKeepsNone(p, parts);
    }
  }

  /** Without an address object the cell shows the text, or the fallback when empty. */
  lemma AddressLabelText(a: UserAddress)
    requires !a.AddressObject?
    ensures AddressLabel(a) == "Endereço não informado" <==> a.NoAddress? || a.text == "" || a.text == "Endereço não informado"
    ensures a.AddressText? && a.text != "" ==> AddressLabel(a) == a.text
  {
  }

  function RowOf(u: User, m: map<int, bool>, currentUserId: Option<int>): (r: Row)
    ensures r.checked == Shown(m, u)
    ensures r.switchDisabled <==> currentUserId == Some(u.id)
    ensures r.ownAccountTag == r.switchDisabled
  {
    var own := currentUserId == Some(u.id);
    Row(u, RoleLabel(u.accountType), AddressLabel(u.address), Shown(m, u), own, own)
  }

  /** The component's state. */
  class UsersTableState {
    var users: seq<User>
    var name: string
    var date: Option<string>
    var currentPage: int
    var localUserStatus: map<int, bool>

    constructor()
      ensures users == [] && name == "" && date == None && currentPage == 1 && localUserStatus == map[]
    {
      users := [];
      name := "";
      date := None;
      currentPage := 1;
      localUserStatus := map[];
    }

    function Filtered(): seq<User>
      reads this
    {
      FilteredUsers(users, name, date)
    }

    /** Typing a name; the `[name, date]` effect sends the table back to page 1. */
    method SetName(newName: string)
      modifies this
      ensures name == newName && currentPage == 1
      ensures users == old(users) && date == old(date) && localUserStatus == old(localUserStatus)
    {
      name := newName;
      currentPage := 1;
    }

    /** Picking (or clearing) a day, as the `YYYY-MM-DD` prefix of its ISO string. */
    method SetDate(newDate: Option<string>)
      modifies this
      ensures date == newDate && currentPage == 1
      ensures users == old(users) && name == old(name) && localUserStatus == old(localUserStatus)
    {
      date := newDate;
      currentPage := 1;
    }

    /** `onPageChange`. */
    method GoToPage(page: int)
      modifies this
      ensures currentPage == page
      ensures users == old(users) && name == old(name) && date == old(date) && localUserStatus == old(localUserStatus)
    {
      currentPage := page;
    }

    /** A new user list from the query; a non-empty one replaces the status map. */
    method SyncUsers(newUsers: seq<User>)
      modifies this
      ensures users == newUsers
      ensures localUserStatus == if |newUsers| > 0 then StatusOf(newUsers) else old(localUserStatus)
      ensures name == old(name) && date == old(date) && currentPage == old(currentPage)
    {
      users := newUsers;
      if |newUsers| > 0 {
        localUserStatus := BuildInitialStatus(newUsers);
      }
    }

    /** `handleUserStatusChange`: show the new status at once and send the request. */
    method HandleStatusChange(userId: int, newStatus: bool) returns (req: StatusRequest)
      modifies this
      ensures req == StatusRequest(userId, newStatus)
      ensures localUserStatus == old(localUserStatus)[userId := newStatus]
      ensures users == old(users) && name == old(name) && date == old(date) && currentPage == old(currentPage)
    {
      localUserStatus := localUserStatus[userId := newStatus];
      req := StatusRequest(userId, newStatus);
    }

    /** The request's `onError`: write the negation of the requested status. */
    method OnStatusError(userId: int, newStatus: bool)
      modifies this
      ensures localUserStatus == old(localUserStatus)[userId := !newStatus]
      ensures users == old(users) && name == old(name) && date == old(date) && currentPage == old(currentPage)
    {
      localUserStatus := localUserStatus[userId := !newStatus];
    }

    /** A toggle whose request fails, as one step. */
    method ToggleAndFail(userId: int, newStatus: bool)
      modifies this
      ensures localUserStatus == old(localUserStatus)[userId := !newStatus]
      ensures users == old(users) && name == old(name) && date == old(date) && currentPage == old(currentPage)
    {
      var _ := HandleStatusChange(userId, newStatus);
      OnStatusError(userId, newStatus);
    }

    /** The screen for the current state: the rows of the current page are consecutive
        users of the list that match both filters, each showing its status from
        `localUserStatus`, falling back to the user's own. */
    function Render(isLoading: bool, hasError: bool, currentUserId: Option<int>): (s: Screen)
      reads this
      ensures isLoading ==> s == Spinner
      ensures !isLoading && hasError ==> s == LoadError("Erro ao carregar usuários")
      ensures !isLoading && !hasError ==> (s.NoUsers? <==> Filtered() == []) && (s.Table? <==> Filtered() != [])
      ensures s.NoUsers? ==> s.message == "Nenhum usuário encontrado"
      ensures s.Table? ==>
        && |s.rows| == |PageOf(Filtered(), currentPage)|
        && forall i :: 0 <= i < |s.rows| ==> s.rows[i] == RowOf(PageOf(Filtered(), currentPage)[i], localUserStatus, currentUserId)
      ensures s.Table? ==> forall i :: 0 <= i < |s.rows| ==>
        (s.rows[i].switchDisabled <==> currentUserId == Some(s.rows[i].user.id)) && s.rows[i].ownAccountTag == s.rows[i].switchDisabled
      ensures s.Table? ==> forall i :: 0 <= i < |s.rows| ==>
        && s.rows[i].user in users && MatchesName(s.rows[i].user, name) && MatchesDate(s.rows[i].user, date)
        && s.rows[i].checked == (if s.rows[i].user.id in localUserStatus then localUserStatus[s.rows[i].user.id] else s.rows[i].user.status)
      ensures s.Table? && currentPage >= 1 ==> forall i :: 0 <= i < |s.rows| ==>
        (currentPage - 1) * ItemsPerPage + i < |Filtered()| && s.rows[i].user == Filtered()[(currentPage - 1) * ItemsPerPage + i]
      ensures s.Table? ==> s.pagination.pages != [] && (s.pagination.nextDisabled <==> currentPage >= TotalPages(|Filtered()|))
    {
      FilteredUsersMeaning(users, name, date);
      Pagination.WindowEmpty(currentPage, TotalPages(|Filtered()|));
      ScreenOf(isLoading, hasError, Filtered(), currentPage, localUserStatus, currentUserId)
    }
  }

  /** The screen: spinner, load error, empty result, or the current page's rows with the
      pagination bar. */
  function ScreenOf(isLoading: bool, hasError: bool, filtered: seq<User>, currentPage: int,
                    status: map<int, bool>, currentUserId: Option<int>): (s: Screen)
    ensures isLoading ==> s == Spinner
    ensures !isLoading && hasError ==> s == LoadError("Erro ao carregar usuários")
    ensures !isLoading && !hasError && filtered == [] ==> s == NoUsers("Nenhum usuário encontrado")
    ensures !isLoading && !hasError && filtered != [] ==> s.Table?
    ensures s.Table? ==> |s.rows| <= ItemsPerPage
    ensures s.Table? ==> forall i :: 0 <= i < |s.rows| ==> s.rows[i].user in filtered
    ensures s.Table? ==> (s.pagination.nextDisabled <==> currentPage >= TotalPages(|filtered|))
    ensures s.Table? ==> (s.pagination.previousDisabled <==> currentPage <= 1)
    ensures s.Table? ==>
      s.pagination == Pagination.Render(currentPage, TotalPages(|filtered|), currentPage < TotalPages(|filtered|), currentPage > 1, ItemsPerPage, |filtered|)
    ensures s.Table? ==>
      && |s.rows| == |PageOf(filtered, currentPage)|
      && forall i :: 0 <= i < |s.rows| ==> s.rows[i] == RowOf(PageOf(filtered, currentPage)[i], status, currentUserId)
    ensures s.Table? && currentPage >= 1 ==>
      && |s.rows| == Pagination.Min(currentPage * ItemsPerPage, |filtered|) - Pagination.Min((currentPage - 1) * ItemsPerPage, |filtered|)
      && forall i :: 0 <= i < |s.rows| ==>
        (currentPage - 1) * ItemsPerPage + i < |filtered| && s.rows[i].user == filtered[(currentPage - 1) * ItemsPerPage + i]
  {
    if isLoading then Spinner
    else if hasError then LoadError("Erro ao carregar usuários")
    else if filtered == [] then NoUsers("Nenhum usuário encontrado")
    else
      var totalPages := TotalPages(|filtered|);
      var page := PageOf(filtered, currentPage);
      if currentPage >= 1 then
        PageItems(filtered, currentPage);
        Table(Rows(page, status, currentUserId),
              Pagination.Render(currentPage, totalPages, currentPage < totalPages, currentPage > 1, ItemsPerPage, |filtered|))
      else
        Table(Rows(page, status, currentUserId),
              Pagination.Render(currentPage, totalPages, currentPage < totalPages, currentPage > 1, ItemsPerPage, |filtered|))
  }

  /** One row per user of a page, in order. */
  function Rows(page: seq<User>, status: map<int, bool>, currentUserId: Option<int>): (rows: seq<Row>)
    ensures |rows| == |page|
    ensures forall i :: 0 <= i < |page| ==> rows[i] == RowOf(page[i], status, currentUserId) && rows[i].user == page[i]
  {
    seq(|page|, i requires 0 <= i < |page| => RowOf(page[i], status, currentUserId))
  }

  /** Item i of page p is item (p-1)*8 + i of the list. */
  lemma PageItems<T>(s: seq<T>, page: int)
    requires page >= 1
    ensures |PageOf(s, page)| == Pagination.Min(page * ItemsPerPage, |s|) - Pagination.Min((page - 1) * ItemsPerPage, |s|)
    ensures forall i :: 0 <= i < |PageOf(s, page)| ==>
      (page - 1) * ItemsPerPage + i < |s| && PageOf(s, page)[i] == s[(page - 1) * ItemsPerPage + i]
  {
    PageOfShape(s, page);
  }

  /** The table's switch for a user: clicking it requests the negation of what it shows, and
      if that request fails the switch shows its old value again. */
  lemma SwitchErrorRestoresRow(t: UsersTableState, u: User, currentUserId: Option<int>)
    ensures var before := RowOf(u, t.localUserStatus, currentUserId);
      var newStatus := !before.checked;
      RowOf(u, t.localUserStatus[u.id := newStatus][u.id := !newStatus], currentUserId).checked == before.checked
  {
    SwitchRollbackRestores(t.localUserStatus, u);
  }
}
