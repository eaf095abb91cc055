# goold-frontend booking client — a verified Dafny model of its logic

goold-frontend is the web client of a room-booking service. Its customers pick a room and a
start time, and its administrators manage rooms, users and logs. Almost all of it is
request wrappers and JSX. This project models the deterministic pieces that decide what the
user sees or can do, and proves what those pieces guarantee:

- **Slot pickers.** The fixed half-hourly picker, the room-aware picker, the advanced picker
  with availability and morning/afternoon sections, and the opening/closing-time options
  of the "new room" form. Times are minutes since midnight. The `HH:MM` labels are a
  function of them (`TimeOfDay.FormatTime`), and every generating loop is a method with
  its invariants, proved equal to a closed-form list of minutes.
- **The "new room" form.** Its validation schema, the interval parse on submit and the
  summary label.
- **Pagination.** The sliding window of at most five page buttons, the item range, the
  first/last buttons and their ellipses.
- **The users table.** Name and date filters, eight users per page, and the optimistic map
  from user id to switch status. The map is rebuilt from the list, updated on a toggle
  and rolled back on failure.
- **The session.** The auth provider's state (user, token, loading, verified-once) and
  `localStorage` (a shared `map<string,string>`). Also the HTTP interceptors that attach
  the bearer token and clear the session on a 401.
- **Smaller pieces.** CEP (Brazilian postal code) cleaning, formatting and the lookup's
  result mapping. The protected-route decision. The room selector's search, its count
  label and its selection flag.
- **Query keys.** The key factories of the schedule, room and log hooks, and what each
  mutation invalidates.

Modules follow the source files. `Wrappers`, `Text`, `Seqs`, `TimeOfDay`, `AuthTypes` and
`QueryKey` hold the shared vocabulary: Option/Result, digits, `padStart`, ASCII lowercase,
`includes`, `join`, `split(c)[0]`, `parseInt`, `filter`, key prefixes. JavaScript value
semantics are written out where they matter:

- truthiness, where an empty string is false (`Text.Truthy`);
- `||` and `??` defaults, and default parameters (`Option.GetOr`);
- `slice` with negative indices (`UsersTable.SliceIndex`);
- `undefined` past the end of an array (`QueryKey.At`);
- `NaN` from `parseInt` (`Text.ParseIntPrefix` returns `None`).

Remote results (login, signup, profile, mutations, the ViaCEP lookup) and `JSON.parse` are
method parameters. `JSON.stringify` is an abstract `User -> string`. Router pushes and
`window.location` assignments are returned as values.

Three behaviours of the code are easy to misread, and the model keeps them as written:

- A configured room yields ⌈(closing − opening) / interval⌉ slots, a ceiling. A partial
  last interval still gets its slot.
- The status rollback writes `!newStatus`, not a saved previous value.
- `isAuthenticated` is `!!user && !!token`, so an empty stored token counts as signed out.

## Model

| member | source | states |
|---|---|---|
| TimeOfDay.ParseFormatTime | src/components/schedule/RoomTimePicker.tsx:43 | every minute of the day formats as well-formed `HH:MM` text that parses back to that minute |
| TimeOfDay.FormatParseTime | src/components/schedule/RoomTimePicker.tsx:29-30 | well-formed `HH:MM` text, parsed with `split(':').map(Number)` and formatted again, is the same text |
| TimeOfDay.FormatTimeInjective | src/components/schedule/TimePicker.tsx:17 | two minutes with the same zero-padded label are equal (first hundred hours) |
| TimeOfDay.HourOfFormatTime | src/components/schedule/AdvancedTimePicker.tsx:62 | `parseInt(label.split(':')[0])` reads back the hour the label was built from |
| Text.PadStart2Value | src/components/schedule/TimePicker.tsx:17 | `n.toString().padStart(2,'0')` is at least two decimal digits whose value is `n` |
| Text.ContainsIffOccurs | src/components/schedule/RoomSelector.tsx:19-21 | `includes` holds iff some contiguous window of the text equals the term |
| Text.ParseIntPrefix | src/components/schedule/CreateRoomModal.tsx:47 | `parseInt` is NaN exactly when the text does not start with a digit |
| Text.BeforeFirst | src/components/users/UsersTable.tsx:54 | `split('T')[0]` is a prefix without the separator, followed by the separator when shorter than the text |
| Text.JoinContainsEach | src/components/users/UsersTable.tsx:185 | every joined part occurs in the joined text |
| TimePicker.GenerateTimeSlots | src/components/schedule/TimePicker.tsx:12-22 | the nested loops with the `break` return exactly the labels of 08:00, 08:30, …, 18:00 |
| TimePicker.GridShape | src/components/schedule/TimePicker.tsx:14-17 | 21 slots, "08:00" first and "18:00" last, 30 minutes apart, strictly increasing, none after 18:00, minutes "00" or "30", all distinct |
| TimePicker.Buttons | src/components/schedule/TimePicker.tsx:29-38 | one button per slot, selected iff it equals `value`, disabled iff it is in `disabledTimes` |
| TimePicker.OnClick | src/components/schedule/TimePicker.tsx:44 | a click always passes the button's time on; the handler ignores `disabled` (the room picker's handler at RoomTimePicker.tsx:95 is the same and uses it) |
| TimePicker.ClickSelectsSlot | src/components/schedule/TimePicker.tsx:44 | a click hands on the button's slot whether or not it is disabled |
| RoomTimePicker.Slots | src/components/schedule/RoomTimePicker.tsx:14-50 | every slot is a well-formed `HH:MM` time and the slots strictly increase |
| RoomTimePicker.GenerateTimeSlots | src/components/schedule/RoomTimePicker.tsx:14-50 | the generated list is the default grid for a missing or unconfigured room, else the labels of the configured minutes |
| RoomTimePicker.ConfiguredTimeSlots | src/components/schedule/RoomTimePicker.tsx:40-47 | the `while` loop returns the labels of opening, opening + interval, … up to ⌈span/interval⌉ steps |
| RoomTimePicker.UnconfiguredRoomGetsDefaultGrid | src/components/schedule/RoomTimePicker.tsx:15-24 | with no room or a falsy opening, closing or interval (0 included), the slots are the 21 labels 08:00 … 18:00 |
| RoomTimePicker.ConfiguredMinutesShape | src/components/schedule/RoomTimePicker.tsx:42-47 | ⌈(end − start)/interval⌉ minutes, none when end ≤ start, the first is the opening, all in [opening, closing), one interval apart, strictly increasing |
| RoomTimePicker.ConfiguredSlots | src/components/schedule/RoomTimePicker.tsx:29-47 | configured slots are well-formed labels of those minutes, the first is the room's own opening text, and the closing text is never offered |
| RoomTimePicker.NineToQuarterPastTen | src/components/schedule/RoomTimePicker.tsx:42-47 | 09:00–10:15 every 30 minutes gives exactly 09:00, 09:30, 10:00 |
| RoomTimePicker.Render | src/components/schedule/RoomTimePicker.tsx:52-110 | no room gives the "select a room" view; a falsy opening or closing gives the "no hours" view; otherwise one button per slot, disabled iff booked, selected iff `value`, plus the empty message iff there are no slots |
| RoomTimePicker.ClickSelectsSlot | src/components/schedule/RoomTimePicker.tsx:95 | a click on a grid button selects that button's slot; the handler does not check `disabled` |
| RoomTimePicker.HoursWithoutIntervalShowDefaultGrid | src/components/schedule/RoomTimePicker.tsx:52-69 | a room with hours but no (or zero) interval passes the guard and shows the default 08:00–18:00 grid |
| AdvancedTimePicker.Generated | src/components/schedule/AdvancedTimePicker.tsx:23-47 | one slot per generated minute, available iff its time is not booked, labelled with its own time |
| AdvancedTimePicker.GenerateTimeSlots | src/components/schedule/AdvancedTimePicker.tsx:23-47 | the nested loops (break after `:00` in the last hour) return exactly the generated slot list |
| AdvancedTimePicker.SlotCount | src/components/schedule/AdvancedTimePicker.tsx:31-33 | (endHour − startHour)·⌈60/interval⌉ + 1 slots, and none when startHour > endHour |
| AdvancedTimePicker.SlotMinutesElements | src/components/schedule/AdvancedTimePicker.tsx:31-33 | every slot's hour is in [startHour, endHour], its minute is a multiple of the interval, and in endHour it is `:00` |
| AdvancedTimePicker.SlotMinutesCover | src/components/schedule/AdvancedTimePicker.tsx:31-33 | every hour in range at every offset j·interval < 60 is emitted, only `:00` in endHour |
| AdvancedTimePicker.SlotMinutesIncreasing | src/components/schedule/AdvancedTimePicker.tsx:31-44 | the generated minutes are strictly increasing |
| AdvancedTimePicker.SlotMinutesEven | src/components/schedule/AdvancedTimePicker.tsx:31-33 | when the interval divides 60 the slots are an even grid from startHour:00 to endHour:00 |
| AdvancedTimePicker.DefaultPropsGiveDefaultDay | src/components/schedule/AdvancedTimePicker.tsx:24-26 | the defaults 8/18/30 give the 21 slots 08:00 … 18:00 of the plain picker |
| AdvancedTimePicker.GeneratedMarking | src/components/schedule/AdvancedTimePicker.tsx:35-41 | each slot's time is the label of its minute, its label is its time, and it is available iff not in `unavailableTimes` |
| AdvancedTimePicker.MorningSlots | src/components/schedule/AdvancedTimePicker.tsx:61-64 | only slots whose hour parses below 12, no more than given |
| AdvancedTimePicker.AfternoonSlots | src/components/schedule/AdvancedTimePicker.tsx:66-69 | only slots whose hour parses to 12 or more, no more than given |
| AdvancedTimePicker.SectionsOfAnySlots | src/components/schedule/AdvancedTimePicker.tsx:61-69 | each section is an order-preserving subsequence and a slot is morning (hour < 12) or afternoon (hour ≥ 12) by its parsed hour; an unparsable hour is in neither |
| AdvancedTimePicker.SectionsPartition | src/components/schedule/AdvancedTimePicker.tsx:61-69 | when every hour parses the two sections together hold every slot |
| AdvancedTimePicker.GeneratedSections | src/components/schedule/AdvancedTimePicker.tsx:61-69 | for generated slots with endHour < 100 (the range in which the labels' hours read back), morning followed by afternoon is exactly the generated list |
| AdvancedTimePicker.SlotsToShow | src/components/schedule/AdvancedTimePicker.tsx:59 | supplied slots, even an empty list, are used as they are, whatever the interval; otherwise the generated ones |
| AdvancedTimePicker.ButtonOf | src/components/schedule/AdvancedTimePicker.tsx:78-96 | a button is disabled iff its slot is unavailable, selected iff `value`, and shows the label when truthy, else the time |
| AdvancedTimePicker.Buttons | src/components/schedule/AdvancedTimePicker.tsx:78-99 | one button per slot in section order |
| AdvancedTimePicker.Render | src/components/schedule/AdvancedTimePicker.tsx:104-114 | a section is shown iff it is non-empty, with that section's buttons; the "no slots" message iff the list is empty; supplied slots need no positive interval |
| AdvancedTimePicker.OnClick | src/components/schedule/AdvancedTimePicker.tsx:94 | a click selects iff the slot is available, and then selects its time |
| AdvancedTimePicker.BookedTimeNeverSelected | src/components/schedule/AdvancedTimePicker.tsx:94 | a booked generated slot never reaches `onSelect` |
| CreateRoomModal.GenerateTimeOptions | src/components/schedule/CreateRoomModal.tsx:60-69 | the nested loops return exactly the labels of 00:00, 00:30, …, 23:30 |
| CreateRoomModal.TimeOptionsShape | src/components/schedule/CreateRoomModal.tsx:60-69 | 48 options, "00:00" first and "23:30" last, 30 minutes apart, strictly increasing, well-formed, minutes "00" or "30" |
| CreateRoomModal.RequiredText | src/components/schedule/CreateRoomModal.tsx:13-15 | a text field passes iff set and non-empty; an empty one fails with the field's message |
| CreateRoomModal.IntervalChoice | src/components/schedule/CreateRoomModal.tsx:16-18 | the interval passes iff it is "15", "30" or "60"; every failure carries 'Selecione um intervalo válido' |
| CreateRoomModal.Validate | src/components/schedule/CreateRoomModal.tsx:12-19 | a rejection lists at least one error; an acceptance returns the form's own values |
| CreateRoomModal.ValidateIff | src/components/schedule/CreateRoomModal.tsx:12-19 | the schema accepts iff number, opening and closing are non-empty and the interval is one of the three choices |
| CreateRoomModal.ValidateMessages | src/components/schedule/CreateRoomModal.tsx:13-18 | each bad field is reported with its own Portuguese message |
| CreateRoomModal.TimesNotCompared | src/components/schedule/CreateRoomModal.tsx:12-19 | swapping opening and closing keeps validity, so closing ≤ opening is accepted |
| CreateRoomModal.Submit | src/components/schedule/CreateRoomModal.tsx:43-48 | a request is always sent with the form's three texts; its interval is `NaN` exactly when the chosen text has no leading digit |
| CreateRoomModal.HandleCreateRoom | src/components/schedule/CreateRoomModal.tsx:41-57 | the modal is closed, the form reset and `onSuccess` called iff the request succeeded, with 'Sala criada com sucesso!'; a failure shows only 'Erro ao criar sala. Tente novamente.' |
| CreateRoomModal.SubmittedInterval | src/components/schedule/CreateRoomModal.tsx:41-48 | every accepted form yields a request with the form's texts and interval 15, 30 or 60, the parse of the choice, never `NaN` |
| CreateRoomModal.ChoiceParses | src/components/schedule/CreateRoomModal.tsx:47 | `parseInt` of "15", "30", "60" gives 15, 30, 60 |
| CreateRoomModal.DefaultFormInterval | src/components/schedule/CreateRoomModal.tsx:34-36 | the default form fails on its three unset fields only; its interval "30" is valid |
| CreateRoomModal.SummaryLabel | src/components/schedule/CreateRoomModal.tsx:158 | "1 hora" for "60", "<n> minutos" for any other value, "undefined minutos" when unset |
| Pagination.Window | src/components/ui/pagination.tsx:26-42 | the closed-form window has max(0, min(5, totalPages)) pages |
| Pagination.GetVisiblePages | src/components/ui/pagination.tsx:26-42 | the start/end adjustment and push loop return exactly the closed-form window, for any integers |
| Pagination.WindowShape | src/components/ui/pagination.tsx:30-39 | for 1 ≤ current ≤ total: min(5, total) consecutive pages inside [1, total] that contain the current page |
| Pagination.WindowCentred | src/components/ui/pagination.tsx:30 | away from both ends the current page is the middle of the five |
| Pagination.WindowEmpty | src/components/ui/pagination.tsx:31-39 | the window is empty iff there are no pages |
| Pagination.Render | src/components/ui/pagination.tsx:23-122 | "Mostrando start a end de total" from `StartItem`/`EndItem`/`totalItems`; one button per window page, active iff current; previous/next disabled iff not `hasPreviousPage`/`hasNextPage`; the first button iff the window starts after 1, its ellipsis iff after 2; the last button iff the window ends before the last page, its ellipsis iff at least two before |
| Pagination.LeadingButtons | src/components/ui/pagination.tsx:65-79 | the "1" button shows iff current > 3 and total > 5, its ellipsis iff current > 4 and total > 6 |
| Pagination.TrailingButtons | src/components/ui/pagination.tsx:93-107 | the last-page button shows iff current < total − 2 and total > 5, its ellipsis iff current < total − 3 and total > 6 |
| Pagination.OneActiveButton | src/components/ui/pagination.tsx:81-91 | exactly one numbered button is active |
| Pagination.StartItem | src/components/ui/pagination.tsx:23 | the items before the first one shown are exactly those of the earlier pages |
| Pagination.EndItem | src/components/ui/pagination.tsx:24 | the last item shown is the end of the page, or the last item when fewer are left |
| Pagination.ItemRange | src/components/ui/pagination.tsx:23-24 | 1 ≤ start ≤ end ≤ totalItems, and the page counts min(itemsPerPage, items left) items |
| Pagination.EnabledTargetsInRange | src/components/ui/pagination.tsx:53-119 | with the users table's props every enabled button asks for a page in [1, total] |
| UsersTable.FilteredUsers | src/components/users/UsersTable.tsx:43-60 | no more users than the list, each matching the name and the date filter |
| UsersTable.FilteredUsersMeaning | src/components/users/UsersTable.tsx:43-60 | a user is listed iff listed and matching name (lowercased "first last" contains the term) and date (`createdAt` before 'T'); order is kept; no filter keeps all |
| UsersTable.TotalPages | src/components/users/UsersTable.tsx:63 | there is always at least one page |
| UsersTable.TotalPagesBounds | src/components/users/UsersTable.tsx:62-63 | the pages hold every item, an empty list has one page, and the last page is non-empty otherwise |
| UsersTable.SliceIndex | src/components/users/UsersTable.tsx:66 | `slice` indices, negative ones counted from the end, land inside the list |
| UsersTable.Slice | src/components/users/UsersTable.tsx:66 | `slice` gives the items from the normalised start to the normalised end, in order, and nothing when they cross |
| UsersTable.PageOf | src/components/users/UsersTable.tsx:66 | any page number, in range or not, gives at most eight users, all from the list |
| UsersTable.PageOfShape | src/components/users/UsersTable.tsx:66 | page p is items (p−1)·8 … p·8 that exist, at most eight, empty past the last page |
| UsersTable.FirstPagesPrefix | src/components/users/UsersTable.tsx:66 | pages 1..k laid end to end are the first min(8k, n) items |
| UsersTable.PagesCoverList | src/components/users/UsersTable.tsx:62-66 | pages 1..totalPages concatenate back to the filtered list |
| UsersTable.StatusOf | src/components/users/UsersTable.tsx:35-38 | every listed id has an entry in the status map |
| UsersTable.BuildInitialStatus | src/components/users/UsersTable.tsx:33-41 | the `forEach` loop builds the id-to-status map of the list |
| UsersTable.StatusOfMeaning | src/components/users/UsersTable.tsx:35-38 | the map has exactly the listed ids, each with the status of the last user with that id |
| UsersTable.Shown | src/components/users/UsersTable.tsx:203 | a switch shows the map's entry for its user when there is one, else the user's own status |
| UsersTable.ToggleThenError | src/components/users/UsersTable.tsx:68-83 | toggle then error leaves `!newStatus` for that user and every other entry unchanged |
| UsersTable.SwitchRollbackRestores | src/components/users/UsersTable.tsx:78-82 | a switch sends the negation of what it shows, so the rollback shows the old value again |
| UsersTable.RollbackIsNotRestore | src/components/users/UsersTable.tsx:78-82 | a request equal to the shown status is flipped by its rollback: the rollback negates the request, it does not restore |
| UsersTable.AddressLabel | src/components/users/UsersTable.tsx:177-186 | a cell without an address object is never empty: its text, or 'Endereço não informado' when absent |
| UsersTable.AddressLabelParts | src/components/users/UsersTable.tsx:177-185 | every non-empty part of an address object appears in its cell; an all-empty object gives an empty cell |
| UsersTable.AddressLabelText | src/components/users/UsersTable.tsx:186 | a non-object address shows its text, or 'Endereço não informado' when absent or empty |
| UsersTable.RowOf | src/components/users/UsersTable.tsx:160-211 | a row shows `localUserStatus[id] ?? status`; its switch is disabled, and tagged "(Sua conta)", iff it is the current user's |
| UsersTable.ScreenOf | src/components/users/UsersTable.tsx:87-146 | spinner while loading, then the load error, then "Nenhum usuário encontrado" when nothing matches; otherwise row i is `RowOf` of user (p−1)·8 + i of the filtered list, the page's min(8p, n) − min(8(p−1), n) users, and the bar is `Pagination.Render` with the table's props, next/previous disabled at the ends |
| UsersTable.SwitchErrorRestoresRow | src/components/users/UsersTable.tsx:202-204 | a failed toggle leaves a row's switch where it was before the click |
| UsersTable.UsersTableState.constructor | src/components/users/UsersTable.tsx:20-26 | empty list, no filters, page 1, empty status map |
| UsersTable.UsersTableState.SetName | src/components/users/UsersTable.tsx:29-31 | a name change sets the filter and returns to page 1, nothing else changes |
| UsersTable.UsersTableState.SetDate | src/components/users/UsersTable.tsx:29-31 | a date change sets the filter and returns to page 1, nothing else changes |
| UsersTable.UsersTableState.GoToPage | src/components/users/UsersTable.tsx:227 | only the current page changes |
| UsersTable.UsersTableState.SyncUsers | src/components/users/UsersTable.tsx:33-41 | a non-empty list replaces the status map with its own; an empty one keeps the old map |
| UsersTable.UsersTableState.HandleStatusChange | src/components/users/UsersTable.tsx:68-76 | the new status is shown at once for that id only, and the request carries it |
| UsersTable.UsersTableState.OnStatusError | src/components/users/UsersTable.tsx:78-82 | the rollback writes `!newStatus` for that id only |
| UsersTable.UsersTableState.ToggleAndFail | src/components/users/UsersTable.tsx:68-84 | a toggle whose request fails ends with `!newStatus` for that id, the rest unchanged |
| UsersTable.UsersTableState.Render | src/components/users/UsersTable.tsx:87-211 | "Nenhum usuário encontrado" iff no listed user matches, else the table; one row per user of the current page, each `RowOf` that user (switch disabled and "(Sua conta)" iff it is the current user's); each row's user is in the list and matches the name and date filters, row i is user (p−1)·8 + i of the matches, its switch shows `localUserStatus` or else the user's status, and the bar has pages with next disabled on the last page |
| SearchCep.CleanCep | src/utils/functions/search-cep.ts:89 | the cleaned CEP is digits only and no longer than the input |
| SearchCep.CleanCepMeaning | src/utils/functions/search-cep.ts:34 | removing non-digits keeps exactly the digits, in order; a digit string is unchanged |
| SearchCep.FormatCep | src/utils/functions/search-cep.ts:88-96 | at most 9 characters; ≤ 5 digits unchanged; otherwise five digits, '-', and digits 6 to 8 |
| SearchCep.EightDigitShape | src/utils/functions/search-cep.ts:82-95 | eight digits give the `00000-000` shape |
| SearchCep.CleanFormatted | src/utils/functions/search-cep.ts:88-96 | cleaning a formatted CEP gives its first eight digits |
| SearchCep.FormatCepIdempotent | src/utils/functions/search-cep.ts:88-96 | formatting twice equals formatting once |
| SearchCep.ResultOf | src/utils/functions/search-cep.ts:43-79 | success iff a body without `erro`, with data iff success and an error iff failure; `erro` gives 'CEP não encontrado' |
| SearchCep.Search | src/utils/functions/search-cep.ts:34-79 | a wrong cleaned length fails with 'CEP deve ter 8 dígitos' without using the lookup; eight digits give the lookup's result |
| SearchCep.CepRequest | src/utils/functions/search-cep.ts:34-44 | fails with 'CEP deve ter 8 dígitos' iff the cleaned length is not 8, otherwise the ViaCEP URL of the digits |
| SearchCep.NonEmpty | src/utils/functions/search-cep.ts:68-69 | an empty complement or district becomes absent, any other text is kept |
| SearchCep.WrongLengthNeedsNoLookup | src/utils/functions/search-cep.ts:36-41 | a wrong length fails the same way whatever the lookup would return |
| SearchCep.SearchOutcomes | src/utils/functions/search-cep.ts:43-79 | success iff data iff no error; a thrown lookup, a non-OK status and `erro` each give their own message |
| SearchCep.FoundAddress | src/utils/functions/search-cep.ts:62-71 | street, city and state are copied; an empty complement or district becomes absent |
| ProtectedRoute.Decide | src/components/ProtectedRoute.tsx:29-35 | while loading, a spinner and no redirect |
| ProtectedRoute.SignInFirst | src/components/ProtectedRoute.tsx:15-20 | without a session the redirect is `/signin` whatever type is required |
| ProtectedRoute.WrongTypeUnauthorized | src/components/ProtectedRoute.tsx:22-25 | a session of the wrong account type redirects to `/unauthorized` and renders nothing |
| ProtectedRoute.ChildrenIff | src/components/ProtectedRoute.tsx:11-46 | children render iff loaded, authenticated and of the required type (or none required); nothing renders iff a redirect is issued |
| RoomSelector.FilteredRooms | src/components/schedule/RoomSelector.tsx:18-22 | no more rooms than are available, each matching the search |
| RoomSelector.FilteredRoomsMeaning | src/components/schedule/RoomSelector.tsx:18-22 | a room is listed iff available and its lowercased name, location or description contains the term; order is kept |
| RoomSelector.EmptySearchKeepsAll | src/components/schedule/RoomSelector.tsx:18-22 | the empty search lists every room |
| RoomSelector.FilterDistinct | src/components/schedule/RoomSelector.tsx:18-22 | filtering keeps room ids distinct |
| RoomSelector.CountLabelAsWritten | src/components/schedule/RoomSelector.tsx:34 | as written: "1 sala disponível" for one room, "<n> salas disponívelis" for any other count |
| RoomSelector.CountLabelAsWrittenPlural | src/components/schedule/RoomSelector.tsx:34 | as written, 2 and 0 rooms read "salas disponívelis" |
| RoomSelector.CountLabel | src/components/schedule/RoomSelector.tsx:34 | "1 sala disponível" for one room, "<n> salas disponíveis" otherwise |
| RoomSelector.CountLabelsAgreeOnlyForOne | src/components/schedule/RoomSelector.tsx:34 | the corrected and the written labels agree iff the count is 1 |
| RoomSelector.Render | src/components/schedule/RoomSelector.tsx:24-58 | the count label as the source writes it for the matching rooms, one card per match, selected iff `value` is its id, the empty state iff nothing matches |
| RoomSelector.AtMostOneSelected | src/components/schedule/RoomSelector.tsx:44 | with distinct room ids at most one card is selected |
| LocalStorage.Storage.constructor | src/services/api.ts:13 | storage starts with the given entries |
| LocalStorage.Storage.GetItem | src/contexts/AuthContext.tsx:41-42 | `getItem` is `null` iff the key is missing, else the stored value |
| LocalStorage.Storage.SetItem | src/contexts/AuthContext.tsx:82-83 | `setItem` changes that one key |
| LocalStorage.Storage.RemoveItem | src/contexts/AuthContext.tsx:19-20 | `removeItem` drops that one key |
| LocalStorage.Storage.ClearSession | src/services/api.ts:24-25 | both session keys are gone and every other key keeps its value |
| Api.BaseUrl | src/services/api.ts:6 | the environment's URL when truthy, else `http://localhost:3333` |
| Api.RequestConfig.constructor | src/services/api.ts:7-9 | a request config carries the given headers |
| Api.HeadersWith | src/services/api.ts:12-17 | with a truthy token, `Authorization: Bearer <token>`; all other headers unchanged; headers untouched without a token |
| Api.OnRequest | src/services/api.ts:12-18 | the interceptor returns the same config with those headers and modifies nothing else |
| Api.OnResponse | src/services/api.ts:21 | responses pass through unchanged |
| Api.OnResponseError | src/services/api.ts:22-29 | a 401 removes both session keys and goes to `/signin`; other errors leave storage alone; the error is rejected as it came |
| Api.RequestAfterUnauthorized | src/services/api.ts:12-29 | a request sent after a 401 carries no token |
| AuthContext.ErrorMessage | src/contexts/AuthContext.tsx:92-96 | the server's message when the error has a response with a truthy message, else the fallback |
| AuthContext.ErrorMessageNonEmpty | src/contexts/AuthContext.tsx:92-96 | the reported error is never empty |
| AuthContext.LoggedOutIsAnonymous | src/contexts/AuthContext.tsx:16 | without a user nobody is authenticated |
| AuthContext.LoginAuthenticates | src/contexts/AuthContext.tsx:16 | a login response authenticates iff its token is non-empty |
| AuthContext.AuthProvider.constructor | src/contexts/AuthContext.tsx:10-13 | no user or token, loading, not verified |
| AuthContext.AuthProvider.Logout | src/contexts/AuthContext.tsx:18-27 | both keys removed, user and token cleared, verification reset, navigation to `/signin` |
| AuthContext.AuthProvider.Restore | src/contexts/AuthContext.tsx:40-54 | both keys truthy: the session comes from storage, or a stored user that does not parse logs out; otherwise nothing changes; loading ends in every case |
| AuthContext.AuthProvider.VerifyProfile | src/contexts/AuthContext.tsx:29-64 | only when token is truthy, loading is over and the profile is unverified: marks verified, then stores the fetched profile or logs out on failure; otherwise nothing changes; it never fires twice |
| AuthContext.AuthProvider.HomeRedirect | src/contexts/AuthContext.tsx:66-73 | goes to `/` iff loaded, authenticated and on `/signin` or `/signup` |
| AuthContext.AuthProvider.Login | src/contexts/AuthContext.tsx:75-101 | success stores and sets token and user, marks verified and goes to `/`; failure writes nothing and reports the server message or 'Erro ao fazer login'; loading is off afterwards |
| AuthContext.AuthProvider.Signup | src/contexts/AuthContext.tsx:103-124 | a failed signup reports the server message or 'Erro ao criar conta', a failed login after it 'Erro ao criar conta', both writing nothing and keeping the verified flag; otherwise the login's token and user are stored and set, verified, and `/`; loading is off afterwards |
| ScheduleKeys.KeysUnderAll | src/hooks/useSchedules.ts:13-21 | every key starts with `['schedules']`; `list` and `detail` extend `lists` and `details` by one atom |
| ScheduleKeys.DetailInjective | src/hooks/useSchedules.ts:15-18 | detail keys are equal iff the ids are; list keys iff the filters are |
| ScheduleKeys.SecondAtomsDistinct | src/hooks/useSchedules.ts:15-20 | lists, details, my and upcoming differ at index 1 and none is a prefix of another |
| ScheduleKeys.PredicatesMeaning | src/hooks/useSchedules.ts:63-71 | the two predicates are prefix tests on `schedules,paginated` and `schedules,my,paginated`, never both true |
| ScheduleKeys.FactoriesNotPaginated | src/hooks/useSchedules.ts:13-21 | no factory key satisfies either predicate |
| ScheduleKeys.Invalidations | src/hooks/useSchedules.ts:55-167 | every mutation invalidates `all` and both predicates; update and status update also `detail(id)` |
| ScheduleKeys.InvalidatesEverySchedule | src/hooks/useSchedules.ts:61-72 | every key under `schedules` is invalidated by every mutation |
| ScheduleKeys.OthersUntouched | src/hooks/useSchedules.ts:55-167 | no key outside `schedules` is invalidated |
| ScheduleKeys.SingleScheduleQuery | src/hooks/useSchedules.ts:47-53 | the single-schedule query reads `['schedules','detail',id]` and is enabled iff the id is non-zero |
| RoomKeys.KeysShape | src/hooks/useRooms.ts:11-18 | the literal keys, all under `['rooms']`; lists and available unrelated by prefix; detail injective |
| RoomKeys.InvalidationReach | src/hooks/useRooms.ts:44-92 | over `RoomKeys.Invalidations`, the keys each mutation's `onSuccess` invalidates: create and delete reach exactly the room keys; updates reach exactly that detail, the lists and the available rooms, and no other detail |
| RoomKeys.SingleRoomQuery | src/hooks/useRooms.ts:36-42 | the single-room query reads `['rooms','detail',id]` and is enabled iff the id is non-zero |
| LogsKeys.KeysShape | src/hooks/useLogs.ts:8-16 | every key starts with `['logs']`, with the literal list, my and module shapes |
| LogsKeys.KeysDistinct | src/hooks/useLogs.ts:11-15 | list, my and module keys never coincide; each is injective in its arguments |
| LogsKeys.Defaults | src/hooks/useLogs.ts:18-41 | omitted page and limit give page 1 and limit 10 |
| LogsKeys.ModuleQuery | src/hooks/useLogs.ts:34-41 | the module query is enabled iff the module name is non-empty, and its key carries the name |
| LogsKeys.CreateReachesEveryLogQuery | src/hooks/useLogs.ts:43-52 | `LogsKeys.CreateInvalidations`, what creating a log invalidates, reaches every log query |
| PaginatedSchedules.KeysAndPredicates | src/hooks/usePaginatedSchedules.ts:6-20 | both keys are under `scheduleKeys.all` and each satisfies only its own predicate |
| PaginatedSchedules.KeysDistinct | src/hooks/usePaginatedSchedules.ts:8-16 | keys are equal iff (page, limit) after defaults are; the families never prefix each other |
| PaginatedSchedules.MutationsReachPaginated | src/hooks/usePaginatedSchedules.ts:6-20 | every schedule mutation invalidates both paginated queries |

## Left out

- Network and foreign calls are not modelled; their outcomes are parameters. This covers every `src/actions/**` request, `authAPI`, the ViaCEP `fetch` with its JSON decoding, and the creation of the axios instance.
- react-query is not modelled: caching, `staleTime`, retries and the hooks that only wrap it (`useUsers`, `useUser`, `useUpdateUser`, `useUpdateUserStatus`). Matching an invalidation `queryKey` is modelled as a sequence prefix (`QueryKey.StartsWith`).
- Async interleaving is not modelled. Each mutation (the status toggle, login, signup, the profile check) is an atomic step followed by its success or error step.
- `Date` arithmetic and DST in the room picker are not modelled. Minutes since midnight stand in for the `Date` values; every emitted slot lies before the closing time, so it never passes midnight.
- date-fns formatting, the locale and `toISOString` are not modelled. The date filter receives the `YYYY-MM-DD` text.
- Room hours not of the exact form `HH:MM` with HH < 24 and MM < 60 are not modelled. The source also reads "9:00", "09:00:00" and "09:75" (`setHours(9, 75)` rolls over to 10:15), and gives `NaN` for text that is not a number. `RoomTimePicker.WellFormed` is a precondition of `RoomTimePicker.Slots`, `RoomTimePicker.GenerateTimeSlots` and `RoomTimePicker.Render`.
- Negative room intervals are not modelled: `RoomTimePicker.Room.intervalMinutes` is a `nat`. A negative interval is truthy and passes the guard, and the source's `while` loop then never ends when the opening is before the closing.
- AdvancedTimePicker.GenerateTimeSlots: requires `interval > 0`. With 0 the source's minute loop never ends.
- RoomTimePicker.ConfiguredTimeSlots: requires a closing time within the day, which `WellFormed` provides.
- `toLowerCase` is ASCII only (`Text.LowerChar`). Unicode case mapping is not modelled.
- `parseInt` is modelled for unsigned decimal prefixes only; leading whitespace and signs are not modelled. The generated slot hours and the validated interval choices never have them. A caller-supplied `timeSlots` entry whose time starts with whitespace or a sign (" 9:00", "+9:00", "-1:00") is put in neither section by the model, while the source parses its hour and files it under the morning.
- The advanced picker's `startHour`, `endHour` and `interval` props are naturals. Negative or fractional props are not modelled: `startHour = -1` yields "-1:00", which the source files under the morning section.
- `JSON.parse` of the stored user is an outcome parameter (`AuthContext.ParsedUser`). `JSON.stringify` is an abstract function.
- Router pushes and `window.location.href` are returned as values (`navigate`, `location`, `redirect`).
- `getProfile` is folded into `AuthContext.AuthProvider.VerifyProfile`, its only caller, as the profile outcome parameter.
- AuthContext.AuthProvider.Signup: the signup request's fields (name, address, password) are not modelled, only its outcome.
- `AuthContext.AuthProvider.VerifyProfile` sets verified before the request is made. The model marks it in the same step as the request's outcome.
- The console log in the create-room error path is not modelled; its toasts and callbacks are (`CreateRoomModal.HandleCreateRoom`), and the form's field-level wiring (`register`, `setValue`, `watch`) is the `RoomForm` value.
- Styling, icons, class names and the purely presentational components are not modelled.
- `src/mocks/rooms` (the room selector's data source) is not part of this model. The available rooms are a parameter.
- The room picker's fallback runs the same nested loops as the plain picker, so one method serves both (`TimePicker.GenerateTimeSlots`).

## Findings

| source | as written | input that shows it | evidently intended | confidence | as-written member | corrected member |
|---|---|---|---|---|---|---|
| src/components/schedule/RoomSelector.tsx:34 | the plural appends "is" to "disponível" | 2 matching rooms give "2 salas disponívelis" | "2 salas disponíveis" | high; not executed | RoomSelector.CountLabelAsWritten, RoomSelector.CountLabelAsWrittenPlural | RoomSelector.CountLabel, RoomSelector.CountLabelsAgreeOnlyForOne |
