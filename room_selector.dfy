/** The room picker: a search over name, location and description, the count label and the
    selection flag of each card. */
module RoomSelector {
  import opened Wrappers
  import opened Text
  import opened Seqs

  /** The rooms the selector lists. */
  datatype SelectorRoom = SelectorRoom(id: string, name: string, location: string, description: Option<string>)

  /** The search predicate; a room without a description cannot match on it. */
  predicate Matches(room: SelectorRoom, searchTerm: string) {
    var term := Lower(searchTerm);
    || Contains(Lower(room.name), term)
    || Contains(Lower(room.location), term)
    || (room.description.Some? && Contains(Lower(room.description.value), term))
  }

  function FilteredRooms(availableRooms: seq<SelectorRoom>, searchTerm: string): (r: seq<SelectorRoom>)
    ensures |r| <= |availableRooms|
    ensures forall i :: 0 <= i < |r| ==> Matches(r[i], searchTerm)
  {
    Filter(room => Matches(room, searchTerm), availableRooms)
  }

  /** A room is listed iff it is available and matches; order is kept. */
  lemma FilteredRoomsMeaning(availableRooms: seq<SelectorRoom>, searchTerm: string)
    ensures forall r :: r in FilteredRooms(availableRooms, searchTerm) <==> r in availableRooms && Matches(r, searchTerm)
    ensures IsSubsequence(FilteredRooms(availableRooms, searchTerm), availableRooms)
  {
    var p := (room: SelectorRoom) => Matches(room, searchTerm);
    forall r ensures r in Filter(p, availableRooms) <==> r in availableRooms && p(r) {
      FilterMembership(p, availableRooms, r);
    }
    FilterIsSubsequence(p, availableRooms);
  }

  /** The initial, empty search lists every available room. */
  lemma EmptySearchKeepsAll(availableRooms: seq<SelectorRoom>)
    ensures FilteredRooms(availableRooms, "") == availableRooms
  {
    var p := (room: SelectorRoom) => Matches(room, "");
    forall i | 0 <= i < |availableRooms| ensures p(availableRooms[i]) {
      ContainsEmpty(Lower(availableRooms[i].name));
    }
    FilterKeepsAll(p, availableRooms);
  }

  /** The count label as written: the adjective takes the suffix "is" after "disponível",
      which yields "disponívelis" for every count other than one. */
  function CountLabelAsWritten(count: nat): (s: string)
    ensures count == 1 ==> s == "1 sala disponível"
    ensures count != 1 ==> s == NatToString(count) + " salas disponívelis"
  {
    NatToString(count) + " sala" + (if count != 1 then "s" else "") + " disponível" + (if count != 1 then "is" else "")
  }

  lemma CountLabelAsWrittenPlural()
    ensures CountLabelAsWritten(2) == "2 salas disponívelis"
    ensures CountLabelAsWritten(0) == "0 salas disponívelis"
  {
    assert NatToString(2) == "2" && NatToString(0) == "0";
  }

  /** The evidently intended label: "sala disponível" for one room, "salas disponíveis"
      otherwise. */
  function CountLabel(count: nat): (s: string)
    ensures count == 1 ==> s == "1 sala disponível"
    ensures count != 1 ==> s == NatToString(count) + " salas disponíveis"
  {
    NatToString(count) + (if count != 1 then " salas disponíveis" else " sala disponível")
  }

  /** The two labels agree for a single room, and only there. */
  lemma CountLabelsAgreeOnlyForOne(count: nat)
    ensures CountLabel(count) == CountLabelAsWritten(count) <==> count == 1
  {
    var n := NatToString(count);
    if count != 1 {
      var a := CountLabel(count);
      var b := CountLabelAsWritten(count);
      assert |a| == |n| + 18;
      assert |b| == |n| + 19;
    }
  }

  datatype Card = Card(room: SelectorRoom, selected: bool)

  /** The rendered selector; its count label is the source's own, "disponívelis" included. */
  datatype View = View(countLabel: string, cards: seq<Card>, emptyState: bool)

  function Render(availableRooms: seq<SelectorRoom>, searchTerm: string, value: Option<string>): (v: View)
    ensures var rooms := FilteredRooms(availableRooms, searchTerm);
      && v.countLabel == CountLabelAsWritten(|rooms|)
      && |v.cards| == |rooms|
      && (forall i :: 0 <= i < |v.cards| ==> v.cards[i].room == rooms[i] && (v.cards[i].selected <==> value == Some(rooms[i].id)))
      && (v.emptyState <==> rooms == [])
  {
    var rooms := FilteredRooms(availableRooms, searchTerm);
    View(CountLabelAsWritten(|rooms|),
         seq(|rooms|, i requires 0 <= i < |rooms| => Card(rooms[i], value == Some(rooms[i].id))),
         |rooms| == 0)
  }

  /** With distinct room ids at most one card is selected. */
  lemma AtMostOneSelected(availableRooms: seq<SelectorRoom>, searchTerm: string, value: Option<string>)
    requires forall i, j :: 0 <= i < j < |availableRooms| ==> availableRooms[i].id != availableRooms[j].id
    ensures var v := Render(availableRooms, searchTerm, value);
      forall i, j :: 0 <= i < j < |v.cards| && v.cards[i].selected ==> !v.cards[j].selected
  {
    var rooms := FilteredRooms(availableRooms, searchTerm);
    var v := Render(availableRooms, searchTerm, value);
    FilterDistinct(availableRooms, searchTerm);
    forall i, j | 0 <= i < j < |v.cards| && v.cards[i].selected ensures !v.cards[j].selected {
      assert rooms[i].id != rooms[j].id;
    }
  }

  lemma {:induction false} FilterDistinct(s: seq<SelectorRoom>, searchTerm: string)
    requires forall i, j :: 0 <= i < j < |s| ==> s[i].id != s[j].id
    ensures var r := FilteredRooms(s, searchTerm); forall i, j :: 0 <= i < j < |r| ==> r[i].id != r[j].id
  {
    if s != [] {
      FilterDistinct(s[1..], searchTerm);
      var t := FilteredRooms(s[1..], searchTerm);
      forall x | x in t ensures x.id != s[0].id {
        FilteredRoomsMeaning(s[1..], searchTerm);
        var k :| 0 <= k < |s[1..]| && s[1..][k] == x;
        assert s[k + 1] == x;
      }
      if Matches(s[0], searchTerm) {
        var r := [s[0]] + t;
        assert FilteredRooms(s, searchTerm) == r;
        forall i, j | 0 <= i < j < |r| ensures r[i].id != r[j].id {
          if i == 0 { assert r[j] in t; }
          else { assert r[i] == t[i - 1] && r[j] == t[j - 1]; }
        }
      } else {
        assert FilteredRooms(s, searchTerm) == t;
      }
    }
  }
}
