/** The search form of script.js: the checks `handleSearch` makes before it
    asks the rooms table, the rule that keeps the check-out date from
    preceding the check-in date, and the label the feedback form shows. */
module SearchPage {
  import opened Wrappers
  import opened Strings

  // ---------------------------------------------------------------------
  // handleSearch

  /** `document.getElementById(id)?.value || ''`: a missing element reads as "". */
  function FieldValue(element: Option<string>): (v: string)
    ensures element.None? ==> v == ""
    ensures element.Some? ==> v == element.value
  {
    if element.Some? && element.value != "" then element.value else ""
  }

  const InvalidSearch := "Please ensure all fields are filled, and Check-out is after Check-in."

  /** What `handleSearch` does: nothing without a results element, the
      error message, or a search of the rooms for the location. */
  datatype SearchOutcome = NoResultsElement | Invalid(message: string) | SearchRooms(query: string)

  /** The validation of `handleSearch`. Dates are compared as strings, as
      `checkIn >= checkOut` does on the inputs' values. */
  function HandleSearch(location: Option<string>, checkIn: Option<string>, checkOut: Option<string>,
                        guests: Option<string>, hasResults: bool): (o: SearchOutcome)
    ensures !hasResults <==> o == NoResultsElement
    ensures o.SearchRooms? <==>
      && hasResults && FieldValue(location) != "" && FieldValue(checkIn) != "" && FieldValue(checkOut) != ""
      && FieldValue(guests) != "" && Less(FieldValue(checkIn), FieldValue(checkOut))
    ensures o.SearchRooms? ==> o.query == FieldValue(location)
    ensures o.Invalid? ==> o.message == InvalidSearch
  {
    var loc, cin, cout, g := FieldValue(location), FieldValue(checkIn), FieldValue(checkOut), FieldValue(guests);
    if !hasResults then NoResultsElement
    else if loc == "" || cin == "" || cout == "" || g == "" || !Less(cin, cout) then Invalid(InvalidSearch)
    else SearchRooms(loc)
  }

  /** A search that passes has distinct dates, and the same search with the
      two dates swapped, or with both set to one date, is refused. */
  lemma SearchDatesOrdered(location: string, checkIn: string, checkOut: string, guests: string)
    requires HandleSearch(Some(location), Some(checkIn), Some(checkOut), Some(guests), true).SearchRooms?
    ensures checkIn != checkOut
    ensures HandleSearch(Some(location), Some(checkOut), Some(checkIn), Some(guests), true) == Invalid(InvalidSearch)
    ensures HandleSearch(Some(location), Some(checkIn), Some(checkIn), Some(guests), true) == Invalid(InvalidSearch)
  {
    LessIrreflexive(checkIn);
    LessAsymmetric(checkIn, checkOut);
  }

  // ---------------------------------------------------------------------
  // The check-in change handler

  /** The check-out value after the check-in input changes to `checkIn`. */
  function CheckOutAfterChange(checkIn: string, checkOut: string): (r: string)
    ensures r == "" || r == checkOut
    ensures r == checkOut <==> !Less(checkOut, checkIn) || checkOut == ""
  {
    if Less(checkOut, checkIn) then "" else checkOut
  }

  /** After the handler the check-out value is empty or not before the
      check-in value; a check-out equal to the new check-in survives. */
  lemma CheckOutNotBefore(checkIn: string, checkOut: string)
    ensures var r := CheckOutAfterChange(checkIn, checkOut);
      r == "" || !Less(r, checkIn)
    ensures CheckOutAfterChange(checkIn, checkIn) == checkIn
    ensures CheckOutAfterChange(checkIn, CheckOutAfterChange(checkIn, checkOut)) == CheckOutAfterChange(checkIn, checkOut)
  {
    LessIrreflexive(checkIn);
    if checkIn != "" {
      assert Less("", checkIn);
    }
  }

  /** The two date inputs of the search page. */
  class DateInputs {
    var checkIn: string
    var checkOut: string
    /** The pickers' `min` attributes. */
    var checkInMin: string
    var checkOutMin: string

    /** Page load: check-in may not be before today's ISO date. */
    constructor (today: string)
      ensures checkIn == "" && checkOut == "" && checkInMin == today && checkOutMin == ""
    {
      checkIn, checkOut, checkInMin, checkOutMin := "", "", today, "";
    }

    /** The visitor picks `value` as the check-in date and the `change`
        listener runs. */
    method ChangeCheckIn(value: string)
      modifies this
      ensures checkIn == value && checkOutMin == value && checkInMin == old(checkInMin)
      ensures checkOut == CheckOutAfterChange(value, old(checkOut))
    {
      checkIn := value;
      checkOutMin := checkIn;
      if Less(checkOut, checkIn) {
        checkOut := "";
      }
    }
  }

  // ---------------------------------------------------------------------
  // The feedback label

  /** `s.replace('-', ' ')` with a string pattern: only the first '-'. */
  function ReplaceFirstDash(s: string): (r: string)
    ensures |r| == |s|
    ensures forall k :: 0 <= k < |s| ==> r[k] == s[k] || (s[k] == '-' && r[k] == ' ')
    ensures forall k :: 0 <= k < |s| && r[k] != s[k] ==> forall j :: 0 <= j < k ==> s[j] != '-'
    ensures forall j, k :: 0 <= j < k < |s| && r[j] != s[j] ==> r[k] == s[k]
    ensures (forall k :: 0 <= k < |s| ==> r[k] == s[k]) <==> (forall k :: 0 <= k < |s| ==> s[k] != '-')
  {
    if s == [] then []
    else if s[0] == '-' then [' '] + s[1..]
    else [s[0]] + ReplaceFirstDash(s[1..])
  }

  /** `type.charAt(0).toUpperCase() + type.slice(1).replace('-', ' ')`. */
  function FriendlyLabel(kind: string): string {
    if kind == [] then [] else [UpperChar(kind[0])] + ReplaceFirstDash(kind[1..])
  }

  /** The label keeps the length, upper-cases the first character, turns
      only the first '-' after it into a space, and keeps everything else. */
  lemma FriendlyLabelProperties(kind: string)
    ensures var r := FriendlyLabel(kind);
      && |r| == |kind|
      && (kind != [] ==> r[0] == UpperChar(kind[0]))
      && (forall k :: 1 <= k < |kind| ==> r[k] == kind[k] || (kind[k] == '-' && r[k] == ' '))
      && (forall j, k :: 1 <= j < k < |kind| && r[j] != kind[j] ==> r[k] == kind[k])
      && (forall k :: 1 <= k < |kind| && r[k] != kind[k] ==> forall j :: 1 <= j < k ==> kind[j] != '-')
      && ((forall k :: 1 <= k < |kind| ==> r[k] == kind[k]) <==> (forall k :: 1 <= k < |kind| ==> kind[k] != '-'))
  {
    if kind != [] {
      var r, t := FriendlyLabel(kind), kind[1..];
      forall k | 1 <= k < |kind| ensures r[k] == ReplaceFirstDash(t)[k - 1] && kind[k] == t[k - 1] {
      }
    }
  }
}
