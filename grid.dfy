/** The availability grid of src/pages/Book.jsx: the fetched `date -> time -> count`
    object, the rows and columns derived from it, the capacity gate and `getColor`.
    Each level of the object is a sequence of (key, value) pairs with distinct keys, in the
    object's own key order: insertion order for keys that are not array indices, which the
    server's date and time keys never are. */
module Grid {
  import opened Wrappers

  const MaxDailyBooking: int := 5

  type Counts = seq<(string, int)>
  type WeekCount = seq<(string, Counts)>

  predicate DistinctKeys<V>(entries: seq<(string, V)>) {
    forall i, j :: 0 <= i < j < |entries| ==> entries[i].0 != entries[j].0
  }

  /** A parsed JSON object: no key occurs twice at either level. */
  predicate WellFormed(data: WeekCount) {
    DistinctKeys(data) && forall i :: 0 <= i < |data| ==> DistinctKeys(data[i].1)
  }

  /** `Object.keys`: the keys in the object's key order. */
  function Keys<V>(entries: seq<(string, V)>): (ks: seq<string>)
    ensures |ks| == |entries|
    ensures forall i :: 0 <= i < |entries| ==> ks[i] == entries[i].0
  {
    if entries == [] then [] else [entries[0].0] + Keys(entries[1..])
  }

  /** `obj[key]`: the value stored under the first occurrence of `key`, or undefined. */
  function Lookup<V>(entries: seq<(string, V)>, key: string): (r: Option<V>)
    ensures r.None? <==> key !in Keys(entries)
    ensures r.Some? ==> exists i :: 0 <= i < |entries| && entries[i] == (key, r.value)
  {
    if entries == [] then None
    else if entries[0].0 == key then Some(entries[0].1)
    else Lookup(entries[1..], key)
  }

  /** `dates`: the columns of the grid. */
  function Dates(data: WeekCount): seq<string> {
    Keys(data)
  }

  /** `timeSlots`: the rows, taken from the first date only; no first date, or a first date
      key that is the (falsy) empty string, gives no rows. */
  function TimeSlots(data: WeekCount): seq<string> {
    if |data| > 0 && data[0].0 != "" then Keys(data[0].1) else []
  }

  /** `data[date][time]`: the count of a cell, undefined when either key is missing. */
  function CellValue(data: WeekCount, date: string, time: string): Option<int> {
    match Lookup(data, date)
    case None => None
    case Some(counts) => Lookup(counts, time)
  }

  /** The render gate `cellValue < MAX_DAILY_BOOKING`; undefined compares false. */
  predicate IsBookable(v: Option<int>) {
    v.Some? && v.value < MaxDailyBooking
  }

  /** `getColor(value, isDisabled)`. */
  function Color(v: Option<int>, isDisabled: bool): string {
    if isDisabled then "bg-gray-500"
    else match v
      case Some(0) => "bg-gray-100"
      case Some(1) => "bg-blue-200"
      case Some(2) => "bg-green-200"
      case Some(3) => "bg-yellow-300"
      case Some(4) => "bg-orange-300"
      case _ => "bg-red-300"
  }

  /** One rendered cell: where it is, what it shows, whether it opens the booking drawer, and its class. */
  datatype Cell = Cell(date: string, time: string, value: Option<int>, bookable: bool, color: string)

  function RenderCell(data: WeekCount, date: string, time: string): Cell {
    var v := CellValue(data, date, time);
    Cell(date, time, v, IsBookable(v), Color(v, false))
  }

  function RenderRow(data: WeekCount, time: string, dates: seq<string>): (row: seq<Cell>)
    ensures |row| == |dates|
    ensures forall j :: 0 <= j < |dates| ==> row[j] == RenderCell(data, dates[j], time)
  {
    if dates == [] then [] else [RenderCell(data, dates[0], time)] + RenderRow(data, time, dates[1..])
  }

  function RenderRows(data: WeekCount, times: seq<string>): (rows: seq<seq<Cell>>)
    ensures |rows| == |times|
    ensures forall i :: 0 <= i < |times| ==> rows[i] == RenderRow(data, times[i], Dates(data))
  {
    if times == [] then [] else [RenderRow(data, times[0], Dates(data))] + RenderRows(data, times[1..])
  }

  /** The loaded grid: one row per time key of the first date, one column per date key. */
  function Render(data: WeekCount): seq<seq<Cell>> {
    RenderRows(data, TimeSlots(data))
  }

  /** The grid has a row per time of the first date and a column per date, in key order, and each
      cell shows `data[date][time]`, opens the drawer iff that count is below the limit, and has its colour. */
  lemma RenderShape(data: WeekCount, i: nat, j: nat)
    requires i < |TimeSlots(data)| && j < |Dates(data)|
    ensures |Render(data)| == |TimeSlots(data)| && |Render(data)[i]| == |data|
    ensures Render(data)[i][j].date == data[j].0
    ensures Render(data)[i][j].time == TimeSlots(data)[i]
    ensures Render(data)[i][j].value == CellValue(data, data[j].0, TimeSlots(data)[i])
    ensures Render(data)[i][j].bookable <==> IsBookable(Render(data)[i][j].value)
  {
  }

  /** An empty object, or one whose first date key is "", renders no rows. */
  lemma NoRowsWithoutFirstDate(data: WeekCount)
    requires |data| == 0 || data[0].0 == ""
    ensures Render(data) == []
  {
  }

  /** Each column's cell reads that date's own object, found at its column position. */
  lemma {:induction false} LookupAtIndex<V>(entries: seq<(string, V)>, i: nat)
    requires DistinctKeys(entries) && i < |entries|
    ensures Lookup(entries, entries[i].0) == Some(entries[i].1)
  {
    if i > 0 {
      assert entries[0].0 != entries[i].0;
      LookupAtIndex(entries[1..], i - 1);
    }
  }

  /** A row time that is missing from some later date yields an undefined cell there, which
      never opens the drawer and gets the default red class. */
  lemma MissingTimeNotBookable(data: WeekCount, j: nat, time: string)
    requires WellFormed(data) && j < |data| && time !in Keys(data[j].1)
    ensures CellValue(data, data[j].0, time) == None
    ensures !RenderCell(data, data[j].0, time).bookable
    ensures RenderCell(data, data[j].0, time).color == "bg-red-300"
  {
    LookupAtIndex(data, j);
  }

  /** A present count opens the drawer iff it is below 5. */
  lemma BookableIffBelowLimit(data: WeekCount, j: nat, k: nat)
    requires WellFormed(data) && j < |data| && k < |data[j].1|
    ensures CellValue(data, data[j].0, data[j].1[k].0) == Some(data[j].1[k].1)
    ensures RenderCell(data, data[j].0, data[j].1[k].0).bookable <==> data[j].1[k].1 < 5
  {
    LookupAtIndex(data, j);
    LookupAtIndex(data[j].1, k);
  }

  /** The disabled flag overrides the count; counts 0 to 4 get five different classes; every other
      value, including undefined and negative counts, gets red. */
  lemma ColorBanding(v: Option<int>, isDisabled: bool)
    ensures isDisabled ==> Color(v, isDisabled) == "bg-gray-500"
    ensures !isDisabled && (v.None? || v.value < 0 || v.value > 4) ==> Color(v, isDisabled) == "bg-red-300"
    ensures forall a, b :: 0 <= a < b <= 4 ==> Color(Some(a), false) != Color(Some(b), false)
  {
    forall a, b | 0 <= a < b <= 4 ensures Color(Some(a), false) != Color(Some(b), false) {
      assert a == 0 || a == 1 || a == 2 || a == 3;
      assert b == 1 || b == 2 || b == 3 || b == 4;
    }
  }

  /** For a non-negative count the default red class appears exactly on the cells the gate keeps
      closed; a negative count is bookable yet red. */
  lemma RedIffFull(v: int)
    ensures v >= 0 ==> (Color(Some(v), false) == "bg-red-300" <==> !IsBookable(Some(v)))
    ensures v < 0 ==> IsBookable(Some(v)) && Color(Some(v), false) == "bg-red-300"
  {
    ColorBanding(Some(v), false);
  }
}
