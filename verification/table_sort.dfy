/**
 * The table's sort value and the stored sort list. The view stores its sort
 * as a list of field names, a leading `-` marking descending order; the table
 * widget reads and writes a `{by, desc}` pair built from the first entry.
 */
module TableSort {
  import opened Wrappers
  import opened Strings

  /** The widget's sort (`{by, desc}` in the widget): the field to sort by and whether the order is descending. */
  datatype Sort = Sort(field: string, desc: bool)

  /**
   * The `tableSort` getter: no sort when the list is empty or its first entry
   * is empty, otherwise the first entry decoded.
   */
  function DecodeSort(stored: seq<string>): (r: Option<Sort>)
    ensures r.None? <==> |stored| == 0 || stored[0] == ""
    ensures r.Some? ==> (r.value.desc <==> StartsWith(stored[0], "-"))
    ensures r.Some? ==> stored[0] == (if r.value.desc then "-" else "") + r.value.field
  {
    if |stored| == 0 || stored[0] == "" then None
    else if StartsWith(stored[0], "-") then Some(Sort(stored[0][1..], true))
    else Some(Sort(stored[0], false))
  }

  /**
   * `onSortChange`: the list stored for a new widget sort. A missing sort or
   * an empty field name clears the sort.
   */
  function EncodeSort(newSort: Option<Sort>): (r: seq<string>)
    ensures |r| <= 1
    ensures r == [] <==> newSort.None? || newSort.value.field == ""
    ensures r != [] ==> r[0] == (if newSort.value.desc then "-" else "") + newSort.value.field
    ensures r != [] ==> |r[0]| == |newSort.value.field| + (if newSort.value.desc then 1 else 0)
    ensures r != [] ==> (StartsWith(r[0], "-") <==> newSort.value.desc || StartsWith(newSort.value.field, "-"))
  {
    if newSort.None? || newSort.value.field == "" then []
    else if newSort.value.desc then ["-" + newSort.value.field]
    else [newSort.value.field]
  }

  /**
   * A widget sort survives being stored and read back exactly when it is
   * missing, or names a field and does not look descending without being so.
   */
  predicate Recoverable(s: Option<Sort>) {
    s.None? || (s.value.field != "" && (s.value.desc || !StartsWith(s.value.field, "-")))
  }

  lemma EncodeThenDecode(s: Option<Sort>)
    ensures DecodeSort(EncodeSort(s)) == s <==> Recoverable(s)
  {
    if s.Some? && s.value.field != "" && s.value.desc {
      assert ("-" + s.value.field)[1..] == s.value.field;
    }
  }

  /**
   * A stored list survives being read and written back exactly when it is
   * empty or holds one entry that is neither empty nor the bare `-`.
   */
  lemma DecodeThenEncode(stored: seq<string>)
    ensures EncodeSort(DecodeSort(stored)) == stored
        <==> stored == [] || (|stored| == 1 && stored[0] != "" && stored[0] != "-")
  {
    if |stored| > 0 && stored[0] != "" && StartsWith(stored[0], "-") {
      assert stored[0] == "-" + stored[0][1..];
      assert stored[0] == "-" <==> stored[0][1..] == "";
    }
  }

  /** Any sort string other than `""` and `"-"`, alone in the list, round-trips. */
  lemma SortStringRoundTrip(s: string)
    requires s != "" && s != "-"
    ensures EncodeSort(DecodeSort([s])) == [s]
  {
    DecodeThenEncode([s]);
  }

  /** The bare `-` reads as a descending sort on no field, which is stored back as no sort. */
  lemma BareDashClears()
    ensures DecodeSort(["-"]) == Some(Sort("", true))
    ensures EncodeSort(DecodeSort(["-"])) == []
  {
    assert StartsWith("-", "-");
  }

  /** Only the first stored entry matters to the widget. */
  lemma DecodeReadsFirstOnly(stored: seq<string>, more: seq<string>)
    requires |stored| > 0
    ensures DecodeSort(stored + more) == DecodeSort(stored)
  {
    assert (stored + more)[0] == stored[0];
  }
}
