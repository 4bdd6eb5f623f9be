/**
 * The layout's view state and the handlers that assign it. The host owns the
 * state; here it is one object whose fields the handlers update in place:
 * the stored sort list, the query's field list, the saved layout options, the
 * not-yet-saved column widths, and the selection.
 */
module Layout {
  import opened Wrappers
  import opened LayoutTypes
  import opened TableSort
  import opened Table

  /** A record value as the host returns it; `Undefined` is a missing key. */
  datatype Value = Undefined | Null | Num(n: int) | Str(s: string)

  type Item = map<string, Value>

  /** `items.map(item => item[pk])`: each item's primary key, in item order. */
  function PrimaryKeys(items: seq<Item>, pk: string): (r: seq<Value>)
    ensures |r| == |items|
    ensures forall i :: 0 <= i < |items| && pk in items[i] ==> r[i] == items[i][pk]
    ensures forall i :: 0 <= i < |items| ==> (r[i] == Undefined <==> pk !in items[i] || items[i][pk] == Undefined)
  {
    seq(|items|, i requires 0 <= i < |items| => if pk in items[i] then items[i][pk] else Undefined)
  }

  class TreeViewLayout {
    var sort: seq<string>                 // the query's sort list
    var queryFields: Option<seq<string>>  // the query's field list, if it has one
    var options: LayoutOptions            // the saved layout options
    var localWidths: map<string, int>     // column widths not yet saved
    var selection: seq<Value>             // primary keys of the selected items

    /** The state the host hands to `setup`; local widths start empty. */
    constructor (sort: seq<string>, queryFields: Option<seq<string>>, options: LayoutOptions, selection: seq<Value>)
      ensures this.sort == sort && this.queryFields == queryFields
      ensures this.options == options && this.selection == selection
      ensures localWidths == map[]
    {
      this.sort := sort;
      this.queryFields := queryFields;
      this.options := options;
      this.selection := selection;
      localWidths := map[];
    }

    /** `selectAll`: selects every loaded item by its primary key; does nothing without a primary key field. */
    method SelectAll(items: seq<Item>, pk: Option<string>)
      modifies this`selection
      ensures pk.None? ==> selection == old(selection)
      ensures pk.Some? ==> selection == PrimaryKeys(items, pk.value)
    {
      if pk.Some? {
        selection := PrimaryKeys(items, pk.value);
      }
    }

    /**
     * `onSortChange`: stores the widget's new sort. Reading the sort back
     * gives the same value exactly when it is recoverable.
     */
    method OnSortChange(newSort: Option<Sort>)
      modifies this`sort
      ensures sort == EncodeSort(newSort)
      ensures DecodeSort(sort) == newSort <==> Recoverable(newSort)
    {
      sort := EncodeSort(newSort);
      EncodeThenDecode(newSort);
    }

    /**
     * `onAlignChange`: sets one column's alignment, keeps every other
     * alignment and every other option.
     */
    method OnAlignChange(field: string, align: Align)
      modifies this`options
      ensures options == old(options).(align := Some(AlignEntries(old(options))[field := align]))
      ensures AlignFor(options, field) == align
      ensures forall k :: k != field ==> AlignFor(options, k) == AlignFor(old(options), k)
    {
      options := options.(align := Some(AlignEntries(options)[field := align]));
    }

    /**
     * The `tableHeaders` setter: keeps the headers' truthy widths as the local
     * widths and makes the header order the query's field order. With distinct
     * keys, the getter then reads back each header's width, or the saved one
     * for a header without a width.
     */
    method SetTableHeaders(headers: seq<Header>)
      modifies this`localWidths, this`queryFields
      ensures localWidths == WidthsOf(headers)
      ensures queryFields == Some(HeaderValues(headers))
      ensures (forall j, k :: 0 <= j < k < |headers| ==> headers[j].value != headers[k].value) ==>
        forall i :: 0 <= i < |headers| ==>
          WidthFor(localWidths, options, headers[i].value) ==
            if Truthy(headers[i].width) then headers[i].width else WidthFor(map[], options, headers[i].value)
    {
      var widths := CollectWidths(headers);
      localWidths := widths;
      queryFields := Some(HeaderValues(headers));
      if forall j, k :: 0 <= j < k < |headers| ==> headers[j].value != headers[k].value {
        forall i | 0 <= i < |headers|
          ensures WidthFor(localWidths, options, headers[i].value) ==
            if Truthy(headers[i].width) then headers[i].width else WidthFor(map[], options, headers[i].value)
        {
          WidthsRoundTrip(headers, options, i);
        }
      }
    }

    /**
     * The debounced `saveWidthsToLayoutOptions` callback: saves the local
     * widths as the layout's widths and keeps every other option.
     */
    method SaveWidthsToLayoutOptions()
      modifies this`options
      ensures options == old(options).(widths := Some(localWidths))
      ensures forall k :: WidthFor(map[], options, k) == WidthFor(localWidths, LayoutOptions(None, None, None, None), k)
    {
      options := options.(widths := Some(localWidths));
    }
  }
}
