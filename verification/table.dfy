/**
 * `useTable`'s column headers. The getter builds one header per active field,
 * merging the not-yet-saved local widths with the saved ones; the setter,
 * called when the widget resizes or reorders columns, collects the widths
 * back and rewrites the field order.
 */
module Table {
  import opened Wrappers
  import opened Strings
  import opened LayoutTypes
  import opened Fields

  /** A column as the table widget sees it (the nested display metadata is not modelled). */
  datatype Header = Header(
    text: Option<string>,
    value: string,
    description: Option<string>,
    width: Option<int>,
    align: Align,
    sortable: bool)

  /** A width that JavaScript treats as true: present and not 0. */
  predicate Truthy(width: Option<int>) {
    width.Some? && width.value != 0
  }

  function Get(m: map<string, int>, key: string): Option<int> {
    if key in m then Some(m[key]) else None
  }

  /** `localWidths[key] || savedWidths?.[key] || null`. */
  function WidthFor(localWidths: map<string, int>, options: LayoutOptions, key: string): (w: Option<int>)
    ensures w.Some? ==> w.value != 0
    ensures Truthy(Get(localWidths, key)) ==> w == Get(localWidths, key)
    ensures !Truthy(Get(localWidths, key)) && Truthy(SavedWidth(options, key)) ==> w == SavedWidth(options, key)
    ensures !Truthy(Get(localWidths, key)) && !Truthy(SavedWidth(options, key)) ==> w == None
  {
    if Truthy(Get(localWidths, key)) then Get(localWidths, key)
    else if Truthy(SavedWidth(options, key)) then SavedWidth(options, key)
    else None
  }

  /** `savedAlign?.[key] || "left"`: every alignment value is a non-empty string, so presence decides. */
  function AlignFor(options: LayoutOptions, key: string): (a: Align)
    ensures key in AlignEntries(options) ==> a == AlignEntries(options)[key]
    ensures key !in AlignEntries(options) ==> a == Left
  {
    if options.align.Some? && key in options.align.value then options.align.value[key] else Left
  }

  /** Field types the widget cannot sort by. */
  const UnsortableTypes: seq<string> := ["json", "alias", "presentation", "translations"]

  /** The display name of one step of a dotted path: the store's name for the path so far, else the step's key. */
  function SegmentName(store: FieldStore, parts: seq<string>, i: nat): (name: string)
    requires i < |parts|
    ensures var path := Join(parts[..i + 1], ".");
      if path in store && store[path].name.Some? then name == store[path].name.value else name == parts[i]
  {
    var path := Join(parts[..i + 1], ".");
    if path in store && store[path].name.Some? then store[path].name.value else parts[i]
  }

  function SegmentNames(store: FieldStore, parts: seq<string>): (r: seq<string>)
    ensures |r| == |parts|
    ensures forall i :: 0 <= i < |parts| ==> r[i] == SegmentName(store, parts, i)
  {
    seq(|parts|, i requires 0 <= i < |parts| => SegmentName(store, parts, i))
  }

  /** A relational field's description: the names along its dotted path, joined with ` -> `. */
  function Description(key: string, store: FieldStore): (d: Option<string>)
    ensures d.None? <==> '.' !in key
  {
    var parts := Split(key, '.');
    SplitMany(key, '.');
    if |parts| > 1 then Some(Join(SegmentNames(store, parts), " -> ")) else None
  }

  /** One header of the `tableHeaders` getter. */
  function HeaderFor(f: ActiveField, store: FieldStore, localWidths: map<string, int>, options: LayoutOptions): (h: Header)
    ensures h.value == f.key && h.text == f.name
    ensures h.width == WidthFor(localWidths, options, f.key)
    ensures h.align == AlignFor(options, f.key)
    ensures !h.sortable <==> f.fieldType.Some? && f.fieldType.value in UnsortableTypes
    ensures h.description == Description(f.key, store)
    ensures h.description.None? <==> '.' !in f.key
  {
    Header(
      f.name,
      f.key,
      Description(f.key, store),
      WidthFor(localWidths, options, f.key),
      AlignFor(options, f.key),
      !(f.fieldType.Some? && f.fieldType.value in UnsortableTypes))
  }

  /** The `tableHeaders` getter: one header per active field, in the same order. */
  function TableHeaders(active: seq<ActiveField>, store: FieldStore, localWidths: map<string, int>, options: LayoutOptions): (r: seq<Header>)
    ensures |r| == |active|
    ensures forall i :: 0 <= i < |active| ==> r[i] == HeaderFor(active[i], store, localWidths, options)
  {
    seq(|active|, i requires 0 <= i < |active| => HeaderFor(active[i], store, localWidths, options))
  }

  /** `headers.map(header => header.value)`. */
  function HeaderValues(headers: seq<Header>): (r: seq<string>)
    ensures |r| == |headers| && forall i :: 0 <= i < |headers| ==> r[i] == headers[i].value
  {
    seq(|headers|, i requires 0 <= i < |headers| => headers[i].value)
  }

  /**
   * The widths map the setter builds: headers are visited in order and each
   * truthy width overwrites what an earlier header with the same key stored.
   */
  function WidthsOf(headers: seq<Header>): (widths: map<string, int>)
    ensures forall k :: k in widths ==> widths[k] != 0
  {
    if |headers| == 0 then map[]
    else
      var h := headers[|headers| - 1];
      var before := WidthsOf(headers[..|headers| - 1]);
      if Truthy(h.width) then before[h.value := h.width.value] else before
  }

  /** The setter's `forEach` loop. */
  method CollectWidths(headers: seq<Header>) returns (widths: map<string, int>)
    ensures widths == WidthsOf(headers)
  {
    widths := map[];
    var i := 0;
    while i < |headers|
      invariant 0 <= i <= |headers|
      invariant widths == WidthsOf(headers[..i])
    {
      assert headers[..i + 1][..i] == headers[..i];
      var header := headers[i];
      if header.width.Some? && header.width.value != 0 {
        widths := widths[header.value := header.width.value];
      }
      i := i + 1;
    }
    assert headers[..i] == headers;
  }

  /** The widths map holds exactly the keys of headers with a truthy width. */
  lemma {:induction false} WidthsOfKeys(headers: seq<Header>, k: string)
    ensures k in WidthsOf(headers) <==>
      exists i :: 0 <= i < |headers| && headers[i].value == k && Truthy(headers[i].width)
  {
    if |headers| > 0 {
      var n := |headers| - 1;
      var init := headers[..n];
      WidthsOfKeys(init, k);
      assert forall i :: 0 <= i < n ==> init[i] == headers[i];
      if exists i :: 0 <= i < |headers| && headers[i].value == k && Truthy(headers[i].width) {
        var i :| 0 <= i < |headers| && headers[i].value == k && Truthy(headers[i].width);
        if i < n {
          assert init[i].value == k && Truthy(init[i].width);
        }
      }
    }
  }

  /** Each key of the widths map holds the width of the last header with that key and a truthy width. */
  lemma {:induction false} WidthsOfValues(headers: seq<Header>, k: string)
    requires k in WidthsOf(headers)
    ensures exists i :: 0 <= i < |headers| && headers[i].value == k && headers[i].width == Some(WidthsOf(headers)[k])
                        && forall j :: i < j < |headers| && headers[j].value == k ==> !Truthy(headers[j].width)
  {
    var n := |headers| - 1;
    var init := headers[..n];
    var w := WidthsOf(headers);
    if Truthy(headers[n].width) && headers[n].value == k {
      assert headers[n].width == Some(w[k]);
    } else {
      WidthsOfValues(init, k);
      var i :| 0 <= i < n && init[i].value == k && init[i].width == Some(WidthsOf(init)[k])
        && forall j :: i < j < n && init[j].value == k ==> !Truthy(init[j].width);
      assert headers[i] == init[i];
      assert forall j :: i < j < n ==> headers[j] == init[j];
      assert headers[i].width == Some(w[k]);
    }
  }

  /**
   * Writing headers with distinct keys and reading them back: a header with a
   * truthy width reads that width, one without falls back to the saved width.
   */
  lemma WidthsRoundTrip(headers: seq<Header>, options: LayoutOptions, i: nat)
    requires i < |headers|
    requires forall j, k :: 0 <= j < k < |headers| ==> headers[j].value != headers[k].value
    ensures Truthy(headers[i].width) ==> WidthFor(WidthsOf(headers), options, headers[i].value) == headers[i].width
    ensures !Truthy(headers[i].width) ==>
      WidthFor(WidthsOf(headers), options, headers[i].value) == WidthFor(map[], options, headers[i].value)
  {
    var k := headers[i].value;
    WidthsOfKeys(headers, k);
    if k in WidthsOf(headers) {
      WidthsOfValues(headers, k);
      var j :| 0 <= j < |headers| && headers[j].value == k && headers[j].width == Some(WidthsOf(headers)[k])
        && forall m :: j < m < |headers| && headers[m].value == k ==> !Truthy(headers[m].width);
      assert j == i;
    }
  }

  /** Writing back the headers the getter produced lists the active fields' keys, in order. */
  lemma HeadersKeepFieldOrder(active: seq<ActiveField>, store: FieldStore, localWidths: map<string, int>, options: LayoutOptions)
    ensures HeaderValues(TableHeaders(active, store, localWidths, options)) == seq(|active|, i requires 0 <= i < |active| => active[i].key)
  {
  }

  /**
   * A dotted key's description walks its path: one name per segment, each
   * looked up under a prefix of the key, the last under the key itself.
   */
  lemma DescriptionWalksPath(key: string, store: FieldStore, i: nat)
    requires '.' in key
    requires i < |Split(key, '.')|
    ensures var parts := Split(key, '.');
      && Description(key, store) == Some(Join(SegmentNames(store, parts), " -> "))
      && StartsWith(key, Join(parts[..i + 1], "."))
      && (i == |parts| - 1 ==> Join(parts[..i + 1], ".") == key)
  {
    var parts := Split(key, '.');
    SplitMany(key, '.');
    JoinSplit(key, '.');
    JoinPrefix(parts, i + 1, ".");
    assert parts[..|parts|] == parts;
  }

  /** The `tableRowHeight` getter: the row height in pixels for a spacing preset; unknown presets read as `cozy`. */
  function RowHeight(spacing: string): (h: int)
    ensures spacing == "compact" ==> h == 32
    ensures spacing == "comfortable" ==> h == 64
    ensures spacing != "compact" && spacing != "comfortable" ==> h == 48
  {
    match spacing
    case "compact" => 32
    case "comfortable" => 64
    case _ => 48
  }

  /**
   * After the setter writes headers whose keys the store knows and none of
   * which is marked as holding no data, the `fields` and `activeFields`
   * getters list the columns in header order.
   */
  lemma WrittenOrderIsRead(headers: seq<Header>, store: FieldStore, collectionFields: seq<FieldRecord>)
    requires forall i :: 0 <= i < |headers| ==> headers[i].value in store && !NoData(headers[i].value, store)
    ensures var active := ActiveFields(QueryFields(Some(HeaderValues(headers)), store, collectionFields), store);
            |active| == |headers| && forall i :: 0 <= i < |headers| ==> active[i].key == headers[i].value
  {
    QueryOrderIsColumnOrder(HeaderValues(headers), store, collectionFields);
  }
}
