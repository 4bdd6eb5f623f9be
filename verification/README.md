# Tree View layout: derived view state

A Dafny model of the derived-value rules inside the Directus "Tree View" layout extension
(`packages/tree-view-layout/src/index.ts`). The layout renders a collection's records as a
nested, sortable, editable table. Its own logic is limited to these pieces:

- **Sort.** The stored sort is a list of field names. A leading `-` marks descending order.
  The table widget reads and writes a `{by, desc}` pair built from the first entry.
  Here that pair is `TableSort.Sort(field, desc)`, because `by` is a Dafny keyword.
- **Parent fields.** The list of fields to fetch must bring in each record's parent
  reference, `<parent>.<primary key>`. That path is appended when no requested field
  covers it.
- **Headers.** The table's columns are built from the active fields. Width comes from the
  unsaved local widths, then the saved widths. Alignment comes from the saved options.
  A dotted relational key gets a `A -> B` description. Four field types cannot be sorted.
  The header setter collects the widths back and rewrites the field order.
- **Small rules.** The handlers that change one alignment and select all items. The
  row-height getter for the spacing preset. The default field list. The error-code
  fallback used when saving an edit fails.

Getters are functions over explicit inputs. The host's reactive state is
`Layout.TreeViewLayout`, a class whose handler methods assign its fields.

The host's field store (`fieldsStore.getField`) is a `map` from a field path to the
field's record. An absent `layoutOptions` object, or an absent `widths`/`align` entry,
is a `LayoutTypes.LayoutOptions` value whose `Option` fields are `None`. Modules, one per
file: `Wrappers`, `Strings`, `LayoutTypes`, `TableSort`, `TreeViewParent`, `Fields`,
`Table`, `UnexpectedError`, `Layout`.

Two stored sort strings do not survive being decoded and re-encoded. `""` reads as no
sort. `"-"` reads as a descending sort on no field, which is stored back as `[]`
(`TableSort.DecodeThenEncode`, `TableSort.BareDashClears`).

## Model

| member | source | states |
|---|---|---|
| `TableSort.DecodeSort` | packages/tree-view-layout/src/index.ts:241-249 | no sort exactly when the list or its first entry is empty; descending exactly when the first entry starts with `-`; the first entry is recovered as the optional `-` plus the field |
| `TableSort.EncodeSort` | packages/tree-view-layout/src/index.ts:389-402 | at most one entry; empty exactly for a missing sort or an empty field; otherwise the entry is `-` followed by the field when descending, and the field alone when not |
| `TableSort.EncodeThenDecode` | packages/tree-view-layout/src/index.ts:241-249 | storing a widget sort and reading it back gives it back if and only if it is missing, or names a field and is descending or does not start with `-` |
| `TableSort.DecodeThenEncode` | packages/tree-view-layout/src/index.ts:389-402 | reading a stored list and writing it back gives the same list if and only if it is empty or holds one entry other than `""` and `"-"` |
| `TableSort.SortStringRoundTrip` | packages/tree-view-layout/src/index.ts:242-248 | any sort string other than `""` and `"-"` round-trips through decode and encode |
| `TableSort.BareDashClears` | packages/tree-view-layout/src/index.ts:244-245 | `"-"` decodes to a descending sort on the empty field, which is stored back as no sort |
| `TableSort.DecodeReadsFirstOnly` | packages/tree-view-layout/src/index.ts:242-247 | entries after the first do not affect the widget's sort |
| `Layout.TreeViewLayout.OnSortChange` | packages/tree-view-layout/src/index.ts:389-402 | the sort list becomes the encoding of the new sort, and reading it back gives the new sort exactly when that sort is recoverable |
| `TreeViewParent.Render` | packages/tree-view-layout/src/index.ts:437-454 | a set parent prints as itself; a missing one (default `null`) prints as `null` |
| `TreeViewParent.ParentPath` | packages/tree-view-layout/src/index.ts:446 | the rendered parent, a dot, then the primary key field |
| `TreeViewParent.FindCovering` | packages/tree-view-layout/src/index.ts:442-448 | the first field equal to the parent or starting with the parent path; found exactly when one exists |
| `TreeViewParent.FieldsToQuery` | packages/tree-view-layout/src/index.ts:439-456 | the input is a prefix of the result, which has at most one more entry; unchanged without a primary key or when a field already covers the parent; any added entry is the parent path; with a primary key the result always covers the parent |
| `TreeViewParent.FieldsToQueryIdempotent` | packages/tree-view-layout/src/index.ts:439-456 | applying the parent-field rule to its own output changes nothing |
| `TreeViewParent.FieldsToQueryAsWritten` | packages/tree-view-layout/src/index.ts:439-456 | the source's reading, where the value `find` returns is used as a truth value: the input is a prefix of the result, at most the parent path is appended, nothing changes without a primary key, and with one the result covers the parent |
| `TreeViewParent.AsWrittenAgrees` | packages/tree-view-layout/src/index.ts:440-450 | the source's reading and the intended one agree whenever the parent option is not the empty string (a missing parent renders as `null`) |
| `TreeViewParent.AsWrittenDiffers` | packages/tree-view-layout/src/index.ts:440-450 | the source's reading and the intended one differ exactly when there is a primary key, the parent is `""` and the first covering field is `""` |
| `TreeViewParent.AsWrittenNotIdempotent` | packages/tree-view-layout/src/index.ts:440-455 | with parent `""`, key `id` and fields `[""]`, the source appends `.id` on every evaluation |
| `Fields.Visible` | packages/tree-view-layout/src/index.ts:205-209 | keeps exactly the fields that are neither hidden nor marked as holding no data |
| `Fields.VisibleAppend` | packages/tree-view-layout/src/index.ts:205-209 | the filter keeps order: the shown fields of a concatenation are those of each part in turn; one field is kept exactly when shown |
| `Fields.FirstShown` | packages/tree-view-layout/src/index.ts:210 | the leading run of at most `n` shown fields, in order |
| `Fields.Names` | packages/tree-view-layout/src/index.ts:211 | each field's name, in order |
| `Fields.FieldsDefaultValue` | packages/tree-view-layout/src/index.ts:203-213 | at most four names, sorted, a permutation of the names of the first four fields shown by default, each naming such a field |
| `Strings.InsertionSort` | packages/tree-view-layout/src/index.ts:212 | the result is sorted and a permutation of the input |
| `Strings.Insert` | packages/tree-view-layout/src/index.ts:212 | inserting into a sorted list keeps it sorted and adds exactly the one element |
| `Strings.BelowTotal` | packages/tree-view-layout/src/index.ts:212 | any two strings are ordered one way or the other |
| `Fields.KnownFields` | packages/tree-view-layout/src/index.ts:218-220 | keeps exactly the listed fields the store knows |
| `Fields.KnownFieldsAppend` | packages/tree-view-layout/src/index.ts:218-220 | the filter keeps order: the known fields of a concatenation are those of each part in turn; one key is kept exactly when known |
| `Fields.KnownFieldsKeepAll` | packages/tree-view-layout/src/index.ts:218-220 | when the store knows every listed field, the list is kept as it is |
| `Fields.QueryFields` | packages/tree-view-layout/src/index.ts:215-224 | with a query field list, exactly its known fields; without one, the default fields |
| `Fields.ActiveFields` | packages/tree-view-layout/src/index.ts:266-280 | every listed field not marked as holding no data is kept, with the store's record merged in, and nothing else is |
| `Fields.ActiveFieldsAppend` | packages/tree-view-layout/src/index.ts:270-279 | the getter keeps order: the active fields of a concatenation are those of each part in turn; one key is dropped exactly when marked as holding no data |
| `Fields.QueryOrderIsColumnOrder` | packages/tree-view-layout/src/index.ts:215-279 | a query list of known fields with data becomes the active fields one for one, in order |
| `Fields.ActiveFieldsKeepAll` | packages/tree-view-layout/src/index.ts:270-279 | when no field is marked as holding no data, the active fields follow the list one for one |
| `Strings.Split` | packages/tree-view-layout/src/index.ts:291 | at least one piece, none containing the separator |
| `Strings.JoinSplit` | packages/tree-view-layout/src/index.ts:291-302 | joining the pieces of a split with the separator gives back the key |
| `Strings.SplitMany` | packages/tree-view-layout/src/index.ts:291-293 | a key splits into more than one piece exactly when it contains a dot |
| `Strings.JoinPrefix` | packages/tree-view-layout/src/index.ts:296-302 | the path built from the leading segments is a prefix of the whole path |
| `Table.SegmentName` | packages/tree-view-layout/src/index.ts:294-305 | the store's name for the path up to this segment, else the segment's own key |
| `Table.SegmentNames` | packages/tree-view-layout/src/index.ts:294-306 | one name per segment, in path order |
| `Table.Description` | packages/tree-view-layout/src/index.ts:289-309 | a description exists exactly for a dotted key |
| `Table.DescriptionWalksPath` | packages/tree-view-layout/src/index.ts:291-308 | the description joins one name per segment, each looked up under a prefix of the key and the last under the key itself |
| `Table.WidthFor` | packages/tree-view-layout/src/index.ts:315-318 | the local width if truthy, else the saved width if truthy, else none; never a zero width |
| `Table.AlignFor` | packages/tree-view-layout/src/index.ts:319-321 | the saved alignment when there is one, else left |
| `Table.HeaderFor` | packages/tree-view-layout/src/index.ts:311-340 | value and text from the field; width and alignment by the fallbacks; not sortable exactly for `json`, `alias`, `presentation`, `translations`; the description is the key's dotted-path description, present exactly for dotted keys |
| `Table.TableHeaders` | packages/tree-view-layout/src/index.ts:286-342 | one header per active field, in the same order |
| `Table.HeaderValues` | packages/tree-view-layout/src/index.ts:356 | the headers' keys, in header order |
| `Table.HeadersKeepFieldOrder` | packages/tree-view-layout/src/index.ts:343-357 | writing back the headers the getter produced lists the active fields' keys in order |
| `Table.WidthsOf` | packages/tree-view-layout/src/index.ts:344-350 | the widths map the setter builds; it never holds a zero width |
| `Table.CollectWidths` | packages/tree-view-layout/src/index.ts:344-350 | the loop builds exactly the widths map of the headers |
| `Table.WidthsOfKeys` | packages/tree-view-layout/src/index.ts:346-350 | the widths map holds exactly the keys of headers with a truthy width |
| `Table.WidthsOfValues` | packages/tree-view-layout/src/index.ts:346-350 | each key maps to the width of the last header with that key and a truthy width |
| `Table.WidthsRoundTrip` | packages/tree-view-layout/src/index.ts:315-350 | with distinct keys, the getter reads back each header's truthy width, or the saved one for a header without a width |
| `Table.WrittenOrderIsRead` | packages/tree-view-layout/src/index.ts:343-357 | after the setter writes headers of known fields with data, the `fields` and `activeFields` getters list the columns in header order |
| `Layout.TreeViewLayout.SetTableHeaders` | packages/tree-view-layout/src/index.ts:343-357 | local widths become the headers' widths map, the field list becomes the header order, and the getter reads the new widths back |
| `Layout.TreeViewLayout.SaveWidthsToLayoutOptions` | packages/tree-view-layout/src/index.ts:260-264 | the local widths become the saved widths; every other option is kept |
| `Layout.TreeViewLayout.constructor` | packages/tree-view-layout/src/index.ts:251 | the host's state is taken as given, and local widths start empty |
| `Layout.TreeViewLayout.OnAlignChange` | packages/tree-view-layout/src/index.ts:404-414 | the column's alignment becomes the new one; every other alignment and every other option is kept |
| `Table.RowHeight` | packages/tree-view-layout/src/index.ts:366-376 | 32 for `compact`, 64 for `comfortable`, 48 for `cozy` and any other preset |
| `Layout.PrimaryKeys` | packages/tree-view-layout/src/index.ts:189 | one entry per item, in order, holding that item's primary key, or `undefined` when the item lacks it |
| `Layout.TreeViewLayout.SelectAll` | packages/tree-view-layout/src/index.ts:186-190 | with a primary key field, the selection becomes every item's key; without one, the selection is kept |
| `UnexpectedError.ErrorCode` | packages/tree-view-layout/src/index.ts:493-497 | never empty: the response's first error code if non-empty, else the error's own code if non-empty, else `UNKNOWN` |
| `UnexpectedError.ErrorCodeReadsFirstEntry` | packages/tree-view-layout/src/index.ts:493-497 | only the response's first error entry and the error's own extensions decide the code; further entries, an empty error list or a response without data change nothing |

## Findings

| source | as written | input that shows it | evidently intended | confidence | as-written member | corrected member |
|---|---|---|---|---|---|---|
| packages/tree-view-layout/src/index.ts:440-450 | the field `find` returns is used as the condition, so a matching field `""` is falsy and the parent path is appended anyway | parent option `""`, primary key `id`, fields `[""]`: the result is `["", ".id"]`; evaluated again on that, `["", ".id", ".id"]` | test whether any field matches (`some`), so the rule is idempotent | low; not executed | `TreeViewParent.AsWrittenNotIdempotent` | `TreeViewParent.FieldsToQueryIdempotent` |

## Left out

- `packages/hubspot-operation/src/endpoints/schema/index.ts`: inert sample data with no behaviour.
- `saveEdits` (index.ts:470-483): sequential network calls. Its stop-at-first-failure behaviour comes from where the try/catch sits. Only its error-code fallback is modelled.
- The notification payload and the `t()` translation in `unexpectedError` (index.ts:499-505): foreign UI services.
- The 350 ms debounce of width saving: timer scheduling. `SaveWidthsToLayoutOptions` models what the callback does when it fires.
- The watch that clears the local widths whenever the options change (index.ts:253-258): host reactivity.
- `useSync`, `syncRefProperty` and the defaults they supply: the host's data binding. This covers the default sort (index.ts:196-201), the `cozy` spacing default and the `null` parent default. The model takes the resulting values as inputs, with a missing parent as `None`.
- `useItems`, `useCollection`, `useAliasFields`, `useLayoutClickHandler`, `refresh`, `download`, `toPage`, `resetPresetAndRefresh`, `showingCount`, and the flattening of aliased fields: host composables and glue.
- The `activeFields` setter (index.ts:281-283) and `getFieldDisplay` (index.ts:416-427): not part of this model.
- The header's nested `field` object (display, interface and their options, index.ts:322-332). It depends on `getDefaultDisplayForType`, which is not part of this model.
- The `!collection.value` guards: the collection is taken to be set. The field store is the store for that collection.
- `Strings.InsertionSort`: orders strings by character value, as Dafny's `char` compares them. JavaScript's default sort compares UTF-16 code units. The two differ only for characters above U+FFFF.
- `Table.WidthFor`: widths are integers. Fractional and `NaN` widths are not modelled.
- `Table.AlignFor`: stored alignments are one of left, center and right. Any other stored value is not modelled.
- `UnexpectedError.ErrorCode`: error codes are strings. Non-string codes are not modelled.
- `UnexpectedError.ErrorCode`: the error is taken to be an object. `unexpectedError(null)` throws on `error.response` (index.ts:494); that is not modelled.
- `Table.WidthFor`: plain objects are modelled as maps, so inherited members are not seen. For a key such as `constructor` or `toString` with no own entry, the source reads a function (a truthy width) from the local or saved widths; the model falls through.
- `Table.AlignFor`: for a key such as `constructor` with no own alignment, the source reads an inherited function; the model reads left.
- `Table.WidthsOf`: a header key `__proto__` is stored like any other key; in the source that assignment does not create an entry.
- `Layout.PrimaryKeys`: a primary key field such as `constructor` that an item lacks reads as `undefined` here; the source reads the inherited member.
- `Layout.PrimaryKeys`: item values are `undefined`, `null`, integers or strings. Other JSON values are not modelled.
