/**
 * The saved per-view options the layout reads and writes (its `LayoutOptions`).
 * Each entry may be absent; an absent `layoutOptions` object altogether is the
 * value with every entry absent.
 */
module LayoutTypes {
  import opened Wrappers

  /** A column's text alignment. */
  datatype Align = Left | Center | Right

  datatype LayoutOptions = LayoutOptions(
    widths: Option<map<string, int>>,   // saved column widths by field key
    align: Option<map<string, Align>>,  // saved column alignments by field key
    spacing: Option<string>,            // row spacing preset
    parent: Option<string>)             // the field that holds a record's parent

  /** `layoutOptions.value?.widths?.[key]`, with JavaScript's `undefined` as `None`. */
  function SavedWidth(options: LayoutOptions, key: string): Option<int> {
    if options.widths.Some? && key in options.widths.value then Some(options.widths.value[key]) else None
  }

  /** `layoutOptions.value?.align ?? {}`. */
  function AlignEntries(options: LayoutOptions): map<string, Align> {
    options.align.GetOr(map[])
  }
}
