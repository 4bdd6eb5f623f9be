/**
 * The field lists of `useItemOptions` and `useTable`: the default visible
 * fields, the `fields` getter, and the `activeFields` getter. The host's
 * field store (`fieldsStore.getField`) is a map from a field path to the
 * field's record; a path missing from the map is an unknown field.
 */
module Fields {
  import opened Wrappers
  import opened Strings

  /** What the layout reads of a field's metadata. An absent flag or list reads as false or empty. */
  datatype FieldRecord = FieldRecord(
    field: string,
    name: Option<string>,
    fieldType: Option<string>,
    hidden: bool,
    special: seq<string>)

  type FieldStore = map<string, FieldRecord>

  /** A field that is neither hidden nor marked as holding no data. */
  predicate ShownByDefault(f: FieldRecord) {
    !f.hidden && "no-data" !in f.special
  }

  function Visible(fs: seq<FieldRecord>): (r: seq<FieldRecord>)
    ensures |r| <= |fs|
    ensures forall i :: 0 <= i < |r| ==> ShownByDefault(r[i]) && r[i] in fs
    ensures forall f :: f in fs && ShownByDefault(f) ==> f in r
  {
    if |fs| == 0 then []
    else if ShownByDefault(fs[0]) then [fs[0]] + Visible(fs[1..])
    else Visible(fs[1..])
  }

  function Names(fs: seq<FieldRecord>): (r: seq<string>)
    ensures |r| == |fs| && forall i :: 0 <= i < |fs| ==> r[i] == fs[i].field
  {
    if |fs| == 0 then [] else [fs[0].field] + Names(fs[1..])
  }

  /** Every name in a list of names comes from one of the listed fields. */
  lemma {:induction false} NameHasField(xs: seq<FieldRecord>, x: string)
    requires x in Names(xs)
    ensures exists f :: f in xs && f.field == x
  {
    var j :| 0 <= j < |xs| && Names(xs)[j] == x;
    assert xs[j] in xs;
  }

  /** The first `n` fields shown by default. */
  function FirstShown(fs: seq<FieldRecord>, n: nat): (r: seq<FieldRecord>)
    ensures |r| == if |Visible(fs)| < n then |Visible(fs)| else n
    ensures r == Visible(fs)[..|r|]
    ensures forall f :: f in r ==> f in fs && ShownByDefault(f)
  {
    var shown := Visible(fs);
    var r := shown[..if |shown| < n then |shown| else n];
    assert forall f :: f in r ==> f in shown;
    r
  }

  /**
   * `fieldsDefaultValue`: the names of the first four fields shown by default,
   * in sorted order.
   */
  function FieldsDefaultValue(fs: seq<FieldRecord>): (r: seq<string>)
    ensures |r| == if |Visible(fs)| < 4 then |Visible(fs)| else 4
    ensures Sorted(r)
    ensures multiset(r) == multiset(Names(FirstShown(fs, 4)))
    ensures forall x :: x in r ==> exists f :: f in fs && ShownByDefault(f) && f.field == x
  {
    var firstFour := FirstShown(fs, 4);
    var r := InsertionSort(Names(firstFour));
    forall x | x in r
      ensures exists f :: f in fs && ShownByDefault(f) && f.field == x
    {
      assert x in multiset(Names(firstFour));
      NameHasField(firstFour, x);
    }
    r
  }

  /** `fields.filter(field => fieldsStore.getField(collection, field))`. */
  function KnownFields(keys: seq<string>, store: FieldStore): (r: seq<string>)
    ensures |r| <= |keys|
    ensures forall i :: 0 <= i < |r| ==> r[i] in store && r[i] in keys
    ensures forall k :: k in keys && k in store ==> k in r
  {
    if |keys| == 0 then []
    else if keys[0] in store then [keys[0]] + KnownFields(keys[1..], store)
    else KnownFields(keys[1..], store)
  }

  /**
   * The `fields` getter: the query's field list, less the fields the store does
   * not know, when the query has one (an empty list included); otherwise the
   * default fields.
   */
  function QueryFields(queryFields: Option<seq<string>>, store: FieldStore, collectionFields: seq<FieldRecord>): (r: seq<string>)
    ensures queryFields.None? ==> r == FieldsDefaultValue(collectionFields)
    ensures queryFields.Some? ==> forall k :: k in r <==> k in queryFields.value && k in store
  {
    match queryFields
    case Some(keys) => KnownFields(keys, store)
    case None => FieldsDefaultValue(collectionFields)
  }

  /**
   * An entry of `activeFields`: the store's record for the key spread into an
   * object with the key; an unknown key gives an object with only the key.
   */
  datatype ActiveField = ActiveField(key: string, name: Option<string>, fieldType: Option<string>)

  predicate NoData(key: string, store: FieldStore) {
    key in store && "no-data" in store[key].special
  }

  function ActiveFor(key: string, store: FieldStore): ActiveField {
    if key in store then ActiveField(key, store[key].name, store[key].fieldType)
    else ActiveField(key, None, None)
  }

  /** The `activeFields` getter: every listed field except those marked as holding no data, in order. */
  function ActiveFields(keys: seq<string>, store: FieldStore): (r: seq<ActiveField>)
    ensures |r| <= |keys|
    ensures forall a :: a in r ==> a.key in keys && !NoData(a.key, store) && a == ActiveFor(a.key, store)
    ensures forall k :: k in keys && !NoData(k, store) ==> ActiveFor(k, store) in r
  {
    if |keys| == 0 then []
    else
      var rest := ActiveFields(keys[1..], store);
      if NoData(keys[0], store) then rest
      else [ActiveFor(keys[0], store)] + rest
  }

  /** When no listed field is marked as holding no data, the active fields follow the list one for one. */
  lemma {:induction false} ActiveFieldsKeepAll(keys: seq<string>, store: FieldStore)
    requires forall k :: k in keys ==> !NoData(k, store)
    ensures |ActiveFields(keys, store)| == |keys|
    ensures forall i :: 0 <= i < |keys| ==> ActiveFields(keys, store)[i] == ActiveFor(keys[i], store)
  {
    if |keys| > 0 {
      assert keys[0] in keys;
      ActiveFieldsKeepAll(keys[1..], store);
    }
  }

  /** `filter` keeps order: the shown fields of a concatenation are the shown fields of each part, in turn. */
  lemma {:induction false} VisibleAppend(a: seq<FieldRecord>, b: seq<FieldRecord>)
    ensures Visible(a + b) == Visible(a) + Visible(b)
    ensures Visible([]) == [] && forall f :: Visible([f]) == if ShownByDefault(f) then [f] else []
  {
    if |a| > 0 {
      assert (a + b)[0] == a[0] && (a + b)[1..] == a[1..] + b;
      VisibleAppend(a[1..], b);
    } else {
      assert a + b == b;
    }
    forall f ensures Visible([f]) == if ShownByDefault(f) then [f] else [] {
      assert [f][1..] == [];
    }
  }

  /** The known fields of a concatenation are the known fields of each part, in turn. */
  lemma {:induction false} KnownFieldsAppend(a: seq<string>, b: seq<string>, store: FieldStore)
    ensures KnownFields(a + b, store) == KnownFields(a, store) + KnownFields(b, store)
    ensures KnownFields([], store) == [] && forall k :: KnownFields([k], store) == if k in store then [k] else []
  {
    if |a| > 0 {
      assert (a + b)[0] == a[0] && (a + b)[1..] == a[1..] + b;
      KnownFieldsAppend(a[1..], b, store);
    } else {
      assert a + b == b;
    }
    forall k ensures KnownFields([k], store) == if k in store then [k] else [] {
      assert [k][1..] == [];
    }
  }

  /** The active fields of a concatenation are the active fields of each part, in turn. */
  lemma {:induction false} ActiveFieldsAppend(a: seq<string>, b: seq<string>, store: FieldStore)
    ensures ActiveFields(a + b, store) == ActiveFields(a, store) + ActiveFields(b, store)
    ensures ActiveFields([], store) == [] && forall k :: ActiveFields([k], store) == if NoData(k, store) then [] else [ActiveFor(k, store)]
  {
    if |a| > 0 {
      assert (a + b)[0] == a[0] && (a + b)[1..] == a[1..] + b;
      ActiveFieldsAppend(a[1..], b, store);
    } else {
      assert a + b == b;
    }
    forall k ensures ActiveFields([k], store) == if NoData(k, store) then [] else [ActiveFor(k, store)] {
      assert [k][1..] == [];
    }
  }

  /** When the store knows every listed field, none is dropped. */
  lemma {:induction false} KnownFieldsKeepAll(keys: seq<string>, store: FieldStore)
    requires forall k :: k in keys ==> k in store
    ensures KnownFields(keys, store) == keys
  {
    if |keys| > 0 {
      assert keys[0] in keys;
      KnownFieldsKeepAll(keys[1..], store);
      assert keys == [keys[0]] + keys[1..];
    }
  }

  /**
   * A field list the query holds, whose fields the store knows and none of
   * which is marked as holding no data, becomes the active fields one for one,
   * in the same order.
   */
  lemma QueryOrderIsColumnOrder(keys: seq<string>, store: FieldStore, collectionFields: seq<FieldRecord>)
    requires forall k :: k in keys ==> k in store && !NoData(k, store)
    ensures var active := ActiveFields(QueryFields(Some(keys), store, collectionFields), store);
            |active| == |keys| && forall i :: 0 <= i < |keys| ==> active[i] == ActiveFor(keys[i], store)
  {
    KnownFieldsKeepAll(keys, store);
    ActiveFieldsKeepAll(keys, store);
  }
}
