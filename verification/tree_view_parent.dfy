/**
 * `useTreeViewParent`: the field list the layout asks the host to fetch.
 * Tree nesting is rebuilt client-side from each record's parent reference, so
 * the list must hold the path `<parent>.<primary key>` (or the parent field
 * itself); it is appended when no requested field already covers it.
 */
module TreeViewParent {
  import opened Wrappers
  import opened Strings

  /** How a template literal prints the parent option: a missing parent prints as `null`. */
  function Render(parent: Option<string>): (s: string)
    ensures parent.Some? ==> s == parent.value
    ensures parent.None? ==> s == "null"
  {
    match parent
    case Some(p) => p
    case None => "null"
  }

  /** `${parent}.${primaryKey}`: the parent's primary key seen through the relation. */
  function ParentPath(parent: Option<string>, pk: string): (path: string)
    ensures |path| == |Render(parent)| + 1 + |pk|
    ensures StartsWith(path, Render(parent)) && path[|Render(parent)|] == '.' && path[|Render(parent)| + 1..] == pk
  {
    Render(parent) + "." + pk
  }

  /** A requested field that already brings in the parent reference. */
  predicate Covers(field: string, parent: Option<string>, path: string) {
    (parent.Some? && field == parent.value) || StartsWith(field, path)
  }

  predicate Covered(fields: seq<string>, parent: Option<string>, path: string) {
    exists i :: 0 <= i < |fields| && Covers(fields[i], parent, path)
  }

  /** `fields.find(...)`: the first field that covers the parent reference. */
  function FindCovering(fields: seq<string>, parent: Option<string>, path: string): (r: Option<string>)
    ensures r.Some? <==> Covered(fields, parent, path)
    ensures r.Some? ==> exists i :: 0 <= i < |fields| && fields[i] == r.value && Covers(r.value, parent, path)
                          && forall j :: 0 <= j < i ==> !Covers(fields[j], parent, path)
  {
    if |fields| == 0 then None
    else if Covers(fields[0], parent, path) then Some(fields[0])
    else
      var r := FindCovering(fields[1..], parent, path);
      assert forall i :: 1 <= i < |fields| ==> fields[i] == fields[1..][i - 1];
      assert r.Some? ==> Covered(fields, parent, path);
      r
  }

  /**
   * The `fieldsToQuery` getter as the source writes it: the value `find`
   * returns is used as a truth value, so a covering field that is the empty
   * string counts as not found.
   */
  function FieldsToQueryAsWritten(fields: seq<string>, parent: Option<string>, pk: Option<string>): (r: seq<string>)
    ensures |fields| <= |r| <= |fields| + 1 && r[..|fields|] == fields
    ensures pk.None? ==> r == fields
    ensures |r| > |fields| ==> r[|fields|] == ParentPath(parent, pk.value)
    ensures pk.Some? ==> Covered(r, parent, ParentPath(parent, pk.value))
  {
    if pk.None? then fields
    else
      var path := ParentPath(parent, pk.value);
      var found := FindCovering(fields, parent, path);
      if found.Some? && found.value != "" then fields
      else
        var r := fields + [path];
        assert Covers(r[|fields|], parent, path);
        r
  }

  /**
   * `fieldsToQuery` as intended: unchanged when there is no primary key or a
   * field already covers the parent reference, otherwise the input with the
   * parent path appended once.
   */
  function FieldsToQuery(fields: seq<string>, parent: Option<string>, pk: Option<string>): (r: seq<string>)
    ensures |fields| <= |r| <= |fields| + 1 && r[..|fields|] == fields
    ensures pk.None? ==> r == fields
    ensures pk.Some? && Covered(fields, parent, ParentPath(parent, pk.value)) ==> r == fields
    ensures |r| > |fields| ==> r[|fields|] == ParentPath(parent, pk.value)
    ensures pk.Some? ==> Covered(r, parent, ParentPath(parent, pk.value))
  {
    if pk.None? || Covered(fields, parent, ParentPath(parent, pk.value)) then fields
    else
      var path := ParentPath(parent, pk.value);
      var r := fields + [path];
      assert Covers(r[|fields|], parent, path);
      r
  }

  /** With a primary key, asking again for the computed list changes nothing. */
  lemma FieldsToQueryIdempotent(fields: seq<string>, parent: Option<string>, pk: Option<string>)
    ensures FieldsToQuery(FieldsToQuery(fields, parent, pk), parent, pk) == FieldsToQuery(fields, parent, pk)
  {
  }

  /** The two readings differ only when the parent option is the empty string. */
  lemma AsWrittenAgrees(fields: seq<string>, parent: Option<string>, pk: Option<string>)
    requires parent != Some("")
    ensures FieldsToQueryAsWritten(fields, parent, pk) == FieldsToQuery(fields, parent, pk)
  {
    if pk.Some? {
      var path := ParentPath(parent, pk.value);
      var found := FindCovering(fields, parent, path);
      if found.Some? {
        assert found.value != "" by {
          assert Covers(found.value, parent, path);
          assert |path| > 0;
        }
      }
    }
  }

  /**
   * The two readings differ exactly when there is a primary key, the parent
   * option is the empty string and the first covering field is the empty string.
   */
  lemma AsWrittenDiffers(fields: seq<string>, parent: Option<string>, pk: Option<string>)
    ensures FieldsToQueryAsWritten(fields, parent, pk) != FieldsToQuery(fields, parent, pk)
        <==> pk.Some? && parent == Some("") && FindCovering(fields, parent, ParentPath(parent, pk.value)) == Some("")
  {
    if pk.Some? {
      var path := ParentPath(parent, pk.value);
      var found := FindCovering(fields, parent, path);
      if found == Some("") {
        assert Covers("", parent, path);
        assert |path| > 0;
        assert parent == Some("");
        assert |FieldsToQueryAsWritten(fields, parent, pk)| != |FieldsToQuery(fields, parent, pk)|;
      } else {
        assert FieldsToQueryAsWritten(fields, parent, pk) == FieldsToQuery(fields, parent, pk);
      }
    }
  }

  /**
   * With the parent option set to the empty string and an empty field in the
   * list, the source appends the parent path on every evaluation.
   */
  lemma AsWrittenNotIdempotent()
    ensures var once := FieldsToQueryAsWritten([""], Some(""), Some("id"));
            once == ["", ".id"] && FieldsToQueryAsWritten(once, Some(""), Some("id")) == ["", ".id", ".id"]
  {
    assert ParentPath(Some(""), "id") == ".id";
    assert Covers("", Some(""), ".id");
    assert FindCovering([""], Some(""), ".id") == Some("");
    var once := FieldsToQueryAsWritten([""], Some(""), Some("id"));
    assert once == ["", ".id"];
    assert FindCovering(once, Some(""), ".id") == Some("");
  }
}
