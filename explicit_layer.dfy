/**
 * The report printed for one explicit layer manifest
 * (`PrintExplicitLayerJsonInfo`) and the extension tables shared with the
 * driver manifests: the four descriptive fields, then one of five verdicts on
 * how the layer is built (a library, a list of component layers, both,
 * neither, or a component list that is not an array).
 */
module ExplicitLayer {
  import opened Wrappers
  import opened Json

  /** One printed row of an extension table: the bracketed heading and the text. */
  datatype Row = Row(heading: string, text: string)

  /** The count row (the array's size) and the rows that follow it. */
  datatype ExtensionTable = ExtensionTable(count: nat, rows: seq<Row>)

  /** The label `snprintf(.., "[%d]", n)` writes. */
  function Label(n: nat): string {
    "[" + NatToString(n) + "]"
  }

  /**
   * The rows printed for the entries of an extension array: one for each
   * entry whose `name` is present, labelled with the counter, which stays 0.
   */
  function NamedRows(items: seq<Value>): seq<Row>
    decreases |items|
  {
    if items == [] then []
    else
      var name := Get(items[0], NameKey);
      (if name.Null? then [] else [Row(Label(0), AsString(name))]) + NamedRows(items[1..])
  }

  /** The table printed for `device_extensions` or `instance_extensions`: none unless the member is an array. */
  function ExtensionTableOf(exts: Value): Option<ExtensionTable> {
    if !exts.Null? && exts.Arr? then Some(ExtensionTable(Size(exts), NamedRows(exts.items))) else None
  }

  /**
   * The rows name exactly the entries that have a `name`, in their order,
   * and there are never more rows than the count row announces.
   */
  lemma {:induction false} NamedRowsMatchEntries(items: seq<Value>)
    ensures |NamedRows(items)| <= |items|
    ensures forall i :: 0 <= i < |items| && !Get(items[i], NameKey).Null? ==>
      Row(Label(0), AsString(Get(items[i], NameKey))) in NamedRows(items)
    ensures forall row :: row in NamedRows(items) ==>
      exists i :: 0 <= i < |items| && !Get(items[i], NameKey).Null? && row.text == AsString(Get(items[i], NameKey))
    decreases |items|
  {
    if items != [] {
      NamedRowsMatchEntries(items[1..]);
      var head := Get(items[0], NameKey);
      var front := if head.Null? then [] else [Row(Label(0), AsString(head))];
      assert NamedRows(items) == front + NamedRows(items[1..]);
      forall i | 0 <= i < |items| && !Get(items[i], NameKey).Null?
        ensures Row(Label(0), AsString(Get(items[i], NameKey))) in NamedRows(items)
      {
        if i > 0 {
          assert items[i] == items[1..][i - 1];
        }
      }
      forall row | row in NamedRows(items)
        ensures exists i :: 0 <= i < |items| && !Get(items[i], NameKey).Null? && row.text == AsString(Get(items[i], NameKey))
      {
        if row in front {
          assert !Get(items[0], NameKey).Null? && row.text == AsString(Get(items[0], NameKey));
        } else {
          assert row in NamedRows(items[1..]);
          var j :| 0 <= j < |items[1..]| && !Get(items[1..][j], NameKey).Null? && row.text == AsString(Get(items[1..][j], NameKey));
          assert items[1..][j] == items[j + 1];
        }
      }
    }
  }

  /** The counter is never advanced, so every row carries the label "[0]". */
  lemma {:induction false} RowsAllLabelledZero(items: seq<Value>)
    ensures forall row :: row in NamedRows(items) ==> row.heading == "[0]"
    decreases |items|
  {
    if items != [] {
      RowsAllLabelledZero(items[1..]);
    }
  }

  /**
   * The extension loop: for each entry with a `name`, a row labelled with
   * `ext`; the count row shows the array's size.
   */
  method ExtensionRows(exts: Value) returns (table: Option<ExtensionTable>)
    ensures table.Some? <==> exts.Arr?
    ensures table.Some? ==> table.value.count == |exts.items|
    ensures table.Some? ==> table.value.rows == NamedRows(exts.items)
  {
    table := None;
    var ext: nat := 0;
    if !exts.Null? && exts.Arr? {
      var rows: seq<Row> := [];
      var i := 0;
      while i < |exts.items|
        invariant i <= |exts.items|
        invariant rows + NamedRows(exts.items[i..]) == NamedRows(exts.items)
      {
        assert exts.items[i..][1..] == exts.items[i + 1..];
        ghost var before := rows;
        var name := Get(exts.items[i], NameKey);
        ghost var front := if name.Null? then [] else [Row(Label(0), AsString(name))];
        assert NamedRows(exts.items[i..]) == front + NamedRows(exts.items[i + 1..]);
        if !name.Null? {
          rows := rows + [Row(Label(ext), AsString(name))];
        }
        assert rows == before + front;
        i := i + 1;
      }
      assert exts.items[i..] == [];
      table := Some(ExtensionTable(Size(exts), rows));
    }
  }

  /** The five verdicts on how a layer is built. */
  datatype Composition =
    | BothDefined
    | Library(path: string, deviceExtensions: Option<ExtensionTable>, instanceExtensions: Option<ExtensionTable>)
    | Components(count: nat, names: seq<string>)
    | ComponentsNotArray
    | CompositionMissing

  /** What is printed for one manifest; a field that is `None` prints as "MISSING!". */
  datatype LayerReport =
    | LayerSectionMissing
    | Described(
        name: Option<string>,
        description: Option<string>,
        apiVersion: Option<string>,
        fileFormatVersion: Option<string>,
        composition: Composition)

  /** A member's text, or `None` when it is absent. */
  function Shown(v: Value): Option<string> {
    if v.Null? then None else Some(AsString(v))
  }

  /** The text of every entry of a component list, in order. */
  function ComponentNames(items: seq<Value>): seq<string> {
    seq(|items|, i requires 0 <= i < |items| => AsString(items[i]))
  }

  function CompositionOf(layer: Value): Composition {
    var components := Get(layer, ComponentLayersKey);
    var library := Get(layer, LibraryPathKey);
    if !components.Null? && !library.Null? then BothDefined
    else if !library.Null? then
      Library(AsString(library),
        ExtensionTableOf(Get(layer, DeviceExtensionsKey)),
        ExtensionTableOf(Get(layer, InstanceExtensionsKey)))
    else if !components.Null? then
      if components.Arr? then Components(|components.items|, ComponentNames(components.items))
      else ComponentsNotArray
    else CompositionMissing
  }

  function ExplicitLayerReport(root: Value): LayerReport {
    var layer := Get(root, LayerKey);
    if layer.Null? then LayerSectionMissing
    else
      Described(
        Shown(Get(layer, NameKey)),
        Shown(Get(layer, DescriptionKey)),
        Shown(Get(layer, ApiVersionKey)),
        Shown(Get(root, FileFormatVersionKey)),
        CompositionOf(layer))
  }

  /**
   * The verdicts are exclusive and follow the two members: both present,
   * only the library, only the component list (array or not), or neither.
   * A library-only layer is the only one whose extensions are listed.
   */
  lemma {:induction false} CompositionClassified(root: Value)
    requires !Get(root, LayerKey).Null?
    ensures var layer := Get(root, LayerKey);
      var c := ExplicitLayerReport(root).composition;
      var hasComponents := !Get(layer, ComponentLayersKey).Null?;
      var hasLibrary := !Get(layer, LibraryPathKey).Null?;
      && (c.BothDefined? <==> hasComponents && hasLibrary)
      && (c.Library? <==> hasLibrary && !hasComponents)
      && (c.Components? <==> !hasLibrary && Get(layer, ComponentLayersKey).Arr?)
      && (c.ComponentsNotArray? <==> !hasLibrary && hasComponents && !Get(layer, ComponentLayersKey).Arr?)
      && (c.CompositionMissing? <==> !hasLibrary && !hasComponents)
    ensures var c := ExplicitLayerReport(root).composition;
      c.Library? ==> c.path == AsString(Get(Get(root, LayerKey), LibraryPathKey))
  {
  }

  /**
   * A component list prints a count row holding the list's `size()`, then one
   * row per entry holding that entry's text, in list order; so the count
   * equals the number of rows that follow it.
   */
  lemma {:induction false} ComponentCountMatchesRows(root: Value)
    requires ExplicitLayerReport(root).Described?
    requires ExplicitLayerReport(root).composition.Components?
    ensures var list := Get(Get(root, LayerKey), ComponentLayersKey);
      var c := ExplicitLayerReport(root).composition;
      && list.Arr? && c.count == Size(list) && |c.names| == c.count
      && forall i :: 0 <= i < c.count ==> c.names[i] == AsString(list.items[i])
  {
  }

  /**
   * Each descriptive field prints the member's text when present and
   * "MISSING!" otherwise; the file format version is read from the document
   * root, the other three from the layer section.
   */
  lemma {:induction false} FieldsShownOrMissing(root: Value)
    ensures ExplicitLayerReport(root).LayerSectionMissing? <==> Get(root, LayerKey).Null?
    ensures var r := ExplicitLayerReport(root);
      r.Described? ==>
        && (r.name.None? <==> Get(Get(root, LayerKey), NameKey).Null?)
        && (r.description.None? <==> Get(Get(root, LayerKey), DescriptionKey).Null?)
        && (r.apiVersion.None? <==> Get(Get(root, LayerKey), ApiVersionKey).Null?)
        && (r.fileFormatVersion.None? <==> Get(root, FileFormatVersionKey).Null?)
        && (r.fileFormatVersion.Some? ==> r.fileFormatVersion.value == AsString(Get(root, FileFormatVersionKey)))
  {
  }

  /** The component loop: one row per entry, with the entry's text. */
  method ComponentRows(components: Value) returns (count: nat, names: seq<string>)
    requires components.Arr?
    ensures count == |components.items|
    ensures names == ComponentNames(components.items)
  {
    count := Size(components);
    names := [];
    var i := 0;
    while i < |components.items|
      invariant i <= |components.items|
      invariant names == ComponentNames(components.items)[..i]
    {
      names := names + [AsString(components.items[i])];
      i := i + 1;
    }
  }

  /** `PrintExplicitLayerJsonInfo`: the report for one parsed manifest. */
  method PrintExplicitLayerJsonInfo(root: Value) returns (report: LayerReport)
    ensures report == ExplicitLayerReport(root)
  {
    var layer := Get(root, LayerKey);
    if layer.Null? {
      return LayerSectionMissing;
    }
    var name := Shown(Get(layer, NameKey));
    var description := Shown(Get(layer, DescriptionKey));
    var apiVersion := Shown(Get(layer, ApiVersionKey));
    var fileFormatVersion := Shown(Get(root, FileFormatVersionKey));

    var componentLayers := Get(layer, ComponentLayersKey);
    var libraryPath := Get(layer, LibraryPathKey);
    var composition: Composition;
    if !componentLayers.Null? && !libraryPath.Null? {
      composition := BothDefined;
    } else if !libraryPath.Null? {
      var device := ExtensionRows(Get(layer, DeviceExtensionsKey));
      var instance := ExtensionRows(Get(layer, InstanceExtensionsKey));
      composition := Library(AsString(libraryPath), device, instance);
    } else if !componentLayers.Null? {
      if componentLayers.Arr? {
        var count, names := ComponentRows(componentLayers);
        composition := Components(count, names);
      } else {
        composition := ComponentsNotArray;
      }
    } else {
      composition := CompositionMissing;
    }
    report := Described(name, description, apiVersion, fileFormatVersion, composition);
  }
}
