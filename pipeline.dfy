/**
 * The whole merge of `main` (merge_panel.py, lines 84-223) once the layout
 * has been read: each distinct design is loaded once, every instance's rows
 * are copied with its prefix, and the merged BOM is aggregated, flattened and
 * given its column list.
 */
module Pipeline {
  import opened Wrappers
  import opened Records
  import opened BomLoader
  import opened PositionLoader
  import opened Panel
  import opened BomGrouping
  import opened BomOutput

  /** The CSV contents chosen for one design: its BOM rows and its pick-and-place rows. */
  datatype DesignFiles = DesignFiles(bomRows: seq<Row<string>>, posRows: seq<Row<string>>)

  /** What the CSV files of a design must hold for the merge to run to the end. */
  ghost predicate ReadableFiles(f: DesignFiles) {
    && (forall j :: 0 <= j < |f.bomRows| ==> WellFormed(f.bomRows[j]))
    && forall j :: 0 <= j < |f.posRows| ==>
         HasCoordinateColumns(f.posRows[j]) && DESIGNATOR in f.posRows[j].cells && LAYER in f.posRows[j].cells
  }

  /** `{"bom": load_bom(...), "pos": load_positions(...)}` for one design. */
  function LoadDesign(f: DesignFiles, parseCoord: string -> Option<real>, parseAngle: string -> Option<int>): Design
    requires ReadableFiles(f)
  {
    Design(ExpandAll(f.bomRows), PositionsOf(f.posRows, parseCoord, parseAngle))
  }

  /**
   * A loaded design is what the instance loop needs: its placement rows have
   * designators and layers, and its components are one per designator with quantity 1.
   */
  lemma LoadDesignValid(f: DesignFiles, parseCoord: string -> Option<real>, parseAngle: string -> Option<int>)
    requires ReadableFiles(f)
    ensures ValidDesign(LoadDesign(f, parseCoord, parseAngle))
    ensures |LoadDesign(f, parseCoord, parseAngle).bom| == RefCount(f.bomRows)
    ensures forall j :: 0 <= j < |LoadDesign(f, parseCoord, parseAngle).bom| ==>
      Loaded(LoadDesign(f, parseCoord, parseAngle).bom[j])
  {
    var d := LoadDesign(f, parseCoord, parseAngle);
    ExpandAllLoaded(f.bomRows);
    PositionsOfMembers(f.posRows, parseCoord, parseAngle);
    forall j | 0 <= j < |d.positions| ensures Placeable(d.positions[j]) {
      assert d.positions[j] in d.positions;
    }
  }

  /** The paths the layout names, `unique_paths`. */
  function Paths(instances: seq<Instance>): set<string> {
    set i | 0 <= i < |instances| :: instances[i].path
  }

  /** `source_data`: every named design loaded once. */
  function SourceData(instances: seq<Instance>, files: map<string, DesignFiles>,
                      parseCoord: string -> Option<real>, parseAngle: string -> Option<int>)
    : (source: map<string, Design>)
    requires forall p :: p in Paths(instances) ==> p in files && ReadableFiles(files[p])
    ensures Covers(instances, source)
    ensures forall i, j :: 0 <= i < |instances| && 0 <= j < |source[instances[i].path].bom| ==>
      Loaded(source[instances[i].path].bom[j])
  {
    var source := map p | p in Paths(instances) :: LoadDesign(files[p], parseCoord, parseAngle);
    assert forall p :: p in Paths(instances) ==>
      ValidDesign(source[p]) && forall j :: 0 <= j < |source[p].bom| ==> Loaded(source[p].bom[j])
    by {
      forall p | p in Paths(instances)
        ensures ValidDesign(source[p]) && forall j :: 0 <= j < |source[p].bom| ==> Loaded(source[p].bom[j])
      {
        LoadDesignValid(files[p], parseCoord, parseAngle);
      }
    }
    assert forall i :: 0 <= i < |instances| ==> instances[i].path in Paths(instances);
    source
  }

  /** The loop over `unique_paths`, in whatever order the set yields its paths. */
  method LoadSources(instances: seq<Instance>, files: map<string, DesignFiles>,
                     parseCoord: string -> Option<real>, parseAngle: string -> Option<int>)
    returns (source: map<string, Design>)
    requires forall p :: p in Paths(instances) ==> p in files && ReadableFiles(files[p])
    ensures source == SourceData(instances, files, parseCoord, parseAngle)
  {
    source := map[];
    var pending := Paths(instances);
    while pending != {}
      invariant pending <= Paths(instances)
      invariant source.Keys == Paths(instances) - pending
      invariant forall p :: p in source ==> source[p] == LoadDesign(files[p], parseCoord, parseAngle)
      decreases pending
    {
      var p :| p in pending;
      var bomRows := LoadBom(files[p].bomRows);
      var positions := LoadPositions(files[p].posRows, parseCoord, parseAngle);
      source := source[p := Design(bomRows, positions)];
      pending := pending - {p};
    }
  }

  /**
   * The merge: placements and component rows of every instance, the merged BOM
   * and its columns. `sourceFieldnames` are the columns lines 211-217 choose,
   * from the first merged row only; `fieldnames` take every merged row's
   * columns, which the BOM writer always accepts (see
   * `BomOutput.FirstRowFieldNamesRejected` for a layout on which it rejects
   * `sourceFieldnames`).
   */
  method MergePanel(instances: seq<Instance>, files: map<string, DesignFiles>,
                    rotate: (real, real, int) -> (real, real),
                    parseCoord: string -> Option<real>, parseAngle: string -> Option<int>)
    returns (placements: seq<Placed>, bom: seq<Row<Cell>>, sourceFieldnames: seq<string>, fieldnames: seq<string>)
    requires forall p :: p in Paths(instances) ==> p in files && ReadableFiles(files[p])
    ensures var source := SourceData(instances, files, parseCoord, parseAngle);
      && placements == MergedPlacements(instances, source, rotate, |instances|)
      && AllGroupable(MergedBom(instances, source, |instances|))
      && bom == AggregatedBom(MergedBom(instances, source, |instances|))
      && sourceFieldnames == FieldNamesAsWritten(MergedBom(instances, source, |instances|))
      && fieldnames == AllFieldNames(MergedBom(instances, source, |instances|))
    ensures DictWriterAccepts(fieldnames, bom)
  {
    var source := LoadSources(instances, files, parseCoord, parseAngle);
    var mergedBom;
    placements, mergedBom := MergeInstances(instances, source, rotate);
    MergedBomLoaded(instances, source, |instances|);
    LoadedGroupable(mergedBom);
    var grouped := GroupBom(mergedBom);
    AggregateValid(mergedBom);
    bom := FlattenBom(grouped);
    sourceFieldnames := BomFieldNames(mergedBom);
    fieldnames := AllBomFieldNames(mergedBom);
    AllFieldNamesAccepted(mergedBom);
  }

  /**
   * Quantities add up across the whole panel: the groups' quantities total the
   * number of merged component rows, one per designator per instance.
   */
  lemma PanelQuantity(instances: seq<Instance>, source: map<string, Design>)
    requires Covers(instances, source)
    requires forall i, j :: 0 <= i < |instances| && 0 <= j < |source[instances[i].path].bom| ==>
      Loaded(source[instances[i].path].bom[j])
    ensures AllGroupable(MergedBom(instances, source, |instances|))
    ensures var g := Aggregate(MergedBom(instances, source, |instances|));
      GroupsTotal(g.order, g.groups) == ComponentCount(instances, source, |instances|)
  {
    var merged := MergedBom(instances, source, |instances|);
    MergedBomLoaded(instances, source, |instances|);
    LoadedGroupable(merged);
    MergedBomLength(instances, source, |instances|);
    AggregateTotal(merged);
    forall i | 0 <= i < |merged| ensures Qty(merged[i]) == 1 {
      assert Loaded(merged[i]);
    }
    UnitQuantities(merged, Key(Text(""), Text(""), Text("")));
  }
}
