/**
 * Main.main without its I/O: the output id, the include set, the table filled
 * from the recording's events, and the sorted lines of the report.
 */
module Pipeline {
  import opened Wrappers
  import opened FoldedStacks
  import opened Includes
  import opened Aggregation
  import opened Report
  import opened OutputId

  /** What a run produces: the id of mem-info-<id>.txt, its rows and its lines. */
  datatype RunOutput = RunOutput(id: int, rows: seq<Row>, lines: seq<string>)

  /**
   * A run over the events of one recording. A path the id cannot be
   * derived from ends the run before anything is written.
   */
  method Run(file: string, events: seq<Event>, includeArg: Option<string>) returns (r: Result<RunOutput, IdError>)
    ensures DeriveId(file).Err? ==> r == Err(DeriveId(file).error)
    ensures DeriveId(file).Ok? ==> r.Ok? && r.value.id == DeriveId(file).value
    ensures r.Ok? ==> IsReportOf(r.value.rows, Aggregate(events, IncludeTerms(includeArg)))
    ensures r.Ok? ==> (|r.value.lines| == |r.value.rows|
      && forall i :: 0 <= i < |r.value.rows| ==> r.value.lines[i] == RenderRow(r.value.rows[i]))
  {
    var id := DeriveId(file);
    if id.Err? {
      return Err(id.error);
    }
    var includes := ParseIncludes(includeArg);
    var table := new AllocationTable();
    table.ProcessAll(events, includes);
    var rows := SortByValue(table.allocs);
    var lines := [];
    for i := 0 to |rows|
      invariant |lines| == i
      invariant forall k :: 0 <= k < i ==> lines[k] == RenderRow(rows[k])
    {
      lines := lines + [RenderRow(rows[i])];
    }
    r := Ok(RunOutput(id.value, rows, lines));
  }

  /** Any report of a two-entry table lists the larger total first. */
  lemma ReportOfTwo(rows: seq<Row>, k1: string, v1: nat, k2: string, v2: nat)
    requires k1 != k2 && v1 > v2
    requires IsReportOf(rows, map[k1 := v1, k2 := v2])
    ensures rows == [Row(k1, v1), Row(k2, v2)]
  {
    TwoRowsReport(k1, v1, k2, v2);
    ReportUnique(rows, [Row(k1, v1), Row(k2, v2)], map[k1 := v1, k2 := v2]);
  }

  /** Two rows, larger total first, are a report of their two-entry table. */
  lemma TwoRowsReport(k1: string, v1: nat, k2: string, v2: nat)
    requires k1 != k2 && v1 > v2
    ensures IsReportOf([Row(k1, v1), Row(k2, v2)], map[k1 := v1, k2 := v2])
  {
    var m, sorted := map[k1 := v1, k2 := v2], [Row(k1, v1), Row(k2, v2)];
    assert m.Keys == {k1, k2};
    assert sorted[0] == Row(k1, m[k1]) && sorted[1] == Row(k2, m[k2]);
  }

  /** Two events with one key and sizes 100 and 250, one with another key and size 16. */
  function ScenarioEvents(): seq<Event>
  {
    [ Event(InNewTlab, Some([Frame("A", "a")]), Some("I"), Some(100)),
      Event(OutsideTlab, Some([Frame("A", "a")]), Some("I"), Some(250)),
      Event(InNewTlab, Some([Frame("B", "b")]), Some("I"), Some(16)) ]
  }

  lemma ScenarioKeys()
    ensures FoldedKey([Frame("A", "a")], "I") == Some("java;A:.a;int")
    ensures FoldedKey([Frame("B", "b")], "I") == Some("java;B:.b;int")
  {
    TypeNames.PrimitiveExamples();
    assert Text.Replace("A", '.', '/') == "A" && Text.Replace("B", '.', '/') == "B";
    assert [Frame("A", "a")][1..] == [] && [Frame("B", "b")][1..] == [];
    assert StackText([Frame("A", "a")]) == "A:.a;" && StackText([Frame("B", "b")]) == "B:.b;";
    assert Tag + "A:.a;" + "int" == "java;A:.a;int" && Tag + "B:.b;" + "int" == "java;B:.b;int";
  }

  /** The table the scenario's events build with no include terms. */
  lemma ScenarioTable()
    ensures Aggregate(ScenarioEvents(), {}) == map["java;A:.a;int" := 350, "java;B:.b;int" := 16]
  {
    var s := ScenarioEvents();
    ScenarioKeys();
    var k1, k2 := "java;A:.a;int", "java;B:.b;int";
    assert KeyOf(s[0], {}) == Some(k1) && KeyOf(s[1], {}) == Some(k1) && KeyOf(s[2], {}) == Some(k2);
    assert s[..1][..0] == s[..0] && s[..1][0] == s[0] && s[..2][..1] == s[..1] && s[..2][1] == s[1] && s[..|s| - 1] == s[..2];
    assert AggregateFrom(map[], s[..0], {}) == map[];
    assert Aggregate(s[..1], {}) == Step(map[], s[0], {}) == Upsert(map[], k1, 100) == map[k1 := 100];
    assert Aggregate(s[..2], {}) == Upsert(map[k1 := 100], k1, 250) == map[k1 := 350];
    assert Aggregate(s, {}) == Upsert(map[k1 := 350], k2, 16) == map[k1 := 350, k2 := 16];
  }

  /**
   * The end-to-end case: exactly two lines, the shared key first with 350,
   * the other with 16, whatever order the events arrive in.
   */
  lemma EndToEndScenario(events: seq<Event>, rows: seq<Row>)
    requires multiset(events) == multiset(ScenarioEvents())
    requires IsReportOf(rows, Aggregate(events, {}))
    ensures rows == [Row("java;A:.a;int", 350), Row("java;B:.b;int", 16)]
  {
    AggregateOrderIndependent(events, ScenarioEvents(), {});
    ScenarioTable();
    ReportOfTwo(rows, "java;A:.a;int", 350, "java;B:.b;int", 16);
  }
}
