/**
 * The result table format read by the bar-cluster plot, and the table of
 * figure 15(a) of the RC3 paper ("Recursively Cautious Congestion
 * Control") that figure15a_paper_data returns.
 */
module Figure15Data {

  /** One cell of the table: {'mean': ..., 'stddev': ...}. */
  datatype Cell = Cell(mean: real, stddev: real)

  /** flow length -> flow type -> cell. */
  type Rows = map<int, map<string, Cell>>

  /** A Python dict keyed by flow length: its keys in the order keys()
      returns them, and its entries. */
  datatype PlotData = PlotData(keys: seq<int>, rows: Rows)

  predicate Distinct(s: seq<int>)
  {
    forall i, j :: 0 <= i < j < |s| ==> s[i] != s[j]
  }

  /** Every dict lists each of its keys exactly once. */
  predicate WellFormed(d: PlotData)
  {
    && Distinct(d.keys)
    && (forall k :: k in d.rows ==> k in d.keys)
    && (forall i :: 0 <= i < |d.keys| ==> d.keys[i] in d.rows)
  }

  /** In a well-formed dict, keys() lists exactly the keys that have
      entries. */
  lemma KeysAreRows(d: PlotData)
    requires WellFormed(d)
    ensures forall k :: k in d.keys <==> k in d.rows
  {
    forall k | k in d.keys
      ensures k in d.rows
    {
      var j :| 0 <= j < |d.keys| && d.keys[j] == k;
    }
  }

  /** What figure15a_paper_data returns: (data, flow_types,
      flow_type_colors, title). */
  datatype Figure = Figure(
    data: PlotData,
    flowTypes: seq<string>,
    colors: map<string, string>,
    title: string)

  const SIM_TCP: string := "Simulated Regular TCP"
  const SIM_RC3: string := "Simulated RC3"
  const REAL_TCP: string := "Real Regular TCP"
  const REAL_RC3: string := "Real RC3"
  const MININET_TCP: string := "Mininet Regular TCP"
  const MININET_RC3: string := "Mininet RC3"

  /** The six series every entry of the table carries. */
  const SERIES: set<string> :=
    {SIM_TCP, SIM_RC3, REAL_TCP, REAL_RC3, MININET_TCP, MININET_RC3}

  /** The flow lengths of the figure, in bytes: flow_completion_times. */
  const FLOW_COMPLETION_TIMES: seq<int> :=
    [1460, 7300, 14600, 73000, 146000, 730000, 1460000]

  /** A cell with non-negative mean and deviation. */
  predicate NonNegative(c: Cell)
  {
    c.mean >= 0.0 && c.stddev >= 0.0
  }

  /** One flow length's entry: the four series read off the paper and the
      two Mininet series left as zero placeholders for test results. */
  function Row(simTcp: Cell, simRc3: Cell, realTcp: Cell, realRc3: Cell)
    : (row: map<string, Cell>)
    ensures row.Keys == SERIES
    ensures row[SIM_TCP] == simTcp && row[SIM_RC3] == simRc3
    ensures row[REAL_TCP] == realTcp && row[REAL_RC3] == realRc3
    ensures row[MININET_TCP] == Cell(0.0, 0.0) && row[MININET_RC3] == Cell(0.0, 0.0)
    ensures (NonNegative(simTcp) && NonNegative(simRc3) && NonNegative(realTcp) &&
             NonNegative(realRc3)) ==> forall t :: t in row ==> NonNegative(row[t])
  {
    map[SIM_TCP := simTcp, SIM_RC3 := simRc3,
        REAL_TCP := realTcp, REAL_RC3 := realRc3,
        MININET_TCP := Cell(0.0, 0.0), MININET_RC3 := Cell(0.0, 0.0)]
  }

  /** The entry of the `data` dictionary for flow length n. */
  function PaperRow(n: int): (row: map<string, Cell>)
    requires n in FLOW_COMPLETION_TIMES
    ensures row.Keys == SERIES
    ensures forall t :: t in row ==> NonNegative(row[t])
  {
    if n == 1460 then
      Row(Cell(0.0296, 0.0), Cell(0.0296, 0.0), Cell(0.0296, 0.00022), Cell(0.0296, 0.00022))
    else if n == 7300 then
      Row(Cell(0.0296, 0.0), Cell(0.0296, 0.0), Cell(0.0296, 0.00022), Cell(0.0296, 0.00022))
    else if n == 14600 then
      Row(Cell(0.0296, 0.0), Cell(0.0296, 0.0), Cell(0.0300, 0.00022), Cell(0.0300, 0.00022))
    else if n == 73000 then
      Row(Cell(0.0698, 0.0), Cell(0.0298, 0.0), Cell(0.0702, 0.00022), Cell(0.0302, 0.00022))
    else if n == 146000 then
      Row(Cell(0.0897, 0.0), Cell(0.0298, 0.0), Cell(0.0909, 0.000345), Cell(0.0307, 0.00022))
    else if n == 730000 then
      Row(Cell(0.1306, 0.0), Cell(0.0302, 0.0), Cell(0.1746, 0.00202), Cell(0.0356, 0.00022))
    else
      Row(Cell(0.1513, 0.0), Cell(0.0307, 0.0), Cell(0.2184, 0.00505), Cell(0.0453, 0.00180))
  }

  /** The `data` dictionary of figure15a_paper_data. */
  function PaperTable(): (data: PlotData)
    ensures WellFormed(data) && data.keys == FLOW_COMPLETION_TIMES
    ensures forall n :: n in data.rows ==> data.rows[n].Keys == SERIES
    ensures forall n, t :: n in data.rows && t in data.rows[n] ==> NonNegative(data.rows[n][t])
  {
    PlotData(FLOW_COMPLETION_TIMES, map n | n in FLOW_COMPLETION_TIMES :: PaperRow(n))
  }

  /** The `flow_types` list: the legend order. */
  function PaperFlowTypes(): (types: seq<string>)
    ensures |types| == 6
    ensures forall i, j :: 0 <= i < j < |types| ==> types[i] != types[j]
    ensures forall t :: t in types <==> t in SERIES
  {
    [SIM_TCP, SIM_RC3, REAL_TCP, REAL_RC3, MININET_TCP, MININET_RC3]
  }

  /** The `flow_type_colors` dictionary. */
  function PaperColors(): (colors: map<string, string>)
    ensures colors.Keys == SERIES
  {
    map[SIM_TCP := "#990000", SIM_RC3 := "#999999",
        REAL_TCP := "#0066cc", REAL_RC3 := "#ffa700",
        MININET_TCP := "#0e9a0a", MININET_RC3 := "k"]
  }

  /** figure15a_paper_data(). */
  function PaperData(): (f: Figure)
    ensures WellFormed(f.data) && f.data.keys == FLOW_COMPLETION_TIMES
    ensures |f.flowTypes| == 6
    ensures forall i, j :: 0 <= i < j < |f.flowTypes| ==> f.flowTypes[i] != f.flowTypes[j]
    ensures forall n, t :: n in f.data.rows ==> (t in f.data.rows[n] <==> t in f.flowTypes)
    ensures forall t :: t in f.flowTypes <==> t in f.colors
    ensures forall n, t :: n in f.data.rows && t in f.data.rows[n] ==> NonNegative(f.data.rows[n][t])
    ensures f.title == "Figure 15(a)"
  {
    Figure(PaperTable(), PaperFlowTypes(), PaperColors(), "Figure 15(a)")
  }
}
