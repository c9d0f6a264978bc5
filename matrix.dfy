/** The estimation arithmetic of display_report: the headline memory figure,
    the per-token KV-cache rate, and the operational matrix, one row per
    context level with a native, an INT8/FP8 and a 4-bit total. */
module Matrix {
  import opened ReportInputs
  import opened Budget
  import opened Levels

  /** `static_overhead`: what every matrix cell adds besides weights and KV
      cache, namely the activations (0 when absent) and the engine overhead. */
  function StaticOverhead(d: ReportData, overhead: real): (s: real)
    ensures d.activationsGb.None? ==> s == overhead
    ensures d.activationsGb.Some? ==> s - overhead == d.activationsGb.value
  {
    ActivationsGb(d) + overhead
  }

  /** `total_vram_needed`: weights, KV cache at the configured context length,
      activations (0 when absent) and engine overhead. It splits into the
      measured weights and KV cache plus the same static overhead every
      matrix cell carries. */
  function HeadlineTotal(d: ReportData, overhead: real): (t: real)
    ensures t == d.weightsGb + d.kvGb + StaticOverhead(d, overhead)
    ensures d.activationsGb.None? ==> t == d.weightsGb + d.kvGb + overhead
  {
    d.weightsGb + d.kvGb + ActivationsGb(d) + overhead
  }

  /** `kv_per_token`: the KV cache per token at the configured context length,
      0 when that length is not positive (no division by zero). Applying the
      rate to the configured length gives back the KV cache. */
  function KvPerToken(kvGb: real, contextLen: int): (rate: real)
    ensures contextLen > 0 ==> rate * contextLen as real == kvGb
    ensures contextLen <= 0 ==> rate == 0.0
    ensures kvGb >= 0.0 ==> rate >= 0.0
  {
    if contextLen > 0 then kvGb / contextLen as real else 0.0
  }

  /** One matrix cell: a total in GiB and its colour against free VRAM. */
  datatype Cell = Cell(gb: real, shade: Shade)

  /** One matrix row: the context level, whether it is the configured one,
      the KV cache at that level and the three totals. */
  datatype Row = Row(ctx: int, isCurrent: bool, kvStep: real, native: Cell, int8: Cell, q4: Cell)

  /** The row for context level `ctx`. The KV cache scales linearly from the
      measured pair (`kv_gb` at `context_len`), and is 0 when that length is
      not positive. The three totals share the KV cache and the static
      overhead and differ only in their weight term: the measured weights for
      the native column, 1.0 and 0.75 GiB per billion parameters for the
      INT8/FP8 and 4-bit columns. Each cell is coloured by the GPU rule. */
  function MatrixRow(d: ReportData, overhead: real, hw: Hardware, ctx: int): (r: Row)
    ensures r.ctx == ctx && (r.isCurrent <==> ctx == d.contextLen)
    ensures d.contextLen > 0 ==> r.kvStep * d.contextLen as real == d.kvGb * ctx as real
    ensures d.contextLen <= 0 ==> r.kvStep == 0.0
    ensures r.native.gb == d.weightsGb + r.kvStep + StaticOverhead(d, overhead)
    ensures r.int8.gb == ParamsBn(d) + r.kvStep + StaticOverhead(d, overhead)
    ensures r.q4.gb == 0.75 * ParamsBn(d) + r.kvStep + StaticOverhead(d, overhead)
    ensures && r.native.shade == GpuShade(hw, r.native.gb)
            && r.int8.shade == GpuShade(hw, r.int8.gb)
            && r.q4.shade == GpuShade(hw, r.q4.gb)
  {
    var kvStep := KvPerToken(d.kvGb, d.contextLen) * ctx as real;
    var s := StaticOverhead(d, overhead);
    var tNative := d.weightsGb + kvStep + s;
    var tInt8 := ParamsBn(d) * 1.0 + kvStep + s;
    var tQ4 := ParamsBn(d) * 0.75 + kvStep + s;
    Row(ctx, ctx == d.contextLen, kvStep,
        Cell(tNative, GpuShade(hw, tNative)),
        Cell(tInt8, GpuShade(hw, tInt8)),
        Cell(tQ4, GpuShade(hw, tQ4)))
  }

  function Ctxs(rows: seq<Row>): (cs: seq<int>)
    ensures |cs| == |rows| && forall i :: 0 <= i < |rows| ==> cs[i] == rows[i].ctx
  {
    seq(|rows|, i requires 0 <= i < |rows| => rows[i].ctx)
  }

  /** What the matrix loop produces: no rows unless the parameter count is
      positive, otherwise one row per context level, in the order of the
      level list, each computed by MatrixRow. */
  ghost predicate IsMatrix(d: ReportData, overhead: real, hw: Hardware, rows: seq<Row>) {
    && (ParamsN(d) <= 0 ==> rows == [])
    && (ParamsN(d) > 0 ==> IsLevelList(Ctxs(rows), d.contextLen))
    && forall i :: 0 <= i < |rows| ==> rows[i] == MatrixRow(d, overhead, hw, rows[i].ctx)
  }

  /** Each column is non-decreasing from one row to the next. */
  ghost predicate ColumnsNonDecreasing(rows: seq<Row>) {
    forall i, j :: 0 <= i < j < |rows| ==>
      && rows[i].kvStep <= rows[j].kvStep
      && rows[i].native.gb <= rows[j].native.gb
      && rows[i].int8.gb <= rows[j].int8.gb
      && rows[i].q4.gb <= rows[j].q4.gb
  }

  /** In each column, once a cell is red every later cell is red too: the
      red cells of a column are the last rows. */
  ghost predicate RedCellsAreSuffix(rows: seq<Row>) {
    forall i, j :: 0 <= i < j < |rows| ==>
      && (rows[i].native.shade == Red ==> rows[j].native.shade == Red)
      && (rows[i].int8.shade == Red ==> rows[j].int8.shade == Red)
      && (rows[i].q4.shade == Red ==> rows[j].q4.shade == Red)
  }

  /** The operational matrix: built only when the parameter count is
      positive, by walking the sorted context levels. */
  method BuildMatrix(d: ReportData, overhead: real, hw: Hardware) returns (rows: seq<Row>)
    ensures IsMatrix(d, overhead, hw, rows)
    ensures d.kvGb >= 0.0 ==> ColumnsNonDecreasing(rows) && RedCellsAreSuffix(rows)
    ensures forall i :: 0 <= i < |rows| ==> rows[i].q4.gb <= rows[i].int8.gb
    ensures hw.totalGpuVram <= 0.0 ==> forall i :: 0 <= i < |rows| ==>
              rows[i].native.shade == rows[i].int8.shade == rows[i].q4.shade == Calm
  {
    rows := [];
    var staticOverhead := ActivationsGb(d) + overhead;
    if ParamsN(d) > 0 {
      var paramsBn := ParamsBn(d);
      var kvPerToken := if d.contextLen > 0 then d.kvGb / d.contextLen as real else 0.0;
      var levels := BuildLevels(d.contextLen);
      var i := 0;
      while i < |levels|
        invariant 0 <= i <= |levels|
        invariant |rows| == i
        invariant forall k :: 0 <= k < i ==> rows[k].ctx == levels[k]
        invariant forall k :: 0 <= k < i ==> rows[k] == MatrixRow(d, overhead, hw, levels[k])
      {
        var ctx := levels[i];
        var kvStep := kvPerToken * ctx as real;
        var tNative := d.weightsGb + kvStep + staticOverhead;
        var tInt8 := paramsBn * 1.0 + kvStep + staticOverhead;
        var tQ4 := paramsBn * 0.75 + kvStep + staticOverhead;
        rows := rows + [Row(ctx, ctx == d.contextLen, kvStep,
                            Cell(tNative, GpuShade(hw, tNative)),
                            Cell(tInt8, GpuShade(hw, tInt8)),
                            Cell(tQ4, GpuShade(hw, tQ4)))];
        i := i + 1;
      }
      assert Ctxs(rows) == levels;
    }
    if d.kvGb >= 0.0 {
      MatrixColumnsNonDecreasing(d, overhead, hw, rows);
      RedCellsFormSuffix(d, overhead, hw, rows);
    }
    forall i | 0 <= i < |rows| ensures rows[i].q4.gb <= rows[i].int8.gb {
      if ParamsN(d) > 0 {
        QuantizedOrder(d, overhead, hw, rows[i].ctx);
      }
    }
  }

  /** 4-bit never needs more than INT8/FP8 on a row, for a non-negative
      parameter count; the two differ by a quarter GiB per billion parameters. */
  lemma QuantizedOrder(d: ReportData, overhead: real, hw: Hardware, ctx: int)
    requires ParamsN(d) >= 0
    ensures MatrixRow(d, overhead, hw, ctx).q4.gb <= MatrixRow(d, overhead, hw, ctx).int8.gb
    ensures MatrixRow(d, overhead, hw, ctx).int8.gb - MatrixRow(d, overhead, hw, ctx).q4.gb
            == 0.25 * ParamsBn(d)
  {
  }

  /** Helper for RowMonotone: a non-negative rate times a larger level is
      not smaller. */
  lemma KvStepMonotone(rate: real, c1: int, c2: int)
    requires rate >= 0.0 && c1 <= c2
    ensures rate * c1 as real <= rate * c2 as real
  {
  }

  /** With a non-negative KV cache, every column of a row grows with the
      context level. */
  lemma RowMonotone(d: ReportData, overhead: real, hw: Hardware, c1: int, c2: int)
    requires d.kvGb >= 0.0 && c1 <= c2
    ensures var r1, r2 := MatrixRow(d, overhead, hw, c1), MatrixRow(d, overhead, hw, c2);
            && r1.kvStep <= r2.kvStep
            && r1.native.gb <= r2.native.gb
            && r1.int8.gb <= r2.int8.gb
            && r1.q4.gb <= r2.q4.gb
  {
    KvStepMonotone(KvPerToken(d.kvGb, d.contextLen), c1, c2);
  }

  /** Down the sorted rows of the matrix, every column is non-decreasing. */
  lemma MatrixColumnsNonDecreasing(d: ReportData, overhead: real, hw: Hardware, rows: seq<Row>)
    requires IsMatrix(d, overhead, hw, rows) && d.kvGb >= 0.0
    ensures ColumnsNonDecreasing(rows)
  {
    forall i, j | 0 <= i < j < |rows|
      ensures && rows[i].kvStep <= rows[j].kvStep
              && rows[i].native.gb <= rows[j].native.gb
              && rows[i].int8.gb <= rows[j].int8.gb
              && rows[i].q4.gb <= rows[j].q4.gb
    {
      assert Ctxs(rows)[i] < Ctxs(rows)[j];
      RowMonotone(d, overhead, hw, rows[i].ctx, rows[j].ctx);
    }
  }

  /** With a non-negative KV cache, the red cells of every column of the
      matrix are its last rows: a context level that exceeds free VRAM is
      followed only by levels that exceed it too. */
  lemma RedCellsFormSuffix(d: ReportData, overhead: real, hw: Hardware, rows: seq<Row>)
    requires IsMatrix(d, overhead, hw, rows) && d.kvGb >= 0.0
    ensures RedCellsAreSuffix(rows)
  {
    MatrixColumnsNonDecreasing(d, overhead, hw, rows);
    forall i, j | 0 <= i < j < |rows|
      ensures && (rows[i].native.shade == Red ==> rows[j].native.shade == Red)
              && (rows[i].int8.shade == Red ==> rows[j].int8.shade == Red)
              && (rows[i].q4.shade == Red ==> rows[j].q4.shade == Red)
    {
      if rows[i].native.shade == Red {
        ShadeMonotone(hw, rows[i].native.gb, rows[j].native.gb);
      }
      if rows[i].int8.shade == Red {
        ShadeMonotone(hw, rows[i].int8.gb, rows[j].int8.gb);
      }
      if rows[i].q4.shade == Red {
        ShadeMonotone(hw, rows[i].q4.gb, rows[j].q4.gb);
      }
    }
  }

  /** On the row of the configured context length (the "Current" row), the
      rate re-applied gives back the measured KV cache, so its native total is
      the headline figure and gets the same colour as the headline alert. */
  lemma CurrentRowMatchesHeadline(d: ReportData, overhead: real, hw: Hardware)
    requires d.contextLen > 0
    ensures var r := MatrixRow(d, overhead, hw, d.contextLen);
            && r.isCurrent
            && r.kvStep == d.kvGb
            && r.native.gb == HeadlineTotal(d, overhead)
            && r.native.shade == GpuShade(hw, HeadlineTotal(d, overhead))
  {
  }

  /** A matrix with a positive parameter count has exactly one "Current" row,
      the configured context length's, and for a positive length its KV cache
      and native total are the headline figures. */
  lemma MatrixHasOneCurrentRow(d: ReportData, overhead: real, hw: Hardware, rows: seq<Row>)
    requires IsMatrix(d, overhead, hw, rows) && ParamsN(d) > 0
    ensures exists i :: 0 <= i < |rows| && rows[i].isCurrent
    ensures forall i, j :: 0 <= i < |rows| && 0 <= j < |rows| && rows[i].isCurrent && rows[j].isCurrent ==> i == j
    ensures d.contextLen > 0 ==> forall i :: 0 <= i < |rows| && rows[i].isCurrent ==>
              rows[i].kvStep == d.kvGb && rows[i].native.gb == HeadlineTotal(d, overhead)
  {
  }

  /** With no GPU detected no cell of a matrix row is red. */
  lemma NoGpuRowCalm(d: ReportData, overhead: real, hw: Hardware, ctx: int)
    requires hw.totalGpuVram <= 0.0
    ensures var r := MatrixRow(d, overhead, hw, ctx);
            r.native.shade == r.int8.shade == r.q4.shade == Calm
  {
  }
}
