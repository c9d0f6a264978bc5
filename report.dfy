/** display_report without its rendering: the figures and verdicts it shows,
    computed in the order the report computes them. */
module Display {
  import opened ReportInputs
  import opened Budget
  import opened Matrix

  /** Everything the report decides: the headline figure and its alert
      colour, the GPU and RAM lines of the hardware check, and the matrix. */
  datatype Report = Report(total: real, alert: Shade, gpu: BudgetLine, ram: BudgetLine, matrix: seq<Row>)

  /** Computes the report for metadata `d`, the engine overhead the estimator
      returned for it, and the hardware readings. The division by total RAM
      in the hardware check is unguarded, so a total of 0 is excluded. */
  method DisplayReport(d: ReportData, overhead: real, hw: Hardware) returns (r: Report)
    requires hw.totalRam != 0.0
    ensures r.total == HeadlineTotal(d, overhead)
    ensures r.alert == GpuShade(hw, r.total)
    ensures r.gpu == GpuLine(hw, r.total) && r.ram == RamLine(hw, r.total)
    ensures IsMatrix(d, overhead, hw, r.matrix)
    ensures hw.totalGpuVram <= 0.0 ==> r.alert == Calm && r.gpu == NoGpu
    ensures hw.totalGpuVram > 0.0 && (hw.freeGpuVram > 0.0 || r.total > hw.freeGpuVram) ==>
              (r.alert == Red <==> r.gpu.Exceeds?)
    ensures ParamsN(d) > 0 && d.contextLen > 0 ==>
              exists i :: 0 <= i < |r.matrix| && r.matrix[i].isCurrent &&
                r.matrix[i].native == Cell(r.total, r.alert)
  {
    var total := d.weightsGb + d.kvGb + ActivationsGb(d) + overhead;
    var alert := if hw.totalGpuVram > 0.0 && total > hw.freeGpuVram then Red else Calm;
    var gpu := GpuLine(hw, total);
    var ram := RamLine(hw, total);
    var matrix := BuildMatrix(d, overhead, hw);
    r := Report(total, alert, gpu, ram, matrix);
    if hw.totalGpuVram > 0.0 && (hw.freeGpuVram > 0.0 || total > hw.freeGpuVram) {
      AlertAgreesWithGpuLine(hw, total);
    }
    if ParamsN(d) > 0 && d.contextLen > 0 {
      MatrixHasOneCurrentRow(d, overhead, hw, matrix);
    }
  }

  /** A 7-billion-parameter model with 14 GiB of weights and 1 GiB of KV cache
      at 8192 tokens: at 32768 tokens the KV cache is four times as large, and
      the INT8/FP8 and 4-bit weight terms are 7 and 5.25 GiB. */
  lemma SevenBillionExample(overhead: real, hw: Hardware)
    ensures var d := ReportData(14.0, 1.0, None, 8192, Some(7000000000));
            var r := MatrixRow(d, overhead, hw, 32768);
            && r.kvStep == 4.0
            && r.native.gb == 14.0 + 4.0 + overhead
            && r.int8.gb == 7.0 + 4.0 + overhead
            && r.q4.gb == 5.25 + 4.0 + overhead
  {
  }
}
