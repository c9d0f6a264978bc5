/** The values display_report reads before it renders anything: the model's
    metadata dictionary and the two hardware readings. Every memory figure is
    in GiB and is a `real`; nothing here rounds. */
module ReportInputs {

  datatype Option<T> = None | Some(value: T)

  /** The metadata dictionary. `weights_gb`, `kv_gb` and `context_len` are read
      with a plain subscript (a missing key aborts the report, so they are
      plain fields); `activations_gb` and `params_n` are read with `get` and a
      default, so they are optional. */
  datatype ReportData = ReportData(
    weightsGb: real,
    kvGb: real,
    activationsGb: Option<real>,
    contextLen: int,
    paramsN: Option<int>)

  /** What the hardware probes report, in GiB; a total GPU VRAM of 0 means
      that no GPU was detected. */
  datatype Hardware = Hardware(
    totalGpuVram: real,
    freeGpuVram: real,
    totalRam: real,
    availableRam: real)

  /** `activations_gb`, or 0 when the dictionary has no such key. */
  function ActivationsGb(d: ReportData): (a: real)
    ensures d.activationsGb.None? ==> a == 0.0
    ensures d.activationsGb.Some? ==> d.activationsGb == Some(a)
  {
    match d.activationsGb
    case Some(x) => x
    case None => 0.0
  }

  /** `params_n`, or 0 when the dictionary has no such key. */
  function ParamsN(d: ReportData): (n: int)
    ensures d.paramsN.None? ==> n == 0
    ensures d.paramsN.Some? ==> d.paramsN == Some(n)
  {
    match d.paramsN
    case Some(x) => x
    case None => 0
  }

  /** The parameter count in billions. */
  function ParamsBn(d: ReportData): (b: real)
    ensures b * 1000000000.0 == ParamsN(d) as real
    ensures ParamsN(d) >= 0 ==> b >= 0.0
  {
    ParamsN(d) as real / 1000000000.0
  }
}
