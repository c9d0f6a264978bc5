/** How display_report classifies a memory figure against the hardware: the
    red/non-red colouring of the headline figure and of every matrix cell, and
    the "HARDWARE CHECK" lines that compare the need with free GPU VRAM and
    free system RAM as a percentage. */
module Budget {
  import opened ReportInputs

  /** The colour a figure gets against free GPU VRAM: `Red` is the alert, `Calm`
      is the normal style (lavender for the headline, green in the matrix). */
  datatype Shade = Red | Calm

  /** The one rule behind the headline alert and `color_stat`: a figure is red
      only when a GPU was detected and the figure is more than its free VRAM. */
  function GpuShade(hw: Hardware, gb: real): (s: Shade)
    ensures s == Red ==> hw.totalGpuVram > 0.0
    ensures hw.totalGpuVram > 0.0 ==> (s == Calm <==> gb <= hw.freeGpuVram)
  {
    if hw.totalGpuVram > 0.0 && gb > hw.freeGpuVram then Red else Calm
  }

  /** A percentage that may be infinite (`float('inf')` in the Python code). */
  datatype Percent = Finite(v: real) | Infinite

  /** The need as a percentage of a free amount; with nothing free the
      percentage is infinite rather than a division by zero. */
  function PctOfFree(need: real, free: real): (p: Percent)
    ensures p.Finite? <==> free > 0.0
    ensures p.Finite? ==> p.v * free == need * 100.0
  {
    if free > 0.0 then Finite(need / free * 100.0) else Infinite
  }

  /** One line of the hardware check. `Fits` is the green line with the share
      of free and of total memory; `Exceeds` is the red one with how far the
      need goes beyond the free amount, in percent. */
  datatype BudgetLine =
    | NoGpu
    | Fits(pctFree: real, pctTotal: real)
    | Exceeds(excess: Percent, pctTotal: real)

  /** Compares a need with a free and a total amount (GPU or RAM). The green
      branch is taken exactly when something is free and the need fits in it;
      with nothing free the red branch is taken whatever the need. */
  function CheckAgainst(need: real, free: real, total: real): (line: BudgetLine)
    requires total != 0.0
    ensures !line.NoGpu?
    ensures line.Fits? <==> free > 0.0 && need <= free
    ensures line.Fits? ==> line.pctFree * free == need * 100.0
    ensures line.Exceeds? && free <= 0.0 ==> line.excess == Infinite
    ensures line.Exceeds? && free > 0.0 ==>
              line.excess.Finite? && line.excess.v > 0.0 &&
              (line.excess.v + 100.0) * free == need * 100.0
    ensures line.pctTotal * total == need * 100.0
  {
    var pctFree := PctOfFree(need, free);
    var pctTotal := need / total * 100.0;
    if pctFree.Finite? && pctFree.v <= 100.0 then
      Fits(pctFree.v, pctTotal)
    else
      Exceeds(if pctFree.Finite? then Finite(pctFree.v - 100.0) else Infinite, pctTotal)
  }

  /** The GPU line of the hardware check: compared with free VRAM only when a
      GPU was detected. */
  function GpuLine(hw: Hardware, need: real): (line: BudgetLine)
    ensures line.NoGpu? <==> hw.totalGpuVram <= 0.0
    ensures line.Fits? <==> hw.totalGpuVram > 0.0 && hw.freeGpuVram > 0.0 && need <= hw.freeGpuVram
    ensures hw.totalGpuVram > 0.0 ==> line == CheckAgainst(need, hw.freeGpuVram, hw.totalGpuVram)
  {
    if hw.totalGpuVram > 0.0 then CheckAgainst(need, hw.freeGpuVram, hw.totalGpuVram) else NoGpu
  }

  /** The RAM line of the hardware check, always computed. The share of total
      RAM is divided by the total without a guard, so a total of 0 is excluded. */
  function RamLine(hw: Hardware, need: real): (line: BudgetLine)
    requires hw.totalRam != 0.0
    ensures !line.NoGpu?
    ensures line.Fits? <==> hw.availableRam > 0.0 && need <= hw.availableRam
    ensures line == CheckAgainst(need, hw.availableRam, hw.totalRam)
  {
    CheckAgainst(need, hw.availableRam, hw.totalRam)
  }

  /** With no GPU detected nothing is ever red, whatever the figure. */
  lemma NoGpuNeverRed(hw: Hardware, gb: real)
    requires hw.totalGpuVram <= 0.0
    ensures GpuShade(hw, gb) == Calm && GpuLine(hw, gb) == NoGpu
  {
  }

  /** With a GPU detected, the headline alert and the GPU line of the
      hardware check agree: red exactly when the line says the need exceeds
      free VRAM. The one exception is a GPU with nothing free and a need that
      is not more than that (a need of 0 with 0 GiB free): the alert stays
      calm while the line reports an infinite excess (see AlertCornerCase). */
  lemma AlertAgreesWithGpuLine(hw: Hardware, need: real)
    requires hw.totalGpuVram > 0.0 && (hw.freeGpuVram > 0.0 || need > hw.freeGpuVram)
    ensures GpuShade(hw, need) == Red <==> GpuLine(hw, need).Exceeds?
  {
  }

  /** The exception to AlertAgreesWithGpuLine: 8 GiB of VRAM, none free, and
      a need of 0 give a calm alert but a red GPU line. */
  lemma AlertCornerCase()
    ensures var hw := Hardware(8.0, 0.0, 16.0, 4.0);
            && GpuShade(hw, 0.0) == Calm
            && GpuLine(hw, 0.0) == Exceeds(Infinite, 0.0)
  {
  }

  /** A larger figure is never shaded more favourably than a smaller one. */
  lemma ShadeMonotone(hw: Hardware, a: real, b: real)
    requires a <= b && GpuShade(hw, a) == Red
    ensures GpuShade(hw, b) == Red
  {
  }
}
