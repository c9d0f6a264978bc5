# LLM-X memory estimation, modelled in Dafny

LLM-X tells an operator whether a large language model will fit in GPU VRAM
and system RAM before it is loaded. Its report (`display_report` in
`src/llm_x/print.py`) computes a few figures inline and renders them:

- the headline footprint: measured weights + KV cache at the configured
  context length + activations (0 when absent) + engine overhead;
- a red alert on that figure when a GPU was detected and the figure is more
  than its free VRAM;
- a hardware check that states the need as a percentage of free GPU VRAM and
  of free RAM, with an infinite percentage when nothing is free;
- an operational matrix. It is built only when the parameter count is
  positive. It has one row per context level: 8192, 32768, 65536 and 131072
  tokens, plus the configured length, sorted. Each row shows the KV cache
  (per-token rate × level) and three totals. The native total uses the
  measured weights. The INT8/FP8 total uses 1.0 GiB per billion parameters
  and the 4-bit total uses 0.75. Every total adds the same static overhead
  (activations + engine overhead). Each total is coloured red by the same
  GPU rule as the headline.

The model keeps every memory figure as a `real` in GiB. The hardware readings
and the engine overhead (computed by `calculate_engine_overhead` in
`llm_x/estimation/memory.py`, which is not part of this model) are
parameters.

Files:

- `inputs.dfy` (`ReportInputs`): the metadata record, the hardware readings,
  and the defaults for `activations_gb` and `params_n`.
- `budget.dfy` (`Budget`): the red/calm rule and the hardware-check lines.
- `levels.dfy` (`Levels`): the context-level list. It is built by appending
  and then sorting in place on an array.
- `matrix.dfy` (`Matrix`): the headline total, the per-token KV rate, the row
  totals and the loop that builds the matrix.
- `report.dfy` (`Display`): the whole report as one method.

## Model

| member | source | states |
|---|---|---|
| `ReportInputs.ActivationsGb` | src/llm_x/print.py:44 | `activations_gb` when present, 0 when the key is absent |
| `ReportInputs.ParamsN` | src/llm_x/print.py:46 | `params_n` when present, 0 when the key is absent |
| `ReportInputs.ParamsBn` | src/llm_x/print.py:46-47 | the parameter count in billions, times 1e9, gives back `params_n` (0 when the key is absent); it is non-negative for a non-negative count |
| `Budget.GpuShade` | src/llm_x/print.py:103-105 | a figure is red only if a GPU was detected; with a GPU it is calm exactly when it fits in free VRAM |
| `Budget.PctOfFree` | src/llm_x/print.py:127 | the percentage is finite exactly when something is free, and then it is need × 100 / free |
| `Budget.CheckAgainst` | src/llm_x/print.py:127-145 | the green branch is taken iff free > 0 and need ≤ free; with nothing free the excess is infinite; otherwise the excess is positive and equals need × 100 / free − 100; the green line's share of free is need × 100 / free; the share of total is need × 100 / total |
| `Budget.GpuLine` | src/llm_x/print.py:126-136 | "no GPU" exactly when total VRAM is not positive; green exactly when a GPU has free VRAM and the need fits in it; with a GPU the line is `CheckAgainst` on free and total VRAM, so it carries the same figures: % of free (need × 100 / free VRAM), % of total (need × 100 / total VRAM), and an excess that is need × 100 / free − 100, or infinite when no VRAM is free |
| `Budget.RamLine` | src/llm_x/print.py:138-145 | always computed; green exactly when RAM is free and the need fits in it; the line is `CheckAgainst` on available and total RAM, so it carries % of free (need × 100 / available RAM), % of total (need × 100 / total RAM), and an excess that is need × 100 / available − 100, or infinite when no RAM is available |
| `Budget.NoGpuNeverRed` | src/llm_x/print.py:104-105 | with no GPU detected, a figure is never red and the GPU line says "no GPU" |
| `Budget.AlertAgreesWithGpuLine` | src/llm_x/print.py:104-134 | with a GPU detected, the headline alert is red exactly when the GPU line reports the need as exceeding free VRAM, provided VRAM is free or the need exceeds the free amount |
| `Budget.AlertCornerCase` | src/llm_x/print.py:104-134 | the case left out above does disagree: 8 GiB of VRAM, none free, and a need of 0 give a calm alert but a GPU line with an infinite excess |
| `Budget.ShadeMonotone` | src/llm_x/print.py:189-192 | a figure larger than a red figure is red too |
| `Levels.SortInPlace` | src/llm_x/print.py:166 | the list ends up sorted ascending and is a permutation of what it held |
| `Levels.BuildLevels` | src/llm_x/print.py:163-166 | the level list is strictly ascending (so it has no duplicates); it holds the four standard levels and the configured length and nothing else; the configured length occurs exactly once; the length is 4 when the configured length is standard and 5 otherwise |
| `Matrix.HeadlineTotal` | src/llm_x/print.py:42-51 | the headline is the measured weights + KV cache + the static overhead every matrix cell carries; with no `activations_gb` it is weights + KV cache + engine overhead |
| `Matrix.StaticOverhead` | src/llm_x/print.py:158 | the overhead every cell carries is the engine overhead plus the activations, and it is the engine overhead alone when `activations_gb` is absent |
| `Matrix.KvPerToken` | src/llm_x/print.py:161 | for a positive context length, rate × length gives back the KV cache; otherwise the rate is 0 and nothing is divided; the rate is non-negative for a non-negative KV cache |
| `Matrix.MatrixRow` | src/llm_x/print.py:176-192 | a row is marked current exactly at the configured length. Its KV cache scales linearly from the measured pair (kv_step × context_len = kv_gb × ctx), and is 0 when context_len ≤ 0. The three totals share kv_step + static overhead; their weight terms are the measured `weights_gb` (native), `params_bn` (INT8) and 0.75 × `params_bn` (4-bit). Each cell's colour is the GPU rule applied to its total |
| `Matrix.BuildMatrix` | src/llm_x/print.py:158-201 | no rows unless `params_n > 0`; otherwise one row per level of a valid level list, in order, each equal to `MatrixRow` at its level; for a non-negative KV cache, every column is non-decreasing down the rows and its red cells are its last rows; 4-bit ≤ INT8 on every row; with no GPU no cell is red |
| `Matrix.QuantizedOrder` | src/llm_x/print.py:186-187 | for a non-negative parameter count the 4-bit total is at most the INT8 total, and they differ by 0.25 GiB per billion parameters |
| `Matrix.RowMonotone` | src/llm_x/print.py:180-187 | with a non-negative KV cache, the KV cache and all three totals of a row grow with the context level |
| `Matrix.MatrixColumnsNonDecreasing` | src/llm_x/print.py:163-187 | in any matrix the loop can produce, every column is non-decreasing from each row to every later one |
| `Matrix.RedCellsFormSuffix` | src/llm_x/print.py:175-199 | for a non-negative KV cache, in every column of the matrix, a red cell is followed only by red cells |
| `Matrix.CurrentRowMatchesHeadline` | src/llm_x/print.py:158-183 | on the configured length's row, for a positive length: the row is marked current, its KV cache equals the measured `kv_gb`, its native total equals the headline total, and it gets the headline's colour |
| `Matrix.MatrixHasOneCurrentRow` | src/llm_x/print.py:163-180 | a matrix with a positive parameter count has exactly one "Current" row; for a positive length, that row's KV cache and native total are the headline figures |
| `Matrix.NoGpuRowCalm` | src/llm_x/print.py:189-199 | with no GPU detected, no cell of any row is red |
| `Display.DisplayReport` | src/llm_x/print.py:38-201 | the report's headline, alert, GPU and RAM lines and matrix are the ones defined above; with no GPU the alert is calm and the GPU line says so; with a GPU, the alert is red exactly when the GPU line exceeds, unless nothing is free and the need is not more than the free amount; when a matrix is drawn for a positive length, its current row shows the headline figure in the headline's colour |
| `Display.SevenBillionExample` | src/llm_x/print.py:161-187 | 7e9 parameters, 14 GiB weights, 1 GiB KV cache at 8192 tokens: at 32768 tokens the KV cache is 4 GiB and the INT8/4-bit weight terms are 7 and 5.25 GiB |

## Left out

- Rendering: the console, tables, panels, the logo, colour constants and
  number formatting. Only the red/calm decision behind each colour is kept.
- Hardware detection (`get_gpu_info`, `get_ram_info`): these do I/O in
  `llm_x/utils/hardware.py`, which is not part of this model. Their readings
  are inputs (`Hardware`).
- `calculate_engine_overhead` and `get_rope_warning`: they live in
  `llm_x/estimation/memory.py`, which is not part of this model. The engine
  overhead is an input. The RoPE warning only prints a message and is not
  modelled.
- The early return for an empty metadata dictionary: it only prints a
  message.
- Missing required keys (`weights_gb`, `kv_gb`, `context_len`): the Python
  code raises `KeyError`. The model takes a record in which they are always
  present.
- The `include_activations` flag: it only decides whether an activations line
  is printed.
- Floating-point rounding: the model computes in exact reals. `float('inf')`
  is the `Infinite` percentage.
- `Display.DisplayReport`, `Budget.RamLine`: a total RAM of 0 is excluded by
  a precondition. `display_report` divides by it without a guard, and Python would
  raise `ZeroDivisionError` there.
- The engine overhead's dependence on `weights_gb` and `params_bn`: it is
  computed by `calculate_engine_overhead`, which is not part of this model, so
  the overhead is an input. Statements about the matrix hold for a given
  overhead. In the program, changing the weights or the parameter count also
  changes the overhead, and so changes every cell.
- `tests/test_hf_live.py`: live network tests of metadata retrieval. They
  assert nothing about this arithmetic.

`display_report` classifies matrix cells only against free GPU VRAM; it does
not also classify them against host RAM. With no GPU, cells are shown in the
normal (green) colour. The native column is
the measured weight size; no 2-bytes-per-parameter estimate is used anywhere.
