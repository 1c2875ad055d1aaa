# gamer-monitor: the `SensorData` record

gamer-monitor is a small GTK hardware monitor for Linux. Its core, `SensorData`
in `src/sensors.rs`, turns diagnostic text into a record of hardware readings
and updates that record in place:

- **Processor name:** from `/proc/cpuinfo`.
- **CPU load:** from two readings of `/proc/stat`.
- **GPU name:** from `nvidia-smi` or, failing that, from `lspci`.
- **GPU readings:**
  - from the `nvidia-smi` CSV query;
  - from the `amdgpu` sections of the `sensors` report.
- **Other `sensors` readings:** the CPU temperature, the NVMe temperatures and three fan speeds. Each comes from one of nine fixed regular expressions.
- **Memory figures:** from `free -m`.

This project models that core in Dafny and proves its rules about when each
field is replaced and when it is kept. The modules are:

- **`Sensors`:** holds `class SensorData`, with the same fields as the Rust record. Every `&mut self` method becomes a method that updates them, with a loop and its invariants wherever the source loops. Each method is proved against a specification function of the old state and the input text:
  - `ProcessorName`, `CpuUsage` and `ResolveGpuName` for identification and load;
  - `ApplyNvidia`, `Scan` and `Dispatch` for the GPU readings;
  - `CpuTemp`, `NvmeTemps`, `FanReading`, `ChassisFan2` and `SensorsAfter` for the `sensors` readings;
  - `RamAfter` for memory.
  
  Every method also states that the fields it does not own are unchanged.
- **`CpuInfo`, `CpuStat`, `Gpu`, `Ram`:** hold those specification functions and the lemmas about them.
- **`Patterns`:** holds one small matcher per pattern shape of `src/sensors.rs:6-31`, with the regex crate's semantics:
  - the leftmost match wins;
  - `\s` is Unicode White_Space, newline included;
  - `[0-9.]+` and `[0-9]+` are greedy;
  - `.*?` is lazy, and `.` does not match `\n`.
- **`Text` and `Numbers`:** model the pieces of Rust's standard library that the parsers use: `trim`, `trim_start`, `find`, `contains`, `split`, `split_whitespace`, `lines`, `to_lowercase`, and `parse::<u64>` / `parse::<f32>`.
- **`Wrappers`:** holds `Option` and the "first element that yields something" search shared by the line scans.

The text each method would read is passed in as a parameter:

- `None` stands for a file that cannot be read or a command that cannot be run.
- For `nvidia-smi`, `None` also stands for a command that exits with a failure.
- `/proc/stat` is a plain string, because the source reads an unreadable file as empty.

## Model

| member | source | states |
|---|---|---|
| Sensors.SensorData.constructor | src/sensors.rs:58-61 | every text field is empty, the NVMe list is empty and every number is 0 (`Default`) |
| Sensors.SensorData.IdentifyHardware | src/sensors.rs:63-66 | the processor name, then the GPU name, are each set to their specification function of the old name and the tool output |
| Sensors.SensorData.IdentifyProcessor | src/sensors.rs:74-85 | the loop over the lines of `/proc/cpuinfo` leaves the name equal to `ProcessorName`: the first `model name` line with a `:` decides, and the name is unchanged when the file is unreadable or has no such line |
| CpuInfo.ModelName | src/sensors.rs:77-81 | a line yields a name exactly when it starts, untrimmed, with `model name` and contains a `:` |
| CpuInfo.ModelNameOfLine | src/sensors.rs:78-79 | the name is the trimmed text after the first `:`, up to a second `:` when there is one |
| CpuInfo.PieceAfterFirstColon | src/sensors.rs:78 | `split(':').nth(1)` of `head:v…` is `v` when `head` and `v` hold no colon and `v` ends the line or is followed by a colon |
| CpuInfo.ProcessorNameFirstLine | src/sensors.rs:76-83 | lines before the first `model name` line with a colon do not matter, and that line decides even when later ones name another processor |
| CpuInfo.ProcessorNameKept | src/sensors.rs:75-84 | without such a line the name stays what it was |
| CpuStat.ParsedCounters | src/sensors.rs:93-96 | tokens that do not parse are dropped, so there are never more counters than tokens |
| CpuStat.ParsedCountersNumerals | src/sensors.rs:89-96 | a line of 64-bit counters written as numerals is read back exactly |
| CpuStat.CountersOfStat | src/sensors.rs:88-96 | a reading whose first line is `cpu` followed by 64-bit counters gives exactly those counters, the `cpu` label skipped, whatever lines follow |
| CpuStat.UsageAsWritten | src/sensors.rs:110-124 | the load as the code computes it, with the busy difference wrapping modulo 2^64, is never negative, and is 0 when either reading has fewer than four counters or the total did not grow |
| CpuStat.Usage | src/sensors.rs:110-124 | the corrected load, with a saturating busy difference, is always in [0, 100], and is 0 when either reading has fewer than four counters or the total did not grow |
| CpuStat.CpuUsage | src/sensors.rs:87-125 | `get_cpu_usage` on two readings of `/proc/stat`, as the code computes it, is never negative, and is 0 when either first line has fewer than four counters or the total did not grow |
| CpuStat.CpuUsageIsPercentage | src/sensors.rs:110-124 | when the second reading has the same counters as the first, none smaller, and its total fits in a u64, `get_cpu_usage` agrees with the corrected load and lies in [0, 100] |
| CpuStat.IdleDiffWithinTotalDiff | src/sensors.rs:111-118 | for readings of equal length whose counters never decrease, the idle difference is at most the total difference |
| CpuStat.UsageAsWrittenWhenNeverDecreasing | src/sensors.rs:117-121 | on such readings the unchecked subtraction as written cannot wrap: it agrees with the saturating version and lies in [0, 100] |
| CpuStat.UsageAsWrittenWraps | src/sensors.rs:117-121 | readings `cpu 10 0 0 0` then `cpu 0 0 0 20` make the subtraction as written wrap to a load above 100 percent, while the corrected load is 0 |
| CpuStat.TotalSplits | src/sensors.rs:111-114 | the total of the first eight counters is the first three, plus idle time, plus the rest |
| CpuStat.SumMonotone | src/sensors.rs:114-115 | counters that never decrease give a sum that does not decrease |
| Sensors.SensorData.FindLastBracket | src/sensors.rs:147-160 | the `while` loop over `[`/`]` positions ends with `LastBracket` of the line |
| Gpu.LastBracketFromSound | src/sensors.rs:150-159 | the loop resumed at `pos` keeps `last` only when no complete `[...]` pair follows, and otherwise ends with the content of a pair that no complete pair follows, whose `[` is the first one left open |
| Gpu.LastBracketSound | src/sensors.rs:147-160 | a line without a complete pair gives "", and a non-empty result is the content of the last complete pair |
| Gpu.VgaName | src/sensors.rs:146-173 | only a `VGA compatible controller` line yields a name, and it is never empty; on such a line a last bracket content that is neither empty nor `AMD/ATI` is the name; when the bracket content is empty or `AMD/ATI`, the name is the trimmed text after the first `controller:` when that is non-empty, and there is none otherwise |
| Gpu.LspciName | src/sensors.rs:142-176 | the `lspci` scan settles on a non-empty name or none, and on none when `lspci` cannot be run |
| Gpu.LspciNameFirstLine | src/sensors.rs:145-175 | the first line of the output that names a GPU decides, whatever the lines after it say |
| Gpu.LspciNameNone | src/sensors.rs:145-175 | output of which no line names a GPU yields no name |
| Gpu.LspciNameOfLines | src/sensors.rs:145-175 | for output written as lines joined by `\n`, the first of those lines that names a GPU decides |
| Gpu.ResolveGpuName | src/sensors.rs:127-181 | the name is never empty; a non-empty trimmed `nvidia-smi` name wins; without it, the name `lspci` yields is taken; with neither tool yielding a name, an empty name becomes `Unknown GPU` and any other name is kept |
| Gpu.ResolveGpuNameTwice | src/main.rs:26-75 | identification runs twice, and running it again on the same tool output changes nothing |
| Gpu.ResolveGpuNameKeepsKnown | src/sensors.rs:178-180 | a known name is replaced only by a tool's name, and `Unknown GPU` is written only over an empty name |
| Sensors.SensorData.IdentifyGpu | src/sensors.rs:127-181 | with early returns and the line loop, the method leaves the name equal to `ResolveGpuName` |
| Gpu.NvidiaFields | src/sensors.rs:192 | splitting the trimmed output at commas yields at least one field |
| Gpu.ApplyNvidia | src/sensors.rs:183-205 | the NVIDIA parse never touches the hotspot or memory readings, and a failed run changes nothing |
| Gpu.NvidiaEdgeIsFirstField | src/sensors.rs:194-196 | the edge reading is always the trimmed text before the first comma of the trimmed output, or all of it when there is no comma |
| Gpu.NvidiaFanNeedsComma | src/sensors.rs:198-200 | the fan reading is replaced exactly when the output has a comma, by the trimmed second field followed by ` RPM` |
| Sensors.SensorData.UpdateNvidiaGpuInfo | src/sensors.rs:183-205 | the GPU readings become `ApplyNvidia` of the old ones, and no other field changes |
| Gpu.StripPlusesSound | src/sensors.rs:245 | `trim_start_matches('+')` removes a run of `+` signs and keeps the rest of the word, which does not start with `+` |
| Gpu.ApplyLabel | src/sensors.rs:237-257 | a line of fewer than two words changes nothing; otherwise each reading is unchanged or set from the second word |
| Gpu.ApplyLabelByLabel | src/sensors.rs:243-256 | the first word picks the field by prefix (`junction`, `edge`, `mem`, `fan`): temperatures are stored without their leading `+`, the fan speed is followed by ` RPM`, and any other label changes nothing |
| Gpu.ScanAppend | src/sensors.rs:212-259 | scanning two runs of lines is scanning the first, then the second from where the first left off |
| Gpu.ScanAfterHeader | src/sensors.rs:216-225 | everything before the last header is forgotten |
| Gpu.ScanWithoutHeader | src/sensors.rs:207-260 | output without an `amdgpu` header leaves the readings and the closed section as they were |
| Gpu.CloseTestIgnoresIndentation | src/sensors.rs:228-235 | on the left-trimmed line the indentation tests never fail: a non-header line closes the section exactly when it contains `-isa-`, `-pci-` or `-i2c-` |
| Gpu.StepReadingsOrigin | src/sensors.rs:216-257 | after one step, each reading is the one before it, empty, or read from that line |
| Gpu.ScanReadingsOrigin | src/sensors.rs:212-259 | after a scan, each reading is the one it started with, empty, or read from one of the lines |
| Gpu.RadeonReadingsAfterLastHeader | src/sensors.rs:216-257 | after output with an `amdgpu` header, each of the four readings is empty or was read from a line after the last header |
| Sensors.SensorData.ScanLine | src/sensors.rs:213-258 | one pass of the scan loop changes the flag and the readings as `Step` does, and nothing else |
| Sensors.SensorData.ReadLabel | src/sensors.rs:237-257 | a line of the open section sets the readings to `ApplyLabel` of the old ones |
| Sensors.SensorData.UpdateRadeonGpuInfo | src/sensors.rs:207-260 | the loop over the lines of the report, starting outside any section, leaves the readings equal to `Scan` over all lines |
| Gpu.Dispatch | src/sensors.rs:262-271 | the NVIDIA parse runs exactly when the lower-cased name contains `nvidia`, and the Radeon scan, from outside any section, exactly when the name contains `Radeon` or the report `amdgpu`: with neither the readings are unchanged, with the NVIDIA test alone they are `ApplyNvidia` of the old ones, with the Radeon test alone they are the scan of the report, and with both the report is scanned over what the NVIDIA parse wrote |
| Gpu.RadeonOverridesNvidia | src/sensors.rs:262-271 | the two tests are independent and the Radeon scan runs second: over a report with an `amdgpu` header, what the NVIDIA parse wrote and the older readings are both lost |
| Gpu.IsNvidiaAnyCase | src/sensors.rs:264 | the NVIDIA test ignores case: `nvidia` in any mix of upper and lower case selects it |
| Sensors.SensorData.UpdateGpuInfo | src/sensors.rs:262-271 | the GPU readings become `Dispatch` of the old ones, and no other field changes |
| Patterns.RunSound | src/sensors.rs:6-31 | a repeated character class (`\s+`, `[0-9]+`, `[0-9.]+`) takes the longest run of characters of the class |
| Patterns.RunEndsAt | src/sensors.rs:6-31 | a run followed by a character outside the class is exactly that long |
| Patterns.ReadingAtSound | src/sensors.rs:6-19 | a match of `<name>:\s+\+([0-9.]+)` has that shape, and its capture is the whole greedy run of digits and dots |
| Patterns.ReadingAtComplete | src/sensors.rs:6-19 | wherever the text has that shape, the matcher finds a match |
| Patterns.RpmSpans | src/sensors.rs:21-25 | the spans of a fan match are ordered and end inside the text |
| Patterns.RpmSpansSound | src/sensors.rs:21-25 | the spans found delimit `<name>:\s+[0-9]+\s+RPM` |
| Patterns.RpmAtSound | src/sensors.rs:21-25 | a fan match has that shape, with the whole digit run captured |
| Patterns.RpmAtComplete | src/sensors.rs:21-25 | wherever the text has that shape, the matcher finds that match |
| Patterns.Lazy | src/sensors.rs:27-31 | a chip match starts where the chip name starts, ends inside the text and captures something |
| Patterns.LazyFirst | src/sensors.rs:27-31 | `.*?` is lazy: the chip match takes the first fan reading it can reach |
| Patterns.LazyBlocked | src/sensors.rs:27-31 | when `.` excludes `\n`, a line break before the first fan reading stops the chip match |
| Patterns.MatchAt | src/sensors.rs:6-31 | every match starts where it was sought, ends after it inside the text, and captures a non-empty group |
| Patterns.LeftmostSound | src/sensors.rs:338 | nothing matches between the search start and the leftmost match, nor anywhere when there is none |
| Patterns.AllMatchesSound | src/sensors.rs:299 | successive searches, each resuming at the end of the previous match, give matches in order and without overlap, and none is skipped |
| Patterns.Find | src/sensors.rs:338 | a match found from `from` starts at or after it and ends inside the text |
| Patterns.FindSound | src/sensors.rs:338 | the match found is a match of the pattern with none before it, and finding nothing means no match starts at or after `from` |
| Patterns.FindAllSound | src/sensors.rs:299-303 | `captures_iter` yields matches of the pattern, in order and without overlap, with none before the first, between two of them or after the last |
| Patterns.Captures | src/sensors.rs:300-301 | the captures are those of the matches, one for one and in order |
| Patterns.ExtractSensorValue | src/sensors.rs:337-340 | an extracted value is never empty |
| Patterns.ExtractSensorValueSound | src/sensors.rs:337-340 | nothing is extracted exactly when no match starts anywhere; otherwise the capture of the first match is |
| Patterns.ExtractAtStart | src/sensors.rs:337-340 | a match at the very start of the text is the one extracted |
| Patterns.ChassisFan2AsWrittenMisses | src/sensors.rs:27-31 | the two chassis-fan-2 patterns as written extract nothing from a `sensors` block that puts `nct6798-isa-0290` on its own line above `fan1:  1200 RPM` |
| Patterns.SecondChipAsWrittenMisses | src/sensors.rs:30-31 | the `nct6798` pattern as written matches the chip name there, but `.*?` cannot cross the line break after it |
| Patterns.FirstChipMisses | src/sensors.rs:27-28 | the `nct6799` pattern finds no chip of its kind in that block |
| Patterns.ChassisFan2Resolves | src/sensors.rs:27-31 | with `.` matching line breaks, the `nct6799` pattern misses that block and the `nct6798` pattern extracts `1200` from it |
| Sensors.CpuTempChain | src/sensors.rs:280-294 | the CPU temperature is `Tctl`'s value, else `Tdie`'s, else `Package id 0`'s, else `Core 0`'s, else the old value |
| Sensors.CpuTempPriority | src/sensors.rs:280-294 | the temperature comes from the first pattern, in that order, that matches anywhere; later patterns are not looked at |
| Sensors.CpuTempKept | src/sensors.rs:280-294 | when no temperature pattern matches, the old temperature stays |
| Sensors.SensorData.UpdateCpuInfo | src/sensors.rs:278-295 | the temperature becomes `CpuTemp` of the old one, and no other field changes |
| Sensors.NvmeTempsAreAllMatches | src/sensors.rs:297-304 | every NVMe temperature is the capture of a `Composite:` match, in order and without overlap; no match starts before the first, between two of them or after the last, and there is none at all when the list is empty |
| Sensors.SensorData.UpdateNvmeInfo | src/sensors.rs:297-304 | the list is cleared and then rebuilt, one push per match, into `NvmeTemps`; no other field changes |
| Sensors.FanReadingKept | src/sensors.rs:307-313 | a fan whose pattern matches nowhere in the output keeps its reading |
| Sensors.FanReadingMatched | src/sensors.rs:307-313 | a fan whose pattern matches reads the capture of the first match followed by ` RPM`, whatever it read before |
| Sensors.ExtractFirstMatch | src/sensors.rs:337-340 | the value extracted is the capture of the leftmost match |
| Sensors.FanWithFallbackOrder | src/sensors.rs:315-320 | the second chassis-fan-2 pattern decides only when the first matches nowhere; when the first matches, the second is not looked at |
| Sensors.ChassisFan2AsWrittenKeepsOld | src/sensors.rs:315-320 | with the patterns as written (`ChassisFan2`, which the record uses), a block that puts `nct6798-isa-0290` on its own line above `fan1:  1200 RPM` leaves the old chassis fan 2 reading in place |
| Sensors.ChassisFan2OnNct6798Block | src/sensors.rs:315-320 | with the patterns corrected so that `.` matches line breaks (`ChassisFan2Intended`), the fallback to the `nct6798` chip takes effect: on that block chassis fan 2 reads `1200 RPM` |
| Sensors.SensorData.UpdateFanInfo | src/sensors.rs:306-321 | the CPU fan and chassis fan 1 become their `FanReading` values and chassis fan 2 its `ChassisFan2` value, read with the patterns as written; no other field changes |
| Sensors.SensorsAfter | src/sensors.rs:323-335 | when `sensors` cannot be run nothing changes; otherwise the NVMe list is rebuilt from its output |
| Sensors.SensorData.UpdateSensors | src/sensors.rs:323-335 | the fields `update_sensors` owns become `SensorsAfter` of the old ones (the CPU temperature, then the GPU, NVMe and fans), and the names, load and memory are unchanged |
| Ram.ApplyMemLine | src/sensors.rs:348-367 | a memory row of fewer than seven fields changes nothing |
| Ram.ApplyMemLineByField | src/sensors.rs:348-366 | in a row of at least seven fields, total, used, free and available each come from their own field (1, 2, 3, 6) independently: a field that parses as f32 gives its MiB value in GiB, one that does not keeps that reading, and the percentage is used over total when the total is positive |
| Ram.ApplyMemLinePercent | src/sensors.rs:364-366 | the percentage is used over total when the (possibly stale) total is positive, and is kept otherwise |
| Ram.ApplyMemRow | src/sensors.rs:348-366 | a row of whole numbers gives the first three numbers and the sixth, in GiB, and used over total as the percentage when the total is positive |
| Ram.FreeRowExample | src/sensors.rs:342-372 | `Mem: 32000 16000 8000 2000 6000 18000` gives 31.25 GiB total, 15.625 used, 7.8125 free, 17.578125 available and 50 percent |
| Ram.ExtraFieldExample | src/sensors.rs:360-362 | in `Mem: 32000 16000 8000 2000 0 6000 18000` the field at index 6 (6000 MiB, 5.859375 GiB) is read as available |
| Ram.RamAfterFirstMemLine | src/sensors.rs:346-369 | only the first `Mem:` or `Mem.:` row counts, even when it has fewer than seven fields |
| Ram.RamAfterNoMemLine | src/sensors.rs:343-371 | output without a memory row leaves the readings as they were |
| Sensors.SensorData.ReadMemLine | src/sensors.rs:348-367 | the body for one memory row sets the memory fields to `ApplyMemLine` of the old ones |
| Sensors.SensorData.UpdateRam | src/sensors.rs:342-372 | the loop over the lines of `free -m`, which stops at the first memory row, leaves the memory fields equal to `RamAfter`; nothing else changes |
| Sensors.SensorData.Update | src/sensors.rs:68-72 | the load becomes `CpuUsage` of the two readings as the code computes it, then the `sensors` readings and the memory figures are refreshed, and the two names are left alone |
| Text.TrimStartSound | src/sensors.rs:213 | `trim_start` cuts a whitespace prefix and keeps the rest, which does not start with whitespace |
| Text.TrimEndSound | src/sensors.rs:79 | `trim_end` cuts a whitespace suffix and keeps the rest, which does not end with whitespace |
| Text.TrimSound | src/sensors.rs:79 | `trim` cuts whitespace only on either side, and what it keeps neither starts nor ends with whitespace |
| Text.IndexOfFromSound | src/sensors.rs:150-152 | `find` yields the first occurrence from its start, and nothing only when there is none |
| Text.IndexOfFirst | src/sensors.rs:150-152 | the first occurrence is the one found |
| Text.ContainsSound | src/sensors.rs:146 | `contains` holds exactly when the pattern occurs somewhere |
| Text.FindCharSound | src/sensors.rs:150-152 | `find` of a character yields its first occurrence from the start index, and nothing only when there is none |
| Text.FindCharFirst | src/sensors.rs:150-152 | the first occurrence of the character is the one found |
| Text.SecondPiece | src/sensors.rs:78 | `split(sep).nth(1)` exists exactly when `sep` occurs, and is the text right after its first occurrence |
| Text.SecondPieceSound | src/sensors.rs:167 | that piece holds no separator and ends at the next one or at the end of the text |
| Text.SplitSound | src/sensors.rs:192 | `split(c)` gives pieces without `c`, a single piece exactly when `c` does not occur, and a first piece that is the text up to the first `c` |
| Text.JoinSplit | src/sensors.rs:192 | joining the pieces with the separator gives back the text |
| Text.SplitWhitespace | src/sensors.rs:238 | `split_whitespace` yields non-empty words without whitespace |
| Text.SplitWhitespaceKeepsText | src/sensors.rs:348 | the words, glued together, are exactly the non-whitespace characters of the text in order |
| Text.SplitWhitespaceWord | src/sensors.rs:348 | a word followed by whitespace is the first word split off |
| Text.Lines | src/sensors.rs:76 | `lines()` of a text is empty exactly when the text is empty |
| Text.LinesHaveNoBreaks | src/sensors.rs:145 | no line holds a line break |
| Text.UnlinesLines | src/sensors.rs:209 | without carriage returns, putting the line breaks back gives the text, completed with a final `\n` |
| Text.LinesUnlines | src/sensors.rs:346 | lines glued with `\n` are split back into the same lines |
| Text.ToLowerAt | src/sensors.rs:264 | `to_lowercase` lowers ASCII letters one character at a time |
| Numbers.ParseU64Decimal | src/sensors.rs:95 | every 64-bit value read back from its numeral is itself |
| Numbers.DigitsValueDecimal | src/sensors.rs:95 | the digits of a numeral denote its value |
| Numbers.ParseF32Decimal | src/sensors.rs:351 | a whole number of MiB parses as f32 to that number |
| Wrappers.FirstSomeSound | src/sensors.rs:76-83 | the first-match scan returns what the first yielding element yields, and nothing only when no element yields |
| Wrappers.FirstSomeAt | src/sensors.rs:76-83 | the first element that yields decides the scan |
| Wrappers.FirstSomeNone | src/sensors.rs:76-83 | when no element yields, neither does the scan |

## Left out

- **Files, processes and timing.** Reading `/proc/cpuinfo` and `/proc/stat`, spawning `nvidia-smi`, `lspci`, `sensors` and `free`, `String::from_utf8_lossy`, and the 100 ms sleep between the two `/proc/stat` readings are not modelled. Their text is a parameter.
- **f32 arithmetic.** Rounding in `/ 1024.0`, in the percentages and in the `as f32` casts is not modelled. Sizes and percentages are exact reals.
- **f32 spellings.** `parse::<f32>` is modelled for finite decimal numerals with an optional sign, fraction and exponent. The spellings `inf`, `infinity` and `nan` are not modelled: they are read as parse failures.
- **u64 sums.** Overflow of the u64 counter sums is not modelled; counters are unbounded naturals. Only the subtraction at `src/sensors.rs:121` is modelled as it wraps (see Findings).
- **Debug builds.** In a debug build the same subtraction panics instead of wrapping; that panic is not modelled.
- Sensors.SensorData.Update: the load it stores is not promised to lie in [0, 100] for every pair of readings, because the subtraction as written can wrap (see Findings). `CpuStat.CpuUsageIsPercentage` gives that bound when the counters never decrease.
- CpuStat.CpuUsage: likewise promises only a load that is never negative, not one in [0, 100], for the same reason.
- **Lowercasing.** `to_lowercase` is modelled for ASCII letters only, and every other character is kept. This is enough for the `nvidia` test. The only non-ASCII characters that lowercase to ASCII letters are U+212A (to `k`) and U+0130 (to `i` followed by U+0307). Neither can complete `nvidia`.
- **The regex engine.** The `regex` crate and the `Lazy` initialisation of the patterns are not modelled in general. Only the three pattern shapes the table uses are matched.
- **Other GPU fields.** `src/main.rs` reads `gpu_power`, `gpu_vram_used`, `gpu_vram_total` and `gpu_utilization`, which the record does not declare. Their extraction is not invented.
- **The user interface.** The rest of `src/main.rs` is not part of this model: the GTK window, the five-second timer, label formatting and the `Rc<RefCell<…>>` sharing.
- **Write order.** `Sensors.SensorData.ReadMemLine` gathers the new memory readings in a local record and writes the five fields together. `Sensors.SensorData.UpdateFanInfo` likewise writes the three fans together. Rust assigns each field as soon as it is computed, but no other code runs in between, so the final state is the same.

### Two consequences of the code

- **Closing a Radeon section.** The tests for a leading space or tab at `src/sensors.rs:231-232` run on the line after `trim_start`, so they never fail. Any non-header line containing `-isa-`, `-pci-` or `-i2c-` closes an `amdgpu` section, however far it is indented (`Gpu.CloseTestIgnoresIndentation`).
- **The `available` field.** The code reads the field at index 6 of a memory row. In a row as `free -m` prints it, `Mem: 32000 16000 8000 2000 6000 18000`, that is the last number, 18000 MiB or 17.578125 GiB (`Ram.FreeRowExample`). In a row with one more number, `Mem: 32000 16000 8000 2000 0 6000 18000`, it is 6000 MiB, or 5.859375 GiB (`Ram.ExtraFieldExample`).

## Findings

| source | as written | input that shows it | evidently intended | confidence | as-written member | corrected member |
|---|---|---|---|---|---|---|
| src/sensors.rs:117-121 | `total_diff - idle_diff` is an unchecked u64 subtraction after two saturating ones. When idle time grows by more than the total it wraps, in a release build, to a huge load. | first lines `cpu 10 0 0 0`, then `cpu 0 0 0 20` (a counter reset, or readings of different CPUs) | a saturating subtraction, so the load is always in [0, 100] | not executed | CpuStat.UsageAsWrittenWraps | CpuStat.Usage |
| src/sensors.rs:27-31 | `nct6799-isa-0290.*?fan1:` and `nct6798-isa-0290.*?fan1:` use `.`, which does not match `\n`. `sensors` prints the chip name on a header line and `fan1:` on a later line, so the patterns never match its output and chassis fan 2 is never read. | `nct6798-isa-0290\nfan1:  1200 RPM\n` | `.` matching line breaks (the `(?s)` flag), so that the fan1 reading of the chip's block is found | not executed | Patterns.ChassisFan2AsWrittenMisses | Patterns.ChassisFan2Resolves |

For the first row:

- `CpuStat.UsageAsWritten` models the code as written, and `CpuStat.CpuUsage`, which `Sensors.SensorData.Update` stores, is defined from it.
- `CpuStat.UsageAsWrittenWraps` exhibits the wrap.
- `CpuStat.Usage` is the corrected load, always in [0, 100].
- `CpuStat.UsageAsWrittenWhenNeverDecreasing` and `CpuStat.CpuUsageIsPercentage` show that the two agree on counters that never decrease.

For the second row:

- `Patterns.CHASSIS2_A` and `Patterns.CHASSIS2_B` are the patterns as written. `Sensors.ChassisFan2` and `Sensors.SensorData.UpdateFanInfo` use them.
- `Sensors.ChassisFan2AsWrittenKeepsOld` shows that they leave the old reading in place.
- `Patterns.CHASSIS2_A_DOTALL` and `Patterns.CHASSIS2_B_DOTALL` are the corrected patterns, and `Sensors.ChassisFan2Intended` reads chassis fan 2 with them.
- `Sensors.ChassisFan2OnNct6798Block` shows that the fallback then takes effect.
