# vizzy, modelled in Dafny

vizzy traces the heap activity of a program. It has three parts, and each
has a module here:

- **The launcher** (`src/main.c`, module `Launcher`, `launcher.dfy`).
  - The hooking library is embedded in the launcher as a byte image.
  - The launcher finds the 16-byte path tag in that image with `memmem`.
  - It copies the log path after the tag with `strncpy` (PATH_MAX bytes).
  - It writes the image to `/tmp/libvizzy.so`.
  - It spawns the command with the current environment plus
    `LD_PRELOAD=/tmp/libvizzy.so`.
  - The image is an `array<byte>` patched in place, and `environ` is an
    array of optional C strings ending in NULL.
  - fopen, fwrite and posix_spawn are oracles: their answers are parameters.
- **The interposition library** (`lib/hooks.c`, module `Hooks`,
  `hooks.dfy`).
  - The class `Interposer` holds the file's static state: the `loaded`
    flag and the four real-function pointers.
  - It also holds the log file, as the sequence of lines appended to it,
    and the calls forwarded to the genuine allocator.
  - `dlsym(RTLD_NEXT, ·)` is a function fixed for the process.
  - What the genuine allocator returns is a parameter of each hook.
  - `%p` and `%ld` are rendered as glibc renders them.
- **The trace analysis script** (`script/vizzyviz.py`, module `Vizzyviz`,
  `vizzyviz.dfy`).
  - It parses a trace file into an ordered dictionary keyed by each
    event's time relative to the first.
  - It replays that dictionary into a heap summary (`heap_summary`) or into
    a heap-usage series (`viz_heap_usage_over_time`).
  - Module `OrderedDict` (`ordered_dict.dfy`) gives Python's
    `OrderedDict`: insertion order, a re-assigned key keeps its place, and
    `del` removes one key.
  - Module `Text` (`text.dfy`) gives `str.strip`, `str.split` with one
    separator, `int(s, base)` on ASCII digits without underscores, and
    printf's decimal and hexadecimal digits.
  - Each loop of the script is a Dafny `method` proved equal to a
    specification function. Three are count-indexed folds: `Keyed`/`Collect`
    for parsing, `TallyOf` for the summary's first loop and `UsageOf` for
    the series. The summary's second loop (`InUse`) is proved equal to
    `Total`, a sum over the dictionary's key order. The lemmas state the
    properties of those functions.
- Module `TraceCompat` (`trace_compat.dfy`) relates the lines the hooks
  write to the lines the script reads.

Where the code differs from what its comments, names and surrounding
components suggest, the model follows the code:

- `free(NULL)` resolves the symbols before it returns.
- The realloc hook never writes its line (see Findings).
- The tag is taken at its first occurrence; a second occurrence is not
  checked.
- The embedded image is patched in place, not in a copy.
- The hooks write `name,pointer,size` with no timestamp. The script expects
  `seconds,microseconds,name,address,size`, so it refuses every line the
  hooks write at its first field (`TraceCompat.SizedLineRefused`,
  `TraceCompat.FreeLineRefused`). A line in the five-field layout parses
  back to its values (`Vizzyviz.TraceLineRoundTrip`).
- The script's docstring speaks of nanoseconds, but the second field is
  divided by 1 000 000, so it is microseconds.

## Model

| member | source | states |
|---|---|---|
| Launcher.FindTag | src/main.c:41 | memmem: the result is an occurrence of the tag with none before it, and None means the tag does not occur |
| Launcher.FirstTag | src/main.c:41 | memmem over the whole image: FindTag from offset 0, whose ensures give the first occurrence or none; RescanFindsSameTag relates it to the patched image |
| Launcher.PreloadEnv | src/main.c:64-65 | the bytes snprintf formats for `LD_PRELOAD=%s` with the library path; PreloadFits gives their length, SpawnProcess places them in the child's environment |
| Launcher.Strncpy | src/main.c:46 | the n bytes strncpy stores: exactly n of them; their contents are StrncpyContents |
| Launcher.Patched | src/main.c:46 | the image after the path is copied into the PATH_MAX bytes after the tag; PatchedOutside and PatchReadsBack state what it holds |
| Launcher.StrncpyContents | src/main.c:46 | strncpy stores the source up to its NUL or n bytes, then NULs up to n |
| Launcher.PatchedOutside | src/main.c:46 | the patch changes only the PATH_MAX window after the tag, and that window is strncpy's output |
| Launcher.PatchReadsBack | src/main.c:46 | read back as a C string, the window gives the log path when it is shorter than PATH_MAX; otherwise the first PATH_MAX bytes with no NUL |
| Launcher.RescanFindsSameTag | src/main.c:40-46 | after the patch, memmem finds the same tag at the same offset |
| Launcher.LaterTagSurvives | src/main.c:41-46 | a later occurrence of the tag past the window survives the patch |
| Launcher.EnvLength | src/main.c:72-74 | the count of environ entries stops at the first NULL, and every entry before it is set |
| Launcher.PreloadFits | src/main.c:64-69 | `LD_PRELOAD=/tmp/libvizzy.so` is 27 bytes, so the truncation error is never taken |
| Launcher.DropVizzySo | src/main.c:36-60 | no tag: fails with the image unchanged; tag: the image is the patched image; the image is written only when fopen succeeds; success iff tag, fopen and one item written |
| Launcher.SpawnProcess | src/main.c:62-89 | the child environment is the old entries, then the preload entry, then NULL; success iff posix_spawn returns 0; the pid is the one posix_spawn gave |
| Launcher.Run | src/main.c:91-118 | fewer than three arguments: exit 1 with nothing done; otherwise the image is patched with argv[1] when the tag is found (unchanged otherwise) and deployed when fopen succeeds; argv[2..] is spawned with environ's entries, the preload entry and NULL; exit 0 iff every step succeeds |
| Hooks.Interposer.constructor | lib/hooks.c:19-29 | at load time nothing is resolved, logged or forwarded |
| Hooks.Interposer.LoadRealSymbols | lib/hooks.c:46-58 | the first call resolves the four pointers through dlsym; later calls change nothing; the log and calls are untouched |
| Hooks.Interposer.Init | lib/hooks.c:60-63 | after the library constructor every pointer is resolved |
| Hooks.Interposer.Malloc | lib/hooks.c:65-78 | resolves, forwards the size to the real malloc, appends its line unless truncated, returns the real result unchanged |
| Hooks.Interposer.Calloc | lib/hooks.c:80-98 | before calloc is resolved: returns the scratch buffer and does nothing else; after: forwards, logs `size*num` wrapped to 64 bits, returns the real result |
| Hooks.Interposer.Realloc | lib/hooks.c:100-112 | resolves, forwards, returns the real result, and appends nothing to the log |
| Hooks.Interposer.ReallocLogged | lib/hooks.c:100-112 | corrected realloc hook: appends its line like the other hooks |
| Hooks.Interposer.Free | lib/hooks.c:114-128 | resolves first; NULL is then a no-op; otherwise forwards to the real free and appends the free line unless truncated |
| Hooks.LoadSym | lib/hooks.c:13-17 | LOAD_SYM: dlsym is consulted only while the pointer is NULL; LoadIsOneShot states that a set pointer is kept |
| Hooks.Load | lib/hooks.c:46-58 | `_load_real_symbols` on the resolver state: nothing once loaded, otherwise set the flag and LOAD_SYM each pointer; LoadIsOneShot states that it is idempotent and resolves the initial table |
| Hooks.FormatPointer | lib/hooks.c:71 | glibc's `%p`: `(nil)` for NULL, else `0x` and lower-case hex; PointerWidth bounds it, PointerReadsBack shows `int(x, 16)` reads it back |
| Hooks.FormatLong | lib/hooks.c:71 | `%ld` of a size_t read as signed 64 bits; LongWidth bounds it, LongReadsBack shows `int(x)` reads back the signed value |
| Hooks.SizedLine | lib/hooks.c:71 | the text `snprintf("%s,%p,%ld\n")` formats for a sized hook; LinesFit bounds its length, TraceCompat.SizedLineRefused shows the script refuses it |
| Hooks.FreeLine | lib/hooks.c:123 | the text `snprintf("%s,%p,\n")` formats for free; LinesFit bounds its length, TraceCompat.FreeLineRefused shows the script refuses it |
| Hooks.Emit | lib/hooks.c:72-76 | the truncation check: the line is appended when snprintf's count is below 256, nothing otherwise; LinesFit shows the line is always appended |
| Hooks.LoadIsOneShot | lib/hooks.c:13-17 | loading is idempotent, a set pointer is never replaced, and loading the initial table resolves everything |
| Hooks.PointerWidth | lib/hooks.c:71 | `%p` of a 64-bit pointer takes at most 18 characters |
| Hooks.LongWidth | lib/hooks.c:71 | `%ld` of a 64-bit size takes at most 20 characters |
| Hooks.LinesFit | lib/hooks.c:69-74 | every hook line fits the 256-byte buffer, so each logged call appends exactly its line |
| Hooks.PointerReadsBack | script/vizzyviz.py:105 | `int(x, 16)` reads back a non-NULL `%p` and rejects `(nil)` |
| Hooks.LongReadsBack | script/vizzyviz.py:108 | `int(x)` reads back `%ld` of a size as its signed 64-bit value |
| Text.HexDigitsRoundTrip | lib/hooks.c:71 | reading printf's hexadecimal digits gives the number back |
| Text.DecDigitsRoundTrip | lib/hooks.c:71 | reading printf's decimal digits gives the number back |
| Text.HexLength64 | lib/hooks.c:71 | a 64-bit value has at most 16 hexadecimal digits |
| Text.DecLength64 | lib/hooks.c:71 | a signed 64-bit magnitude has at most 19 decimal digits |
| Text.ParseInt | script/vizzyviz.py:105-108 | Python's `int(s, base)` on ASCII digits without underscores, None where it raises; DecRoundTrip and HexRoundTrip show it reads printf's digits back |
| Text.Strip | script/vizzyviz.py:97 | `str.strip()`: the text between leading and trailing whitespace; LStripKeeps, RStripKeepsPrefix, RStripKeepsAll and StripNewline state what it keeps |
| Text.DecRoundTrip | script/vizzyviz.py:108 | `int(str(n)) == n` |
| Text.HexRoundTrip | script/vizzyviz.py:105 | `int("0x" + hex(n), 16) == n` |
| Text.Split | script/vizzyviz.py:98 | `split` never returns an empty list |
| Text.SplitJoin | script/vizzyviz.py:98 | joining the parts of a split restores the string, and no part holds the separator |
| Text.JoinSplit | script/vizzyviz.py:98 | splitting the join of separator-free parts gives the parts back |
| Text.SplitWord | script/vizzyviz.py:98 | a separator-free word followed by the separator becomes one whole part |
| Text.LStripKeeps | script/vizzyviz.py:97 | `lstrip` keeps a string that starts with a non-space |
| Text.RStripKeepsPrefix | script/vizzyviz.py:97 | `rstrip` keeps everything up to a non-space character |
| Text.RStripKeepsAll | script/vizzyviz.py:97 | `rstrip` keeps a string that ends with a non-space |
| Text.StripNewline | script/vizzyviz.py:97 | `strip` of a line removes just its newline when the text starts and ends with non-spaces |
| OrderedDict.Empty | script/vizzyviz.py:23 | a new OrderedDict is well formed and has no keys |
| OrderedDict.ODict.Set | script/vizzyviz.py:35 | `d[k] = v` gives k the new value and keeps every other value |
| OrderedDict.ODict.Delete | script/vizzyviz.py:29 | `del d[k]` removes k's value and keeps every other value |
| OrderedDict.SetOrder | script/vizzyviz.py:117-121 | after `d[k] = v` the dictionary is well formed; a new key goes last and a present key keeps its place |
| OrderedDict.DeleteOrder | script/vizzyviz.py:29 | after `del d[k]` the dictionary is well formed, with the other keys in order and one key fewer |
| OrderedDict.WithoutKeeps | script/vizzyviz.py:29 | removing a key from the order keeps exactly the other keys and their distinctness |
| OrderedDict.TotalAfterSet | script/vizzyviz.py:35 | the sum of the values after `d[k] = v` replaces k's old value, if any, by v |
| OrderedDict.TotalAfterDelete | script/vizzyviz.py:29 | the sum of the values after `del d[k]` loses k's value |
| OrderedDict.SumOverAppend | script/vizzyviz.py:40-42 | summing in order, one more key adds its value |
| Vizzyviz.ParseLine | script/vizzyviz.py:97-108 | one line stripped, split on commas and converted field by field in the script's order; its properties are ParseLineFields (what each field becomes and which index raises) and TraceLineRoundTrip (the five-field layout parses back) |
| Vizzyviz.PyInt | script/vizzyviz.py:105-108 | `int(field, base)`, which ignores surrounding whitespace: ParseInt of the stripped field; TraceLineRoundTrip shows it reads the five-field layout back |
| Vizzyviz.Fields | script/vizzyviz.py:97-98 | a stripped line always splits into at least one field |
| Vizzyviz.ParseLineFields | script/vizzyviz.py:97-108 | what a parsed line holds field by field: the time is field 0 in seconds plus field 1 in microseconds, the name is field 2, the address is field 3 read in base 16, and the size is field 4 or None when it is empty; a missing field raises at the first index past the end; conversions raise only at fields 0, 1, 3, 4 |
| Vizzyviz.ParseLineRaises | script/vizzyviz.py:97-108 | each exception exactly: a line raises at field i iff field i is missing or fails to convert, and every earlier field the script converts did convert |
| Vizzyviz.TraceLineFields | script/vizzyviz.py:97-98 | a line in the five-field layout strips and splits into its five fields |
| Vizzyviz.TraceLineRoundTrip | script/vizzyviz.py:97-108 | a line in the five-field layout parses back to its time, name, address and size (an empty size field is None) |
| Vizzyviz.Collect | script/vizzyviz.py:96-108 | the lines parsed so far, one per line |
| Vizzyviz.CollectFirstFailure | script/vizzyviz.py:96-108 | parsing the file succeeds iff every line parses; otherwise it raises at the first line that fails |
| Vizzyviz.CollectFailsFirst | script/vizzyviz.py:96-108 | a failure after all earlier lines succeeded is the failure of the whole file |
| Vizzyviz.KeyOf | script/vizzyviz.py:110-115 | reltime: 0 for the first line, its time minus the first line's time after that; StoreLine is proved to store under it |
| Vizzyviz.Keyed | script/vizzyviz.py:117-121 | the dataset after storing the first n lines, each under its key; KeyedValid, KeyedFirst, KeyedLastWins and KeyedOnlyStored state what it holds |
| Vizzyviz.Load | script/vizzyviz.py:92-123 | the result of the parsing loop for given line results: the keyed dataset, or the first failing line's exception (CollectFirstFailure); StoreLines is proved equal to it |
| Vizzyviz.Dataset | script/vizzyviz.py:79-123 | what `parse_vizzy_file` returns for the file's lines: Load of every line parsed; ParseVizzyFile is proved equal to it |
| Vizzyviz.KeyedValid | script/vizzyviz.py:117-121 | the dataset is well formed and has no more keys than lines stored |
| Vizzyviz.KeyedFirst | script/vizzyviz.py:110-117 | the first line is stored under key 0, and key 0 stays first |
| Vizzyviz.KeyedLastWins | script/vizzyviz.py:117-121 | a line's key holds its record unless a later line has the same relative time |
| Vizzyviz.KeyedOnlyStored | script/vizzyviz.py:110-121 | every key is the relative time of some stored line |
| Vizzyviz.KeyedPrefix | script/vizzyviz.py:96-121 | the dataset depends only on the lines stored so far |
| Vizzyviz.ParseVizzyFile | script/vizzyviz.py:79-123 | returns the keyed dataset of all lines, or the exception of the first line that fails |
| Vizzyviz.StoreLines | script/vizzyviz.py:92-123 | the loop over the lines computes the keyed dataset or the first failure |
| Vizzyviz.StoreLine | script/vizzyviz.py:110-121 | the first line fixes the start time and is stored under 0; each later line is stored under its time minus the start time |
| Vizzyviz.Items | script/vizzyviz.py:25 | one record per key, in key order |
| Vizzyviz.AllocCount | script/vizzyviz.py:33 | no more allocations than records |
| Vizzyviz.LastTouch | script/vizzyviz.py:25-35 | the last of the first n records that names the address, or None when none does |
| Vizzyviz.TallyOf | script/vizzyviz.py:21-35 | `heap_summary`'s first loop over the first n records as a fold of TallyStep; its properties are TallyCounts, TallyError, TallyFree and LiveIsLastTouch, and CountEvents is proved equal to it |
| Vizzyviz.TallyStep | script/vizzyviz.py:26-35 | one pass raises iff the record is an allocation without a size, and it reports that record's index |
| Vizzyviz.TallyCounts | script/vizzyviz.py:21-35 | allocations and frees partition the records; bytes allocated is the sum of allocation sizes; live blocks are no more than allocations; allocs stays well formed |
| Vizzyviz.TallyError | script/vizzyviz.py:33-34 | the replay raises iff some allocation lacks a size, and then at the first one |
| Vizzyviz.TallyFailsFirst | script/vizzyviz.py:33-34 | a missing size after good records is the exception of the whole replay |
| Vizzyviz.TallyFree | script/vizzyviz.py:26-31 | a free of a live address removes exactly it; any other free is a double free that changes no block |
| Vizzyviz.LiveIsLastTouch | script/vizzyviz.py:25-35 | an address is live iff its last record is an allocation, and its size is that record's |
| Vizzyviz.SummaryCounts | script/vizzyviz.py:21-35 | allocnum + freenum is the number of records; in-use blocks ≤ allocnum; bytes allocated is the sum of allocation sizes |
| Vizzyviz.HeapSummary | script/vizzyviz.py:10-47 | the report is the replay's counters, the total and number of live blocks, and the double frees in the order warned; a missing size raises |
| Vizzyviz.CountEvents | script/vizzyviz.py:21-35 | the first loop computes the replay over the dataset's records, or raises at the first missing size |
| Vizzyviz.CountRecord | script/vizzyviz.py:26-35 | one pass of the first loop is the replay step, or reports the missing size |
| Vizzyviz.InUse | script/vizzyviz.py:38-42 | in-use bytes is the sum of the live sizes, and in-use blocks the number of live addresses |
| Vizzyviz.UsageStep | script/vizzyviz.py:64-73 | one pass raises iff an allocation lacks its size, and otherwise takes one sample of the current usage |
| Vizzyviz.UsageOf | script/vizzyviz.py:63-73 | one sample per record, and the last sample is the current usage |
| Vizzyviz.UsageError | script/vizzyviz.py:69-70 | the series raises iff some allocation lacks a size, and then at the first one |
| Vizzyviz.UsageFailsFirst | script/vizzyviz.py:69-70 | a missing size after good records is the exception of the whole series |
| Vizzyviz.UsageSamples | script/vizzyviz.py:72-73 | each sample is the usage after the records up to and including its own |
| Vizzyviz.UsageFree | script/vizzyviz.py:64-67 | an unmatched free keeps the usage; a matched free subtracts the size stored for its address |
| Vizzyviz.UsageTracksSummary | script/vizzyviz.py:59-70 | the series tracks the same live blocks as the summary's replay |
| Vizzyviz.HeapUsageOverTime | script/vizzyviz.py:49-77 | the plotted times are the dataset's keys in order, and the usage points are the series; a missing size raises |
| Vizzyviz.UsageRecord | script/vizzyviz.py:64-70 | one pass of the loop is the series step, or reports the missing size |
| Vizzyviz.UsageOvercounts | script/vizzyviz.py:68-70 | two allocations at one address with no free between them: the usage reaches 30 bytes while 20 are live |
| Vizzyviz.LiveUsageStep | script/vizzyviz.py:68-70 | corrected pass: the usage stays the total of the live blocks |
| Vizzyviz.LiveUsageOf | script/vizzyviz.py:63-73 | corrected series: raises iff a size is missing; one sample per record; usage is the total of the live blocks |
| Vizzyviz.LiveUsageIsInUseBytes | script/vizzyviz.py:38-42 | the corrected series ends at the in-use bytes the summary reports |
| TraceCompat.FirstField | script/vizzyviz.py:97-98 | the first field of `word,rest\n` is the word |
| TraceCompat.NotDecimal | script/vizzyviz.py:100 | a word that does not end in a digit is not a number |
| TraceCompat.SizedLineRefused | lib/hooks.c:71 | the script refuses a malloc/calloc/realloc hook line at field 0 |
| TraceCompat.FreeLineRefused | lib/hooks.c:123 | the script refuses a free hook line at field 0 |

## Left out

- `src/log.c` (the coloured `info`/`err` helpers), the banner and the usage text: console output only.
- `main`'s `waitpid` and its `WIFEXITED`/`WIFSIGNALED` reports: after the spawn, `Run` only gives the exit code that falling off `main` produces.
- `_heap_info_log_line`'s open/write/close loop: each log append is one whole line, and a short or failed write is not modelled. The loop never advances within the line, and `if (!fd)` misses a failed open.
- Threads calling the hooks at the same time: each hook is one atomic step.
- Hooks.Interposer.LoadRealSymbols: loading is one atomic step. A hook called back from inside dlsym, after `loaded` is set but before the four pointers are filled, is not modelled. In the source such a calloc returns the scratch buffer, and malloc, realloc or free call through a NULL pointer. Interposer.Valid admits only the table before loading and the fully resolved table.
- Hooks.Interposer.Malloc, Realloc, Free: a dlsym that returns NULL is not treated as a crash. The model records a forwarded call through the NULL pointer and returns the allocator's result, where the source calls through NULL. (Calloc needs no such line: with a NULL calloc pointer it keeps returning the scratch buffer, in the source and in the model.)
- Launcher.DropVizzySo and Launcher.Run: the out-of-bounds write of strncpy when the first tag lies within TagSize + PATH_MAX bytes of the image's end is not modelled. RoomAfterTag requires that the image keeps PATH_MAX bytes after its first tag.
- Launcher.SpawnProcess: a NULL result from the `malloc` of the new environment (src/main.c:77), after which the source's memcpy crashes, is not modelled. The allocation always succeeds.
- Text.ParseInt: Python's `int()` also accepts `_` between digits (also after `0x`) and non-ASCII digits. The model rejects those forms, so a line such as `0,0,malloc,0x1_0,8`, which the script reads with address 16, gives BadNumber(3) here. The same holds for the `float()` fields.
- `calloc`'s scratch buffer is only an address; its contents are not modelled.
- The library reading back its patched log path: the hooks write to a fixed path and never read the patched buffer.
- Vizzyviz.ParseLine: the first two fields go through `float()` in the script. They are modelled as Python integers (`int()` syntax), and the time as whole microseconds (`seconds * 10^6 + second field`). Fractional, exponent, `inf` and `nan` forms are not modelled, and neither is float rounding of the relative times used as keys.
- Vizzyviz.HeapUsageOverTime: `curr_memusage/1024.0` is left as whole bytes. The bokeh figure, `show` and the output are not modelled.
- `heap_summary`'s printed report and double-free warnings: HeapSummary returns the figures and the list of double-freed addresses instead.
- `parse_args`, `main` and opening the trace file: ParseVizzyFile takes the file as its list of lines.
- Text.IsSpace: only ASCII whitespace is stripped, not the other Unicode spaces Python strips.
- Vizzyviz.Items: the ensures gives only the length; the records in key order follow from its definition.
- Vizzyviz.Keyed: its properties are in KeyedValid, KeyedFirst, KeyedLastWins and KeyedOnlyStored rather than in its own ensures.
- Records whose name is not `free` count as allocations, as in the script; no other allocator functions are known to the model.

## Findings

| source | as written | input that shows it | evidently intended | confidence | as-written member | corrected member |
|---|---|---|---|---|---|---|
| script/vizzyviz.py:68-70 | an allocation at an address already in `curr_allocs` adds its size without taking away the size already stored there | `malloc` at 0x1000 of 10 bytes, then `malloc` at 0x1000 of 20 bytes with no free between: the usage is 30 while 20 bytes are live | the usage is the total of the live blocks, as `heap_summary`'s in-use bytes are | not executed; high that the series and the summary disagree | Vizzyviz.UsageOvercounts | Vizzyviz.LiveUsageOf |
| lib/hooks.c:100-112 | realloc formats its line and checks it for truncation, then returns without writing it | any `realloc` call: the log is unchanged, although the line always fits (Hooks.LinesFit) | append the line, as malloc, calloc and free do | not executed; high | Hooks.Interposer.Realloc | Hooks.Interposer.ReallocLogged |

`HeapUsageOverTime` models the script as written, so its series is `UsageOf`.
`LiveUsageOf` is the corrected series, and `LiveUsageIsInUseBytes` proves
that it ends at the summary's in-use bytes.
