# SIFT job and KPI table reader, modelled in Dafny

This project models two pieces of an image-processing framework written in Python.

1. **The SIFT feature-detection job** (`Application/Jobs/feature_detection.py`).
   - `do_sift_job` is the builder, run at configuration time. It derives default names for the three output ports from the SIFT parameters, with a `_MASKED_BY_<mask>` suffix when a mask port is given. It applies the pyramid-level transform to every port name it declares and assembles the 11-slot parameter list of the main function. It appends one job descriptor to the process-wide registry `jobs_dict` and returns the three output names untransformed.
   - `main_func` runs on every wave. It checks the parameter count, looks the five ports up (the mask falls back to the input) and gates on the input's validity. It runs the detector inside a `try` that swallows every failure. It copies the drawn image, then at most `number_of_features` descriptor rows and keypoint rows, into the output buffers, marking each output valid after its copy. The copy loops run `range(min(n, number_of_features))` times: an integer count or a float at least `n` is accepted, while a float below `n` or a value that is no number raises TypeError before that copy.
   - `init_func_sift` always returns the initialised state.
2. **The KPI log reader and key selectors** (`Utils/plotting.py`).
   - `get_table_data_from_csv` cuts a log into tables at every `Frame` and reads table `table_number`, counted from 1. It turns that table into a dictionary from each header key to its column of fields.
   - The key-selection parts of `plot_avg_time_jobs`, `plot_custom_list`, `plot_GLCM_data` and `plot_time_jobs` choose which columns are drawn.

The modules follow the program:

- `Py`: Python's `None`, exceptions and list indexing.
- `Strings`: the `str` built-ins the code uses (`in`, `split`, `join`, `str(int)`, `lower`, `replace`), with the `split`/`join` round trip.
- `KpiTable`: `get_table_data_from_csv`. It is a loop method `GetTableDataFromCsv` proved equal to the function `TableData`, and lemmas state what that function promises.
- `KpiLog`: a reference writer of KPI logs. The lemma `ReadWrittenLog` proves that reading table `n` of a written log returns exactly the keys and columns that were written, provided every table of the log is well formed (`WellFormed`):
  - its first key is `Frame` and its keys are distinct;
  - no other key or field contains `,`, a newline or `Frame`;
  - every row has at least one field per key and is not the single empty field.

  Each condition guards against one way the reader loses what was written:
  - `Frame` inside a key or field is cut apart by the split at line 21 of `Utils/plotting.py`;
  - a comma inside a field is cut apart by the split at line 29;
  - a newline inside a field can complete a `,False\n`, at which the split at line 28 cuts;
  - a repeated header key collapses into one dictionary key at line 25;
  - a row that is one empty field is dropped at line 30;
  - a row shorter than the header raises IndexError at line 32.
- `Plotting`: the four selectors. Each loop is a method proved equal to a specification function, and lemmas state the selection rule.
- `Jobs`: the job descriptor and the `jobs_dict` registry (a class whose `Append` changes only its list).
- `Ports`: a port with its validity flag and row buffer (a class over an `array`), and the store of ports the main function reaches.
- `FeatureDetection`:
  - the builder `SiftJob` and the method `DoSiftJob`, which appends to the registry;
  - the main function, which is the method `MainFunc` over the port store, proved equal to the specification `MainSpec` on a snapshot of the ports.

The framework helpers the builder calls are the fields of a `Helpers` value: `transform_port_name_lvl`, `transform_port_size_lvl`, `job_name_create`, `get_module_name_from_file`, and the `str` of a float. The OpenCV calls are the fields of a `Cv` value. Every statement here therefore holds whatever those helpers compute.

Three places where the model follows the code rather than a looser reading of it:

- The default output names embed the input name **as given**, not the level-transformed one (`INPUT=port_input_name`, lines 158, 166 and 174). The mask suffix likewise uses the untransformed mask name; the mask is transformed only afterwards (lines 187-188), for the parameter list.
- The registry append is unconditional (line 209). Two identical calls register two identical descriptors; nothing deduplicates them.
- `main_func` returns True whenever the input port is valid, even when the detector or a copy raised inside the `try`.

## Model

| member | source | states |
|---|---|---|
| Py.ListIndex | Utils/plotting.py:25 | `xs[i]` is defined exactly for `-len <= i < len`; a negative index counts from the end |
| Strings.Find | Utils/plotting.py:21 | the leftmost occurrence of a substring, and none before it |
| Strings.Contains | Utils/plotting.py:57 | `sub in s` holds exactly when `sub` occurs at some index of `s` |
| Strings.Split | Utils/plotting.py:21 | `s.split(sep)` gives at least one piece, no piece contains `sep`, and joining the pieces with `sep` gives back `s` |
| Strings.SplitEmpty | Utils/plotting.py:30 | a text splits into the single empty field exactly when it is empty |
| Strings.SplitJoin | Utils/plotting.py:21 | splitting the join of pieces free of an unbordered separator gives back the pieces |
| Strings.SplitCons | Utils/plotting.py:28 | splitting `head + sep + rest` gives `head` and then the pieces of `rest` |
| Strings.Distinct | Utils/plotting.py:25-26 | the keys of `{k: ... for k in s}`: the elements of `s`, each once, in first-occurrence order |
| Strings.FirstIndex | Utils/plotting.py:26 | the position of the first occurrence of an element |
| Strings.NatToString | Application/Jobs/feature_detection.py:155 | `str(n)` is a non-empty string of digits whose decimal value is `n` |
| Strings.IntToString | Application/Jobs/feature_detection.py:155 | `str(i)` is non-empty, has no `_`, and starts with `-` exactly for negative `i` |
| Strings.IntToStringInjective | Application/Jobs/feature_detection.py:155 | different integers print differently |
| Strings.ReplaceChar | Application/Jobs/feature_detection.py:156-157 | `s.replace('.', '_')` changes exactly the `.` characters |
| Strings.Lower | Utils/plotting.py:169 | `s.lower()`: same length, ASCII capitals lowered, every other character kept |
| KpiTable.Column | Utils/plotting.py:31-32 | entry `j` of the column is field `k` of row `j` |
| KpiTable.Reprefix | Utils/plotting.py:20-23 | the non-empty pieces, in order, with `Frame` put back in front (properties in `TablesAreMarkedPieces`, `LeadingTextIsTable`) |
| KpiTable.Tables | Utils/plotting.py:20-23 | the tables of a log: its `Frame`-split pieces re-prefixed (computed by `SplitTables`) |
| KpiTable.DataRows | Utils/plotting.py:28-30 | the data rows are at most the segments, and none is the single empty field |
| KpiTable.ParseTable | Utils/plotting.py:25-32 | the keys are the distinct fields of the header (the text before the first `,False\n`) in header order of first occurrence; the column of the `k`-th key is field `k` of every data row; IndexError exactly when a data row is shorter than the key list |
| KpiTable.TableData | Utils/plotting.py:13-34 | an out-of-range table number raises IndexError; a result has at least one key, distinct keys and one column per key |
| KpiTable.GetTableDataFromCsv | Utils/plotting.py:13-34 | the loops of the reader compute `TableData` |
| KpiTable.SplitTables | Utils/plotting.py:20-23 | the table-collecting loop computes the re-prefixed non-empty pieces |
| KpiTable.FillColumns | Utils/plotting.py:28-32 | the row loop fills every column with field `k` of each data row, failing exactly when a row is too short |
| KpiTable.AppendFields | Utils/plotting.py:31-32 | the inner loop appends field `k` to column `k`, raising IndexError when the row has too few fields |
| KpiTable.TablesAreMarkedPieces | Utils/plotting.py:20-23 | every table is `Frame` followed by non-empty text without `Frame` |
| KpiTable.LeadingTextIsTable | Utils/plotting.py:21-23 | text before the first `Frame` becomes the first table, with `Frame` put in front |
| KpiTable.TableNumberIsOneBased | Utils/plotting.py:25 | a number `k` in `1..n` picks the `k`-th table, numbers `0` down to `1-n` wrap to the end, anything else raises IndexError |
| KpiTable.KeptSegments | Utils/plotting.py:28-30 | the kept segments are the non-empty ones |
| KpiTable.DataRowsAreKeptSegments | Utils/plotting.py:28-30 | the test `data != ['']` drops exactly the empty segments |
| KpiTable.ColumnsFollowKeptSegments | Utils/plotting.py:28-32 | every column has one entry per kept segment; entry `j` of column `k` is field `k` of kept segment `j`, and extra fields are ignored |
| KpiTable.SplitEndingWithSeparator | Utils/plotting.py:28 | a text ending with an unbordered separator splits with an empty last piece |
| KpiTable.UnborderedSeparators | Utils/plotting.py:21-29 | `Frame`, `,False\n` and `,` cannot overlap themselves |
| KpiTable.TrailingPieceIsDropped | Utils/plotting.py:28-30 | the piece after a table's last `,False\n` is empty and is not a data row |
| KpiLog.TablesOfConcat | Utils/plotting.py:20-23 | cutting table texts written one after the other at `Frame` gives back the texts |
| KpiLog.TablesOfLog | Utils/plotting.py:20-23 | a written log whose tables are all well formed (first key `Frame`, distinct keys, no field holding `,`, a newline or `Frame`, rows as wide as the header and not one empty field) is cut back into exactly the texts of its tables |
| KpiLog.ReadWrittenLog | Utils/plotting.py:13-34 | for a written log whose tables are all well formed, reading table `n` returns the `n`-th table's keys and columns |
| Plotting.Filter | Utils/plotting.py:57 | a comprehension with a condition is no longer than its source, and every kept element is an element of the source that satisfies the condition |
| Plotting.FilterMembers | Utils/plotting.py:57 | an element is kept exactly when it is in the source and satisfies the condition |
| Plotting.FilterNoDuplicates | Utils/plotting.py:57 | filtering a duplicate-free list introduces no duplicate |
| Plotting.FilterChosen | Utils/plotting.py:57 | over distinct keys, the kept keys are exactly those that pass, each once, in source order |
| Plotting.FilterFilter | Utils/plotting.py:53-57 | filtering after a removal is one filter by both conditions |
| Plotting.FilterKeepsOrder | Utils/plotting.py:57 | the kept elements stay in their original order |
| Plotting.FilterCount | Utils/plotting.py:109-111 | over distinct keys, each kept key appears once |
| Plotting.FilterNone | Utils/plotting.py:249-252 | nothing is kept when no element satisfies the condition |
| Plotting.FilterHead | Utils/plotting.py:249-252 | the first kept element is the first element that satisfies the condition |
| Plotting.AvgTimeKeys | Utils/plotting.py:53-57 | the keys `plot_avg_time_jobs` draws, or KeyError from the pop (characterised by `AvgTimeKeysChosen`) |
| Plotting.AvgTimeKeysChosen | Utils/plotting.py:53-57 | KeyError exactly when `Get frame Avg Time[ms]` is to be popped and is missing; otherwise the keys with `[ms]` other than the popped one, each once, in table order |
| Plotting.Matching | Utils/plotting.py:105-111 | port by port, the table keys containing the port (computed by `SelectContaining`; properties in `MatchingMembers`, `MatchingCount`, `MatchingFollowsTable`) |
| Plotting.SelectContaining | Utils/plotting.py:105-111 | the nested loops compute the port-by-port substring matches |
| Plotting.AppendContaining | Utils/plotting.py:108-111 | the inner loop appends, in table order, every table key that contains the port |
| Plotting.PlotCustomListKeys | Utils/plotting.py:102-111 | the reader's error, or the keys matching the ports in the selected table |
| Plotting.MatchingMembers | Utils/plotting.py:107-111 | a key is selected exactly when some port is a substring of it |
| Plotting.MatchingCount | Utils/plotting.py:107-111 | a key is selected once per port it contains, so duplicates occur |
| Plotting.MatchingFollowsTable | Utils/plotting.py:109-111 | the keys chosen for one port follow table order |
| Plotting.GlcmPorts | Utils/plotting.py:174-176 | every port is searched as `GLCM <characteristic> <port>` |
| Plotting.DefaultGlcmName | Utils/plotting.py:168-169 | the default save name is the title, `_`, and the lower-cased characteristic |
| Plotting.PrefixPorts | Utils/plotting.py:174-176 | the prefixing loop computes the searched ports |
| Plotting.PlotGlcmData | Utils/plotting.py:160-182 | the table is read first, then the whitelist check, then the names and the keys |
| Plotting.GlcmSelection | Utils/plotting.py:165-182 | the names and keys of the GLCM plot, or nothing for an unknown characteristic (characterised by `GlcmSelectionChosen`) |
| Plotting.GlcmSelectionChosen | Utils/plotting.py:165-182 | nothing is drawn unless the characteristic is one of the seven listed; given names are used as is; a key is drawn exactly when some prefixed port is a substring of it |
| Plotting.FirstMatchIndex | Utils/plotting.py:249-252 | the inner loop with `break` stops at the first key containing the element, or finds none |
| Plotting.FirstMatches | Utils/plotting.py:248-252 | each element contributes at most one key, which is a table key |
| Plotting.Assign | Utils/plotting.py:246-252 | `new_dict` has exactly the series names as keys |
| Plotting.FirstMatchesOf | Utils/plotting.py:248-252 | the two inner loops compute the first match of every element |
| Plotting.TimeJobsSeries | Utils/plotting.py:243-252 | the series of `plot_time_jobs`, or IndexError for more names than port lists (computed by `TimeJobsSources`) |
| Plotting.TimeJobsSources | Utils/plotting.py:243-252 | the series loop raises IndexError when there are more names than port lists, else builds `new_dict` in name order |
| Plotting.PlotTimeJobsSeries | Utils/plotting.py:240-252 | the reader's error, or the series of the selected table |
| Plotting.AssignLastWins | Utils/plotting.py:246-247 | a series holds the matches of the last port list given under its name |
| Plotting.FirstMatchIsFirstContaining | Utils/plotting.py:249-252 | the key an element contributes is the first of all the keys containing it, and there is none exactly when no key contains it |
| Jobs.JobRegistry.Append | Application/Jobs/feature_detection.py:209 | one entry more at the end, the earlier entries unchanged |
| Ports.CopyPrefix | Application/Jobs/feature_detection.py:95-96 | rows before the count are the source rows, the others unchanged |
| Ports.CopyRows | Application/Jobs/feature_detection.py:95-96 | the copy loop fails exactly when the count exceeds the buffer, having written every row before the failure |
| Ports.WriteRows | Application/Jobs/feature_detection.py:95-101 | the store after a row copy into one port (its frame is `WriteRowsStep`) |
| Ports.ReplaceRows | Application/Jobs/feature_detection.py:92 | the store after `arr[:] = tmp[:]` on one port (its frame is `ImageStep`) |
| Ports.SetValid | Application/Jobs/feature_detection.py:93-102 | the store after `set_valid()` on one port (its frame is `SetValidStep`) |
| Ports.SetPortValid | Application/Jobs/feature_detection.py:93 | `set_valid()` changes one port's flag and nothing else |
| Ports.ReplacePortRows | Application/Jobs/feature_detection.py:92 | `arr[:] = tmp[:]` replaces one port's rows and nothing else |
| Ports.WritePortRows | Application/Jobs/feature_detection.py:95-101 | the row copy on one port's buffer, which fails exactly when the count exceeds the buffer |
| FeatureDetection.SiftDefaults | Application/Jobs/feature_detection.py:118-122 | the default parameter values of `do_sift_job` |
| FeatureDetection.DoSiftJob | Application/Jobs/feature_detection.py:118-211 | exactly one descriptor is appended, earlier entries are untouched, and the three names are returned |
| FeatureDetection.InitFuncSift | Application/Jobs/feature_detection.py:23-28 | the job always initialises |
| FeatureDetection.SiftNamesChosen | Application/Jobs/feature_detection.py:152-176 | a given name is used verbatim; a default name is `SIFT_KP_`, `SIFT_DES_` or `SIFT_IMG_`, the parameters ending with the untransformed input name, and the mask suffix |
| FeatureDetection.MaskSuffixOnlyWithMask | Application/Jobs/feature_detection.py:159-176 | the default name with a mask is the name without one plus `_MASKED_BY_<mask>` |
| FeatureDetection.DefaultNamesDistinct | Application/Jobs/feature_detection.py:155-176 | the three default names always differ |
| FeatureDetection.UntilUnderscore | Application/Jobs/feature_detection.py:155 | the text before the first `_` of a name |
| FeatureDetection.UntilUnderscoreOf | Application/Jobs/feature_detection.py:155 | an underscore-free field followed by `_` is read back whole |
| FeatureDetection.DefaultNameShape | Application/Jobs/feature_detection.py:155 | after its prefix and `NF_`, a default name holds the feature count and then `_` |
| FeatureDetection.DefaultNameDeterminesFeatures | Application/Jobs/feature_detection.py:155 | equal default names of a kind mean equal feature counts |
| FeatureDetection.SiftJob | Application/Jobs/feature_detection.py:152-207 | the builder's plan: names, parameter list and descriptor (properties in `SiftNamesChosen`, `SiftJobDeclarations`, `SiftJobFeedsMain`) |
| FeatureDetection.SiftJobDeclarations | Application/Jobs/feature_detection.py:178-207 | one transformed input; three outputs with the transformed names, shapes `(nf, 7)` and `(nf, 128)` of dtype `H`, and the level's colour image of dtype `B`; the init and main function names |
| FeatureDetection.MainPortsOf | Application/Jobs/feature_detection.py:70-80 | the input and the mask at the input's wave, the mask falling back to the input when absent, and the outputs at the default wave |
| FeatureDetection.KeypointRows | Application/Jobs/feature_detection.py:99-100 | one array per keypoint |
| FeatureDetection.CopyCount | Application/Jobs/feature_detection.py:95-99 | `range(min(n, nf))` raises TypeError exactly when `nf` is no number or a float below `n`; otherwise it runs at most `n` times, and fewer only for an integer `nf`, which it then runs `max(nf, 0)` times |
| FeatureDetection.RowCount | Application/Jobs/feature_detection.py:95 | `range(min(n, nf))` runs at most `n` and at most `nf` times |
| FeatureDetection.MainSpec | Application/Jobs/feature_detection.py:66-110 | the result and the ports after `main_func` (characterised by `MainResult`) |
| FeatureDetection.SiftBody | Application/Jobs/feature_detection.py:84-106 | the ports after the `try` block (properties in `SiftBodyFrame`, `ImageDrawn`, `DescriptorsCopied`, `KeypointsCopied`, `ValidityChain`) |
| FeatureDetection.CopyStage | Application/Jobs/feature_detection.py:95-102 | the ports after the descriptor copy and the keypoint copy (frame in `CopyStageFrame`) |
| FeatureDetection.KeypointStage | Application/Jobs/feature_detection.py:99-102 | the ports after the keypoint copy (frame in `KeypointStageFrame`) |
| FeatureDetection.MainFunc | Application/Jobs/feature_detection.py:34-110 | the result and the new state of every port are those of `MainSpec` |
| FeatureDetection.RunSift | Application/Jobs/feature_detection.py:84-106 | the `try` block changes the ports as `SiftBody` says |
| FeatureDetection.RunCopies | Application/Jobs/feature_detection.py:95-102 | the descriptor and keypoint copies change the ports as `CopyStage` says |
| FeatureDetection.RunKeypoints | Application/Jobs/feature_detection.py:99-102 | the keypoint copy changes the ports as `KeypointStage` says |
| FeatureDetection.SiftJobFeedsMain | Application/Jobs/feature_detection.py:43-80 | the builder's 11-slot list passes the length check, and its slots give the declared input, the mask (transformed only when present) and the declared outputs |
| FeatureDetection.MainResult | Application/Jobs/feature_detection.py:66-110 | False exactly for a wrong count or an invalid input, a raise for a missing port, True in every other case; no port changes unless True |
| FeatureDetection.SiftBodyFrame | Application/Jobs/feature_detection.py:84-106 | only the three outputs change, no validity flag is cleared, and no buffer changes length |
| FeatureDetection.CopyStageFrame | Application/Jobs/feature_detection.py:95-102 | the descriptor and keypoint copies change only outputs, clear no flag and keep every buffer's length |
| FeatureDetection.KeypointStageFrame | Application/Jobs/feature_detection.py:99-102 | the keypoint copy changes only outputs, clears no flag and keeps every buffer's length |
| FeatureDetection.ImageStep | Application/Jobs/feature_detection.py:92-93 | replacing an output's rows by rows of the same count and marking it valid changes only that output |
| FeatureDetection.WriteRowsStep | Application/Jobs/feature_detection.py:95-101 | a row copy into an output changes only that output and keeps its length |
| FeatureDetection.SetValidStep | Application/Jobs/feature_detection.py:93-102 | `set_valid()` on an output changes only that output, and clears no flag |
| FeatureDetection.NoDetectionNoChange | Application/Jobs/feature_detection.py:85-89 | when the detector raises, nothing changes |
| FeatureDetection.ImageDrawn | Application/Jobs/feature_detection.py:91-93 | after detection and drawing, the image output holds the drawing and is valid |
| FeatureDetection.DescriptorsCopied | Application/Jobs/feature_detection.py:95-97 | when the loop runs `min(len(des), nf)` times (an integer `nf`, or a float at least `len(des)`) within the buffer, those descriptor rows are copied, the rest unchanged, and the output is valid |
| FeatureDetection.KeypointsCopied | Application/Jobs/feature_detection.py:99-102 | after the descriptors, when the loop runs `min(len(kp), nf)` times within the buffer, those keypoint rows are copied, the rest unchanged, and the output is valid |
| FeatureDetection.ValidityChain | Application/Jobs/feature_detection.py:89-106 | keypoints are valid only after descriptors, descriptors only after the image, the image only after detection and drawing, each only when `range(min(...))` accepted its count and its copy fit |
| FeatureDetection.RowsBeyondCountUnchanged | Application/Jobs/feature_detection.py:95-101 | no descriptor or keypoint row at or past `nf` is written, for an integer or a float `nf`; a feature count that is no number writes neither buffer |

## Left out

- Python's `str` of a float is not modelled; it is the `floatStr` field of `Helpers`.
- The framework helpers are left abstract, because their code is not part of this model: `transform_port_name_lvl`, `transform_port_size_lvl`, `job_name_create`, `get_module_name_from_file` and `create_dictionary_element`.
- `get_port_from_wave` and the port store are the framework's; here they are a fixed map from (name, wave offset) to port, in which different keys hold different ports and buffers. A missing port raises `PortNotFound`.
- The OpenCV calls (`SIFT_create`, `detectAndCompute`, `drawKeypoints`) and `save_keypoint_to_array` are the fields of `Cv`. An exception in creation, detection or drawing is a `None` result.
- NumPy's shapes, dtype casts and broadcasting are not modelled. A buffer is a sequence of integer rows, and `arr[:] = tmp[:]` is taken to fail exactly when the row counts differ.
- FeatureDetection.MainFunc: `main_func()` called with no list, which raises on `len(None)`, is not modelled; the parameter list is always a sequence.
- The logging calls (`log_error_to_console`) are left out; they only print.
- FeatureDetection.ValidityChain, DescriptorsCopied, KeypointsCopied, ImageDrawn and RowsBeyondCountUnchanged state their results only for three different output ports. `MainSpec` itself also covers ports that share a key.
- `main_psb_experiment.py` and `Application/Jobs/__init__.py` are left out. They are configuration and imports only.
- In the plotting functions, the file reading, every matplotlib call, the float sums and maxima of `plot_time_jobs`, the tick and limit computations and the label replacements are left out. A series of `plot_time_jobs` is modelled by the keys whose columns it sums, and its length by the length of the first column.
- The lookups of the `Frame` column after the selection (`table_dict['Frame']`) are left out, with the KeyError they would raise when a table has no such key.
- `el is not ''` in the reader is modelled as string inequality (CPython interns the empty string).
- `lower()` is modelled on ASCII letters only.
- Plotting.AvgTimeKeysChosen: the selection is stated for distinct keys, which every dictionary read by `TableData` has.
