# dpypr `read` module — a verified Dafny model

`dpypr/read.py` bulk-loads tabular files from a directory into a dictionary
of DataFrames keyed `df_<file name without extension>`, and moves DataFrames
between such a dictionary and a namespace (a flat dictionary such as
`globals()`). This project models the logic that decides what goes where:

- **Directory loaders** (`read_all_json`, `read_all_csv`, `read_all_xlsx`,
  `read_all_feather`, `read_all_parquet`, `read_all_pickle`): one generic
  method `Loaders.ReadAll`, parameterised by the extension and by the format
  parser, plus six thin wrappers with the Python defaults (`messaging = True`,
  CSV `separator = ","`). The directory listing is a `seq<string>`, the path
  check is a `bool`, the parser is a function from an entry name to
  `Option<T>` (`None` when the library would raise), and the log is the
  `seq<string>` of messages emitted. The method returns an `Outcome`: the
  dictionary, or the exception the Python raises.
- **`gather_data_dictionary`**: `Namespaces.GatherDataDictionary`, a loop over a
  `map` that keeps the `df_` entries whose value is a DataFrame.
- **`unpack_data_dictionary`**: `Namespaces.UnpackDataDictionary`. A caller-owned
  namespace is a `Namespace` object with a `map` field. If no namespace is
  given, a fresh one is filled and returned. If one is given, it is updated
  in place and `null` (Python `None`) is returned.

"Is a DataFrame" is a predicate parameter `isFrame` on an abstract value type,
and `len(value)` is a parameter `rows`.

Behaviour kept exactly as the code has it, including its defects:

- **Invalid path.** When `dp.check_path_valid` fails, the loader logs
  "Please enter a valid path." and then reaches `for file in files` with
  `files` unbound. The model returns `Raised(UnboundListing)` with that
  single log line. It does not return an empty dictionary.
- **Record count in the log.** The directory loaders log `len(filename)`, the
  length of the stem, as the "records" count, not the table's row count.
  `unpack_data_dictionary` logs the value's own length.
- **Parse errors.** A parser error is not caught. It aborts the whole load,
  and the lines already logged stay in the log.
- **Stems.** The stem is `os.path.splitext(name)[0]` for a name ending in the
  extension: the extension is removed unless only dots precede it, as in
  `.json`, which is its own stem. Two entries can derive the same key (for
  example `..json` and `..json.json`). In that case, as with any repeated
  key, the later entry in the listing wins.

## Model

| member | source | states |
|---|---|---|
| `Loaders.ReadAll` | dpypr/read.py:19-44 | outcome and log are `Expected`: an invalid path logs the warning and raises; otherwise the first rejected matching file raises after the lines of earlier files; otherwise the dictionary of all matching files is returned, with "No files read." appended when it is empty |
| `Loaders.ScanListing` | dpypr/read.py:32-44 | the `for file in files` loop over a bound listing computes exactly `Expected` for a valid path (loop invariants tie the dictionary and log to the scanned prefix) |
| `Loaders.ReadAllJson` | dpypr/read.py:19-44 | the generic loader over `.json` entries, `messaging` defaulting to true |
| `Loaders.ReadAllCsv` | dpypr/read.py:47-72 | the generic loader over `.csv` entries; the separator (default `,`) only reaches the parser |
| `Loaders.ReadAllXlsx` | dpypr/read.py:75-100 | the generic loader over `.xlsx` entries |
| `Loaders.ReadAllFeather` | dpypr/read.py:103-128 | the generic loader over `.feather` entries |
| `Loaders.ReadAllParquet` | dpypr/read.py:131-156 | the generic loader over `.parquet` entries |
| `Loaders.ReadAllPickle` | dpypr/read.py:159-184 | the generic loader over `.pickle` entries |
| `Loaders.Matching` | dpypr/read.py:32-33 | the kept entries are no more than the listing and all end in the extension |
| `Loaders.MatchingMembers` | dpypr/read.py:32-33 | an entry is kept if and only if it is listed and ends in the extension |
| `Loaders.MatchingSkips` | dpypr/read.py:33 | an entry not ending in the extension, wherever it stands in the listing, changes nothing |
| `Loaders.FirstFailure` | dpypr/read.py:34 | the index returned is the first matching entry the parser rejects, or the count when it accepts all |
| `Loaders.CollectKeys` | dpypr/read.py:35-36 | the dictionary's keys are exactly the `df_<stem>` keys of the matching entries |
| `Loaders.CollectPrefixed` | dpypr/read.py:36 | every key a loader produces starts with `df_` |
| `Loaders.CollectLastWins` | dpypr/read.py:36 | an entry's key maps to that entry's parsed table unless a later entry derives the same key (plain dict assignment: last wins) |
| `Loaders.CollectSize` | dpypr/read.py:32-36 | the dictionary has at most one entry per matching file |
| `Loaders.CollectEmpty` | dpypr/read.py:32-36 | the dictionary is empty if and only if no entry matched |
| `Loaders.LinesAt` | dpypr/read.py:38-39 | with messaging, exactly one `read df_<stem> (<len(stem)> records).` line per matching file, in listing order |
| `Loaders.ExpectedKeys` | dpypr/read.py:32-36 | a returned dictionary's keys are exactly `df_<stem>` for the listed entries ending in the extension |
| `Loaders.ExpectedRaises` | dpypr/read.py:34 | with a valid path, the load raises if and only if some matching entry fails to parse, and it names such an entry |
| `Loaders.ExpectedNoFilesRead` | dpypr/read.py:41-44 | the returned dictionary is empty if and only if no entry matched, if and only if the log is exactly "No files read."; otherwise there is one line per matching file when messaging is on and none when it is off |
| `Naming.DfKey` | dpypr/read.py:36 | the key starts with `df_` and the name is what follows the prefix |
| `Naming.DfKeyInjective` | dpypr/read.py:36 | distinct names give distinct keys |
| `Naming.StemRemovesExtension` | dpypr/read.py:35 | the stem is the name minus its final extension, or the whole name exactly when only dots precede the extension |
| `Naming.GroupedRoundTrip` | dpypr/read.py:39 | the `{n:,}` comma-grouped count in a log line reads back as `n` |
| `Namespaces.GatherDataDictionary` | dpypr/read.py:230-244 | the result is `Gathered` of the input, and "No files found." is logged if and only if it is empty |
| `Namespaces.GatheredIsSubMap` | dpypr/read.py:238-240 | a key is gathered if and only if it is in the input, starts with `df_` and holds a DataFrame; values are unchanged |
| `Namespaces.GatheredIdempotent` | dpypr/read.py:238-240 | gathering a gathered dictionary changes nothing |
| `Namespaces.UnpackedKeys` | dpypr/read.py:267-269 | every DataFrame entry `(k, v)` is written as `df_<k>` to `v`, and every written key is `df_` followed by the key of an input DataFrame (a `df_` key is prefixed twice); other entries are skipped |
| `Namespaces.UnpackedSize` | dpypr/read.py:267-269 | exactly one entry is written per input DataFrame |
| `Namespaces.GatherAfterUnpack` | dpypr/read.py:230-275 | gathering the entries unpacked into a fresh namespace returns them all |
| `Namespaces.UnpackOneTable` | dpypr/read.py:259-275 | `{"x": T}` unpacks to `{"df_x": T}`, which gathering keeps |
| `Namespaces.Namespace.constructor` | dpypr/read.py:260-261 | a fresh namespace is empty |
| `Namespaces.Namespace.Unpack` | dpypr/read.py:266-272 | the namespace becomes its old entries overridden by the unpacked ones, so every other key keeps its value; with messaging the log holds one `Loaded df_<k> (<rows> records).` line per DataFrame entry, and without it the log is empty |
| `Namespaces.UnpackDataDictionary` | dpypr/read.py:247-275 | without a namespace, a fresh one holding exactly the unpacked entries is returned; with one, it is updated in place and `null` is returned |

## Left out

- `read_all_sqlite` (dpypr/read.py:187-227) is not modelled. It is database connection, catalog query and cursor plumbing. Unlike the file loaders, it keys tables by their raw name with no `df_` prefix, and its log line reports `df_<name>` with the real row count.
- Parsing by `pd.read_json`, `read_csv`, `read_excel`, `read_feather`, `read_parquet` and `read_pickle` is a foreign library. It is the `parse` parameter, with `None` standing for any exception it raises.
- `os.listdir` is filesystem I/O. Its result is the `files` input. `os.path.join(path, file)` is folded into `parse`.
- `dp.check_path_valid` is defined in a file that is not part of this model. Its result is the `pathValid` input.
- The `logging` backend is left out. Log output is the sequence of message strings.
- `isinstance(value, pd.DataFrame)` and `len(value)` belong to pandas. They are the `isFrame` and `rows` parameters.
- Python dictionaries keep insertion order, but Dafny maps have none. The model's dictionaries are `map`s, and the order of their entries is not modelled.
- `Namespaces.Namespace.Unpack`: the log is stated as its set of lines and its length. Its order is not stated, because a `map` has no iteration order to follow.
- `Namespaces.UnpackDataDictionary`: the log is stated the same way, for the same reason.
- `Loaders.ReadAll` assumes an extension made of a dot followed by dot-free characters. All six loaders use such an extension. The stem rule is not modelled for other extensions.
- Aliasing between input and output is not modelled. If a caller passes the same dictionary as both, Python fails when that dictionary grows during iteration. Here the input is a `map` value, so the case cannot arise.
