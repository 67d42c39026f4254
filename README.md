# Experiment tracker model

A Dafny model of `ExperimentTracker`, a small experiment-logging helper. A tracker is bound to a
story name and an experiment name at construction. It keeps two insertion-ordered dictionaries
in memory: parameters and results. `save` writes a plain-text report of the parameters into a
timestamped directory.

What the model covers:

- **Dictionaries** (`OrderedDict`). A Python dictionary is an association list in insertion
  order. Item assignment (`Put`) replaces the value of a known key where it stands, or appends a
  new key at the end. Item lookup (`Lookup`) returns `None` where Python raises `KeyError`.
  `ToMap` forgets the order and serves as the reference meaning of both.
- **Values** (`Values`). Values are ints, bools, floats, strings, and every other kind of object
  (numpy arrays, pandas tables, dicts, ...) as one opaque variant. `IsScalar` is the
  `isinstance` filter of `add_result`. Python's `bool` subclasses `int`, so bools pass that
  filter. `Text` is what an f-string makes of a value. Int text is computed as decimal digits,
  and a parser is proved to read every int's text back to that int.
- **Paths** (`Paths`). `Join` is `os.path.join` on POSIX. The experiment directory is
  `experiment_results/<story>/<timestamp>_<experiment>`. The report file is
  `parameters_and_results.txt` inside it. Two edge cases fall out of `os.path.join`:
  - an empty story adds no directory level of its own;
  - a story that starts with `/` replaces the results root entirely.
- **Report** (`Report`). The report holds one line `name = value` per parameter, in insertion
  order, and nothing else. There are no section headers and no results. An independent parser
  reads such a report back, to the names and value texts in order, whenever no name contains
  `=` or a newline and no value text contains a newline.
- **Tracker** (`Tracker.ExperimentTracker`). The class keeps the two dictionaries as `seq`
  fields, which its methods reassign. `Save` loops over the parameters and builds the file
  content line by line. The file is opened in `'w'` mode, so the content starts empty. The file
  system is a map from path to content, passed to `Save` and returned updated. The wall-clock
  timestamp is a constructor argument. `ExampleRun` replays the repository's usage script.

The report has no `[PARAMETERS]` or `[RESULTS]` sections and never contains results. `add_result`
writes no side files for arrays, tables or dicts: any result that is not an int, bool, float or
string is dropped without an error and leaves no trace.

## Model

| member | source | states |
|---|---|---|
| `OrderedDict.Lookup` | experiment_tracker/tracker.py:26-27 | a key is found exactly when it is among the dictionary's keys, and what is found is an entry stored under it |
| `OrderedDict.PutExisting` | experiment_tracker/tracker.py:29-30 | assigning to a key already present replaces that entry at its original position and changes nothing else |
| `OrderedDict.PutNew` | experiment_tracker/tracker.py:29-30 | assigning to an absent key appends the entry at the end |
| `OrderedDict.PutKeys` | experiment_tracker/tracker.py:29-30 | after an assignment the key order is unchanged for a known key, or extended by the new key at the end |
| `OrderedDict.PutDistinct` | experiment_tracker/tracker.py:29-30 | an assignment keeps every key unique |
| `OrderedDict.PutLookup` | experiment_tracker/tracker.py:26-30 | after `d[k] = v`, `d[k]` is `v` and every other key reads as before |
| `OrderedDict.PutTwice` | experiment_tracker/tracker.py:29-30 | last write wins: two assignments to one key equal a single assignment of the second value |
| `OrderedDict.ToMapLookup` | experiment_tracker/tracker.py:26-27 | the ordered lookup agrees with the unordered contents, for presence and for value |
| `OrderedDict.PutToMap` | experiment_tracker/tracker.py:29-30 | item assignment on the ordered dictionary is map update on its contents |
| `OrderedDict.DistinctKeysCount` | experiment_tracker/tracker.py:16-17 | a dictionary with unique keys has as many entries as distinct names |
| `Values.NatText` | experiment_tracker/tracker.py:48 | the text of a natural number is non-empty, all decimal digits, and has no leading zero |
| `Values.IntTextRoundTrip` | experiment_tracker/tracker.py:48 | the text an int is written as reads back as that same int |
| `Values.NumberTextIsPlain` | experiment_tracker/tracker.py:48 | the text of an int or bool has no newline and no `=` |
| `Paths.DirectoryLayout` | experiment_tracker/tracker.py:19-23 | for a non-empty slash-free story, the directory is `experiment_results/<story>/<timestamp>_<experiment>` |
| `Paths.DirectoryEmptyStory` | experiment_tracker/tracker.py:19-23 | an empty story gives `experiment_results/<timestamp>_<experiment>` |
| `Paths.DirectoryAbsoluteStory` | experiment_tracker/tracker.py:19-23 | a story starting with `/` drops the results root, and the directory is absolute |
| `Paths.DirectoryInjective` | experiment_tracker/tracker.py:19-23 | two directories coincide only when story, timestamp and experiment all agree (slash-free stories, timestamps of one width) |
| `Paths.ReportInDirectory` | experiment_tracker/tracker.py:44-46 | the report file is `parameters_and_results.txt` directly inside the experiment directory |
| `Report.RenderAppend` | experiment_tracker/tracker.py:47-48 | writing one more parameter appends exactly its line `name = text\n` to the report |
| `Report.RenderLineCount` | experiment_tracker/tracker.py:47-48 | a report whose names and value texts hold no newline has exactly one line per parameter (names may contain `=`) |
| `Report.ReportLinePerName` | experiment_tracker/tracker.py:47-48 | for a parameter dictionary whose names and value texts hold no newline, this is one line per distinct parameter name |
| `Report.EqualsInNameIsOneLine` | experiment_tracker/tracker.py:48 | a name holding `=`, such as `a=b`, cannot be read back by the parser yet is still written as exactly one line |
| `Report.NumbersReadable` | experiment_tracker/tracker.py:48 | parameters with names free of `=` and newlines and int or bool values always give a report the parser reads back |
| `Report.LineRoundTrip` | experiment_tracker/tracker.py:48 | a single line ends at its newline and reads back as its name and value text |
| `Report.RenderRoundTrip` | experiment_tracker/tracker.py:43-48 | a readable report parses back to the parameters' names and value texts, in insertion order, and to nothing else |
| `Tracker.SaveOverwrites` | experiment_tracker/tracker.py:44-46 | the report file is overwritten, not appended: saving twice leaves what the second save alone leaves |
| `Tracker.SaveTouchesReportOnly` | experiment_tracker/tracker.py:44-46 | saving sets the report file to exactly the report, creates no other file, and leaves every other file as it was |
| `Tracker.ExperimentTracker.constructor` | experiment_tracker/tracker.py:12-23 | a new tracker has empty parameters and results, and its directory is composed from story, timestamp and experiment |
| `Tracker.ExperimentTracker.GetItem` | experiment_tracker/tracker.py:26-27 | lookup succeeds exactly for parameter names, returns the stored value, and otherwise fails with `KeyError` for that name; results are not consulted |
| `Tracker.ExperimentTracker.AddParameter` | experiment_tracker/tracker.py:29-30 | the parameters become `Put(old, name, value)` and results are untouched; the name then looks up to the new value, other names read as before, and the name keeps its original position |
| `Tracker.ExperimentTracker.AddResult` | experiment_tracker/tracker.py:32-38 | an int, bool, float or string is recorded with overwrite; any other value leaves both dictionaries unchanged; parameters and lookups never change |
| `Tracker.ExperimentTracker.Save` | experiment_tracker/tracker.py:43-48 | the returned file system has the report file holding exactly the rendered parameters, in insertion order, and nothing else changed; the tracker itself is not modified |
| `Tracker.ExampleReport` | example.py:6-12 | the usage script's report is `learning_rate = 0.005\nnetwork_model = fully_connected\n` |
| `Tracker.ExampleRun` | example.py:6-12 | after the usage script, only the float result is recorded, the array result is dropped, `learning_rate` looks up to its value, `rmse` is not found by lookup, and the report holds the two parameters |

## Left out

- Directory creation (`_make_folders`, experiment_tracker/tracker.py:50-53): file-system side effect. The model computes the directory path only and does not model whether the directory exists.
- `datetime.now().strftime('%Y-%m-%d_%H:%M:%S')` (experiment_tracker/tracker.py:22): wall-clock input. The formatted timestamp is a constructor argument.
- `add_plot` (experiment_tracker/tracker.py:40-41): a call into matplotlib's `savefig`, which is foreign code.
- Float formatting, which is floating point: `FloatV` carries the text Python's `repr` gives the float, and the model does not compute it.
- `Other` values: `str()` of a numpy array, a pandas table or any other object is foreign code. The value carries that text. It matters for parameters only, because `add_parameter` stores any value.
- Late formatting of stored parameters: `add_parameter` stores the object itself (experiment_tracker/tracker.py:30) and `save` formats it only when it writes (experiment_tracker/tracker.py:48). A list, dict or array parameter mutated after `add_parameter` is written with its new contents. The model fixes a value's text when the value is registered, so it does not capture aliasing of mutable parameter objects.
- Subclasses: `isinstance` (experiment_tracker/tracker.py:37) accepts subclasses. A value is mapped to a variant by the Python class it inherits from, not by its nominal type. `bool` maps to `BoolV`; `numpy.float64` subclasses `float` and maps to `FloatV`; `numpy.str_` subclasses `str` and maps to `StrV`. `numpy.int64`, `numpy.int32` and `numpy.float32` subclass none of `int`, `str` or `float`, so they map to `Other` and `AddResult` drops them, as the code does.
- Ints with more than 4300 digits: Python 3.11 and later refuses to convert them to text by default. The model renders them anyway.
- Lookup keys of types other than `str`: `__getitem__` accepts any hashable, but the model only looks up strings.
- Platform: paths follow `posixpath.join` only. Text-mode writes are taken not to turn `\n` into `\r\n`. File content is modelled as text, so the locale encoding is not modelled, nor is a `UnicodeEncodeError` raised after some lines were already written (experiment_tracker/tracker.py:44-48).
- Errors raised by the file system (permissions, disk full, partial writes): propagated uncaught by the code and not modelled.
- Tracker.ExperimentTracker.Save: the result is stated as a new file-system value. The model does not capture the order of the individual `write` calls on the file handle, only the content after the file is closed.
