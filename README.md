# vSphere VM events to CSV: a Dafny model

The script `get_vsphere_vm_events_2.py` asks a vCenter server for the VM
lifecycle events of the last hour (VM created, removed, renamed). It turns each
event into a CSV row and appends the rows to a file. This project models the
part that is neither I/O nor a call into the vSphere client:

- **Cluster-name enrichment** (`get_cluster_name` and the `hasattr` test on the
  event's `vm`). Every attribute the script probes is an explicit
  `Attr<T>`: `Missing` (so `hasattr` is false), `Present(None)` or
  `Present(Some(v))`. `VmEvents.TryClusterName` evaluates the `try` block the
  way Python does. The `if` condition short-circuits, None is falsy, and an
  attribute access on None or on an absent attribute raises `AttributeError`.
  `VmEvents.GetClusterName` is that evaluation under the `except` clause. It is
  proved equal to a declarative rule. When the chain `vm.runtime.host.parent.name`
  resolves (`VmEvents.Resolves`), the result is the value of `name`. Otherwise
  it is `"Unknown Cluster"`. It never raises.
- **Append with header-once** (`append_to_csv`). The file at the path is the
  class `CsvAppend.CsvFile`. It holds a `present` flag (the result of
  `os.path.isfile`) and its `rows`. `AppendToCsv` notes whether the file
  exists, opens it for appending (which creates it) and writes the header only
  if the file was new. It then writes one row per event in a loop. Its
  postcondition ties the new file to the value-level function
  `CsvAppend.AfterAppend` on `Option<seq<Row>>`, where `None` means that no file
  exists. The lemmas about `AfterAppend` and about sequences of runs
  (`AppendRuns`) state the file-level properties:
  - old rows form a prefix of the new file;
  - the row count is fixed;
  - the rows keep the order of the events;
  - the column layout is fixed;
  - a file created by any number of runs holds exactly one header;
  - nothing is deduplicated.

A row is the list of five field values that the CSV writer receives. A None
value is written as the empty field (`PyValues.Text`).

Some edge cases of the code are worth stating outright:
- A missing `name` raises `AttributeError` and yields `"Unknown Cluster"`. A
  `name` that is present but None is returned unchanged, so the cluster cell
  is empty (`NoneNameGivesEmptyCluster`).
- A `userName` of None gives an empty user cell, not `"N/A"`
  (`NoneUserGivesEmptyCell`).
- The header is written if and only if the path did not exist before the
  call. An existing file gets no header, even when it is empty
  (`AppendRunsToExisting`).
- A file that the runs create is the header followed by data rows only
  (`HeaderOnceAcrossRuns`). Counting rows equal to the header row as one
  needs every run's address to differ from `Vcenter IP`. Otherwise a data row
  with message `Event`, time `Time`, cluster `Cluster` and user `User` would
  equal the header (`HeaderCountIsOne`).

## Model

| member | source | states |
|---|---|---|
| `PyValues.GetAttr` | get_vsphere_vm_events_2.py:24-27 | reading an attribute succeeds exactly when the object is not None and has the attribute, and then yields its value (which may be None); otherwise it raises `AttributeError` |
| `PyValues.Text` | get_vsphere_vm_events_2.py:43 | the CSV writer emits a string field as itself and None as the empty field |
| `VmEvents.GetClusterName` | get_vsphere_vm_events_2.py:22-28 | its evaluated `try` body is `TryClusterName`, which follows Python's short-circuit order and attribute errors; when the VM is not None and its runtime, host and host parent are present and not None, and the parent has a `name`, the result is that name's value; in every other case it is `"Unknown Cluster"`, so the lookup never raises |
| `VmEvents.ClusterCell` | get_vsphere_vm_events_2.py:41 | no `vm` attribute gives `"N/A"`; a `vm` that is None gives `"Unknown Cluster"`; otherwise the resolved parent name, or `"Unknown Cluster"` when the chain is broken |
| `VmEvents.UserCell` | get_vsphere_vm_events_2.py:42 | the user is the event's `userName` value when the attribute exists, and `"N/A"` when it does not |
| `VmEvents.NoVmVersusNoneVm` | get_vsphere_vm_events_2.py:41 | an event without a `vm` attribute and an event whose `vm` is None get different sentinels (`"N/A"` and `"Unknown Cluster"`) |
| `CsvAppend.RowOf` | get_vsphere_vm_events_2.py:41-43 | a data row has as many columns as the header: message, time, the queried vCenter address, then the cluster (`"N/A"` without `vm`, `"Unknown Cluster"` on a broken chain, the parent's name otherwise), then the user (`"N/A"` without `userName`) |
| `CsvAppend.RowsOf` | get_vsphere_vm_events_2.py:40-43 | one data row per event |
| `CsvAppend.RowsOfAt` | get_vsphere_vm_events_2.py:40-43 | the `i`-th data row of a batch is the row of the `i`-th event, so order is kept |
| `CsvAppend.AfterAppend` | get_vsphere_vm_events_2.py:30-43 | the old rows are a prefix of the new file; a file that did not exist starts with the header; the row count grows by the number of events, plus one when the file was created |
| `CsvAppend.AppendedRowAt` | get_vsphere_vm_events_2.py:37-43 | after the old rows and the header (if one was written), the `i`-th new row is the row of the `i`-th event |
| `CsvAppend.CsvFile.WriteRow` | get_vsphere_vm_events_2.py:43 | writing a row to the append-mode file adds it at the end and changes nothing else |
| `CsvAppend.CsvFile.AppendToCsv` | get_vsphere_vm_events_2.py:30-43 | the file exists afterwards and holds exactly `AfterAppend` of its previous state: old rows, the header only if the path did not exist, then one row per event in order |
| `CsvAppend.AppendRuns` | get_vsphere_vm_events_2.py:30-33 | running no batch leaves the file as it was; after at least one run the file exists |
| `CsvAppend.AppendRunsToExisting` | get_vsphere_vm_events_2.py:31-43 | runs against an existing file (even an empty one) append only their data rows, run after run, and never a header |
| `CsvAppend.HeaderOnceAcrossRuns` | get_vsphere_vm_events_2.py:31-38 | runs against a fresh path leave the header once, followed by every run's data rows in order, whatever the batch sizes (zero included) |
| `CsvAppend.NoHeaderAmongDataRows` | get_vsphere_vm_events_2.py:43 | no data row equals the header row when no run's vCenter address is `"Vcenter IP"` |
| `CsvAppend.HeaderCountIsOne` | get_vsphere_vm_events_2.py:37-38 | a file created by one or more runs contains the header row exactly once (counting rows), given that no address is spelled `"Vcenter IP"` |
| `CsvAppend.SameBatchTwice` | get_vsphere_vm_events_2.py:30-43 | appending the same batch twice gives the first result followed by the batch's rows again: duplicates are kept and the second call writes no header |
| `CsvAppend.NoneNameGivesEmptyCluster` | get_vsphere_vm_events_2.py:25 | a resolving chain whose `name` is None yields an empty cluster cell, not `"Unknown Cluster"` |
| `CsvAppend.NoneUserGivesEmptyCell` | get_vsphere_vm_events_2.py:42 | a `userName` that is None yields an empty user cell, not `"N/A"` |
| `CsvAppend.TwoEventScenario` | get_vsphere_vm_events_2.py:30-43 | a new file receiving a VM-created event in cluster `ClusterA` by `alice` and a VM-removed event without `vm` or `userName` holds the header and the two rows `..., ClusterA, alice` and `..., N/A, N/A` |

## Left out

- `get_vm_events` (lines 13-20): the event query is a thin wrapper over the
  vSphere event manager, and its filtering is done by the server. The model
  takes the returned events as the input sequence.
- `main` (lines 45-65): argument parsing, the unverified TLS context,
  `SmartConnect`, the `atexit` disconnect, and the one-hour window computed
  from the wall clock. These are CLI, network and clock plumbing.
- CSV serialisation: quoting, escaping, `newline=''` handling and line
  terminators. A row is modelled as the list of field strings handed to the
  writer, with None written as the empty field.
- `createdTime` is carried as the text the writer produces for the timestamp.
  Its `datetime` string form is not modelled.
- An event without `fullFormattedMessage` or `createdTime` would raise
  `AttributeError` part-way through the loop and leave the rows written so far.
  The model gives every event both attributes; `fullFormattedMessage` may hold
  None.
- Filesystem behaviour beyond "absent or holding rows" is not modelled: a path
  that exists but is not a regular file, I/O errors, and concurrent writers.
- Attribute access with side effects: the model assumes that a vSphere object
  reference is truthy and that reading `runtime`, `host`, `parent` and `name`
  raises nothing but `AttributeError`. A remote lookup failing while it reads a
  property is not modelled.
