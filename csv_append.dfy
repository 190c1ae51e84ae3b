/** Appending events to the CSV file (`append_to_csv`). A file is `None` when the
    path does not exist and `Some(rows)` when it does; a row is the list of field
    strings the CSV writer receives. */
module CsvAppend {
  import opened PyValues
  import opened VmEvents

  type Row = seq<string>

  /** The header row, written only when the file is created. */
  const HEADER: Row := ["Event", "Time", "Vcenter IP", "Cluster", "User"]

  /** The row written for one event: message, time, the queried vCenter address,
      cluster and user, in that column order. */
  function RowOf(e: Event, vcenterIp: string): (row: Row)
    ensures |row| == |HEADER|
    ensures row[0] == Text(e.fullFormattedMessage) && row[1] == e.createdTime
    ensures row[2] == vcenterIp
    ensures e.vm.Missing? ==> row[3] == NOT_AVAILABLE
    ensures e.vm.Present? && !Resolves(e.vm.value) ==> row[3] == UNKNOWN_CLUSTER
    ensures e.vm.Present? && Resolves(e.vm.value) ==> row[3] == Text(ResolvedName(e.vm.value))
    ensures row[4] == if e.userName.Missing? then NOT_AVAILABLE else Text(e.userName.value)
  {
    [Text(e.fullFormattedMessage), e.createdTime, vcenterIp, Text(ClusterCell(e)), Text(UserCell(e))]
  }

  /** The data rows for a batch of events, one per event and in the same order. */
  function RowsOf(events: seq<Event>, vcenterIp: string): (rows: seq<Row>)
    ensures |rows| == |events|
  {
    if events == [] then [] else [RowOf(events[0], vcenterIp)] + RowsOf(events[1..], vcenterIp)
  }

  /** The row at position `i` of a batch is the row of its `i`-th event. */
  lemma {:induction false} RowsOfAt(events: seq<Event>, vcenterIp: string, i: nat)
    requires i < |events|
    ensures RowsOf(events, vcenterIp)[i] == RowOf(events[i], vcenterIp)
    decreases i
  {
    if i > 0 {
      RowsOfAt(events[1..], vcenterIp, i - 1);
    }
  }

  /** The rows the file holds before a call, or none when it does not exist. */
  function Existing(file: Option<seq<Row>>): seq<Row> {
    if file.Some? then file.value else []
  }

  /** The rows of the file after one call of `append_to_csv` on `events`. */
  function AfterAppend(file: Option<seq<Row>>, events: seq<Event>, vcenterIp: string): (rows: seq<Row>)
    ensures Existing(file) <= rows
    ensures |rows| == |Existing(file)| + (if file.None? then 1 else 0) + |events|
    ensures file.None? ==> rows[0] == HEADER
  {
    (if file.None? then [HEADER] else Existing(file)) + RowsOf(events, vcenterIp)
  }

  /** After the existing rows and the header (when one is written), the `i`-th
      new row is the row of the `i`-th event: order is kept. */
  lemma AppendedRowAt(file: Option<seq<Row>>, events: seq<Event>, vcenterIp: string, i: nat)
    requires i < |events|
    ensures var rows := AfterAppend(file, events, vcenterIp);
      rows[|Existing(file)| + (if file.None? then 1 else 0) + i] == RowOf(events[i], vcenterIp)
  {
    RowsOfAt(events, vcenterIp, i);
  }

  /** The file at one path, mutated by append-mode writes. */
  class CsvFile {
    var present: bool
    var rows: seq<Row>

    /** A path that does not exist holds no rows. */
    ghost predicate Valid()
      reads this
    {
      !present ==> rows == []
    }

    /** The file as a value: `None` when the path does not exist. */
    function Contents(): Option<seq<Row>>
      reads this
    {
      if present then Some(rows) else None
    }

    /** A path with no file yet. */
    constructor Absent()
      ensures Valid() && Contents() == None
    {
      present := false;
      rows := [];
    }

    /** A path whose file already holds `existing` (possibly no rows at all). */
    constructor Holding(existing: seq<Row>)
      ensures Valid() && Contents() == Some(existing)
    {
      present := true;
      rows := existing;
    }

    /** `writer.writerow(row)` on the file opened in append mode. */
    method WriteRow(row: Row)
      requires present
      modifies this
      ensures present && rows == old(rows) + [row]
    {
      rows := rows + [row];
    }

    /** `append_to_csv(events, csv_file, vcenter_ip)`: note whether the file
        exists, open it for appending (creating it), write the header if it was
        just created, then one row per event. */
    method AppendToCsv(events: seq<Event>, vcenterIp: string)
      requires Valid()
      modifies this
      ensures Valid()
      ensures Contents() == Some(AfterAppend(old(Contents()), events, vcenterIp))
    {
      ghost var before := Contents();
      var fileExists := present;
      present := true;
      if !fileExists {
        WriteRow(HEADER);
      }
      ghost var start := rows;
      for i := 0 to |events|
        invariant present
        invariant |rows| == |start| + i
        invariant rows[..|start|] == start
        invariant forall k :: 0 <= k < i ==> rows[|start| + k] == RowOf(events[k], vcenterIp)
      {
        WriteRow(RowOf(events[i], vcenterIp));
      }
      assert start == (if before.None? then [HEADER] else Existing(before));
      forall k | 0 <= k < |events|
        ensures rows[|start|..][k] == RowsOf(events, vcenterIp)[k]
      {
        RowsOfAt(events, vcenterIp, k);
      }
      assert rows[|start|..] == RowsOf(events, vcenterIp);
      assert rows == rows[..|start|] + rows[|start|..];
      assert rows == AfterAppend(before, events, vcenterIp);
    }
  }

  /** One run of the script: the events it fetched and the address it queried. */
  datatype Run = Run(events: seq<Event>, vcenterIp: string)

  /** The file after a sequence of runs against the same path. */
  function AppendRuns(file: Option<seq<Row>>, runs: seq<Run>): (result: Option<seq<Row>>)
    ensures runs == [] ==> result == file
    ensures runs != [] ==> result.Some?
    decreases |runs|
  {
    if runs == [] then file
    else AppendRuns(Some(AfterAppend(file, runs[0].events, runs[0].vcenterIp)), runs[1..])
  }

  /** The data rows of a sequence of runs, run after run. */
  function DataRows(runs: seq<Run>): seq<Row>
    decreases |runs|
  {
    if runs == [] then [] else RowsOf(runs[0].events, runs[0].vcenterIp) + DataRows(runs[1..])
  }

  /** Runs against an existing file only append their data rows: no header is
      written, even when the file is empty. */
  lemma {:induction false} AppendRunsToExisting(rows: seq<Row>, runs: seq<Run>)
    ensures AppendRuns(Some(rows), runs) == Some(rows + DataRows(runs))
    decreases |runs|
  {
    if runs != [] {
      var batch := RowsOf(runs[0].events, runs[0].vcenterIp);
      var next := rows + batch;
      assert AfterAppend(Some(rows), runs[0].events, runs[0].vcenterIp) == next;
      assert AppendRuns(Some(rows), runs) == AppendRuns(Some(next), runs[1..]);
      AppendRunsToExisting(next, runs[1..]);
      assert DataRows(runs) == batch + DataRows(runs[1..]);
      assert next + DataRows(runs[1..]) == rows + DataRows(runs);
    } else {
      assert rows + DataRows(runs) == rows;
    }
  }

  /** Runs against a fresh path: the header once, then every run's data rows in
      order, however many runs and whatever their sizes (including none). */
  lemma HeaderOnceAcrossRuns(runs: seq<Run>)
    requires runs != []
    ensures AppendRuns(None, runs) == Some([HEADER] + DataRows(runs))
  {
    var batch := RowsOf(runs[0].events, runs[0].vcenterIp);
    var first := [HEADER] + batch;
    assert AfterAppend(None, runs[0].events, runs[0].vcenterIp) == first;
    assert AppendRuns(None, runs) == AppendRuns(Some(first), runs[1..]);
    AppendRunsToExisting(first, runs[1..]);
    assert DataRows(runs) == batch + DataRows(runs[1..]);
    assert first + DataRows(runs[1..]) == [HEADER] + DataRows(runs);
  }

  /** No data row equals the header unless its vCenter address is the header's
      third field. */
  lemma {:induction false} NoHeaderAmongDataRows(runs: seq<Run>)
    requires forall k :: 0 <= k < |runs| ==> runs[k].vcenterIp != HEADER[2]
    ensures HEADER !in DataRows(runs)
    decreases |runs|
  {
    if runs != [] {
      NoHeaderAmongDataRows(runs[1..]);
      var first := RowsOf(runs[0].events, runs[0].vcenterIp);
      assert HEADER !in first by {
        forall i | 0 <= i < |first| ensures first[i] != HEADER {
          RowsOfAt(runs[0].events, runs[0].vcenterIp, i);
        }
      }
    }
  }

  /** An element placed in front of a sequence that lacks it occurs once. */
  lemma OccursOnce<T>(x: T, s: seq<T>)
    requires x !in s
    ensures multiset([x] + s)[x] == 1
  {
  }

  /** Counted as rows, the header occurs exactly once in a file that the runs
      created, provided no run queried an address spelled "Vcenter IP". */
  lemma HeaderCountIsOne(runs: seq<Run>)
    requires runs != []
    requires forall k :: 0 <= k < |runs| ==> runs[k].vcenterIp != HEADER[2]
    ensures AppendRuns(None, runs).Some?
    ensures multiset(AppendRuns(None, runs).value)[HEADER] == 1
  {
    HeaderOnceAcrossRuns(runs);
    NoHeaderAmongDataRows(runs);
    OccursOnce(HEADER, DataRows(runs));
  }

  /** Appending the same batch twice keeps both copies of its rows: nothing is
      deduplicated, and the second call writes no header. */
  lemma SameBatchTwice(file: Option<seq<Row>>, events: seq<Event>, vcenterIp: string)
    ensures AppendRuns(file, [Run(events, vcenterIp), Run(events, vcenterIp)])
         == Some(AfterAppend(file, events, vcenterIp) + RowsOf(events, vcenterIp))
  {
  }

  /** A cluster whose `name` attribute holds None is not replaced by the
      "Unknown Cluster" sentinel: `get_cluster_name` returns None, and the CSV
      writer renders it as an empty field. */
  lemma NoneNameGivesEmptyCluster(e: Event, vcenterIp: string)
    requires e.vm.Present? && Resolves(e.vm.value) && ResolvedName(e.vm.value) == None
    ensures RowOf(e, vcenterIp)[3] == ""
  {
  }

  /** A `userName` attribute that holds None is not replaced by "N/A": the user
      column is empty. */
  lemma NoneUserGivesEmptyCell(e: Event, vcenterIp: string)
    requires e.userName == Present(None)
    ensures RowOf(e, vcenterIp)[4] == ""
  {
  }

  /** Two events appended to a new file: one whose VM's host belongs to
      "ClusterA", one with neither a `vm` nor a `userName` attribute. */
  lemma TwoEventScenario()
    ensures
      var host := HostSystem(Present(Some(Container(Present(Some("ClusterA"))))));
      var vm := VirtualMachine(Present(Some(RuntimeInfo(Present(Some(host))))));
      var created := Event(Some("VM X created"), "2024-01-01T10:00:00Z",
        Present(Some(vm)), Present(Some("alice")));
      var removed := Event(Some("VM Y removed"), "2024-01-01T10:05:00Z", Missing, Missing);
      AfterAppend(None, [created, removed], "10.0.0.5") == [
        ["Event", "Time", "Vcenter IP", "Cluster", "User"],
        ["VM X created", "2024-01-01T10:00:00Z", "10.0.0.5", "ClusterA", "alice"],
        ["VM Y removed", "2024-01-01T10:05:00Z", "10.0.0.5", "N/A", "N/A"]]
  {
  }
}
