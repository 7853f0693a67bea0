/**
  The dashboard's "Recent Events" log. The newest entry is at the head, and a
  manual data entry adds a record whose id is one more than the log's length.
  Since nothing ever removes an entry, the ids stay exactly 1..n.
*/
module EventLog {

  /** One row of the log (its icon is presentation and left out). */
  datatype LogEvent = LogEvent(id: int, time: string, event: string, status: string, color: string)

  /** The seed log, newest first, with ids 1 to 5 from the head down. */
  function InitialEventLog(): (r: seq<LogEvent>)
    ensures |r| == 5
    ensures forall i :: 0 <= i < |r| ==> r[i].id == i + 1
  {
    [ LogEvent(1, "15:02", "Battery Full", "Charged", "green"),
      LogEvent(2, "14:30", "Peak Generation", "Optimal", "orange"),
      LogEvent(3, "12:15", "Grid Exporting", "Active", "blue"),
      LogEvent(4, "08:45", "High Consumption", "Warning", "red"),
      LogEvent(5, "06:00", "Generation Started", "Nominal", "orange") ]
  }

  /** The set of ids that occur in `log`. */
  function Ids(log: seq<LogEvent>): set<int>
  {
    set e | e in log :: e.id
  }

  /** The id invariant: no id occurs twice and the ids are exactly 1..|log|. */
  predicate IdsExact(log: seq<LogEvent>)
  {
    && (forall i, j :: 0 <= i < j < |log| ==> log[i].id != log[j].id)
    && (forall i :: 0 <= i < |log| ==> 1 <= log[i].id <= |log|)
    && (forall k :: 1 <= k <= |log| ==> k in Ids(log))
  }

  /**
    The log after one manual entry at wall-clock label `now`: a fresh
    "Manual Entry"/"Logged" record at the head, then the old log unchanged.
  */
  function WithManualEntry(log: seq<LogEvent>, now: string): (r: seq<LogEvent>)
    ensures |r| == |log| + 1
    ensures r[0].id == |log| + 1 && r[0].time == now
    ensures r[0].event == "Manual Entry" && r[0].status == "Logged" && r[0].color == "gray"
    ensures r[1..] == log
  {
    [LogEvent(|log| + 1, now, "Manual Entry", "Logged", "gray")] + log
  }

  /** A manual entry keeps the id invariant: its id is new and extends the range by one. */
  lemma ManualEntryKeepsIdsExact(log: seq<LogEvent>, now: string)
    requires IdsExact(log)
    ensures IdsExact(WithManualEntry(log, now))
  {
    var r := WithManualEntry(log, now);
    forall i | 1 <= i < |r| ensures r[i] == log[i - 1] {}
    forall k | 1 <= k <= |r| ensures k in Ids(r) {
      if k <= |log| {
        assert k in Ids(log);
        var e :| e in log && e.id == k;
        assert e in r;
      } else {
        assert r[0] in r;
      }
    }
  }

  /** The seed log satisfies the id invariant. */
  lemma InitialEventLogIdsExact()
    ensures IdsExact(InitialEventLog())
  {
    var log := InitialEventLog();
    forall i | 0 <= i < |log| ensures log[i].id == i + 1 {}
    forall k | 1 <= k <= |log| ensures k in Ids(log) {
      assert log[k - 1] in log;
    }
  }
}
