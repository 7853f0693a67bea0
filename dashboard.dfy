/**
  The `Dashboard` component's session state and the handlers that change it,
  together with the data-entry form that feeds `handleAddData`.
*/
module DashboardState {
  import opened Wrappers
  import opened PowerSeries
  import opened EventLog
  import opened Notifications

  /** The three state collections of one dashboard session. */
  class Dashboard {
    var powerData: seq<PowerReading>
    var eventLog: seq<LogEvent>
    var notifications: seq<Notification>

    /** The series stays in time order and the event ids stay exactly 1..n. */
    ghost predicate Valid()
      reads this
    {
      Sorted(powerData) && IdsExact(eventLog)
    }

    /** A session starts from the seed data. */
    constructor ()
      ensures Valid()
      ensures powerData == InitialPowerData()
      ensures eventLog == InitialEventLog()
      ensures notifications == MockNotifications()
    {
      powerData := InitialPowerData();
      eventLog := InitialEventLog();
      notifications := MockNotifications();
      InitialPowerDataSorted();
      InitialEventLogIdsExact();
    }

    /**
      `handleAddData`: coerce the point's numeric fields, append it and re-sort
      the series by time in a fresh array, then put a "Manual Entry" record at
      the head of the event log. `number` is the text-to-number conversion and
      `now` the wall-clock label of the entry.
    */
    method HandleAddData(p: RawPoint, number: string -> Option<int>, now: string)
      requires Valid()
      modifies this
      ensures Valid()
      ensures powerData == StableSort(old(powerData) + [Formatted(p, number)])
      ensures multiset(powerData) == multiset(old(powerData)) + multiset{Formatted(p, number)}
      ensures var j := InsertionPoint(old(powerData), Formatted(p, number));
        powerData == old(powerData)[..j] + [Formatted(p, number)] + old(powerData)[j..]
      ensures eventLog == WithManualEntry(old(eventLog), now)
      ensures notifications == old(notifications)
    {
      var q := Formatted(p, number);
      var series := powerData;
      var a := new PowerReading[|series| + 1](i requires 0 <= i <= |series| => if i < |series| then series[i] else q);
      assert a[..] == series + [q];
      SortByTime(a);
      powerData := a[..];
      AddToSeries(series, q);
      AddToSortedSeries(series, q);

      ManualEntryKeepsIdsExact(eventLog, now);
      eventLog := WithManualEntry(eventLog, now);
    }

    /** `handleMarkAllAsRead`: every notification becomes read; nothing else changes. */
    method MarkAllAsRead()
      requires Valid()
      modifies this
      ensures Valid()
      ensures notifications == MarkedAllRead(old(notifications))
      ensures UnreadCount(notifications) == 0
      ensures powerData == old(powerData) && eventLog == old(eventLog)
    {
      notifications := MarkedAllRead(notifications);
      MarkedAllReadNoneUnread(old(notifications));
    }
  }

  /** What a form submission does: the alert it raises, or the point it forwards. */
  datatype Submission = Rejected(alert: string) | Forwarded(point: RawPoint)

  /** The "Add New Data Point" form: four text inputs, all empty at first. */
  class DataEntryForm {
    var time: string
    var generation: string
    var consumption: string
    var battery: string

    constructor ()
      ensures time == "" && generation == "" && consumption == "" && battery == ""
    {
      time, generation, consumption, battery := "", "", "", "";
    }

    /**
      `handleSubmit`: with no time the form alerts and keeps its fields;
      otherwise it forwards the four fields as typed and clears them.
    */
    method HandleSubmit() returns (outcome: Submission)
      modifies this
      ensures old(time) == "" ==> outcome == Rejected("Please enter a time.")
      ensures old(time) == "" ==>
        time == old(time) && generation == old(generation) &&
        consumption == old(consumption) && battery == old(battery)
      ensures old(time) != "" ==>
        outcome == Forwarded(RawPoint(old(time), old(generation), old(consumption), old(battery)))
      ensures old(time) != "" ==> time == "" && generation == "" && consumption == "" && battery == ""
    {
      if time == "" {
        return Rejected("Please enter a time.");
      }
      outcome := Forwarded(RawPoint(time, generation, consumption, battery));
      time, generation, consumption, battery := "", "", "", "";
    }
  }

  /**
    The form wired to the dashboard (`onAddData={handleAddData}`): a rejected
    submission leaves the dashboard as it was; an accepted one adds exactly the
    submitted point and one log entry.
  */
  method SubmitForm(form: DataEntryForm, dash: Dashboard, number: string -> Option<int>, now: string)
    returns (outcome: Submission)
    requires dash.Valid()
    modifies form, dash
    ensures dash.Valid()
    ensures outcome.Rejected? <==> old(form.time) == ""
    ensures outcome.Rejected? ==>
      dash.powerData == old(dash.powerData) && dash.eventLog == old(dash.eventLog) &&
      form.time == old(form.time) && form.generation == old(form.generation) &&
      form.consumption == old(form.consumption) && form.battery == old(form.battery)
    ensures outcome.Forwarded? ==>
      outcome.point == RawPoint(old(form.time), old(form.generation), old(form.consumption), old(form.battery)) &&
      dash.powerData == StableSort(old(dash.powerData) + [Formatted(outcome.point, number)]) &&
      dash.eventLog == WithManualEntry(old(dash.eventLog), now) &&
      form.time == "" && form.generation == "" && form.consumption == "" && form.battery == ""
    ensures dash.notifications == old(dash.notifications)
  {
    outcome := form.HandleSubmit();
    if outcome.Forwarded? {
      dash.HandleAddData(outcome.point, number, now);
    }
  }
}
