/**
  The notification list behind the header's bell: a badge counts the unread
  entries, and "Mark all as read" sets every `read` flag.
*/
module Notifications {

  /** One notification (its icon is presentation and left out). */
  datatype Notification = Notification(id: int, title: string, message: string, timestamp: string, read: bool)

  /** The seed notifications: three entries with ids 1, 2 and 3 in that order. */
  function MockNotifications(): (r: seq<Notification>)
    ensures |r| == 3
    ensures forall i :: 0 <= i < |r| ==> r[i].id == i + 1
  {
    [ Notification(1, "High Consumption Alert", "Power consumption has exceeded 1100W.", "5m ago", false),
      Notification(2, "Generation Dip", "Solar generation dropped unexpectedly.", "2h ago", false),
      Notification(3, "System Nominal", "All systems are running optimally.", "8h ago", true) ]
  }

  /**
    The entries of `ns` whose `read` flag is false, in order: every unread
    entry is kept, as often as it occurs, and nothing else is.
  */
  function Unread(ns: seq<Notification>): (r: seq<Notification>)
    ensures |r| <= |ns|
    ensures forall n :: n in r <==> n in ns && !n.read
  {
    if ns == [] then []
    else
      assert ns == [ns[0]] + ns[1..];
      (if ns[0].read then [] else [ns[0]]) + Unread(ns[1..])
  }

  /** Each unread entry occurs in the filter as often as in the list; read ones never do. */
  lemma {:induction false} UnreadMultiset(ns: seq<Notification>, n: Notification)
    ensures multiset(Unread(ns))[n] == if n.read then 0 else multiset(ns)[n]
  {
    if ns != [] {
      var x, rest := ns[0], ns[1..];
      UnreadMultiset(rest, n);
      assert ns == [x] + rest;
      UnreadCons(x, rest);
      assert multiset(ns) == multiset{x} + multiset(rest);
    }
  }

  /** The `read` flags of `ns`, position by position. */
  function ReadFlags(ns: seq<Notification>): (r: seq<bool>)
    ensures |r| == |ns|
    ensures forall i :: 0 <= i < |ns| ==> r[i] == ns[i].read
  {
    seq(|ns|, i requires 0 <= i < |ns| => ns[i].read)
  }

  /** The badge count: how many entries have a false `read` flag. */
  function UnreadCount(ns: seq<Notification>): (r: nat)
    ensures r <= |ns|
    ensures r == multiset(ReadFlags(ns))[false]
  {
    UnreadLengthIsUnreadFlags(ns);
    |Unread(ns)|
  }

  /**
    Every entry with `read` set and nothing else changed: same length, order,
    ids, titles, messages and timestamps.
  */
  function MarkedAllRead(ns: seq<Notification>): (r: seq<Notification>)
    ensures |r| == |ns|
    ensures forall i :: 0 <= i < |r| ==> r[i].read
    ensures forall i :: 0 <= i < |r| ==>
      r[i].id == ns[i].id && r[i].title == ns[i].title &&
      r[i].message == ns[i].message && r[i].timestamp == ns[i].timestamp
  {
    if ns == [] then [] else [ns[0].(read := true)] + MarkedAllRead(ns[1..])
  }

  /** The filter keeps one entry for each false `read` flag. */
  lemma {:induction false} UnreadLengthIsUnreadFlags(ns: seq<Notification>)
    ensures |Unread(ns)| == multiset(ReadFlags(ns))[false]
  {
    if ns != [] {
      var x, rest := ns[0], ns[1..];
      UnreadLengthIsUnreadFlags(rest);
      assert ns == [x] + rest;
      ReadFlagsCons(x, rest);
      UnreadCons(x, rest);
    }
  }

  /** The flags of a list with `x` in front. */
  lemma ReadFlagsCons(x: Notification, rest: seq<Notification>)
    ensures ReadFlags([x] + rest) == [x.read] + ReadFlags(rest)
  {
  }

  /** Filtering a concatenation filters each part and keeps them in order. */
  lemma {:induction false} UnreadAppend(a: seq<Notification>, b: seq<Notification>)
    ensures Unread(a + b) == Unread(a) + Unread(b)
    decreases |a|
  {
    if a == [] {
      assert a + b == b;
    } else {
      UnreadAppend(a[1..], b);
      assert a == [a[0]] + a[1..];
      UnreadSplitHead(a[0], a[1..], b);
    }
  }

  /** One unfolding of the filter on both sides of `UnreadAppend`. */
  lemma UnreadSplitHead(x: Notification, rest: seq<Notification>, b: seq<Notification>)
    requires Unread(rest + b) == Unread(rest) + Unread(b)
    ensures Unread([x] + rest + b) == Unread([x] + rest) + Unread(b)
  {
    AppendAssoc([x], rest, b);
    UnreadCons(x, rest + b);
    UnreadCons(x, rest);
    AppendAssoc(if x.read then [] else [x], Unread(rest), Unread(b));
  }

  lemma AppendAssoc(h: seq<Notification>, u: seq<Notification>, v: seq<Notification>)
    ensures h + (u + v) == (h + u) + v
  {
  }

  /** Filtering a list with `x` in front. */
  lemma UnreadCons(x: Notification, rest: seq<Notification>)
    ensures Unread([x] + rest) == (if x.read then [] else [x]) + Unread(rest)
  {
    assert ([x] + rest)[1..] == rest;
  }

  /** The count is zero exactly when every entry has been read. */
  lemma {:induction false} UnreadCountZeroIff(ns: seq<Notification>)
    ensures UnreadCount(ns) == 0 <==> forall i :: 0 <= i < |ns| ==> ns[i].read
  {
    if ns != [] {
      UnreadCountZeroIff(ns[1..]);
      assert forall i :: 1 <= i < |ns| ==> ns[i] == ns[1..][i - 1];
    }
  }

  /** The count is the full length exactly when nothing has been read. */
  lemma {:induction false} UnreadCountFullIff(ns: seq<Notification>)
    ensures UnreadCount(ns) == |ns| <==> forall i :: 0 <= i < |ns| ==> !ns[i].read
  {
    if ns != [] {
      UnreadCountFullIff(ns[1..]);
      assert forall i :: 1 <= i < |ns| ==> ns[i] == ns[1..][i - 1];
    }
  }

  /** The count of a concatenation is the sum of the counts. */
  lemma UnreadCountAppend(a: seq<Notification>, b: seq<Notification>)
    ensures UnreadCount(a + b) == UnreadCount(a) + UnreadCount(b)
  {
    UnreadAppend(a, b);
  }

  /** After marking all read the badge shows nothing. */
  lemma MarkedAllReadNoneUnread(ns: seq<Notification>)
    ensures UnreadCount(MarkedAllRead(ns)) == 0
  {
    UnreadCountZeroIff(MarkedAllRead(ns));
  }

  /** Marking all read twice is the same as marking once. */
  lemma {:induction false} MarkedAllReadIdempotent(ns: seq<Notification>)
    ensures MarkedAllRead(MarkedAllRead(ns)) == MarkedAllRead(ns)
  {
    if ns != [] {
      MarkedAllReadIdempotent(ns[1..]);
    }
  }

  /** A list whose entries are all read is left as it is. */
  lemma {:induction false} MarkedAllReadOfRead(ns: seq<Notification>)
    requires forall i :: 0 <= i < |ns| ==> ns[i].read
    ensures MarkedAllRead(ns) == ns
  {
    if ns != [] {
      assert forall i :: 0 <= i < |ns[1..]| ==> ns[1..][i] == ns[i + 1];
      MarkedAllReadOfRead(ns[1..]);
      assert ns[0].(read := true) == ns[0];
      assert ns == [ns[0]] + ns[1..];
    }
  }

  /** The seed list shows two unread notifications. */
  lemma MockNotificationsUnread()
    ensures UnreadCount(MockNotifications()) == 2
  {
    var ns := MockNotifications();
    assert ns[1..][1..][1..] == [];
  }
}
