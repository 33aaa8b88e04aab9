/** The day's event list (components/EventList.tsx): a sorted copy of the
    events by start time, and the colour theme each event is drawn with. */
module EventList {
  import opened Wrappers
  import opened Types
  import opened Constants

  /** `a.localeCompare(b) <= 0`, taken as code-point lexicographic order: a
      prefix comes first, otherwise the first differing character decides. */
  predicate LexLe(a: string, b: string)
    decreases |a|
  {
    if a == [] then true
    else if b == [] then false
    else if a[0] != b[0] then a[0] < b[0]
    else LexLe(a[1..], b[1..])
  }

  /** Any two strings are ordered one way or the other. */
  lemma {:induction false} LexLeTotal(a: string, b: string)
    ensures LexLe(a, b) || LexLe(b, a)
    decreases |a|
  {
    if a != [] && b != [] && a[0] == b[0] {
      LexLeTotal(a[1..], b[1..]);
    }
  }

  lemma {:induction false} LexLeTransitive(a: string, b: string, c: string)
    requires LexLe(a, b) && LexLe(b, c)
    ensures LexLe(a, c)
    decreases |a|
  {
    if a != [] && b != [] && c != [] && a[0] == b[0] && b[0] == c[0] {
      LexLeTransitive(a[1..], b[1..], c[1..]);
    }
  }

  /** A prefix comes first. */
  lemma {:induction false} LexLePrefix(a: string, b: string)
    requires a <= b
    ensures LexLe(a, b)
    decreases |a|
  {
    if a != [] {
      assert a[0] == b[0] && a[1..] <= b[1..];
      LexLePrefix(a[1..], b[1..]);
    }
  }

  /** Two strings each ordered before the other are equal: the comparison
      reports 0 only for equal strings. */
  lemma {:induction false} LexLeAntisymmetric(a: string, b: string)
    requires LexLe(a, b) && LexLe(b, a)
    ensures a == b
    decreases |a|
  {
    if a != [] && b != [] {
      LexLeAntisymmetric(a[1..], b[1..]);
      assert a == [a[0]] + a[1..] && b == [b[0]] + b[1..];
    }
  }

  /** A zero-padded `HH:mm` wall-clock time with minutes below 60. */
  predicate IsClockTime(s: string) {
    && |s| == 5 && s[2] == ':'
    && '0' <= s[0] <= '9' && '0' <= s[1] <= '9'
    && '0' <= s[3] <= '5' && '0' <= s[4] <= '9'
  }

  function Digit(c: char): int {
    c as int - '0' as int
  }

  /** Minutes since midnight of an `HH:mm` time. */
  function Minutes(s: string): int
    requires IsClockTime(s)
  {
    (Digit(s[0]) * 10 + Digit(s[1])) * 60 + Digit(s[3]) * 10 + Digit(s[4])
  }

  /** For strings of one length, the order is decided at the first position
      where they differ. */
  lemma {:induction false} LexLeFirstDifference(a: string, b: string, k: nat)
    requires |a| == |b| && k <= |a| && a[..k] == b[..k]
    requires k < |a| ==> a[k] != b[k]
    ensures LexLe(a, b) <==> k == |a| || a[k] < b[k]
    decreases k
  {
    if k > 0 {
      assert a[0] == a[..k][0] && b[0] == b[..k][0];
      assert a[1..][..k - 1] == a[..k][1..] && b[1..][..k - 1] == b[..k][1..];
      LexLeFirstDifference(a[1..], b[1..], k - 1);
    } else if a == [] {
      assert b == [];
    }
  }

  /** On `HH:mm` times the string order is the order of the clock. */
  lemma ClockOrder(a: string, b: string)
    requires IsClockTime(a) && IsClockTime(b)
    ensures LexLe(a, b) <==> Minutes(a) <= Minutes(b)
  {
    if a[0] != b[0] {
      LexLeFirstDifference(a, b, 0);
    } else if a[1] != b[1] {
      LexLeFirstDifference(a, b, 1);
    } else if a[3] != b[3] {
      LexLeFirstDifference(a, b, 3);
    } else if a[4] != b[4] {
      LexLeFirstDifference(a, b, 4);
    } else {
      assert a == b;
      LexLeFirstDifference(a, b, 5);
    }
  }

  /** Non-decreasing by start time. */
  predicate SortedByStart(s: seq<CourseEvent>) {
    forall i, j :: 0 <= i < j < |s| ==> LexLe(s[i].startTime, s[j].startTime)
  }

  /** An event that starts no later than every event of a sorted list can be
      put in front of it. */
  lemma PrependSorted(e: CourseEvent, s: seq<CourseEvent>)
    requires SortedByStart(s)
    requires forall x :: x in s ==> LexLe(e.startTime, x.startTime)
    ensures SortedByStart([e] + s)
  {
    var r := [e] + s;
    forall i, j | 0 <= i < j < |r|
      ensures LexLe(r[i].startTime, r[j].startTime)
    {
      assert r[j] == s[j - 1];
      if i > 0 {
        assert r[i] == s[i - 1];
      }
    }
  }

  /** Puts `e` before the first event that starts no earlier than it, so that
      events with equal start times keep their order. */
  function InsertByStart(e: CourseEvent, s: seq<CourseEvent>): (r: seq<CourseEvent>)
    requires SortedByStart(s)
    ensures SortedByStart(r)
    ensures multiset(r) == multiset(s) + multiset{e}
    ensures |r| == |s| + 1
  {
    if s == [] then [e]
    else if LexLe(e.startTime, s[0].startTime) then
      forall x | x in s
        ensures LexLe(e.startTime, x.startTime)
      {
        var k :| 0 <= k < |s| && s[k] == x;
        if k > 0 {
          LexLeTransitive(e.startTime, s[0].startTime, x.startTime);
        }
      }
      PrependSorted(e, s);
      [e] + s
    else
      var rest := InsertByStart(e, s[1..]);
      assert s == [s[0]] + s[1..];
      forall x | x in rest
        ensures LexLe(s[0].startTime, x.startTime)
      {
        assert x in multiset(s[1..]) + multiset{e};
        if x == e {
          LexLeTotal(e.startTime, s[0].startTime);
        } else {
          var k :| 0 <= k < |s[1..]| && s[1..][k] == x;
          assert s[k + 1] == x;
        }
      }
      PrependSorted(s[0], rest);
      [s[0]] + rest
  }

  /** `[...events].sort((a, b) => a.startTime.localeCompare(b.startTime))`:
      a sorted permutation of the events; the events themselves are a value
      and stay as they were. */
  function SortByStart(events: seq<CourseEvent>): (r: seq<CourseEvent>)
    ensures SortedByStart(r)
    ensures multiset(r) == multiset(events)
    ensures |r| == |events|
  {
    if events == [] then []
    else
      assert events == [events[0]] + events[1..];
      InsertByStart(events[0], SortByStart(events[1..]))
  }

  /** `palette.find(c => c.id === id)`: the first entry with that id. */
  function FindColor(palette: seq<ColorOption>, id: string): (r: Option<ColorOption>)
    ensures r.None? <==> forall i :: 0 <= i < |palette| ==> palette[i].id != id
    ensures r.Some? ==> exists k :: 0 <= k < |palette| && palette[k] == r.value
                          && palette[k].id == id
                          && forall i :: 0 <= i < k ==> palette[i].id != id
  {
    if palette == [] then None
    else if palette[0].id == id then Some(palette[0])
    else
      var r := FindColor(palette[1..], id);
      if r.Some? then
        var k :| 0 <= k < |palette[1..]| && palette[1..][k] == r.value && palette[1..][k].id == id
                 && forall i :: 0 <= i < k ==> palette[1..][i].id != id;
        assert palette[k + 1] == r.value;
        r
      else r
  }

  /** The theme an event is drawn with: the palette entry of its colour, or
      the first entry when no entry has that id. */
  function ColorTheme(e: CourseEvent): (theme: ColorOption)
    ensures theme in CourseColors
    ensures (exists i :: 0 <= i < |CourseColors| && CourseColors[i].id == e.color) ==> theme.id == e.color
    ensures (forall i :: 0 <= i < |CourseColors| ==> CourseColors[i].id != e.color) ==> theme == CourseColors[0]
  {
    match FindColor(CourseColors, e.color)
    case Some(c) => c
    case None => CourseColors[0]
  }

  /** The attachment section is shown iff the event has at least one. */
  function HasAttachments(e: CourseEvent): (shown: bool)
    ensures shown <==> exists a :: e.attachments.Some? && a in e.attachments.value
  {
    if e.attachments.Some? && |e.attachments.value| > 0 then
      assert e.attachments.value[0] in e.attachments.value;
      true
    else false
  }
}
