/** Stand-ins for the parts of .NET and ASP.NET Core that the DrAvail core relies on:
    nullable references, System.DateTime and its comparison, the few System.String
    operations the controllers call, controller results, and the authorization
    operations of DrAvail.Authorization. */
module Platform {

  /** A C# reference or Nullable<T> that may be null. */
  datatype Option<+T> = None | Some(value: T)

  /** A System.DateTime, as its count of 100-nanosecond ticks since 0001-01-01 00:00:00. */
  datatype DateTime = DateTime(ticks: nat)

  const TicksPerMinute: nat := 600_000_000
  const TicksPerHour: nat := 36_000_000_000
  const TicksPerDay: nat := 864_000_000_000

  /** default(DateTime), i.e. DateTime.MinValue, the value of an unset DateTime property. */
  const MinValue: DateTime := DateTime(0)

  /** DateTime.Date: midnight at the start of the day that holds t. */
  function Date(t: DateTime): (d: DateTime)
    ensures d.ticks <= t.ticks < d.ticks + TicksPerDay
    ensures d.ticks % TicksPerDay == 0
  {
    DateTime(t.ticks / TicksPerDay * TicksPerDay)
  }

  /** new DateTime(t.Year, t.Month, t.Day, hour, minute, 0): the given clock time on t's date. */
  function AtClock(t: DateTime, hour: nat, minute: nat): (r: DateTime)
    requires hour < 24 && minute < 60
    ensures Date(t).ticks <= r.ticks < Date(t).ticks + TicksPerDay
  {
    DateTime(Date(t).ticks + hour * TicksPerHour + minute * TicksPerMinute)
  }

  /** DateTime.Compare: negative, zero or positive as t1 is earlier than, the same as or later than t2. */
  function Compare(t1: DateTime, t2: DateTime): (r: int)
    ensures r < 0 <==> t1.ticks < t2.ticks
    ensures r == 0 <==> t1 == t2
    ensures r > 0 <==> t1.ticks > t2.ticks
  {
    if t1.ticks < t2.ticks then -1 else if t1.ticks == t2.ticks then 0 else 1
  }

  /** String.Contains(string) with ordinal comparison: sub occurs somewhere in s. */
  predicate Contains(s: string, sub: string)
    decreases |s|
  {
    sub <= s || (|s| > 0 && Contains(s[1..], sub))
  }

  /** Every string contains each of its suffixes. */
  lemma {:induction false} ContainsSuffix(s: string, t: string)
    ensures Contains(s + t, t)
  {
    if s == [] {
      assert s + t == t;
    } else {
      assert (s + t)[1..] == s[1..] + t;
      ContainsSuffix(s[1..], t);
    }
  }

  /** String.IsNullOrEmpty. */
  predicate IsNullOrEmpty(s: Option<string>)
  {
    s.None? || s.value == ""
  }

  /** Char.IsWhiteSpace: the members of the Unicode categories Zs, Zl and Zp,
      and the control characters U+0009 to U+000D and U+0085. */
  predicate IsWhiteSpace(c: char)
  {
    var n := c as int;
    (0x09 <= n <= 0x0D) || n == 0x20 || n == 0x85 || n == 0xA0 || n == 0x1680
    || (0x2000 <= n <= 0x200A) || n == 0x2028 || n == 0x2029 || n == 0x202F
    || n == 0x205F || n == 0x3000
  }

  /** String.IsNullOrWhiteSpace. */
  predicate IsNullOrWhiteSpace(s: Option<string>)
  {
    s.None? || forall i :: 0 <= i < |s.value| ==> IsWhiteSpace(s.value[i])
  }

  /** The controller results the core returns, as tags: NotFound(), Forbid(),
      View(...) and RedirectToAction(name). */
  datatype ActionResult = NotFound | Forbid | ViewPage | RedirectToAction(actionName: string)

  /** The authorization requirements of DrAvail.Authorization.Operations that the core asks for. */
  datatype Operation = Create | Update | Delete | Approve | Reject
}
