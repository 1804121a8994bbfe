/** The Python values the business objects' setters receive, and the
    `datetime.time` and `int(x)` behaviour they rely on. */
module Values {
  import opened Common
  import opened Calendar
  import opened Text

  /** A `datetime.time` without microseconds or time zone. */
  datatype Time = Time(hour: int, minute: int, second: int)

  predicate ValidTime(t: Time)
  {
    0 <= t.hour <= 23 && 0 <= t.minute <= 59 && 0 <= t.second <= 59
  }

  /** The times `datetime.time` accepts. */
  type TimeOfDay = t: Time | ValidTime(t) witness Time(0, 0, 0)

  /** A value handed to a setter. `bool` is a subclass of `int` in Python,
      so `PyBool` passes every `isinstance(x, int)` test; `PyDate` and
      `PyTime` are `datetime.date` and `datetime.time` objects; anything
      else is `PyOther`. */
  datatype PyValue =
    | PyNone
    | PyBool(b: bool)
    | PyInt(i: int)
    | PyFloat(f: real)
    | PyStr(s: string)
    | PyDate(d: CalendarDate)
    | PyTime(t: TimeOfDay)
    | PyOther

  /** `isinstance(x, int)` */
  predicate IsInt(v: PyValue)
  {
    v.PyBool? || v.PyInt?
  }

  /** `isinstance(x, (int, float))` */
  predicate IsNumber(v: PyValue)
  {
    IsInt(v) || v.PyFloat?
  }

  /** The numeric value of an int, bool or float (`True` is 1). */
  function NumberValue(v: PyValue): real
    requires IsNumber(v)
  {
    match v
    case PyBool(b) => if b then 1.0 else 0.0
    case PyInt(i) => i as real
    case PyFloat(f) => f
  }

  /** The integer value of an int or bool. */
  function IntValue(v: PyValue): int
    requires IsInt(v)
  {
    match v
    case PyBool(b) => if b then 1 else 0
    case PyInt(i) => i
  }

  /** `isinstance(x, str) and x.strip()`: a string with a character that is
      not whitespace. */
  predicate NonBlankStr(v: PyValue)
  {
    v.PyStr? && Strip(v.s) != []
  }

  /** A non-blank string is exactly one holding a non-whitespace character. */
  lemma NonBlankMeaning(v: PyValue)
    ensures NonBlankStr(v) <==> v.PyStr? && exists i :: 0 <= i < |v.s| && !IsSpace(v.s[i])
  {
    if v.PyStr? {
      StripEmpty(v.s);
    }
  }

  /** `int(x)` on a float: truncation toward zero. */
  function Trunc(x: real): (n: int)
    ensures 0.0 <= x ==> n as real <= x < n as real + 1.0
    ensures x <= 0.0 ==> n as real - 1.0 < x <= n as real
  {
    if x >= 0.0 then x.Floor else -((-x).Floor)
  }

  /** Truncation never reverses an order. */
  lemma TruncMonotone(x: real, y: real)
    requires x <= y
    ensures Trunc(x) <= Trunc(y)
  {
    if x < 0.0 && 0.0 <= y {
    } else if 0.0 <= x {
      assert x.Floor as real <= y;
    } else {
      assert -y <= -x;
      assert (-y).Floor as real <= -x;
    }
  }
}
