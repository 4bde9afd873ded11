/** Priority.kt: a range-checked scheduling priority, higher is more urgent. */
module Priorities {
  import opened Outcomes

  const MinPriority: int := 0
  const MaxPriority: int := 3

  /** The inline value class: an Int that passed the range check. */
  newtype Priority = p: int | MinPriority <= p <= MaxPriority

  /** The constructor Priority(v), whose init block rejects values outside
      MIN_PRIORITY..MAX_PRIORITY. */
  function Of(v: int): (r: Result<Priority>)
    ensures r.Ok? <==> MinPriority <= v <= MaxPriority
    ensures r.Err? ==> r.error == OutOfRange
    ensures r.Ok? ==> r.value as int == v
  {
    if MinPriority <= v <= MaxPriority then Ok(v as Priority) else Err(OutOfRange)
  }

  /** Every priority is rebuilt from its own value. */
  lemma OfValue(p: Priority)
    ensures Of(p as int) == Ok(p)
  {
  }

  /** compareTo: the difference of the two underlying values. */
  function CompareTo(a: Priority, b: Priority): (r: int)
    ensures r < 0 <==> a < b
    ensures r == 0 <==> a == b
    ensures r > 0 <==> a > b
    ensures MinPriority - MaxPriority <= r <= MaxPriority - MinPriority
  {
    a as int - b as int
  }

  /** compareTo is antisymmetric, and its sign is a total order. */
  lemma CompareToAntisymmetric(a: Priority, b: Priority)
    ensures CompareTo(a, b) == -CompareTo(b, a)
    ensures CompareTo(a, b) <= 0 || CompareTo(b, a) <= 0
  {
  }

  /** Priority.min. */
  function Min(): (p: Priority)
    ensures forall q: Priority :: CompareTo(p, q) <= 0
  {
    MinPriority as Priority
  }

  /** Priority.max. */
  function Max(): (p: Priority)
    ensures forall q: Priority :: CompareTo(q, p) <= 0
  {
    MaxPriority as Priority
  }

  /** Priority.default: the midpoint of the range, rounded down. */
  function Default(): (p: Priority)
    ensures Min() <= p <= Max()
    ensures MinPriority + MaxPriority - 1 <= 2 * (p as int) <= MinPriority + MaxPriority
  {
    ((MaxPriority + MinPriority) / 2) as Priority
  }

  /** toString: the decimal notation of the underlying value. Every priority
      is a single digit. */
  function ToString(p: Priority): (s: string)
    ensures |s| == 1 && '0' <= s[0] <= '9'
  {
    [('0' as int + p as int) as char]
  }

  /** Reads back a string of decimal digits, most significant first. */
  function ParseDecimal(s: string): Option<nat>
  {
    if s == [] then None
    else if !('0' <= s[|s| - 1] <= '9') then None
    else
      var digit := s[|s| - 1] as int - '0' as int;
      if |s| == 1 then Some(digit)
      else match ParseDecimal(s[..|s| - 1])
        case None => None
        case Some(high) => Some(10 * high + digit)
  }

  /** toString and decimal reading are inverse on priorities. */
  lemma ToStringParses(p: Priority)
    ensures ParseDecimal(ToString(p)) == Some(p as nat)
  {
  }
}
