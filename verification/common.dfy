/** Small wrapper datatypes shared by every module: optional values (a JavaScript
    field that may be undefined), the outcome of a call to an external service,
    and an HTTP response that is either a success body or a status with an error
    message. */
module Common {

  /** A value that may be absent (`undefined` / `null` in the application). */
  datatype Option<+T> = None | Some(value: T) {

    /** The value when present, otherwise the given default. */
    function GetOr(default: T): T {
      match this
      case Some(v) => v
      case None => default
    }
  }

  /** What a call to an external service produced: the response data, or a
      thrown error (network failure, non-2xx status, timeout). The call itself
      is not modelled: the caller supplies its outcome. */
  datatype Fetch<+T> = Fetched(data: T) | FetchFailed

  /** An HTTP reply: a success body, or a status code with the `error` text of
      the JSON body. */
  datatype Response<+T> = Success(body: T) | Failure(status: int, error: string)

  /** `Math.min(a, b)` on integers. */
  function Min(a: int, b: int): (r: int)
    ensures r <= a && r <= b
    ensures r == a || r == b
  {
    if a <= b then a else b
  }

  /** `Math.round(t / c)` for a positive divisor: the integer nearest to t / c,
      halves rounded up (towards positive infinity, as JavaScript does). */
  function RoundDiv(t: int, c: int): (r: int)
    requires c > 0
    ensures 2 * c * r <= 2 * t + c < 2 * c * (r + 1)
  {
    (2 * t + c) / (2 * c)
  }

  /** `x || d` on a number: an absent or zero value takes the default. */
  function IntOr(x: Option<int>, d: int): (r: int)
    ensures x.Some? && x.value != 0 ==> r == x.value
    ensures x.None? || x.value == 0 ==> r == d
  {
    if x.Some? && x.value != 0 then x.value else d
  }

  /** `x || d` on a string: an absent or empty value takes the default. */
  function TextOr(x: Option<string>, d: string): (r: string)
    ensures x.Some? && x.value != "" ==> r == x.value
    ensures x.None? || x.value == "" ==> r == d
  {
    if x.Some? && x.value != "" then x.value else d
  }

  /** A non-empty sequence is its head before its tail, and the tail of a
      concatenation is the tail of its first part before the second. */
  lemma HeadTail<T>(a: seq<T>, b: seq<T>)
    requires |a| > 0
    ensures a == [a[0]] + a[1..]
    ensures a + b == [a[0]] + (a[1..] + b)
  {
  }

  lemma AppendAssoc<T>(a: seq<T>, b: seq<T>, c: seq<T>)
    ensures (a + b) + c == a + (b + c)
  {
  }

  /** `Math.round(t / c)` for a divisor of either sign (JavaScript
      divides exactly; the quotient is then rounded half up). */
  function RoundQuot(t: int, c: int): (r: int)
    requires c != 0
    ensures c > 0 ==> 2 * c * r <= 2 * t + c < 2 * c * (r + 1)
    ensures c < 0 ==> 2 * (-c) * r <= 2 * (-t) - c < 2 * (-c) * (r + 1)
  {
    if c > 0 then RoundDiv(t, c) else RoundDiv(-t, -c)
  }

  /** A whole quotient needs no rounding. */
  lemma {:induction false} RoundDivExact(q: int, c: int)
    requires c > 0
    ensures RoundDiv(q * c, c) == q
  {
    var r := RoundDiv(q * c, c);
    if r < q {
      MulLe(2 * c, r + 1, q);
      assert false;
    }
    if r > q {
      MulLe(2 * c, q + 1, r);
      assert false;
    }
  }

  /** `10^e`. */
  function Pow10(e: nat): (r: nat)
    ensures r >= 1
  {
    if e == 0 then 1 else 10 * Pow10(e - 1)
  }

  /** Multiplying by a natural number keeps the order. */
  lemma MulLe(a: nat, b: int, c: int)
    requires b <= c
    ensures a * b <= a * c
  {
  }
}
