/** The small pieces of the Java platform the service leans on, written out:
    exceptions with a finite cause chain, `String.trim`, decimal rendering of
    integers (`Integer.toString`, `%d`) and string concatenation with a
    possibly-null operand. Time is a parameter: a clock is the sequence
    of values successive `LocalDateTime.now()` calls return. */
module JavaLang {
  import opened Wrappers

  // ---------------------------------------------------------------------
  // Numbers and time
  // ---------------------------------------------------------------------

  /** A Java `int` / `Integer` value. */
  type Int32 = x: int | -0x8000_0000 <= x < 0x8000_0000

  /** A `LocalDateTime`, as nanoseconds on one timeline. */
  type Time = int

  /** A clock: `clock(k)` is what the k-th call of `LocalDateTime.now()` returns. */
  type Clock = nat -> Time

  ghost predicate Monotone(clock: Clock) {
    forall i: nat, k: nat :: i <= k ==> clock(i) <= clock(k)
  }

  // ---------------------------------------------------------------------
  // Untyped values
  // ---------------------------------------------------------------------

  /** A value held as `Object` (in a deserialized JSON map or a JDBC row). */
  datatype Obj =
    | Null
    | Text(text: string)
    | Number(n: int)
    | Bool(b: bool)
    | OtherObject(rendered: string)   // fractions, nested maps and lists: the text of their toString()

  /** `value.toString()`: null has no `toString`, the call throws. */
  function Render(v: Obj): (r: Option<string>)
    ensures r.None? <==> v.Null?
    ensures v.Text? ==> r == Some(v.text)
  {
    match v
    case Null => None
    case Text(t) => Some(t)
    case Number(n) => Some(IntToString(n))
    case Bool(b) => Some(if b then "true" else "false")
    case OtherObject(t) => Some(t)
  }

  // ---------------------------------------------------------------------
  // Exceptions
  // ---------------------------------------------------------------------

  /** The exception classes the service distinguishes in its catch blocks.
      Every kind is a subclass of `java.lang.Exception`: `OtherException`
      names one of the others, never a `java.lang.Error`, which none of the
      `catch (Exception e)` blocks would catch. */
  datatype Kind =
    | HttpClientError(statusCode: int)   // HttpClientErrorException (4xx); 404 is its NotFound subclass
    | HttpServerError(statusCode: int)   // HttpServerErrorException (5xx)
    | ResourceAccess                     // ResourceAccessException (I/O failure)
    | RestClient                         // any other RestClientException
    | TruncatedChunk                     // org.apache.hc.core5.http.TruncatedChunkException
    | Runtime                            // java.lang.RuntimeException itself
    | NullPointer
    | ClassCast
    | Interrupted                        // InterruptedException from Thread.sleep
    | OtherException(className: string)

  /** A throwable: its class, its message (possibly null) and its cause.
      A datatype value has a finite cause chain by construction. */
  datatype Throwable = Throwable(kind: Kind, message: Option<string>, cause: Option<Throwable>)

  /** An exception the JVM raises by itself: a NullPointerException on a null
      receiver, a ClassCastException on a failed cast. It has no cause and a
      non-null message, which the JVM composes from the failing instruction
      and the classes involved; `detail` stands for that text. */
  function JvmRaised(k: Kind, detail: string): (t: Throwable)
    ensures RaisedByJvm(t, k) && t.message == Some(detail)
  {
    Throwable(k, Some(detail), None)
  }

  /** `t` is of class `k`, has a non-null message and no cause. */
  predicate RaisedByJvm(t: Throwable, k: Kind) {
    t.kind == k && t.message.Some? && t.cause.None?
  }

  /** `e instanceof RestClientException`: the three specific subclasses and the rest. */
  predicate IsRestClientException(k: Kind) {
    k.HttpClientError? || k.HttpServerError? || k.ResourceAccess? || k.RestClient?
  }

  /** `new RuntimeException(message, cause)`. */
  function WrapRuntime(message: string, cause: Throwable): (t: Throwable)
    ensures t.kind == Runtime && t.message == Some(message)
    ensures t.cause == Some(cause)
  {
    Throwable(Runtime, Some(message), Some(cause))
  }

  /** The cause chain of `t`, starting with `t` itself: what
      `for (c = t; c != null; c = c.getCause())` visits. */
  function Chain(t: Throwable): (r: seq<Throwable>)
    ensures |r| >= 1 && r[0] == t
    ensures t.cause.None? ==> |r| == 1
    ensures t.cause.Some? ==> r[1..] == Chain(t.cause.value)
  {
    match t.cause
    case None => [t]
    case Some(c) => [t] + Chain(c)
  }

  // ---------------------------------------------------------------------
  // String.trim
  // ---------------------------------------------------------------------

  /** `String.trim` removes every leading and trailing char whose code is at
      most U+0020 (spaces, tabs, line breaks and the other control chars). */
  predicate IsTrimmable(c: char) {
    c <= ' '
  }

  predicate AllTrimmable(s: string) {
    forall i :: 0 <= i < |s| ==> IsTrimmable(s[i])
  }

  /** How many trimmable chars `s` starts with. */
  function LeadingTrimmable(s: string): (k: nat)
    ensures k <= |s|
    ensures forall i :: 0 <= i < k ==> IsTrimmable(s[i])
    ensures k < |s| ==> !IsTrimmable(s[k])
  {
    if s == [] || !IsTrimmable(s[0]) then 0
    else 1 + LeadingTrimmable(s[1..])
  }

  /** How many trimmable chars `s` ends with. */
  function TrailingTrimmable(s: string): (k: nat)
    ensures k <= |s|
    ensures forall i :: |s| - k <= i < |s| ==> IsTrimmable(s[i])
    ensures k < |s| ==> !IsTrimmable(s[|s| - k - 1])
  {
    if s == [] || !IsTrimmable(s[|s| - 1]) then 0
    else 1 + TrailingTrimmable(s[..|s| - 1])
  }

  /** `s.trim()`: the infix of `s` left once the trimmable chars at both ends
      are removed; it neither starts nor ends with a trimmable char. */
  function Trim(s: string): (r: string)
    ensures |r| <= |s|
    ensures exists k :: 0 <= k <= |s| - |r| && r == s[k..k + |r|]
                        && AllTrimmable(s[..k]) && AllTrimmable(s[k + |r|..])
    ensures r == [] || (!IsTrimmable(r[0]) && !IsTrimmable(r[|r| - 1]))
    ensures r == [] <==> AllTrimmable(s)
  {
    var lo := LeadingTrimmable(s);
    if lo == |s| then
      assert s[..0] == [] && s[0..] == s;
      []
    else
      var hi := |s| - TrailingTrimmable(s);
      assert lo < hi by {
        assert !IsTrimmable(s[lo]);
      }
      var r := s[lo..hi];
      assert r[0] == s[lo] && r[|r| - 1] == s[hi - 1];
      assert AllTrimmable(s[..lo]) && AllTrimmable(s[lo + |r|..]) && r == s[lo..lo + |r|];
      r
  }

  /** Trimming is idempotent. */
  lemma TrimIdempotent(s: string)
    ensures Trim(Trim(s)) == Trim(s)
  {
  }

  // ---------------------------------------------------------------------
  // Decimal rendering
  // ---------------------------------------------------------------------

  predicate IsDigit(c: char) {
    '0' <= c <= '9'
  }

  predicate AllDigits(s: string) {
    forall i :: 0 <= i < |s| ==> IsDigit(s[i])
  }

  function DigitChar(d: nat): (c: char)
    requires d < 10
    ensures IsDigit(c)
  {
    ('0' as int + d) as char
  }

  function DigitValue(c: char): (d: nat)
    requires IsDigit(c)
    ensures d < 10 && DigitChar(d) == c
  {
    (c as int - '0' as int)
  }

  /** The shortest decimal rendering of `n`: digits only, no leading zero. */
  function NatToString(n: nat): (r: string)
    ensures |r| >= 1 && AllDigits(r)
    ensures r[0] == '0' ==> n == 0 && |r| == 1
    decreases n
  {
    if n < 10 then [DigitChar(n)]
    else NatToString(n / 10) + [DigitChar(n % 10)]
  }

  /** Digits only, and no leading zero unless the number is zero itself. */
  predicate CanonicalNat(s: string) {
    |s| >= 1 && AllDigits(s) && (s[0] == '0' ==> |s| == 1)
  }

  /** The decimal text Java writes: a canonical natural number, or a minus
      sign followed by one that is not zero (no "-0", no "007"). */
  predicate CanonicalDecimal(s: string) {
    CanonicalNat(s) || (|s| >= 2 && s[0] == '-' && s[1] != '0' && CanonicalNat(s[1..]))
  }

  /** `Integer.toString(n)` / `%d`: a minus sign for negative numbers. */
  function IntToString(n: int): (r: string)
    ensures CanonicalDecimal(r)
    ensures n >= 0 ==> AllDigits(r)
    ensures n < 0 ==> r[0] == '-' && AllDigits(r[1..])
  {
    if n < 0 then "-" + NatToString(-n) else NatToString(n)
  }

  /** Reads a string of decimal digits back as a number (most significant first). */
  function ParseNat(s: string): nat
    requires AllDigits(s)
  {
    if s == [] then 0
    else ParseNat(s[..|s| - 1]) * 10 + DigitValue(s[|s| - 1])
  }

  /** Reads the output of `IntToString` back. */
  function ParseInt(s: string): Option<int>
  {
    if |s| >= 1 && s[0] == '-' && AllDigits(s[1..]) then Some(0 - ParseNat(s[1..]))
    else if AllDigits(s) then Some(ParseNat(s))
    else None
  }

  lemma {:induction false} ParseNatToString(n: nat)
    ensures ParseNat(NatToString(n)) == n
    decreases n
  {
    if n >= 10 {
      var s := NatToString(n);
      ParseNatToString(n / 10);
      assert s[..|s| - 1] == NatToString(n / 10);
    }
  }

  /** The decimal rendering is read back exactly, so distinct numbers render differently. */
  lemma ParseDigits(s: string)
    requires |s| >= 1 && AllDigits(s)
    ensures ParseInt(s) == Some(ParseNat(s))
  {
    assert IsDigit(s[0]);
  }

  lemma ParseNegative(t: string)
    requires AllDigits(t)
    ensures ParseInt("-" + t) == Some(0 - ParseNat(t))
  {
    var s := "-" + t;
    assert s[0] == '-' && s[1..] == t;
  }

  lemma ParseIntToString(n: int)
    ensures ParseInt(IntToString(n)) == Some(n)
  {
    if n < 0 {
      var m: nat := -n;
      var t := NatToString(m);
      assert IntToString(n) == "-" + t;
      ParseNatToString(m);
      ParseNegative(t);
    } else {
      var t := NatToString(n);
      assert IntToString(n) == t;
      ParseNatToString(n);
      ParseDigits(t);
    }
  }

  lemma {:induction false} ParseNatPositive(s: string)
    requires |s| >= 1 && AllDigits(s) && s[0] != '0'
    ensures ParseNat(s) >= 1
    decreases |s|
  {
    if |s| > 1 {
      ParseNatPositive(s[..|s| - 1]);
    }
  }

  /** A canonical natural number is the rendering of its own value. */
  lemma {:induction false} NatToStringParse(s: string)
    requires CanonicalNat(s)
    ensures NatToString(ParseNat(s)) == s
    decreases |s|
  {
    var v := DigitValue(s[|s| - 1]);
    if |s| == 1 {
      assert s == [DigitChar(v)];
    } else {
      var p := s[..|s| - 1];
      NatToStringParse(p);
      ParseNatPositive(p);
      var n := ParseNat(s);
      assert n == ParseNat(p) * 10 + v;
      assert n / 10 == ParseNat(p) && n % 10 == v;
      assert s == p + [DigitChar(v)];
    }
  }

  /** Every canonical decimal text is `Integer.toString` of the number it
      reads as: together with `ParseIntToString`, the canonical rendering of
      a number is unique. */
  lemma CanonicalIsRendering(s: string)
    requires CanonicalDecimal(s)
    ensures ParseInt(s).Some? && IntToString(ParseInt(s).value) == s
  {
    if CanonicalNat(s) {
      assert IsDigit(s[0]);
      NatToStringParse(s);
    } else {
      var t := s[1..];
      ParseNatPositive(t);
      NatToStringParse(t);
      assert s == "-" + t;
    }
  }

  lemma IntToStringInjective(m: int, n: int)
    requires IntToString(m) == IntToString(n)
    ensures m == n
  {
    ParseIntToString(m);
    ParseIntToString(n);
  }

  // ---------------------------------------------------------------------
  // String concatenation with a possibly-null operand
  // ---------------------------------------------------------------------

  /** What `"" + x` yields for a nullable string `x`: the text, or "null". */
  function NullableText(x: Option<string>): (r: string)
    ensures x.Some? ==> r == x.value
    ensures x.None? ==> r == "null"
  {
    match x
    case Some(s) => s
    case None => "null"
  }
}
