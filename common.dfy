/** Values shared by every controller: optional request fields, the failure a
    handler answers with, the authenticated principal, decimal rendering of
    numbers and JavaScript's substring test. */
module Common {

  datatype Option<T> = None | Some(value: T)

  /** A request the handler refuses: the HTTP status and the message it sends. */
  datatype Failure = Failure(status: nat, message: string)

  datatype Result<T> = Ok(value: T) | Err(failure: Failure)

  /** What a middleware decides: call `next()`, or answer with a failure. */
  datatype Gate = Pass | Deny(failure: Failure)

  /** The principal the authentication middleware attaches to a request. */
  datatype User = User(userId: string, username: string, role: string, branchId: string)

  /** JavaScript truthiness of an optional text field: absent, null and "" are all falsy. */
  predicate Present(o: Option<string>)
  {
    o.Some? && o.value != ""
  }

  /** JavaScript truthiness of an optional number: absent, null and 0 are all falsy. */
  predicate PresentNumber(o: Option<int>)
  {
    o.Some? && o.value != 0
  }

  /** Milliseconds per minute, the unit of every time computation in the controllers. */
  const MINUTE_MS: nat := 60000

  predicate IsDigit(c: char)
  {
    '0' <= c <= '9'
  }

  function DigitChar(d: nat): (c: char)
    requires d < 10
    ensures IsDigit(c) && c as int - '0' as int == d
  {
    ('0' as int + d) as char
  }

  /** The decimal text JavaScript produces when a non-negative integer is
      interpolated into a template string. */
  function NatToDecimal(n: nat): (s: string)
    ensures 1 <= |s|
    ensures forall i :: 0 <= i < |s| ==> IsDigit(s[i])
    decreases n
  {
    if n < 10 then [DigitChar(n)] else NatToDecimal(n / 10) + [DigitChar(n % 10)]
  }

  function DigitValue(c: char): nat
    requires IsDigit(c)
  {
    c as int - '0' as int
  }

  /** The value of a string of decimal digits (the reading of NatToDecimal). */
  function DecimalValue(s: string): nat
    requires forall i :: 0 <= i < |s| ==> IsDigit(s[i])
  {
    if s == [] then 0 else DecimalValue(s[..|s| - 1]) * 10 + DigitValue(s[|s| - 1])
  }

  lemma {:induction false} DecimalRoundTrip(n: nat)
    ensures DecimalValue(NatToDecimal(n)) == n
    decreases n
  {
    var s := NatToDecimal(n);
    if n >= 10 {
      assert s[..|s| - 1] == NatToDecimal(n / 10);
      DecimalRoundTrip(n / 10);
    }
  }

  /** Distinct numbers render as distinct text. */
  lemma NatToDecimalInjective(m: nat, n: nat)
    requires NatToDecimal(m) == NatToDecimal(n)
    ensures m == n
  {
    DecimalRoundTrip(m);
    DecimalRoundTrip(n);
  }

  /** `p` occurs in `s` starting at index `i`. */
  predicate OccursAt(s: string, p: string, i: nat)
  {
    i + |p| <= |s| && s[i..i + |p|] == p
  }

  /** JavaScript's `s.includes(p)`: `p` occurs somewhere in `s`. */
  predicate Contains(s: string, p: string)
  {
    exists i: nat | i <= |s| :: OccursAt(s, p, i)
  }

  /** An occurrence in a prefix is an occurrence in the whole. */
  lemma ContainsInPrefix(a: string, b: string, p: string)
    requires Contains(a, p)
    ensures Contains(a + b, p)
  {
    var i: nat :| i <= |a| && OccursAt(a, p, i);
    assert (a + b)[i..i + |p|] == a[i..i + |p|];
    assert OccursAt(a + b, p, i);
  }

  /** A string ending with `p` contains `p`. */
  lemma ContainsAtEnd(a: string, p: string)
    ensures Contains(a + p, p)
  {
    assert (a + p)[|a|..|a| + |p|] == p;
    assert OccursAt(a + p, p, |a|);
  }

  /** A pattern holding a character that `s` lacks does not occur in `s`. */
  lemma MissingCharExcludes(s: string, p: string, k: nat)
    requires k < |p| && p[k] !in s
    ensures !Contains(s, p)
  {
    forall i: nat | i + |p| <= |s|
      ensures !OccursAt(s, p, i)
    {
      assert s[i..i + |p|][k] == s[i + k];
    }
  }

  /** A pattern that shares no character with `sep` cannot straddle it, so it
      occurs in `a + sep + b` only if it occurs in `a` or in `b`. */
  lemma SeparatorSplits(a: string, sep: string, b: string, p: string)
    requires |sep| > 0 && |p| > 0
    requires forall j :: 0 <= j < |sep| ==> sep[j] !in p
    requires !Contains(a, p) && !Contains(b, p)
    ensures !Contains(a + sep + b, p)
  {
    var s := a + sep + b;
    forall i: nat | i + |p| <= |s|
      ensures !OccursAt(s, p, i)
    {
      if i + |p| <= |a| {
        assert a[i..i + |p|] == s[i..i + |p|];
        assert !OccursAt(a, p, i);
      } else if i >= |a| + |sep| {
        var i' := i - |a| - |sep|;
        assert b[i'..i' + |p|] == s[i..i + |p|];
        assert !OccursAt(b, p, i');
      } else {
        var j := if i < |a| then |a| else i;
        assert s[j] == sep[j - |a|];
        assert s[i..i + |p|][j - i] == s[j];
      }
    }
  }
}
