/** Strings as the Go code sees them: substring search (`strings.Contains`)
    and decimal rendering of a count (`%d`). */
module Text {

  datatype Option<+T> = None | Some(value: T)

  /** True when `t` occurs in `s` starting at index `i`. */
  predicate OccursAt(s: string, t: string, i: nat)
  {
    i + |t| <= |s| && s[i..i + |t|] == t
  }

  /** The first index at which `t` occurs in `s`, if any. */
  function IndexOf(s: string, t: string): (r: Option<nat>)
    ensures r.Some? ==> OccursAt(s, t, r.value)
    ensures r.Some? ==> forall j :: 0 <= j < r.value ==> !OccursAt(s, t, j)
    ensures r.None? ==> forall j :: 0 <= j ==> !OccursAt(s, t, j)
    decreases |s|
  {
    if |t| > |s| then None
    else if t <= s then Some(0)
    else
      match IndexOf(s[1..], t)
      case None =>
        assert forall j :: 1 <= j ==> (OccursAt(s, t, j) <==> OccursAt(s[1..], t, j - 1));
        None
      case Some(i) =>
        assert forall j :: 1 <= j ==> (OccursAt(s, t, j) <==> OccursAt(s[1..], t, j - 1));
        Some(i + 1)
  }

  /** Go's `strings.Contains(s, t)`: `t` occurs somewhere in `s`. */
  predicate Contains(s: string, t: string): (r: bool)
    ensures r <==> exists i :: OccursAt(s, t, i)
  {
    IndexOf(s, t).Some?
  }

  /** Whatever surrounds it, a string contains itself. */
  lemma ContainsInfix(a: string, t: string, b: string)
    ensures Contains(a + t + b, t)
  {
    var s := a + t + b;
    assert s[|a|..|a| + |t|] == t;
    assert OccursAt(s, t, |a|);
  }

  /** A concatenation contains its first part. */
  lemma ContainsPrefix(a: string, b: string)
    ensures Contains(a + b, a)
  {
    ContainsInfix("", a, b);
    assert "" + a + b == a + b;
  }

  /** A string that starts with `t` contains `t`, whatever follows it. */
  lemma ContainsStart(s: string, t: string, rest: string)
    requires t <= s
    ensures Contains(s + rest, t)
  {
    assert (s + rest)[..|t|] == s[..|t|];
  }

  /** A concatenation contains its last part. */
  lemma ContainsSuffix(a: string, b: string)
    ensures Contains(a + b, b)
  {
    ContainsInfix(a, b, "");
    assert a + b + "" == a + b;
  }

  /** A string without the first character of `t` cannot contain `t`. */
  lemma NotContainsWithoutHead(s: string, t: string)
    requires |t| > 0 && t[0] !in s
    ensures !Contains(s, t)
  {
  }

  /** `t` does not occur at `i` when one of its first two characters differs there. */
  lemma MismatchAtStart(s: string, t: string, i: nat)
    requires |t| >= 2 && i + 1 < |s|
    requires s[i] != t[0] || s[i + 1] != t[1]
    ensures !OccursAt(s, t, i)
  {
    if i + |t| <= |s| {
      assert s[i..i + |t|][0] == s[i] && s[i..i + |t|][1] == s[i + 1];
    }
  }

  /** When no position of `h` starts the first two characters of `t`, an
      occurrence of `t` right after `h` is its first. */
  lemma {:induction false} FirstOccurrenceAfter(h: string, t: string, rest: string)
    requires |t| >= 2 && t <= rest
    requires forall j :: 0 <= j < |h| - 1 ==> h[j] != t[0] || h[j + 1] != t[1]
    requires |h| > 0 ==> h[|h| - 1] != t[0]
    ensures IndexOf(h + rest, t) == Some(|h|)
  {
    var s := h + rest;
    var n := |h|;
    assert s[n..n + |t|] == t;
    assert OccursAt(s, t, n);
    forall j | 0 <= j < n
      ensures !OccursAt(s, t, j)
    {
      assert s[j] == h[j];
      if j < n - 1 {
        assert s[j + 1] == h[j + 1];
      } else {
        assert s[j + 1] == rest[0] == t[0];
      }
      MismatchAtStart(s, t, j);
    }
  }

  /** Containment is transitive: whatever `t` contains, a string that contains `t` contains. */
  lemma ContainsTransitive(s: string, t: string, u: string)
    requires Contains(s, t) && Contains(t, u)
    ensures Contains(s, u)
  {
    var i := IndexOf(s, t).value;
    var j := IndexOf(t, u).value;
    OccursWithin(s, t, u, i, j);
  }

  /** An occurrence of `u` at `j` in an occurrence of `t` at `i` in `s` is
      an occurrence of `u` at `i + j` in `s`. */
  lemma OccursWithin(s: string, t: string, u: string, i: nat, j: nat)
    requires OccursAt(s, t, i) && OccursAt(t, u, j)
    ensures OccursAt(s, u, i + j)
  {
    forall k | 0 <= k < |u|
      ensures s[i + j + k] == u[k]
    {
      assert s[i..i + |t|][j + k] == t[j + k];
      assert t[j..j + |u|][k] == u[k];
    }
    assert s[i + j..i + j + |u|] == u;
  }

  function DigitChar(d: nat): (c: char)
    requires d < 10
    ensures '0' <= c <= '9'
  {
    "0123456789"[d]
  }

  /** The value of a string of decimal digits. */
  function DigitsValue(s: string): nat
    requires forall k :: 0 <= k < |s| ==> '0' <= s[k] <= '9'
  {
    if s == [] then 0 else 10 * DigitsValue(s[..|s| - 1]) + (s[|s| - 1] - '0') as nat
  }

  /** Decimal rendering of a natural number, as `%d` prints it. */
  function NatToString(n: nat): (r: string)
    ensures |r| > 0
    ensures forall k :: 0 <= k < |r| ==> '0' <= r[k] <= '9'
    ensures DigitsValue(r) == n
    ensures r[0] == '0' ==> n == 0
  {
    if n < 10 then [DigitChar(n)]
    else
      var r := NatToString(n / 10) + [DigitChar(n % 10)];
      assert r[..|r| - 1] == NatToString(n / 10);
      r
  }
}
