/** The strings of Java and .NET as far as the models share them. */
module Strings {
  import opened Wrappers

  // ----- UTF-16 -----

  /**
  The strings of the source are sequences of UTF-16 units. A char of the models stands for one unit; as it cannot be
  a surrogate, the surrogates are moved into a private plane, where every function of the models treats them as the
  source treats them: as characters like any other.
  */
  function Unit(u: nat): char
    requires u < 0x1_0000
  {
    if 0xD800 <= u < 0xE000 then (0x10_0000 + u) as char else u as char
  }

  function Units(units: seq<nat>): (s: string)
    requires forall i :: 0 <= i < |units| ==> units[i] < 0x1_0000
    ensures |s| == |units|
  {
    seq(|units|, i requires 0 <= i < |units| => Unit(units[i]))
  }

  /** Every .NET or Java string has a string of the models of its own, of the same length. */
  lemma UnitsInjective(a: seq<nat>, b: seq<nat>)
    requires forall i :: 0 <= i < |a| ==> a[i] < 0x1_0000
    requires forall i :: 0 <= i < |b| ==> b[i] < 0x1_0000
    requires Units(a) == Units(b)
    ensures a == b
  {
    forall i | 0 <= i < |a|
      ensures a[i] == b[i]
    {
      assert Units(a)[i] == Units(b)[i];
    }
  }

  // ----- lower case and white space -----

  function Lower(c: char): char {
    if 'A' <= c <= 'Z' then 'a' + (c - 'A') else c
  }

  function LowerCase(s: string): (t: string)
    ensures |t| == |s|
  {
    seq(|s|, i requires 0 <= i < |s| => Lower(s[i]))
  }

  function TrimStart(s: string): string {
    if s != "" && s[0] <= ' ' then TrimStart(s[1..]) else s
  }

  function TrimEnd(s: string): string {
    if s != "" && s[|s| - 1] <= ' ' then TrimEnd(s[..|s| - 1]) else s
  }

  /** String.trim of Java: everything up to the space is white. */
  function Trim(s: string): string {
    TrimEnd(TrimStart(s))
  }

  /** What is cut off at either end is white, and what is left neither begins nor ends with white space. */
  lemma {:induction false} TrimmedExactly(s: string)
    ensures exists k: nat, n: nat ::
              && k <= n <= |s| && Trim(s) == s[k..n]
              && (forall i :: 0 <= i < |s| && !(k <= i < n) ==> s[i] <= ' ')
              && (k < n ==> s[k] > ' ' && s[n - 1] > ' ')
  {
    var k := StartTrimmed(s);
    var n := EndTrimmed(s[k..]);
    assert s[k..][..n] == s[k..k + n];
    assert forall i :: k + n <= i < |s| ==> s[i] == s[k..][i - k];
  }

  lemma {:induction false} StartTrimmed(s: string) returns (k: nat)
    ensures k <= |s| && TrimStart(s) == s[k..] && (forall i :: 0 <= i < k ==> s[i] <= ' ') && (k < |s| ==> s[k] > ' ')
  {
    k := 0;
    if s != "" && s[0] <= ' ' {
      var rest := StartTrimmed(s[1..]);
      k := rest + 1;
      assert s[1..][rest..] == s[k..];
      assert forall i :: 0 < i < k ==> s[i] == s[1..][i - 1];
    }
  }

  lemma {:induction false} EndTrimmed(s: string) returns (n: nat)
    ensures n <= |s| && TrimEnd(s) == s[..n] && (forall i :: n <= i < |s| ==> s[i] <= ' ') && (n > 0 ==> s[n - 1] > ' ')
  {
    n := |s|;
    if s != "" && s[|s| - 1] <= ' ' {
      n := EndTrimmed(s[..|s| - 1]);
      assert s[..|s| - 1][..n] == s[..n];
    }
  }

  /** The capital letters of ASCII become small letters, and nothing else changes. */
  lemma LoweredExactly(s: string, i: nat)
    requires i < |s|
    ensures LowerCase(s)[i] as int == if 65 <= s[i] as int <= 90 then s[i] as int + 32 else s[i] as int
  {
  }

  /** Missing, or nothing but white space. */
  predicate Blank(s: Option<string>) {
    s.None? || Trim(s.value) == ""
  }

  lemma BlankExactly(s: Option<string>)
    ensures Blank(s) <==> s.None? || forall i :: 0 <= i < |s.value| ==> s.value[i] <= ' '
  {
    if s.Some? {
      TrimmedExactly(s.value);
    }
  }
}
