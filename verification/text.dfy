/** Character classes and whitespace stripping, standing for Python's
    `str.isspace`/`\s`, `\d` and `str.strip()` on the text the app handles. */
module Text {

  /** Whitespace, abstracted to the ASCII whitespace characters
      (space, tab, newline, carriage return, vertical tab, form feed). */
  predicate IsSpace(c: char) {
    c == ' ' || c == '\t' || c == '\n' || c == '\r' || c == '\U{0B}' || c == '\U{0C}'
  }

  /** A decimal digit, as matched by `\d`. */
  predicate IsDigit(c: char) {
    '0' <= c <= '9'
  }

  predicate AllSpace(s: string) {
    forall i :: 0 <= i < |s| ==> IsSpace(s[i])
  }

  predicate NoDigits(s: string) {
    forall i :: 0 <= i < |s| ==> !IsDigit(s[i])
  }

  lemma ConcatAssoc(x: string, y: string, z: string)
    ensures x + (y + z) == x + y + z
  {
  }

  /** Length of the leading whitespace run. */
  function LeadingSpaces(s: string): (n: nat)
    ensures n <= |s| && AllSpace(s[..n])
    ensures n == |s| || !IsSpace(s[n])
  {
    if |s| > 0 && IsSpace(s[0]) then 1 + LeadingSpaces(s[1..]) else 0
  }

  /** Length of the text without its trailing whitespace run. */
  function TrimmedLength(s: string): (n: nat)
    ensures n <= |s| && AllSpace(s[n..])
    ensures n == 0 || !IsSpace(s[n - 1])
  {
    if |s| > 0 && IsSpace(s[|s| - 1]) then TrimmedLength(s[..|s| - 1]) else |s|
  }

  /** `str.rstrip()`: removes the trailing whitespace run. */
  function StripEnd(s: string): string
  {
    s[..TrimmedLength(s)]
  }

  /** `str.strip()`: the text between the leading and the trailing
      whitespace runs, empty when the text is all whitespace. */
  function Strip(s: string): string
  {
    var a := LeadingSpaces(s);
    var b := TrimmedLength(s);
    if a == |s| then []
    else
      s[a..b]
  }

  /** `Strip` keeps the text between the leading and the trailing
      whitespace runs: a slice of the input with only whitespace around it,
      and no whitespace at either of its own ends. */
  lemma StripCharacterisation(s: string)
    ensures exists a :: 0 <= a <= |s| - |Strip(s)| && Strip(s) == s[a..a + |Strip(s)|]
                         && AllSpace(s[..a]) && AllSpace(s[a + |Strip(s)|..])
    ensures Strip(s) == [] || (!IsSpace(Strip(s)[0]) && !IsSpace(Strip(s)[|Strip(s)| - 1]))
  {
    var a := LeadingSpaces(s);
    if a == |s| {
      assert s[a..] == [];
    }
  }

  /** Stripping is the identity on text with no whitespace at either end. */
  lemma StripUnchanged(s: string)
    requires s == [] || (!IsSpace(s[0]) && !IsSpace(s[|s| - 1]))
    ensures Strip(s) == s
  {
  }

  /** Appending whitespace does not change what `StripEnd` keeps. */
  lemma {:induction false} StripEndAppendSpace(u: string, w: string)
    requires AllSpace(w)
    ensures StripEnd(u + w) == StripEnd(u)
    decreases |w|
  {
    TrimmedLengthAppendSpace(u, w);
    assert (u + w)[..TrimmedLength(u)] == u[..TrimmedLength(u)];
  }

  lemma {:induction false} TrimmedLengthAppendSpace(u: string, w: string)
    requires AllSpace(w)
    ensures TrimmedLength(u + w) == TrimmedLength(u)
    decreases |w|
  {
    if |w| > 0 {
      var w' := w[..|w| - 1];
      assert (u + w)[..|u + w| - 1] == u + w';
      TrimmedLengthAppendSpace(u, w');
    } else {
      assert u + w == u;
    }
  }

  /** Leading whitespace is all that `Strip` removes at the front. */
  lemma {:induction false} LeadingSpacesPrepend(w: string, x: string)
    requires AllSpace(w)
    ensures LeadingSpaces(w + x) == |w| + LeadingSpaces(x)
    decreases |w|
  {
    if |w| > 0 {
      assert (w + x)[1..] == w[1..] + x;
      LeadingSpacesPrepend(w[1..], x);
    } else {
      assert w + x == x;
    }
  }

  /** Stripping text that has whitespace only in front of a trimmed core
      gives that core. */
  lemma StripPrependSpace(w: string, x: string)
    requires AllSpace(w)
    requires |x| > 0 && !IsSpace(x[0]) && !IsSpace(x[|x| - 1])
    ensures Strip(w + x) == x
  {
    LeadingSpacesPrepend(w, x);
    assert (w + x)[|w + x| - 1] == x[|x| - 1];
    assert (w + x)[|w|..] == x;
  }

  /** A character that is not whitespace survives stripping, shifted left
      by the length of the leading whitespace run. */
  lemma StripKeeps(s: string, i: int)
    requires 0 <= i < |s| && !IsSpace(s[i])
    ensures LeadingSpaces(s) <= i < LeadingSpaces(s) + |Strip(s)|
    ensures Strip(s)[i - LeadingSpaces(s)] == s[i]
  {
    var a := LeadingSpaces(s);
    var b := TrimmedLength(s);
    forall j | 0 <= j < a ensures IsSpace(s[j]) {
      assert s[..a][j] == s[j];
    }
    forall j | b <= j < |s| ensures IsSpace(s[j]) {
      assert s[b..][j - b] == s[j];
    }
  }

  /** Stripping twice is the same as stripping once. */
  lemma StripIdempotent(s: string)
    ensures Strip(Strip(s)) == Strip(s)
  {
    StripCharacterisation(s);
    StripUnchanged(Strip(s));
  }
}
