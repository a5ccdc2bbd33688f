/** The reply formatter `reformat_bullet_points`: strip the text, put a
    newline in front of every `- <digits>` bullet, then drop one trailing
    period together with the whitespace around it. */
module Reformat {
  import opened Text

  /** A bullet marker starts at `i`: a dash, one space and a digit
      (the pattern `- (\d+)`, which needs at least one digit). */
  predicate BulletAt(s: string, i: int) {
    0 <= i && i + 2 < |s| && s[i] == '-' && s[i + 1] == ' ' && IsDigit(s[i + 2])
  }

  /** Length of the leading digit run: the greedy `\d+`. */
  function DigitRun(s: string): (n: nat)
    ensures n <= |s|
    ensures forall i :: 0 <= i < n ==> IsDigit(s[i])
    ensures n == |s| || !IsDigit(s[n])
  {
    if |s| > 0 && IsDigit(s[0]) then 1 + DigitRun(s[1..]) else 0
  }

  // ---------------------------------------------------------------------
  // Step 1: re.sub(r"- (\d+)", r"\n- \1", text)

  /** The substitution as the regular-expression engine performs it:
      scan left to right; where the pattern matches, emit the replacement
      (a newline, then the matched text) and resume after the whole greedy
      match; elsewhere copy one character. */
  function SubBullets(s: string): string
    decreases |s|
  {
    if |s| == 0 then []
    else if BulletAt(s, 0) then
      var n := 2 + DigitRun(s[2..]);
      "\n" + s[..n] + SubBullets(s[n..])
    else [s[0]] + SubBullets(s[1..])
  }

  /** Reference rule: one newline in front of every position where a
      bullet marker starts, every input character kept in place. */
  function InsertBreaks(s: string): string
  {
    if |s| == 0 then []
    else (if BulletAt(s, 0) then "\n" else "") + [s[0]] + InsertBreaks(s[1..])
  }

  /** Deletes the newline immediately in front of every bullet marker. */
  function Unbreak(r: string): string
  {
    if |r| == 0 then []
    else if r[0] == '\n' && BulletAt(r, 1) then Unbreak(r[1..])
    else [r[0]] + Unbreak(r[1..])
  }

  /** Every bullet marker is directly preceded by a newline. */
  predicate Broken(r: string) {
    forall j :: 0 <= j < |r| && BulletAt(r, j) ==> 0 < j && r[j - 1] == '\n'
  }

  /** Text containing no dash is copied unchanged by the reference rule,
      up to any cut point. */
  lemma {:induction false} InsertBreaksNoDash(s: string, k: nat)
    requires k <= |s|
    requires forall i :: 0 <= i < k ==> s[i] != '-'
    ensures InsertBreaks(s) == s[..k] + InsertBreaks(s[k..])
    decreases k
  {
    if k > 0 {
      InsertBreaksNoDash(s[1..], k - 1);
      assert s[1..][..k - 1] == s[1..k];
      assert s[1..][k - 1..] == s[k..];
      assert s[..k] == [s[0]] + s[1..k];
    }
  }

  /** The regular-expression scan agrees with the reference rule: the
      replacement only re-emits the matched text behind a newline, and no
      other marker can start inside a match. */
  lemma {:induction false} SubBulletsIsInsertBreaks(s: string)
    ensures SubBullets(s) == InsertBreaks(s)
    decreases |s|
  {
    if |s| > 0 {
      if BulletAt(s, 0) {
        var n := 2 + DigitRun(s[2..]);
        var t := s[1..];
        assert forall i :: 0 <= i < n - 1 ==> t[i] != '-' by {
          forall i | 0 <= i < n - 1 ensures t[i] != '-' {
            if i > 0 { assert t[i] == s[2..][i - 1]; }
          }
        }
        InsertBreaksNoDash(t, n - 1);
        assert t[n - 1..] == s[n..];
        assert s[..n] == [s[0]] + t[..n - 1];
        SubBulletsIsInsertBreaks(s[n..]);
      } else {
        SubBulletsIsInsertBreaks(s[1..]);
      }
    }
  }

  lemma InsertBreaksHead(s: string)
    requires |s| > 0
    ensures |InsertBreaks(s)| > 0
    ensures InsertBreaks(s)[0] == (if BulletAt(s, 0) then '\n' else s[0])
  {
  }

  /** The reference rule never leaves a marker at the very start. */
  lemma NoBulletAtStart(s: string)
    ensures !BulletAt(InsertBreaks(s), 0)
  {
    if |s| > 0 && !BulletAt(s, 0) && s[0] == '-' {
      var t := s[1..];
      if |t| > 0 {
        InsertBreaksHead(t);
        if !BulletAt(t, 0) && |t[1..]| > 0 {
          InsertBreaksHead(t[1..]);
        }
      }
    }
  }

  /** Every marker in the output of the reference rule has a newline in
      front of it. */
  lemma {:induction false} InsertBreaksBroken(s: string)
    ensures Broken(InsertBreaks(s))
    decreases |s|
  {
    if |s| > 0 {
      InsertBreaksBroken(s[1..]);
      NoBulletAtStart(s);
      var r := InsertBreaks(s);
      var tail := InsertBreaks(s[1..]);
      var pre := if BulletAt(s, 0) then "\n" else "";
      assert r == pre + [s[0]] + tail;
      forall j | BulletAt(r, j) ensures 0 < j && r[j - 1] == '\n' {
        var off := |pre| + 1;
        if j >= off {
          assert BulletAt(tail, j - off);
        }
      }
    }
  }

  /** Deleting the inserted newlines gives back the input. */
  lemma {:induction false} UnbreakInsertBreaks(s: string)
    ensures Unbreak(InsertBreaks(s)) == s
    decreases |s|
  {
    if |s| > 0 {
      var tail := InsertBreaks(s[1..]);
      UnbreakInsertBreaks(s[1..]);
      NoBulletAtStart(s[1..]);
      if BulletAt(s, 0) {
        var r := "\n" + [s[0]] + tail;
        assert InsertBreaks(s) == r;
        assert r[1..] == [s[0]] + tail;
        InsertBreaksHead(s[1..]);
        if |s[2..]| > 0 { InsertBreaksHead(s[2..]); }
        assert BulletAt(r, 1);
        assert ([s[0]] + tail)[1..] == tail;
      } else {
        var r := [s[0]] + tail;
        assert InsertBreaks(s) == r;
        assert r[1..] == tail;
        assert !BulletAt(r, 1);
      }
    }
  }

  lemma UnbreakHead(x: string)
    requires |x| > 0
    ensures |Unbreak(x)| > 0
    ensures Unbreak(x)[0] == (if x[0] == '\n' && BulletAt(x, 1) then '-' else x[0])
  {
    if x[0] == '\n' && BulletAt(x, 1) {
      assert x[1..][0] == '-';
    }
  }

  /** A suffix of a broken text that does not start with a marker is
      broken too. */
  lemma BrokenSuffix(r: string, k: nat)
    requires Broken(r) && k <= |r| && !BulletAt(r, k)
    ensures Broken(r[k..])
  {
    forall j | 0 <= j < |r[k..]| && BulletAt(r[k..], j) ensures 0 < j && r[k..][j - 1] == '\n' {
      assert BulletAt(r, k + j);
    }
  }

  /** `Unbreak` on a newline-led marker: the newline goes, the marker and
      its first digit stay. */
  lemma UnbreakBulletPrefix(r: string)
    requires |r| > 0 && r[0] == '\n' && BulletAt(r, 1)
    ensures Unbreak(r) == "- " + [r[3]] + Unbreak(r[4..])
  {
    assert r[1..][1..] == r[2..];
    assert r[2..][1..] == r[3..];
    assert r[3..][1..] == r[4..];
    assert Unbreak(r[3..]) == [r[3]] + Unbreak(r[4..]);
    assert Unbreak(r[2..]) == " " + [r[3]] + Unbreak(r[4..]);
  }

  /** The reference rule on a marker: one newline, then the marker. */
  lemma InsertBreaksBulletPrefix(d: char, u: string)
    requires IsDigit(d)
    ensures InsertBreaks("- " + [d] + u) == "\n- " + [d] + InsertBreaks(u)
  {
    var v := "- " + [d] + u;
    assert v[1..] == " " + [d] + u;
    assert v[1..][1..] == [d] + u;
    assert ([d] + u)[1..] == u;
    assert !BulletAt(v[1..][1..], 0);
    assert InsertBreaks(v[1..][1..]) == [d] + InsertBreaks(u);
    assert InsertBreaks(v[1..]) == " " + ([d] + InsertBreaks(u));
    assert BulletAt(v, 0);
    assert InsertBreaks(v) == "\n" + "-" + (" " + ([d] + InsertBreaks(u)));
  }

  /** In a broken text, a character not starting a marker stays out of a
      marker after `Unbreak` of the rest. */
  lemma UnbreakNoNewBullet(r: string)
    requires Broken(r) && |r| > 0 && !(r[0] == '\n' && BulletAt(r, 1))
    ensures !BulletAt([r[0]] + Unbreak(r[1..]), 0)
  {
    var t := r[1..];
    var u1 := Unbreak(t);
    assert !BulletAt(r, 0);
    if r[0] == '-' && |t| > 0 {
      UnbreakHead(t);
      if |t| > 1 && r[1] == ' ' {
        assert !BulletAt(r, 1);
        assert u1 == " " + Unbreak(t[1..]);
        UnbreakHead(t[1..]);
      }
    }
  }

  /** Conversely, a text whose markers all have a newline in front is the
      reference rule applied to the text without those newlines; so
      `InsertBreaks(s)` is the only such text that `Unbreak` maps to `s`. */
  lemma {:induction false} InsertBreaksUnbreak(r: string)
    requires Broken(r)
    ensures InsertBreaks(Unbreak(r)) == r
    decreases |r|
  {
    if |r| > 0 {
      if r[0] == '\n' && BulletAt(r, 1) {
        var r3 := r[4..];
        BrokenSuffix(r, 4);
        InsertBreaksUnbreak(r3);
        UnbreakBulletPrefix(r);
        InsertBreaksBulletPrefix(r[3], Unbreak(r3));
        assert r == "\n- " + [r[3]] + r3;
      } else {
        var t := r[1..];
        BrokenSuffix(r, 1);
        InsertBreaksUnbreak(t);
        UnbreakNoNewBullet(r);
        assert Unbreak(r) == [r[0]] + Unbreak(t);
        assert ([r[0]] + Unbreak(t))[1..] == Unbreak(t);
      }
    }
  }

  // ---------------------------------------------------------------------
  // Step 2: re.sub(r"\s*\.\s*$", "", text)

  /** The pattern `\s*\.\s*` followed by the end of the text: whitespace,
      one period, whitespace, nothing else. */
  predicate PeriodTail(t: string) {
    exists i :: 0 <= i < |t| && t[i] == '.' && AllSpace(t[..i]) && AllSpace(t[i + 1..])
  }

  /** Removes a trailing period with the whitespace on both sides of it;
      text that does not end in a period (ignoring whitespace) is kept. */
  function DropTrailingPeriod(s: string): string
  {
    var t := StripEnd(s);
    if |t| > 0 && t[|t| - 1] == '.' then StripEnd(t[..|t| - 1]) else s
  }

  /** In a text matching the pattern, every character that is not
      whitespace is the period. */
  lemma PeriodTailMark(u: string, j: int)
    requires PeriodTail(u) && 0 <= j < |u| && !IsSpace(u[j])
    ensures u[j] == '.'
    ensures forall j' :: j < j' < |u| ==> IsSpace(u[j'])
  {
    var i :| 0 <= i < |u| && u[i] == '.' && AllSpace(u[..i]) && AllSpace(u[i + 1..]);
    forall j' | j < j' < |u| ensures IsSpace(u[j']) {
      assert u[i + 1..][j' - i - 1] == u[j'];
    }
  }

  /** A text matching the pattern holds no digit. */
  lemma PeriodTailNoDigits(u: string)
    requires PeriodTail(u)
    ensures NoDigits(u)
  {
    var i :| 0 <= i < |u| && u[i] == '.' && AllSpace(u[..i]) && AllSpace(u[i + 1..]);
    forall j | 0 <= j < |u| ensures !IsDigit(u[j]) {
      if j < i {
        assert u[..i][j] == u[j];
      } else if j > i {
        assert u[i + 1..][j - i - 1] == u[j];
      }
    }
  }

  /** The period removal never deletes a digit: it keeps every position up
      to the last digit. */
  lemma DropTrailingPeriodKeepsDigit(t: string, k: int)
    requires 0 <= k < |t| && IsDigit(t[k])
    ensures k < |DropTrailingPeriod(t)| && DropTrailingPeriod(t)[k] == t[k]
  {
    DropTrailingPeriodIsLeftmostMatch(t);
    var m := |DropTrailingPeriod(t)|;
    if m < |t| {
      PeriodTailNoDigits(t[m..]);
      forall j | m <= j < |t| ensures !IsDigit(t[j]) {
        assert t[m..][j - m] == t[j];
      }
    }
  }

  /** Case where a trailing period is present: the kept prefix ends in a
      character that is neither whitespace nor the removed period. */
  lemma DropTrailingPeriodWhenPresent(s: string)
    requires |StripEnd(s)| > 0 && StripEnd(s)[|StripEnd(s)| - 1] == '.'
    ensures |DropTrailingPeriod(s)| < |s|
    ensures DropTrailingPeriod(s) == s[..|DropTrailingPeriod(s)|]
    ensures PeriodTail(s[|DropTrailingPeriod(s)|..])
    ensures forall k :: 0 <= k < |DropTrailingPeriod(s)| ==> !PeriodTail(s[k..])
  {
    var t := StripEnd(s);
    var e := |t| - 1;
    var r := StripEnd(t[..e]);
    var p := |r|;
    assert DropTrailingPeriod(s) == r;
    assert s[e] == t[e];
    assert s[e + 1..] == s[TrimmedLength(s)..];
    assert p == TrimmedLength(t[..e]);
    assert s[p..e] == t[..e][p..];
    RemovedSuffixMatches(s, e, p);
    forall k | 0 <= k < p ensures !PeriodTail(s[k..]) {
      NoEarlierMatch(s, k, p - 1, e);
    }
  }

  /** The suffix from the end of the kept text: whitespace, the period,
      whitespace. */
  lemma RemovedSuffixMatches(s: string, e: int, p: int)
    requires 0 <= e < |s| && s[e] == '.' && AllSpace(s[e + 1..])
    requires 0 <= p <= e && AllSpace(s[p..e])
    ensures PeriodTail(s[p..])
  {
    var u := s[p..];
    assert u[e - p] == '.';
    assert u[..e - p] == s[p..e];
    assert u[e - p + 1..] == s[e + 1..];
  }

  /** A suffix holding two characters that are not whitespace does not
      match the pattern. */
  lemma NoEarlierMatch(s: string, k: int, a: int, b: int)
    requires 0 <= k <= a < b < |s| && !IsSpace(s[a]) && !IsSpace(s[b])
    ensures !PeriodTail(s[k..])
  {
    if PeriodTail(s[k..]) {
      PeriodTailMark(s[k..], a - k);
    }
  }

  /** A suffix matching the pattern puts a period at the end of the
      trimmed text. */
  lemma PeriodTailEndsInPeriod(s: string, k: int)
    requires 0 <= k <= |s|
    ensures PeriodTail(s[k..]) ==>
              |StripEnd(s)| > 0 && StripEnd(s)[|StripEnd(s)| - 1] == '.'
  {
    if PeriodTail(s[k..]) {
      var u := s[k..];
      var i :| 0 <= i < |u| && u[i] == '.' && AllSpace(u[..i]) && AllSpace(u[i + 1..]);
      var n := TrimmedLength(s);
      assert s[k + i] == '.';
      assert n == k + i + 1;
    }
  }

  /** Case where no trailing period is present: no suffix matches. */
  lemma DropTrailingPeriodWhenAbsent(s: string)
    requires !(|StripEnd(s)| > 0 && StripEnd(s)[|StripEnd(s)| - 1] == '.')
    ensures DropTrailingPeriod(s) == s
    ensures forall k :: 0 <= k < |s| ==> !PeriodTail(s[k..])
  {
    forall k | 0 <= k < |s| ensures !PeriodTail(s[k..]) {
      PeriodTailEndsInPeriod(s, k);
    }
  }

  /** `DropTrailingPeriod` removes exactly what the substitution removes:
      the leftmost suffix matching the pattern, or nothing when no suffix
      matches. So only the last period goes, and the whitespace in front of
      it goes with it. */
  lemma DropTrailingPeriodIsLeftmostMatch(s: string)
    ensures |DropTrailingPeriod(s)| <= |s|
    ensures DropTrailingPeriod(s) == s[..|DropTrailingPeriod(s)|]
    ensures |DropTrailingPeriod(s)| < |s| ==> PeriodTail(s[|DropTrailingPeriod(s)|..])
    ensures forall k :: 0 <= k < |DropTrailingPeriod(s)| ==> !PeriodTail(s[k..])
  {
    var t := StripEnd(s);
    if |t| > 0 && t[|t| - 1] == '.' {
      DropTrailingPeriodWhenPresent(s);
    } else {
      DropTrailingPeriodWhenAbsent(s);
    }
  }

  // ---------------------------------------------------------------------
  // The whole formatter

  /** `reformat_bullet_points`. */
  function ReformatBullets(text: string): string
  {
    DropTrailingPeriod(SubBullets(Strip(text)))
  }

  /** Appending text with no digit neither creates nor hides a marker. */
  lemma {:induction false} InsertBreaksAppend(a: string, b: string)
    requires NoDigits(b)
    ensures InsertBreaks(a + b) == InsertBreaks(a) + b
    decreases |a|
  {
    if |a| == 0 {
      InsertBreaksNoDigits(b);
      assert a + b == b;
    } else {
      InsertBreaksAppend(a[1..], b);
      assert (a + b)[1..] == a[1..] + b;
      BulletAtAppend(a, b);
      var h := (if BulletAt(a, 0) then "\n" else "") + [a[0]];
      assert InsertBreaks(a + b) == h + (InsertBreaks(a[1..]) + b);
      assert InsertBreaks(a) == h + InsertBreaks(a[1..]);
      ConcatAssoc(h, InsertBreaks(a[1..]), b);
    }
  }

  /** Text with no digit appended cannot complete a marker at the start. */
  lemma BulletAtAppend(a: string, b: string)
    requires |a| > 0 && NoDigits(b)
    ensures BulletAt(a + b, 0) == BulletAt(a, 0)
  {
    if |a| >= 3 {
      assert (a + b)[..3] == a[..3];
    } else if |a + b| >= 3 {
      assert (a + b)[2] == b[2 - |a|];
    }
  }

  lemma {:induction false} InsertBreaksNoDigits(b: string)
    requires NoDigits(b)
    ensures InsertBreaks(b) == b
    decreases |b|
  {
    if |b| > 0 {
      InsertBreaksNoDigits(b[1..]);
    }
  }

  lemma {:induction false} InsertBreaksLast(a: string)
    requires |a| > 0
    ensures |InsertBreaks(a)| > 0 && InsertBreaks(a)[|InsertBreaks(a)| - 1] == a[|a| - 1]
    decreases |a|
  {
    if |a| > 1 {
      InsertBreaksLast(a[1..]);
    }
  }

  lemma StripEndInsertBreaks(x: string)
    ensures StripEnd(InsertBreaks(x)) == InsertBreaks(StripEnd(x))
  {
    var t := StripEnd(x);
    var w := x[|t|..];
    assert x == t + w;
    InsertBreaksAppend(t, w);
    StripEndAppendSpace(InsertBreaks(t), w);
    if |t| > 0 {
      InsertBreaksLast(t);
    }
  }

  /** Dropping the trailing period commutes with inserting the newlines:
      the removed suffix never contains a marker or an inserted newline. */
  lemma DropTrailingPeriodInsertBreaks(x: string)
    ensures DropTrailingPeriod(InsertBreaks(x)) == InsertBreaks(DropTrailingPeriod(x))
  {
    var t := StripEnd(x);
    StripEndInsertBreaks(x);
    if |t| > 0 {
      InsertBreaksLast(t);
      if t[|t| - 1] == '.' {
        InsertBreaksDropLast(t);
      }
    }
  }

  /** Removing the final period after inserting the newlines is removing it
      before. */
  lemma InsertBreaksDropLast(t: string)
    requires |t| > 0 && t[|t| - 1] == '.'
    ensures |InsertBreaks(t)| > 0
    ensures StripEnd(InsertBreaks(t)[..|InsertBreaks(t)| - 1]) == InsertBreaks(StripEnd(t[..|t| - 1]))
  {
    var t' := t[..|t| - 1];
    assert t == t' + ".";
    InsertBreaksAppend(t', ".");
    var it := InsertBreaks(t);
    assert it[..|it| - 1] == InsertBreaks(t');
    StripEndInsertBreaks(t');
  }

  /** On text with no digit the newline insertion is injective at that
      text: only the text itself is mapped to it. */
  lemma InsertBreaksOnlyFixes(x: string, y: string)
    requires NoDigits(x)
    ensures InsertBreaks(y) == x <==> y == x
  {
    InsertBreaksNoDigits(x);
    UnbreakInsertBreaks(x);
    UnbreakInsertBreaks(y);
  }

  /** Nothing but the newlines changes: the formatter's output is the
      stripped text minus its trailing-period suffix, with one newline in
      front of each marker; deleting those newlines gives that text back. */
  lemma ReformatCharacterisation(text: string)
    ensures ReformatBullets(text) == InsertBreaks(DropTrailingPeriod(Strip(text)))
    ensures Unbreak(ReformatBullets(text)) == DropTrailingPeriod(Strip(text))
    ensures Broken(ReformatBullets(text))
  {
    var s := Strip(text);
    SubBulletsIsInsertBreaks(s);
    DropTrailingPeriodInsertBreaks(s);
    UnbreakInsertBreaks(DropTrailingPeriod(s));
    InsertBreaksBroken(DropTrailingPeriod(s));
  }

  /** Text ending in a character that is neither whitespace nor a period
      keeps its end. */
  lemma DropTrailingPeriodNoPeriod(r: string)
    requires |r| > 0 && !IsSpace(r[|r| - 1]) && r[|r| - 1] != '.'
    ensures DropTrailingPeriod(r) == r
  {
  }

  /** A final period goes together with the whitespace in front of it, and
      nothing more. */
  lemma DropTrailingPeriodOfPeriod(x: string)
    ensures DropTrailingPeriod(x + ".") == StripEnd(x)
  {
    var s := x + ".";
    assert StripEnd(s) == s;
    assert s[..|s| - 1] == x;
  }

  /** Chains the three steps of the formatter. */
  lemma ReformatSteps(text: string, stripped: string, broken: string, out: string)
    requires Strip(text) == stripped
    requires SubBullets(stripped) == broken
    requires DropTrailingPeriod(broken) == out
    ensures ReformatBullets(text) == out
  {
  }

  /** A sentence with no digit and no whitespace at its ends is kept as it
      is, and a single period after it is removed. */
  lemma ReformatPlainSentence(x: string)
    requires |x| > 0 && NoDigits(x)
    requires !IsSpace(x[0]) && !IsSpace(x[|x| - 1]) && x[|x| - 1] != '.'
    ensures ReformatBullets(x) == x
    ensures ReformatBullets(x + ".") == x
  {
    var y := x + ".";
    assert NoDigits(y);
    StripUnchanged(x);
    StripUnchanged(y);
    SubBulletsIsInsertBreaks(x);
    InsertBreaksNoDigits(x);
    SubBulletsIsInsertBreaks(y);
    InsertBreaksNoDigits(y);
    DropTrailingPeriodNoPeriod(x);
    DropTrailingPeriodOfPeriod(x);
    assert StripEnd(x) == x;
    ReformatSteps(x, x, x, x);
    ReformatSteps(y, y, y, x);
  }
}

/** Worked cases of the formatter, pinning down its exact output. */
module ReformatCases {
  import opened Text
  import opened Reformat

  /** Five decimal digits: the shape of a CPT code. */
  predicate FiveDigits(c: string) {
    |c| == 5 && forall i :: 0 <= i < 5 ==> IsDigit(c[i])
  }

  lemma DigitRunOfCode(c: string, rest: string)
    requires FiveDigits(c)
    requires rest == [] || !IsDigit(rest[0])
    ensures DigitRun(c + rest) == 5
  {
    var s := c + rest;
    assert s[1..][1..][1..][1..][1..] == rest;
    assert s[1..][1..][1..][1..][0] == c[4];
    assert s[1..][1..][1..][0] == c[3];
    assert s[1..][1..][0] == c[2];
    assert s[1..][0] == c[1];
  }

  /** One step of the scan over a bullet with a five-digit code. */
  lemma SubBulletsCodeStep(s: string)
    requires |s| >= 7 && s[0] == '-' && s[1] == ' ' && FiveDigits(s[2..7])
    requires |s| == 7 || !IsDigit(s[7])
    ensures SubBullets(s) == "\n" + s[..7] + SubBullets(s[7..])
  {
    assert s[2..] == s[2..7] + s[7..];
    DigitRunOfCode(s[2..7], s[7..]);
    assert s[2..][0] == s[2];
    assert BulletAt(s, 0);
  }

  /** A bullet `- <code>` followed by text not starting with a digit. */
  lemma SubBulletsOfBullet(c: string, rest: string)
    requires FiveDigits(c)
    requires rest == [] || !IsDigit(rest[0])
    ensures SubBullets("- " + c + rest) == "\n- " + c + SubBullets(rest)
  {
    var s := "- " + c + rest;
    BulletShape(c, rest);
    SubBulletsCodeStep(s);
    var tail := SubBullets(rest);
    assert SubBullets(s) == "\n" + ("- " + c) + tail;
    ConcatRegroup("\n", "- ", c, tail);
    NewlineDash();
  }

  lemma ConcatRegroup(x: string, y: string, z: string, w: string)
    ensures x + (y + z) + w == x + y + z + w
  {
  }

  lemma NewlineDash()
    ensures "\n" + "- " == "\n- "
  {
  }

  lemma BulletShape(c: string, rest: string)
    requires FiveDigits(c)
    requires rest == [] || !IsDigit(rest[0])
    ensures var s := "- " + c + rest;
      && |s| >= 7 && s[0] == '-' && s[1] == ' ' && s[2..7] == c
      && (|s| == 7 || !IsDigit(s[7]))
      && s[..7] == "- " + c && s[7..] == rest
  {
    var s := "- " + c + rest;
    assert s[2..7] == c;
    assert s[..7] == "- " + c;
    assert s[7..] == rest;
  }

  /** A character other than a dash is copied as it is. */
  lemma SubBulletsOther(c: char, x: string)
    requires c != '-'
    ensures SubBullets([c] + x) == [c] + SubBullets(x)
  {
    assert ([c] + x)[1..] == x;
  }

  lemma SubBulletsOneCode(c: string)
    requires FiveDigits(c)
    ensures SubBullets("- " + c) == "\n- " + c
  {
    SubBulletsOfBullet(c, "");
    assert "- " + c + "" == "- " + c;
  }

  lemma SubBulletsTwoCodes(c1: string, c2: string)
    requires FiveDigits(c1)
    requires FiveDigits(c2)
    ensures SubBullets("- " + c1 + " - " + c2) == "\n- " + c1 + " \n- " + c2
  {
    TwoCodesShape(c1, c2);
    SubBulletsOneCode(c2);
    SubBulletsOther(' ', "- " + c2);
    SubBulletsOfBullet(c1, " - " + c2);
  }

  lemma TwoCodesShape(c1: string, c2: string)
    ensures " - " + c2 == [' '] + ("- " + c2)
    ensures "- " + c1 + " - " + c2 == "- " + c1 + (" - " + c2)
    ensures [' '] + ("\n- " + c2) == " \n- " + c2
    ensures "\n- " + c1 + (" \n- " + c2) == "\n- " + c1 + " \n- " + c2
  {
  }

  /** Only the last of several periods is removed. */
  lemma TwoPeriods(text: string)
    requires text == "abc.."
    ensures ReformatBullets(text) == "abc."
  {
    StripUnchanged(text);
    SubBulletsIsInsertBreaks(text);
    InsertBreaksNoDigits(text);
    assert text == "abc." + ".";
    DropTrailingPeriodOfPeriod("abc.");
  }

  /** Two five-digit codes on one line: the first bullet gets a newline in
      front although it starts the text, and the space before the second
      newline stays. */
  lemma ReformatTwoCodes(c1: string, c2: string)
    requires FiveDigits(c1)
    requires FiveDigits(c2)
    ensures ReformatBullets("- " + c1 + " - " + c2) == "\n- " + c1 + " \n- " + c2
  {
    var s := "- " + c1 + " - " + c2;
    StripUnchanged(s);
    SubBulletsTwoCodes(c1, c2);
    DropTrailingPeriodNoPeriod("\n- " + c1 + " \n- " + c2);
  }

  lemma SubBulletsSpaceNewlineCode(c: string)
    requires FiveDigits(c)
    ensures SubBullets(" \n- " + c) == " \n\n- " + c
  {
    var b := "- " + c;
    SubBulletsOneCode(c);
    var nb := ['\n'] + b;
    SubBulletsOther('\n', b);
    assert SubBullets(nb) == "\n\n- " + c;
    var snb := [' '] + nb;
    SubBulletsOther(' ', nb);
    assert SubBullets(snb) == " \n\n- " + c;
    assert snb == " \n- " + c;
  }

  lemma SubBulletsSecondBroken(c1: string, c2: string)
    requires FiveDigits(c1)
    requires FiveDigits(c2)
    ensures SubBullets("- " + c1 + " \n- " + c2) == "\n- " + c1 + " \n\n- " + c2
  {
    SubBulletsSpaceNewlineCode(c2);
    var rest := " \n- " + c2;
    SubBulletsOfBullet(c1, rest);
    assert "- " + c1 + " \n- " + c2 == "- " + c1 + rest;
  }

  lemma StripLeadingNewline(c1: string, c2: string)
    requires FiveDigits(c1)
    requires FiveDigits(c2)
    ensures Strip("\n- " + c1 + " \n- " + c2) == "- " + c1 + " \n- " + c2
  {
    var x := "- " + c1 + " \n- " + c2;
    assert "\n- " + c1 + " \n- " + c2 == "\n" + x;
    StripPrependSpace("\n", x);
  }

  /** Formatting the output of `ReformatTwoCodes` again adds a second
      newline in front of the second code. */
  lemma ReformatTwoCodesAgain(c1: string, c2: string)
    requires FiveDigits(c1)
    requires FiveDigits(c2)
    ensures ReformatBullets("\n- " + c1 + " \n- " + c2) == "\n- " + c1 + " \n\n- " + c2
  {
    StripLeadingNewline(c1, c2);
    SubBulletsSecondBroken(c1, c2);
    DropTrailingPeriodNoPeriod("\n- " + c1 + " \n\n- " + c2);
    ReformatSteps("\n- " + c1 + " \n- " + c2, "- " + c1 + " \n- " + c2,
                  "\n- " + c1 + " \n\n- " + c2, "\n- " + c1 + " \n\n- " + c2);
  }

  /** Facts about the literals of the worked cases, kept apart from the
      formatter so that the solver does not evaluate it on them. */
  lemma WorkedCaseLiterals()
    ensures FiveDigits("99201") && FiveDigits("45380")
    ensures "- 99201 - 45380" == "- " + "99201" + " - " + "45380"
    ensures "\n- 99201 \n- 45380" == "\n- " + "99201" + " \n- " + "45380"
    ensures "\n- 99201 \n\n- 45380" == "\n- " + "99201" + " \n\n- " + "45380"
  {
  }

  /** The worked case `- 99201 - 45380`. */
  lemma TwoBulletsOnOneLine(reply: string)
    requires reply == "- 99201 - 45380"
    ensures ReformatBullets(reply) == "\n- 99201 \n- 45380"
  {
    WorkedCaseLiterals();
    ReformatTwoCodes("99201", "45380");
  }

  /** The formatter is not idempotent: applying it to its own output on
      `- 99201 - 45380` adds a newline. */
  lemma NotIdempotent(reply: string)
    requires reply == "- 99201 - 45380"
    ensures ReformatBullets(ReformatBullets(reply)) == "\n- 99201 \n\n- 45380"
    ensures ReformatBullets(ReformatBullets(reply)) != ReformatBullets(reply)
  {
    TwoBulletsOnOneLine(reply);
    WorkedCaseLiterals();
    ReformatTwoCodesAgain("99201", "45380");
    assert |"\n- 99201 \n\n- 45380"| != |"\n- 99201 \n- 45380"|;
  }
}
