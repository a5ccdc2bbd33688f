/** Classification of the formatted reply into the two headings the app
    shows, by exact comparison with the "all relevant" line. */
module Verdict {
  import opened Text
  import opened Reformat

  datatype Verdict = Relevant | Irrelevant

  /** The line a reply must be formatted into to count as "all relevant". */
  const AllRelevantLine: string := "- All CPT codes are relevant to ICD codes"

  /** The heading chosen for a reply: case-sensitive exact equality of the
      formatted reply with `AllRelevantLine`. */
  function Classify(reply: string): Verdict
  {
    if ReformatBullets(reply) == AllRelevantLine then Relevant else Irrelevant
  }

  /** Facts about the literal line, kept apart from the formatter. */
  lemma AllRelevantLineShape()
    ensures |AllRelevantLine| > 0 && NoDigits(AllRelevantLine)
    ensures AllRelevantLine[0] == '-'
    ensures !IsSpace(AllRelevantLine[0]) && !IsSpace(AllRelevantLine[|AllRelevantLine| - 1])
    ensures AllRelevantLine[|AllRelevantLine| - 1] != '.'
  {
  }

  /** A reply counts as "all relevant" exactly when, stripped and with one
      trailing period removed, it is the line itself: the newline insertion
      can neither produce nor spoil a match, since the line has no digit. */
  lemma ClassifyIff(reply: string)
    ensures Classify(reply) == Relevant <==> DropTrailingPeriod(Strip(reply)) == AllRelevantLine
  {
    AllRelevantLineShape();
    ReformatCharacterisation(reply);
    InsertBreaksOnlyFixes(AllRelevantLine, DropTrailingPeriod(Strip(reply)));
  }

  /** The reply the instructions ask for when all codes are relevant, with
      or without a final period, is classified "Relevant". */
  lemma AllRelevantReply(reply: string)
    requires reply == AllRelevantLine || reply == AllRelevantLine + "."
    ensures ReformatBullets(reply) == AllRelevantLine
    ensures Classify(reply) == Relevant
  {
    AllRelevantLineShape();
    ReformatPlainSentence(AllRelevantLine);
  }

  /** A reply whose first non-whitespace character is not a dash is never
      "all relevant"; this covers the error texts of the completion call and
      the "Invalid input" answer. */
  lemma ClassifyNeedsDash(reply: string)
    requires Strip(reply) == [] || Strip(reply)[0] != '-'
    ensures Classify(reply) == Irrelevant
  {
    AllRelevantLineShape();
    ClassifyIff(reply);
    DropTrailingPeriodIsLeftmostMatch(Strip(reply));
  }

  /** The text `evaluate_codes` returns when the completion call raises. */
  lemma ErrorReplyIrrelevant(msg: string)
    ensures Classify("Error: " + msg) == Irrelevant
  {
    var s := "Error: " + msg;
    StripCharacterisation(s);
    ClassifyNeedsDash(s);
  }

  /** Facts about the literals below, kept apart from the formatter. */
  lemma OtherLiterals()
    ensures "- all CPT codes are relevant to ICD codes." == "- all CPT codes are relevant to ICD codes" + "."
    ensures "- all CPT codes are relevant to ICD codes" != AllRelevantLine
  {
    assert "- all CPT codes are relevant to ICD codes"[2] != AllRelevantLine[2];
  }

  lemma LowerCaseLineNoDigits()
    ensures NoDigits("- all CPT codes are relevant to ICD codes")
  {
  }

  /** The comparison is case-sensitive. */
  lemma ClassifyCaseSensitive(reply: string)
    requires reply == "- all CPT codes are relevant to ICD codes."
    ensures Classify(reply) == Irrelevant
  {
    OtherLiterals();
    LowerCaseLineNoDigits();
    ReformatPlainSentence("- all CPT codes are relevant to ICD codes");
  }

  /** A reply holding a digit anywhere, such as a list of codes, is
      classified "Irrelevant": stripping and the period removal never delete
      a digit, and the all-relevant line has none. */
  lemma ClassifyCodeList(reply: string, i: int)
    requires 0 <= i < |reply| && IsDigit(reply[i])
    ensures Classify(reply) == Irrelevant
  {
    StripKeeps(reply, i);
    DropTrailingPeriodKeepsDigit(Strip(reply), i - LeadingSpaces(reply));
    AllRelevantLineShape();
    ClassifyIff(reply);
  }
}
