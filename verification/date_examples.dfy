/** Worked inputs for the date extractor of app/page.tsx, each pinned to
    the exact result the model gives.

    Each example takes its text as a parameter `s` fixed by a precondition
    such as `s == "1" + "23/4/2020"`, rather than writing the literal into
    the conclusion. The pieces of the literal are cut where the proof
    slices the text, so that each slice is one piece, and the verifier
    reasons about those pieces instead of evaluating the scanner and the
    lower-casing character by character over the whole literal. */
module DateExamples {
  import opened Wrappers
  import opened Decimal
  import opened DateScan
  import opened DateExtract

  /** No word boundary in front: the match starts one digit into "123". */
  lemma NoBoundaryBefore(s: string)
    requires s == "1" + "23/4/2020"
    ensures Scan(s) == [DateMatch(1, "23", '/', "4", '/', "2020")]
  {
    var m := DateMatch(1, "23", '/', "4", '/', "2020");
    assert MatchesAt(s, m) by {
      assert s[1..10] == "23/4/2020";
    }
    assert !IsSep(s[1]) && !IsSep(s[2]);
    assert MatchAt(s, 0) == None;
    ScanStep(s, m);
  }

  /** No word boundary behind: a fifth year digit is left over. */
  lemma NoBoundaryAfter(s: string)
    requires s == "1/2/2020" + "1"
    ensures Scan(s) == [DateMatch(0, "1", '/', "2", '/', "2020")]
  {
    var m := DateMatch(0, "1", '/', "2", '/', "2020");
    assert MatchesAt(s, m) by {
      assert s[0..8] == "1/2/2020";
    }
    ScanStep(s, m);
  }

  /** The two separators are chosen independently. */
  lemma MixedSeparators(s: string)
    requires s == "7-4/1999"
    ensures Scan(s) == [DateMatch(0, "7", '-', "4", '/', "1999")]
  {
    var m := DateMatch(0, "7", '-', "4", '/', "1999");
    assert MatchesAt(s, m) by {
      assert s[0..8] == m.Text();
    }
    ScanStep(s, m);
  }

  lemma NoDatesHere(s: string)
    requires s == "no dates here"
    ensures LocateDates(s) == Located(None, None)
  {
    DigitFree(s, 0, |s|);
    SkipNonDigits(s, 0, |s|);
  }

  lemma OccurrenceSpellsPattern(s: string, pat: string, q: nat, i: nat)
    requires OccursAt(s, pat, q) && i < |pat|
    ensures s[q + i] == pat[i]
  {
    assert s[q..q + |pat|][i] == s[q + i];
  }

  lemma LowerSlice(s: string, i: nat, j: nat)
    requires i <= j <= |s|
    ensures ToLower(s)[i..j] == ToLower(s[i..j])
  {
  }

  /** Text with no upper-case ASCII letter is its own lower-case form. */
  lemma LowerOfLowercase(t: string)
    requires forall c :: c in t ==> !('A' <= c <= 'Z')
    ensures ToLower(t) == t
  {
    forall i | 0 <= i < |t|
      ensures ToLower(t)[i] == t[i]
    {
      assert t[i] in t;
    }
  }

  /** A letter missing, in both cases, from the first k characters of s
      is missing from the first k characters of its lower-case form. */
  lemma LowerMissing(s: string, c: char, k: nat)
    requires k <= |s|
    requires 'a' <= c <= 'z' && c !in s[..k] && (c as int - 32) as char !in s[..k]
    ensures forall i :: 0 <= i < k ==> ToLower(s)[i] != c
  {
    forall i | 0 <= i < k
      ensures ToLower(s)[i] != c
    {
      assert s[..k][i] in s[..k];
    }
  }

  /** A stretch of text whose characters include no digit. */
  lemma DigitFree(s: string, from: nat, to: nat)
    requires from <= to <= |s|
    requires forall c :: c in s[from..to] ==> !IsDigit(c)
    ensures forall i :: from <= i < to ==> !IsDigit(s[i])
  {
    forall i | from <= i < to
      ensures !IsDigit(s[i])
    {
      assert s[from..to][i - from] in s[from..to];
    }
  }

  /** A match at the scan position is taken whole, and scanning resumes
      at its end. */
  lemma ScanStep(s: string, m: DateMatch)
    requires MatchesAt(s, m)
    ensures ScanFrom(s, m.index) == [m] + ScanFrom(s, m.End())
  {
    MatchAtExact(s, m);
  }

  /** Text made of digit-free filler followed by one token. */
  lemma OneToken(s: string, m: DateMatch)
    requires MatchesAt(s, m) && m.End() == |s|
    requires forall i :: 0 <= i < m.index ==> !IsDigit(s[i])
    ensures Scan(s) == [m]
  {
    SkipNonDigits(s, 0, m.index);
    ScanStep(s, m);
  }

  /** Text made of digit-free filler, a token, digit-free filler and a
      second token. */
  lemma TwoTokens(s: string, m1: DateMatch, m2: DateMatch)
    requires MatchesAt(s, m1) && MatchesAt(s, m2)
    requires m1.End() <= m2.index && m2.End() == |s|
    requires forall i :: 0 <= i < m1.index ==> !IsDigit(s[i])
    requires forall i :: m1.End() <= i < m2.index ==> !IsDigit(s[i])
    ensures Scan(s) == [m1, m2]
  {
    SkipNonDigits(s, 0, m1.index);
    ScanStep(s, m1);
    SkipNonDigits(s, m1.End(), m2.index);
    ScanStep(s, m2);
  }

  lemma UncheckedText(s: string)
    requires s == "issue" + "d " + "13/45/2022"
    ensures MatchesAt(s, DateMatch(7, "13", '/', "45", '/', "2022")) && |s| == 17
    ensures forall i :: 0 <= i < 7 ==> !IsDigit(s[i])
  {
    assert s[7..17] == "13/45/2022";
    assert s[0..7] == "issue" + "d ";
    DigitFree(s, 0, 7);
  }

  lemma UncheckedScan(s: string)
    requires s == "issue" + "d " + "13/45/2022"
    ensures Scan(s) == [DateMatch(7, "13", '/', "45", '/', "2022")]
  {
    UncheckedText(s);
    OneToken(s, DateMatch(7, "13", '/', "45", '/', "2022"));
  }

  lemma UncheckedKeywords(s: string)
    requires s == "issue" + "d " + "13/45/2022"
    ensures FirstOccurrence(ToLower(s), "issue", 0)
    ensures forall q: nat :: !OccursAt(ToLower(s), "expir", q)
  {
    var low := ToLower(s);
    assert s[0..5] == "issue";
    LowerSlice(s, 0, 5);
    LowerOfLowercase("issue");
    LowerMissing(s, 'x', |s|);
    forall q: nat | OccursAt(low, "expir", q)
      ensures false
    {
      OccurrenceSpellsPattern(low, "expir", q, 1);
    }
  }

  lemma UncheckedDate()
    ensures DateOf(DateMatch(7, "13", '/', "45", '/', "2022")) == Date(2022, 13, 45)
  {
    ValueFourDigits('2', '0', '2', '2');
    ValueTwoDigits('1', '3');
    ValueTwoDigits('4', '5');
  }

  /** "issued 13/45/2022": month 13 and day 45 are taken as they stand,
      and with no "expir" the expiration date stays unset. */
  lemma UncheckedMonthAndDay(s: string)
    requires s == "issue" + "d " + "13/45/2022"
    ensures LocateDates(s) == Located(Some(Date(2022, 13, 45)), None)
  {
    UncheckedScan(s);
    UncheckedKeywords(s);
    IssuedIsNearest(s, 0, 0);
    UncheckedDate();
    AbsentKeywordLeavesField(s);
  }

  lemma IdCardFirstToken(s: string)
    requires s == "ID CARD " + "issue" + "d " + "01/15/2022" + " " + "expir" + "es " + "01/15/2025"
    ensures MatchesAt(s, DateMatch(15, "01", '/', "15", '/', "2022"))
  {
    assert s[15..25] == "01/15/2022";
  }

  lemma IdCardSecondToken(s: string)
    requires s == "ID CARD " + "issue" + "d " + "01/15/2022" + " " + "expir" + "es " + "01/15/2025"
    ensures MatchesAt(s, DateMatch(34, "01", '/', "15", '/', "2025"))
  {
    assert s[34..44] == "01/15/2025";
  }

  lemma IdCardFiller(s: string)
    requires s == "ID CARD " + "issue" + "d " + "01/15/2022" + " " + "expir" + "es " + "01/15/2025"
    ensures |s| == 44
    ensures forall i :: 0 <= i < 15 ==> !IsDigit(s[i])
    ensures forall i :: 25 <= i < 34 ==> !IsDigit(s[i])
  {
    assert s[0..15] == "ID CARD " + "issue" + "d ";
    DigitFree(s, 0, 15);
    assert s[25..34] == " " + "expir" + "es ";
    DigitFree(s, 25, 34);
  }

  lemma IdCardScan(s: string)
    requires s == "ID CARD " + "issue" + "d " + "01/15/2022" + " " + "expir" + "es " + "01/15/2025"
    ensures Scan(s) == [DateMatch(15, "01", '/', "15", '/', "2022"), DateMatch(34, "01", '/', "15", '/', "2025")]
  {
    IdCardFirstToken(s);
    IdCardSecondToken(s);
    IdCardFiller(s);
    TwoTokens(s, DateMatch(15, "01", '/', "15", '/', "2022"), DateMatch(34, "01", '/', "15", '/', "2025"));
  }

  lemma IdCardIssued(s: string)
    requires s == "ID CARD " + "issue" + "d " + "01/15/2022" + " " + "expir" + "es " + "01/15/2025"
    ensures FirstOccurrence(ToLower(s), "issue", 8)
  {
    var low := ToLower(s);
    assert s[8..13] == "issue";
    LowerSlice(s, 8, 13);
    LowerOfLowercase("issue");
    assert s[..9] == "ID CARD " + "i";
    LowerMissing(s, 's', 9);
    forall q: nat | q < 8 && OccursAt(low, "issue", q)
      ensures false
    {
      OccurrenceSpellsPattern(low, "issue", q, 1);
    }
  }

  lemma IdCardExpires(s: string)
    requires s == "ID CARD " + "issue" + "d " + "01/15/2022" + " " + "expir" + "es " + "01/15/2025"
    ensures FirstOccurrence(ToLower(s), "expir", 26)
  {
    var low := ToLower(s);
    assert s[26..31] == "expir";
    LowerSlice(s, 26, 31);
    LowerOfLowercase("expir");
    assert s[..27] == "ID CARD " + "issue" + "d " + "01/15/2022" + " " + "e";
    LowerMissing(s, 'x', 27);
    forall q: nat | q < 26 && OccursAt(low, "expir", q)
      ensures false
    {
      OccurrenceSpellsPattern(low, "expir", q, 1);
    }
  }

  lemma IdCardIssuedDate()
    ensures DateOf(DateMatch(15, "01", '/', "15", '/', "2022")) == Date(2022, 1, 15)
  {
    ValueFourDigits('2', '0', '2', '2');
    ValueTwoDigits('0', '1');
    ValueTwoDigits('1', '5');
  }

  lemma IdCardExpiryDate()
    ensures DateOf(DateMatch(34, "01", '/', "15", '/', "2025")) == Date(2025, 1, 15)
  {
    ValueFourDigits('2', '0', '2', '5');
    ValueTwoDigits('0', '1');
    ValueTwoDigits('1', '5');
  }

  /** "ID CARD issued 01/15/2022 expires 01/15/2025": each keyword takes
      the token just after it. */
  lemma IdCard(s: string)
    requires s == "ID CARD " + "issue" + "d " + "01/15/2022" + " " + "expir" + "es " + "01/15/2025"
    ensures LocateDates(s) == Located(Some(Date(2022, 1, 15)), Some(Date(2025, 1, 15)))
  {
    IdCardScan(s);
    IdCardIssued(s);
    IdCardExpires(s);
    assert IsFirstNearest(Scan(s), 8, 0);
    assert IsFirstNearest(Scan(s), 26, 1);
    IssuedIsNearest(s, 8, 0);
    ExpirationIsNearest(s, 26, 1);
    IdCardIssuedDate();
    IdCardExpiryDate();
  }
}
