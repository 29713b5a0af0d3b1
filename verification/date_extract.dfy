/** `extractDatesFromText` from app/page.tsx: find the first
    case-insensitive "issue" and "expir", and give each the scanned date
    token whose start offset is nearest to it. */
module DateExtract {
  import opened Wrappers
  import opened Decimal
  import opened DateScan

  /** A calendar date kept as the raw triple the token spells out; month
      and day are 1-based and never range-checked. */
  datatype Date = Date(year: nat, month: nat, day: nat)

  /** What one run of the extractor decides for each field: `None` means
      the field is left as it was. */
  datatype Located = Located(issued: Option<Date>, expiration: Option<Date>)

  /** `Number.MAX_VALUE`, (2^53 - 1) * 2^971, the seed of the running minimum. */
  const MaxValue: int := 179769313486231570814527423731704356798070567525844996598917476803157260780028538760589558632766878171540458953514382464234321326889464182768467546703537516986049910576551282076245490090389328944075868508455133942304583236903222948165808559332123348274797826204144723168738177180919299881250404026184124858368

  /** The longest string an ECMAScript engine may hold: 2^53 - 1 code units. */
  const MaxStringLength: nat := 9007199254740991

  // ---------------------------------------------------------------------
  // Keyword lookup: `text.toLowerCase().indexOf(keyword)`

  /** ASCII case folding; every other character is kept. */
  function LowerChar(c: char): char {
    if 'A' <= c <= 'Z' then (c as int + 32) as char else c
  }

  function ToLower(s: string): string {
    seq(|s|, i requires 0 <= i < |s| => LowerChar(s[i]))
  }

  predicate OccursAt(s: string, pat: string, q: nat) {
    q + |pat| <= |s| && s[q..q + |pat|] == pat
  }

  /** `indexOf` from offset `from`, with `None` for JavaScript's -1. */
  function IndexFrom(s: string, pat: string, from: nat): (r: Option<nat>)
    ensures r.Some? ==> from <= r.value && OccursAt(s, pat, r.value)
    ensures forall q: nat :: from <= q && (r.None? || q < r.value) ==> !OccursAt(s, pat, q)
    decreases |s| - from
  {
    if from + |pat| > |s| then None
    else if s[from..from + |pat|] == pat then Some(from)
    else IndexFrom(s, pat, from + 1)
  }

  function IndexOf(s: string, pat: string): Option<nat> {
    IndexFrom(s, pat, 0)
  }

  /** The offset the extractor measures distances from, if the keyword occurs. */
  function KeywordOffset(text: string, keyword: string): Option<nat> {
    IndexOf(ToLower(text), keyword)
  }

  // ---------------------------------------------------------------------
  // Nearest token: the `for (const match of dates)` loop with strict `<`

  function Distance(a: int, b: int): nat {
    if a < b then b - a else a - b
  }

  function Dist(ms: seq<DateMatch>, key: nat, j: nat): nat
    requires j < |ms|
  {
    Distance(ms[j].index, key)
  }

  /** k is the first position in ms whose token is nearest to key. */
  predicate IsFirstNearest(ms: seq<DateMatch>, key: nat, k: nat) {
    && k < |ms|
    && (forall j :: 0 <= j < |ms| ==> Dist(ms, key, k) <= Dist(ms, key, j))
    && (forall j :: 0 <= j < k ==> Dist(ms, key, k) < Dist(ms, key, j))
  }

  /** The loop invariant after the first i tokens: either no token so far
      came below `Number.MAX_VALUE`, or `best` is the first nearest of them
      and `minDist` its distance. */
  predicate Scanned(ms: seq<DateMatch>, key: nat, i: nat, best: Option<nat>, minDist: int) {
    && i <= |ms|
    && match best
       case None =>
         minDist == MaxValue && forall j :: 0 <= j < i ==> Dist(ms, key, j) >= MaxValue
       case Some(k) =>
         && k < i
         && minDist == Dist(ms, key, k) < MaxValue
         && (forall j :: 0 <= j < i ==> Dist(ms, key, k) <= Dist(ms, key, j))
         && (forall j :: 0 <= j < k ==> Dist(ms, key, k) < Dist(ms, key, j))
  }

  /** The remaining iterations of the loop from token i on. */
  function NearestFrom(ms: seq<DateMatch>, key: nat, i: nat, best: Option<nat>, minDist: int): (r: Option<nat>)
    requires Scanned(ms, key, i, best, minDist)
    ensures r.Some? ==> IsFirstNearest(ms, key, r.value) && Dist(ms, key, r.value) < MaxValue
    ensures r.None? ==> forall j :: 0 <= j < |ms| ==> Dist(ms, key, j) >= MaxValue
    decreases |ms| - i
  {
    if i == |ms| then best
    else
      var d := Dist(ms, key, i);
      if d < minDist then NearestFrom(ms, key, i + 1, Some(i), d)
      else NearestFrom(ms, key, i + 1, best, minDist)
  }

  /** Position of the token the loop settles on, starting from
      `minDistance = Number.MAX_VALUE` and `closestDate = null`. */
  function Nearest(ms: seq<DateMatch>, key: nat): (r: Option<nat>)
    ensures r.Some? ==> IsFirstNearest(ms, key, r.value)
    ensures r.None? <==> forall j :: 0 <= j < |ms| ==> Dist(ms, key, j) >= MaxValue
  {
    NearestFrom(ms, key, 0, None, MaxValue)
  }

  /** At most one position is the first nearest one. */
  lemma FirstNearestUnique(ms: seq<DateMatch>, key: nat, k: nat, k': nat)
    requires IsFirstNearest(ms, key, k) && IsFirstNearest(ms, key, k')
    ensures k == k'
  {
    var dk, dk' := Dist(ms, key, k), Dist(ms, key, k');
  }

  /** Conversely, the first nearest token is the one chosen, provided it
      lies nearer than `Number.MAX_VALUE`. */
  lemma NearestChoosesFirstNearest(ms: seq<DateMatch>, key: nat, k: nat)
    requires IsFirstNearest(ms, key, k) && Dist(ms, key, k) < MaxValue
    ensures Nearest(ms, key) == Some(k)
  {
    var n := Nearest(ms, key).value;
    FirstNearestUnique(ms, key, n, k);
  }

  /** In a string an ECMAScript engine can hold, every token is nearer
      than `Number.MAX_VALUE`, so a non-empty token list always yields one. */
  lemma TokensAreNear(s: string, key: nat)
    requires |s| <= MaxStringLength && key < |s|
    ensures forall j :: 0 <= j < |Scan(s)| ==> Dist(Scan(s), key, j) < MaxValue
  {
  }

  // ---------------------------------------------------------------------
  // Date construction: `closestDate.split(/[/-]/).map(Number)`

  /** `split(/[/-]/)`: the pieces between separators, in order. */
  function Split(s: string): (parts: seq<string>)
    ensures |parts| >= 1
  {
    if s == [] then [[]]
    else if IsSep(s[0]) then [[]] + Split(s[1..])
    else
      var rest := Split(s[1..]);
      [[s[0]] + rest[0]] + rest[1..]
  }

  lemma {:induction false} SplitDigitsPrefix(a: string, t: string)
    requires AllDigits(a)
    ensures Split(a + t) == [a + Split(t)[0]] + Split(t)[1..]
  {
    var st := Split(t);
    if a == [] {
      assert a + t == t;
      assert a + st[0] == st[0];
      assert st == [st[0]] + st[1..];
    } else {
      assert (a + t)[0] == a[0] && !IsSep(a[0]);
      assert (a + t)[1..] == a[1..] + t;
      SplitDigitsPrefix(a[1..], t);
      var rest := Split(a[1..] + t);
      assert rest[0] == a[1..] + st[0];
      assert rest[1..] == st[1..];
      assert [a[0]] + (a[1..] + st[0]) == a + st[0];
    }
  }

  lemma SplitSepPrefix(c: char, t: string)
    requires IsSep(c)
    ensures Split([c] + t) == [[]] + Split(t)
  {
    assert ([c] + t)[1..] == t;
  }

  /** Splitting a token at its separators gives back its three groups. */
  lemma SplitToken(m: DateMatch)
    requires m.WellFormed()
    ensures Split(m.Text()) == [m.month, m.day, m.year]
  {
    var t3 := [m.sep2] + m.year;
    var t2 := m.day + t3;
    var t1 := [m.sep1] + t2;
    assert m.Text() == m.month + t1;
    SplitDigitsPrefix(m.year, []);
    assert m.year + [] == m.year;
    assert Split([]) == [[]];
    assert Split(m.year) == [m.year];
    SplitSepPrefix(m.sep2, m.year);
    assert Split(t3) == [[], m.year];
    SplitDigitsPrefix(m.day, t3);
    assert m.day + [] == m.day;
    assert Split(t2) == [m.day, m.year];
    SplitSepPrefix(m.sep1, t2);
    assert Split(t1) == [[], m.day, m.year];
    SplitDigitsPrefix(m.month, t1);
    assert m.month + [] == m.month;
  }

  /** `const [month, day, year] = ...; new Date(year, month - 1, day)`,
      kept as the raw triple: the token's groups in month/day/year order. */
  function DateOf(m: DateMatch): (d: Date)
    requires m.WellFormed()
    ensures d == Date(Value(m.year), Value(m.month), Value(m.day))
    ensures d.month < 100 && d.day < 100 && d.year < 10000
  {
    var parts := Split(m.Text());
    SplitToken(m);
    Date(Value(parts[2]), Value(parts[0]), Value(parts[1]))
  }

  // ---------------------------------------------------------------------
  // The extractor

  /** The date for one keyword: absent when the keyword is absent or when
      the loop keeps `closestDate` null. */
  function KeywordDate(text: string, ms: seq<DateMatch>, keyword: string): Option<Date>
    requires forall i :: 0 <= i < |ms| ==> ms[i].WellFormed()
  {
    match KeywordOffset(text, keyword)
    case None => None
    case Some(key) =>
      match Nearest(ms, key)
      case None => None
      case Some(k) => Some(DateOf(ms[k]))
  }

  function LocateDates(text: string): Located
  {
    var ms := Scan(text);
    if |ms| >= 1 then Located(KeywordDate(text, ms, "issue"), KeywordDate(text, ms, "expir"))
    else Located(None, None)
  }

  // ---------------------------------------------------------------------
  // Properties of the extractor

  /** q is where pat first occurs in s. */
  predicate FirstOccurrence(s: string, pat: string, q: nat) {
    OccursAt(s, pat, q) && forall q': nat :: q' < q ==> !OccursAt(s, pat, q')
  }

  lemma KeywordOffsetIsFirst(text: string, keyword: string, key: nat)
    requires FirstOccurrence(ToLower(text), keyword, key)
    ensures KeywordOffset(text, keyword) == Some(key)
  {
  }

  /** Text without any date-shaped substring sets neither field. */
  lemma NoTokensNoDates(text: string)
    requires forall m :: !MatchesAt(text, m)
    ensures LocateDates(text) == Located(None, None)
  {
    ScanEmptyIff(text);
  }

  /** A keyword that does not occur, in any letter case, leaves its field
      untouched however many date tokens the text holds. */
  lemma AbsentKeywordLeavesField(text: string)
    ensures (forall q: nat :: !OccursAt(ToLower(text), "issue", q)) ==> LocateDates(text).issued.None?
    ensures (forall q: nat :: !OccursAt(ToLower(text), "expir", q)) ==> LocateDates(text).expiration.None?
  {
  }

  /** The date for a keyword comes from the first token nearest to the
      keyword's first case-insensitive occurrence, with no distance cap. */
  lemma KeywordDateIsNearest(text: string, keyword: string, key: nat, k: nat)
    requires |text| <= MaxStringLength && |keyword| > 0
    requires FirstOccurrence(ToLower(text), keyword, key)
    requires IsFirstNearest(Scan(text), key, k)
    ensures Scan(text)[k].WellFormed()
    ensures KeywordDate(text, Scan(text), keyword) == Some(DateOf(Scan(text)[k]))
  {
    KeywordOffsetIsFirst(text, keyword, key);
    TokensAreNear(text, key);
    NearestChoosesFirstNearest(Scan(text), key, k);
  }

  /** The issued date is built from the first token nearest to "issue". */
  lemma IssuedIsNearest(text: string, key: nat, k: nat)
    requires |text| <= MaxStringLength
    requires FirstOccurrence(ToLower(text), "issue", key)
    requires IsFirstNearest(Scan(text), key, k)
    ensures Scan(text)[k].WellFormed()
    ensures LocateDates(text).issued == Some(DateOf(Scan(text)[k]))
  {
    KeywordDateIsNearest(text, "issue", key, k);
  }

  /** The expiration date is built from the first token nearest to "expir". */
  lemma ExpirationIsNearest(text: string, key: nat, k: nat)
    requires |text| <= MaxStringLength
    requires FirstOccurrence(ToLower(text), "expir", key)
    requires IsFirstNearest(Scan(text), key, k)
    ensures Scan(text)[k].WellFormed()
    ensures LocateDates(text).expiration == Some(DateOf(Scan(text)[k]))
  {
    KeywordDateIsNearest(text, "expir", key, k);
  }

  /** A field is set exactly when the text holds at least one token and
      its keyword occurs: within a string an engine can hold, the nearest
      loop always chooses some token. */
  lemma KeywordPresentSetsField(text: string)
    requires |text| <= MaxStringLength
    ensures LocateDates(text).issued.Some? <==> |Scan(text)| > 0 && KeywordOffset(text, "issue").Some?
    ensures LocateDates(text).expiration.Some? <==> |Scan(text)| > 0 && KeywordOffset(text, "expir").Some?
  {
    var ki := KeywordOffset(text, "issue");
    var ke := KeywordOffset(text, "expir");
    if ki.Some? {
      TokensAreNear(text, ki.value);
    }
    if ke.Some? {
      TokensAreNear(text, ke.value);
    }
  }

  /** Equal distances go to the token scanned first, because the loop
      replaces its choice only on a strictly smaller distance. */
  lemma TieGoesToEarliest(ms: seq<DateMatch>, key: nat, i: nat, j: nat)
    requires i < j < |ms| && Dist(ms, key, i) == Dist(ms, key, j) < MaxValue
    requires forall l :: 0 <= l < |ms| ==> Dist(ms, key, i) <= Dist(ms, key, l)
    ensures Nearest(ms, key) != Some(j)
  {
  }

  /** With a single token in the text, any keyword that occurs gets its
      date, however far away it lies. */
  lemma SingleTokenServesKeyword(text: string, keyword: string, q: nat)
    requires |text| <= MaxStringLength && |Scan(text)| == 1 && |keyword| > 0
    requires OccursAt(ToLower(text), keyword, q)
    ensures Scan(text)[0].WellFormed()
    ensures KeywordDate(text, Scan(text), keyword) == Some(DateOf(Scan(text)[0]))
  {
    var ms := Scan(text);
    var key := KeywordOffset(text, keyword);
    assert key.Some?;
    TokensAreNear(text, key.value);
    NearestChoosesFirstNearest(ms, key.value, 0);
  }

  /** Both searches run over the same token list: with a single token in
      the text, both keywords get its date. */
  lemma SingleTokenServesBoth(text: string, qi: nat, qe: nat)
    requires |text| <= MaxStringLength && |Scan(text)| == 1
    requires OccursAt(ToLower(text), "issue", qi) && OccursAt(ToLower(text), "expir", qe)
    ensures Scan(text)[0].WellFormed()
    ensures LocateDates(text).issued == Some(DateOf(Scan(text)[0]))
    ensures LocateDates(text).expiration == Some(DateOf(Scan(text)[0]))
  {
    SingleTokenServesKeyword(text, "issue", qi);
    SingleTokenServesKeyword(text, "expir", qe);
  }

  /** Whatever the extractor sets is the month/day/year triple of some
      token of the text, read without any range check. */
  lemma LocatedDatesComeFromTokens(text: string)
    ensures LocateDates(text).issued.Some? ==>
      exists m :: MatchesAt(text, m) && LocateDates(text).issued.value == Date(Value(m.year), Value(m.month), Value(m.day))
    ensures LocateDates(text).expiration.Some? ==>
      exists m :: MatchesAt(text, m) && LocateDates(text).expiration.value == Date(Value(m.year), Value(m.month), Value(m.day))
  {
    var ms := Scan(text);
    if ms != [] {
      var r := LocateDates(text);
      if r.issued.Some? {
        var k := Nearest(ms, KeywordOffset(text, "issue").value).value;
        assert MatchesAt(text, ms[k]);
      }
      if r.expiration.Some? {
        var k := Nearest(ms, KeywordOffset(text, "expir").value).value;
        assert MatchesAt(text, ms[k]);
      }
    }
  }
}
