/** The global regular expression `(\d{1,2})[/-](\d{1,2})[/-](\d{4})` as
    `text.matchAll` runs it in app/page.tsx: greedy one-or-two digit groups
    with backtracking, two independent separators, a four-digit year, no
    word boundaries, and scanning that resumes at the end of each match. */
module DateScan {
  import opened Wrappers
  import opened Decimal

  predicate IsSep(c: char) {
    c == '/' || c == '-'
  }

  /** One match: its start offset (`match.index`) and its three groups
      with the two separators between them. */
  datatype DateMatch = DateMatch(index: nat, month: string, sep1: char, day: string, sep2: char, year: string)
  {
    /** `match[0]`, the whole matched token. */
    function Text(): string {
      month + [sep1] + day + [sep2] + year
    }

    function End(): nat {
      index + |Text()|
    }

    /** The shape the pattern demands of the groups. */
    predicate WellFormed() {
      && 1 <= |month| <= 2 && AllDigits(month)
      && IsSep(sep1)
      && 1 <= |day| <= 2 && AllDigits(day)
      && IsSep(sep2)
      && |year| == 4 && AllDigits(year)
    }
  }

  /** Declarative reading of the pattern: m is a match of it lying in s at m.index. */
  predicate MatchesAt(s: string, m: DateMatch) {
    m.WellFormed() && m.End() <= |s| && s[m.index..m.End()] == m.Text()
  }

  /** One attempt of the regex engine at offset p with the first group
      holding n1 digits and the second n2. */
  function TryAt(s: string, p: nat, n1: nat, n2: nat): (r: Option<DateMatch>)
    ensures r.Some? ==> r.value.index == p && |r.value.month| == n1 && |r.value.day| == n2
  {
    var q := p + n1 + 1;
    var y := q + n2 + 1;
    if y + 4 <= |s| && AllDigits(s[p..p + n1]) && IsSep(s[p + n1])
       && AllDigits(s[q..q + n2]) && IsSep(s[q + n2]) && AllDigits(s[y..y + 4])
    then Some(DateMatch(p, s[p..p + n1], s[p + n1], s[q..q + n2], s[q + n2], s[y..y + 4]))
    else None
  }

  lemma TryAtSound(s: string, p: nat, n1: nat, n2: nat)
    requires 1 <= n1 <= 2 && 1 <= n2 <= 2
    requires TryAt(s, p, n1, n2).Some?
    ensures MatchesAt(s, TryAt(s, p, n1, n2).value)
  {
    var m := TryAt(s, p, n1, n2).value;
    var q := p + n1 + 1;
    var y := q + n2 + 1;
    assert s[p..y + 4] == s[p..p + n1] + [s[p + n1]] + s[q..q + n2] + [s[q + n2]] + s[y..y + 4];
  }

  lemma TryAtComplete(s: string, m: DateMatch)
    requires MatchesAt(s, m)
    ensures TryAt(s, m.index, |m.month|, |m.day|) == Some(m)
  {
    var p, n1, n2 := m.index, |m.month|, |m.day|;
    var q := p + n1 + 1;
    var y := q + n2 + 1;
    var t := s[p..m.End()];
    assert t == m.Text();
    assert t[..n1] == m.month;
    assert t[n1 + 1..n1 + 1 + n2] == m.day;
    assert t[n1 + n2 + 2..] == m.year;
    forall i | 0 <= i < n1
      ensures s[p + i] == m.month[i]
    {
      assert s[p + i] == t[i];
    }
    assert s[p + n1] == t[n1];
    forall i | 0 <= i < n2
      ensures s[q + i] == m.day[i]
    {
      assert s[q + i] == t[n1 + 1 + i];
    }
    assert s[q + n2] == t[n1 + 1 + n2];
    forall i | 0 <= i < 4
      ensures s[y + i] == m.year[i]
    {
      assert s[y + i] == t[n1 + n2 + 2 + i];
    }
    assert s[p..p + n1] == m.month;
    assert s[q..q + n2] == m.day;
    assert s[y..y + 4] == m.year;
  }

  /** The regex at offset p: the greedy groups try two digits before one,
      the first group varying slowest, as a backtracking engine does. */
  function MatchAt(s: string, p: nat): (r: Option<DateMatch>)
    ensures r.Some? ==> r.value.index == p && MatchesAt(s, r.value)
  {
    var a := TryAt(s, p, 2, 2);
    var b := TryAt(s, p, 2, 1);
    var c := TryAt(s, p, 1, 2);
    var d := TryAt(s, p, 1, 1);
    if a.Some? then (TryAtSound(s, p, 2, 2); a)
    else if b.Some? then (TryAtSound(s, p, 2, 1); b)
    else if c.Some? then (TryAtSound(s, p, 1, 2); c)
    else if d.Some? then (TryAtSound(s, p, 1, 1); d)
    else None
  }

  /** Two matches of the pattern cannot start at the same offset with
      different groups: a group boundary would need one character to be
      both a digit and a separator. */
  lemma MatchUnique(s: string, m: DateMatch, m': DateMatch)
    requires MatchesAt(s, m) && MatchesAt(s, m') && m.index == m'.index
    ensures m == m'
  {
    TryAtComplete(s, m);
    TryAtComplete(s, m');
  }

  /** The engine finds a match at p exactly when the pattern matches
      there, and the one it finds is the only one. */
  lemma MatchAtExact(s: string, m: DateMatch)
    requires MatchesAt(s, m)
    ensures MatchAt(s, m.index) == Some(m)
  {
    TryAtComplete(s, m);
    var r := MatchAt(s, m.index);
    MatchUnique(s, m, r.value);
  }

  /** `matchAll` from lastIndex `from`: try each offset in turn; after a
      match, resume at its end. */
  function ScanFrom(s: string, from: nat): (ms: seq<DateMatch>)
    ensures forall i :: 0 <= i < |ms| ==> MatchesAt(s, ms[i]) && from <= ms[i].index
    decreases |s| - from
  {
    if from >= |s| then []
    else match MatchAt(s, from)
      case Some(m) => [m] + ScanFrom(s, m.End())
      case None => ScanFrom(s, from + 1)
  }

  function Scan(s: string): (ms: seq<DateMatch>)
    ensures forall i :: 0 <= i < |ms| ==> MatchesAt(s, ms[i])
  {
    ScanFrom(s, 0)
  }

  /** Offset p lies inside one of the matches in ms. */
  predicate Covered(ms: seq<DateMatch>, p: nat) {
    exists i :: 0 <= i < |ms| && ms[i].index <= p < ms[i].End()
  }

  /** Scanned tokens are in increasing offset order and never overlap. */
  lemma {:induction false} ScanOrdered(s: string, from: nat)
    ensures forall i :: 0 <= i < |ScanFrom(s, from)| - 1 ==>
      ScanFrom(s, from)[i].End() <= ScanFrom(s, from)[i + 1].index
    decreases |s| - from
  {
    if from < |s| {
      match MatchAt(s, from)
      case Some(m) =>
        ScanOrdered(s, m.End());
      case None => ScanOrdered(s, from + 1);
    }
  }

  /** No match is skipped: every offset at or after `from` where the
      pattern matches lies inside some scanned token. With the contract of
      ScanFrom and ScanOrdered this pins the scan down as the leftmost non-overlapping one. */
  lemma {:induction false} ScanComplete(s: string, from: nat, p: nat)
    requires from <= p && MatchAt(s, p).Some?
    ensures Covered(ScanFrom(s, from), p)
    decreases |s| - from
  {
    var ms := ScanFrom(s, from);
    assert from < |s| by {
      assert MatchAt(s, p).value.End() <= |s|;
    }
    match MatchAt(s, from)
    case Some(m) =>
      if p < m.End() {
        assert ms[0].index <= p < ms[0].End();
      } else {
        ScanComplete(s, m.End(), p);
        var rest := ScanFrom(s, m.End());
        var i :| 0 <= i < |rest| && rest[i].index <= p < rest[i].End();
        assert ms[i + 1] == rest[i];
      }
    case None =>
      ScanComplete(s, from + 1, p);
  }

  /** The scan is empty exactly when no substring of s has the pattern's shape. */
  lemma ScanEmptyIff(s: string)
    ensures Scan(s) == [] <==> forall m :: !MatchesAt(s, m)
  {
    if Scan(s) == [] {
      forall m | MatchesAt(s, m)
        ensures false
      {
        MatchAtExact(s, m);
        ScanComplete(s, 0, m.index);
      }
    } else {
      assert MatchesAt(s, Scan(s)[0]);
    }
  }

  /** The pattern starts with a digit, so the scan passes over any run of
      other characters without finding anything in it. */
  lemma {:induction false} SkipNonDigits(s: string, from: nat, to: nat)
    requires from <= to <= |s|
    requires forall i :: from <= i < to ==> !IsDigit(s[i])
    ensures ScanFrom(s, from) == ScanFrom(s, to)
    decreases (to as int) - from
  {
    if from < to {
      assert MatchAt(s, from) == None by {
        if from + 2 <= |s| {
          assert s[from..from + 2][0] == s[from];
        }
        assert s[from..from + 1][0] == s[from];
      }
      SkipNonDigits(s, from + 1, to);
    }
  }
}
