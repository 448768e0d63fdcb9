/** Club slugs: making one from a name, and finding one no other club uses.
    Names arrive in lower case; everything outside a-z and 0-9 is a separator. */
module ClubSlug {
  import opened Common

  const MAX_SLUG_LENGTH := 100

  predicate Alnum(c: char) { 'a' <= c <= 'z' || '0' <= c <= '9' }

  // ---------------------------------------------------------------- slugify

  /** re.sub("[^a-z0-9]+", "-", s): every maximal run of separators becomes one dash. */
  function Dashed(s: string): string
  {
    if s == "" then ""
    else
      var r, c := Dashed(s[..|s| - 1]), s[|s| - 1];
      if Alnum(c) then r + [c] else if r != "" && r[|r| - 1] == '-' then r else r + "-"
  }

  function StripLeft(s: string): string { if s != "" && s[0] == '-' then StripLeft(s[1..]) else s }

  function StripRight(s: string): string { if s != "" && s[|s| - 1] == '-' then StripRight(s[..|s| - 1]) else s }

  function Normalized(s: string): string { StripRight(StripLeft(Dashed(s))) }

  function Slugify(s: string): string
  {
    var normalized := if Normalized(s) != "" then Normalized(s) else "club";
    if |normalized| <= MAX_SLUG_LENGTH then normalized else normalized[..MAX_SLUG_LENGTH]
  }

  /** Letters, digits and single dashes between them. */
  predicate Tidy(s: string)
  {
    && (forall i | 0 <= i < |s| :: Alnum(s[i]) || s[i] == '-')
    && forall i | 0 < i < |s| :: s[i] == '-' ==> s[i - 1] != '-'
  }

  predicate NoDashAhead(s: string) { s != "" ==> s[0] != '-' }

  predicate NoDashBehind(s: string) { s != "" ==> s[|s| - 1] != '-' }

  lemma {:induction false} DashedTidy(s: string)
    ensures Tidy(Dashed(s))
  {
    if s != "" { DashedTidy(s[..|s| - 1]); }
  }

  lemma {:induction false} StripLeftTidy(s: string)
    requires Tidy(s)
    ensures Tidy(StripLeft(s)) && NoDashAhead(StripLeft(s))
  {
    if s != "" && s[0] == '-' { StripLeftTidy(s[1..]); }
  }

  lemma {:induction false} StripRightTidy(s: string)
    requires Tidy(s) && NoDashAhead(s)
    ensures Tidy(StripRight(s)) && NoDashAhead(StripRight(s)) && NoDashBehind(StripRight(s))
  {
    if s != "" && s[|s| - 1] == '-' { StripRightTidy(s[..|s| - 1]); }
  }

  /** A slug is not empty, has at most 100 characters, all of them letters, digits or dashes, begins with a
      letter or digit and has no two dashes in a row. */
  lemma SlugifyWellFormed(s: string)
    ensures var slug := Slugify(s); 1 <= |slug| <= MAX_SLUG_LENGTH && Tidy(slug) && Alnum(slug[0])
  {
    DashedTidy(s);
    StripLeftTidy(Dashed(s));
    StripRightTidy(StripLeft(Dashed(s)));
    hide StripRight, StripLeft, Dashed;
  }

  /** The maximal runs of letters and digits in a name. */
  function Words(s: string): seq<string>
  {
    if s == "" then []
    else
      var ws, c := Words(s[..|s| - 1]), s[|s| - 1];
      if !Alnum(c) then ws
      else if ws != [] && Alnum(s[|s| - 2]) then ws[..|ws| - 1] + [ws[|ws| - 1] + [c]]
      else ws + [[c]]
  }

  function Joined(ws: seq<string>): string
  {
    if ws == [] then "" else if |ws| == 1 then ws[0] else Joined(ws[..|ws| - 1]) + "-" + ws[|ws| - 1]
  }

  lemma JoinedLonger(ws: seq<string>, c: char)
    requires ws != []
    ensures Joined(ws[..|ws| - 1] + [ws[|ws| - 1] + [c]]) == Joined(ws) + [c]
  {
    var front, last := ws[..|ws| - 1], ws[|ws| - 1];
    var longer := front + [last + [c]];
    assert longer[..|ws| - 1] == front && longer[|ws| - 1] == last + [c];
    if |ws| > 1 { assert Joined(front) + "-" + (last + [c]) == Joined(front) + "-" + last + [c]; }
  }

  lemma JoinedMore(ws: seq<string>, w: string)
    requires ws != []
    ensures Joined(ws + [w]) == Joined(ws) + "-" + w
  {
    assert (ws + [w])[..|ws|] == ws;
  }

  predicate SeparatorFirst(s: string) { s != "" && !Alnum(s[0]) }

  predicate SeparatorLast(s: string) { s != "" && !Alnum(s[|s| - 1]) }

  /** How one more character changes the joined words. */
  lemma JoinedStep(s: string)
    requires s != ""
    ensures var n := |s| - 1;
            var ws, j, j' := Words(s[..n]), Joined(Words(s[..n])), Joined(Words(s));
            && (Words(s) == [] <==> ws == [] && !Alnum(s[n]))
            && (ws == [] ==> j == "")
            && (if !Alnum(s[n]) then j' == j
                else if ws == [] then j' == [s[n]]
                else if Alnum(s[n - 1]) then j' == j + [s[n]]
                else j' == j + "-" + [s[n]])
  {
    var n := |s| - 1;
    var ws := Words(s[..n]);
    if Alnum(s[n]) && ws != [] {
      if Alnum(s[n - 1]) { JoinedLonger(ws, s[n]); } else { JoinedMore(ws, [s[n]]); }
    }
  }

  lemma {:induction false} WordsFacts(s: string)
    ensures Words(s) == [] ==> Joined(Words(s)) == "" && forall i | 0 <= i < |s| :: !Alnum(s[i])
    ensures Words(s) != []
            ==> s != "" && Joined(Words(s)) != "" && NoDashAhead(Joined(Words(s))) && NoDashBehind(Joined(Words(s)))
  {
    if s != "" {
      WordsFacts(s[..|s| - 1]);
      JoinedStep(s);
      hide Words, Joined;
    }
  }

  function Framed(lead: bool, j: string, trail: bool): string
  {
    (if lead then "-" else "") + j + (if trail then "-" else "")
  }

  lemma FramedFacts(lead: bool, j: string, c: char)
    ensures Framed(lead, j, false) + [c] == Framed(lead, j + [c], false)
    ensures Framed(lead, j, true) + [c] == Framed(lead, j + "-" + [c], false)
    ensures Framed(lead, j, false) + "-" == Framed(lead, j, true)
    ensures var f := Framed(lead, j, true); f != "" && f[|f| - 1] == '-'
    ensures j != "" && NoDashBehind(j) ==> var f := Framed(lead, j, false); f != "" && f[|f| - 1] != '-'
  {
  }

  lemma FramedWord(c: char)
    ensures Framed(false, [c], false) == [c] && Framed(true, [c], false) == "-" + [c]
  {
  }

  /** Dashing a name joins its words, with a dash for separators in front and behind. */
  lemma {:induction false} DashedJoins(s: string)
    ensures Dashed(s) == if Words(s) == [] then (if s == "" then "" else "-")
                         else Framed(SeparatorFirst(s), Joined(Words(s)), SeparatorLast(s))
  {
    if s != "" {
      var n := |s| - 1;
      var j, lead := Joined(Words(s[..n])), SeparatorFirst(s[..n]);
      DashedJoins(s[..n]);
      WordsFacts(s[..n]);
      JoinedStep(s);
      hide Words, Joined;
      FramedFacts(lead, j, s[n]);
      FramedFacts(true, "", s[n]);
      hide Framed;
      assert n > 0 ==> SeparatorFirst(s) == lead && SeparatorLast(s[..n]) == !Alnum(s[n - 1]);
      if Words(s[..n]) == [] {
        assert Framed(false, [s[n]], false) == [s[n]] && Framed(true, [s[n]], false) == "-" + [s[n]] by {
          FramedWord(s[n]);
        }
      }
    }
  }

  lemma StripBoth(j: string, lead: bool, trail: bool)
    requires j != "" && NoDashAhead(j) && NoDashBehind(j)
    ensures StripRight(StripLeft(Framed(lead, j, trail))) == j
  {
    var t := j + if trail then "-" else "";
    var d := Framed(lead, j, trail);
    assert if lead then d[1..] == t else d == t;
    assert StripLeft(t) == t;
    if trail { assert t[..|t| - 1] == j; }
  }

  /** A normalised name is its words joined by single dashes. */
  lemma NormalizedIsWordsJoined(s: string)
    ensures Normalized(s) == Joined(Words(s))
  {
    DashedJoins(s);
    WordsFacts(s);
    hide Dashed, Words, Joined;
    if Words(s) == [] {
      assert "-"[1..] == "";
    } else {
      StripBoth(Joined(Words(s)), SeparatorFirst(s), SeparatorLast(s));
    }
  }

  /** What a club is called in links: "club" for a name without a letter or digit, else the words of the name joined by
      single dashes, cut to their first 100 characters. */
  ghost function FirstSlug(name: string): string
  {
    if forall i | 0 <= i < |name| :: !('a' <= name[i] <= 'z') && !('0' <= name[i] <= '9') then "club"
    else
      var words := Joined(Words(name));
      if |words| > 100 then words[..100] else words
  }

  lemma {:induction false} WordsWhenLetters(s: string)
    ensures Words(s) != [] <==> exists i :: 0 <= i < |s| && Alnum(s[i])
  {
    if s != "" {
      var n := |s| - 1;
      WordsWhenLetters(s[..n]);
      if Alnum(s[n]) { assert Alnum(s[|s| - 1]); }
      if i :| 0 <= i < n && Alnum(s[..n][i]) { assert Alnum(s[i]); }
      if i :| 0 <= i < n && Alnum(s[i]) { assert Alnum(s[..n][i]); }
    }
  }

  /** Making a slug does exactly that. */
  lemma SlugifyIsFirstSlug(name: string)
    ensures Slugify(name) == FirstSlug(name)
  {
    NormalizedIsWordsJoined(name);
    WordsWhenLetters(name);
    WordsFacts(name);
    hide Normalized, Words, Joined;
  }

  lemma {:induction false} DashedOfTidy(s: string)
    requires Tidy(s)
    ensures Dashed(s) == s
  {
    if s != "" { DashedOfTidy(s[..|s| - 1]); }
  }

  lemma {:induction false} StripRightShorter(s: string)
    ensures |StripRight(s)| <= |s|
    ensures s != "" && s[|s| - 1] == '-' ==> |StripRight(s)| < |s|
  {
    if s != "" { StripRightShorter(s[..|s| - 1]); }
  }

  /** Making a slug of a slug changes nothing, unless the cut at 100 characters left a dash at its end. */
  lemma SlugifyTwiceIff(s: string)
    ensures Slugify(Slugify(s)) == Slugify(s)
       <==> !(|Normalized(s)| > MAX_SLUG_LENGTH && Normalized(s)[MAX_SLUG_LENGTH - 1] == '-')
  {
    var slug := Slugify(s);
    SlugifyWellFormed(s);
    DashedOfTidy(slug);
    assert StripLeft(slug) == slug;
    DashedTidy(s);
    StripLeftTidy(Dashed(s));
    StripRightTidy(StripLeft(Dashed(s)));
    if NoDashBehind(slug) {
      assert Normalized(slug) == slug;
    } else {
      StripRightShorter(slug);
    }
    hide StripRight, StripLeft, Dashed;
  }

  // ---------------------------------------------------------------- numbered candidates

  function Digit(d: nat): char
    requires d < 10
  {
    ['0', '1', '2', '3', '4', '5', '6', '7', '8', '9'][d]
  }

  /** str(n) */
  function Decimal(n: nat): (s: string)
    ensures |s| >= 1 && forall i | 0 <= i < |s| :: '0' <= s[i] <= '9'
  {
    if n < 10 then [Digit(n)] else Decimal(n / 10) + [Digit(n % 10)]
  }

  lemma DecimalParts(n: nat)
    ensures var s := Decimal(n);
            && s[|s| - 1] == Digit(n % 10)
            && (|s| == 1 <==> n < 10)
            && (n >= 10 ==> s[..|s| - 1] == Decimal(n / 10))
  {
  }

  function Power10(d: nat): nat { if d == 0 then 1 else 10 * Power10(d - 1) }

  /** A number is written with at most d digits if and only if it is below 10 to the power d. */
  lemma {:induction false} DecimalLength(n: nat, d: nat)
    requires d >= 1
    ensures |Decimal(n)| <= d <==> n < Power10(d)
  {
    assert Power10(1) == 10;
    if d > 1 {
      assert n < Power10(d) <==> n / 10 < Power10(d - 1);
      if n >= 10 { DecimalLength(n / 10, d - 1); } else { DecimalLength(n, d - 1); }
    }
  }

  /** The number a text of digits stands for. */
  function Reading(s: string): int
  {
    if s == "" then 0 else 10 * Reading(s[..|s| - 1]) + (s[|s| - 1] as int - '0' as int)
  }

  lemma DigitReads(d: nat)
    requires d < 10
    ensures Digit(d) as int - '0' as int == d
  {
  }

  /** A number is written so that it reads back as itself, without a leading zero. */
  lemma {:induction false} DecimalReads(n: nat)
    ensures Reading(Decimal(n)) == n && (n > 0 ==> Decimal(n)[0] != '0')
  {
    DecimalParts(n);
    DigitReads(n % 10);
    if n < 10 {
      assert Decimal(n)[..0] == "" && Reading("") == 0;
    } else {
      DecimalReads(n / 10);
      assert Decimal(n)[..|Decimal(n)| - 1][0] == Decimal(n)[0];
    }
  }

  lemma DigitInjective(d: nat, e: nat)
    requires d < 10 && e < 10 && Digit(d) == Digit(e)
    ensures d == e
  {
  }

  lemma {:induction false} DecimalInjective(m: nat, n: nat)
    requires Decimal(m) == Decimal(n)
    ensures m == n
  {
    DecimalParts(m);
    DecimalParts(n);
    hide Decimal;
    DigitInjective(m % 10, n % 10);
    if m >= 10 {
      DecimalInjective(m / 10, n / 10);
    }
  }

  function SuffixText(k: nat): string { "-" + Decimal(k) }

  /** Python's s[:n], where a negative n counts from the end. */
  function Prefix(s: string, n: int): string
  {
    if n >= 0 then (if n <= |s| then s[..n] else s) else if |s| + n >= 0 then s[..|s| + n] else ""
  }

  /** The k-th slug looked up: the base itself, then the numbered ones from 2 on. */
  function Candidate(base: string, k: nat): string
  {
    if k <= 1 then base else Prefix(base, MAX_SLUG_LENGTH - |SuffixText(k)|) + SuffixText(k)
  }

  /** A numbered candidate is the base, a dash and the number, the base cut to make 100 characters at most of it. For a
      number of 100 digits and more the cut is Python's from the end: it takes off what the number is too long. */
  lemma CandidateText(base: string, k: nat)
    requires k >= 2
    ensures var room, s := 99 - |Decimal(k)|, Candidate(base, k);
            s == (if room >= 0 then (if |base| <= room then base else base[..room])
                  else if |base| > -room then base[..|base| + room] else "") + "-" + Decimal(k)
  {
    hide Decimal;
  }

  /** Numbered candidates differ, although the base is cut to make room. */
  lemma CandidatesDiffer(base: string, j: nat, k: nat)
    requires 2 <= j && 2 <= k && Candidate(base, j) == Candidate(base, k)
    ensures j == k
  {
    var s, dj, dk := Candidate(base, j), Decimal(j), Decimal(k);
    hide Decimal;
    // the last dash of the text is where the number begins
    assert forall i | |s| - |dj| <= i < |s| :: s[i] == dj[i - (|s| - |dj|)];
    assert forall i | |s| - |dk| <= i < |s| :: s[i] == dk[i - (|s| - |dk|)];
    assert s[|s| - |dj| - 1] == '-' && s[|s| - |dk| - 1] == '-';
    assert |dj| == |dk|;
    assert dj == s[|s| - |dj|..] == dk;
    DecimalInjective(j, k);
  }

  /** The base equals a numbered candidate only when it has the full 100 characters, and then one at most. */
  lemma BaseAmongCandidates(base: string, j: nat, k: nat)
    requires 2 <= j && Candidate(base, j) == base && |SuffixText(j)| <= MAX_SLUG_LENGTH && |base| <= MAX_SLUG_LENGTH
    ensures |base| == MAX_SLUG_LENGTH
    ensures 2 <= k && Candidate(base, k) == base ==> k == j
  {
    if 2 <= k && Candidate(base, k) == base { CandidatesDiffer(base, j, k); }
  }

  lemma NextIsNew(base: string, m: nat, before: set<string>)
    requires m >= 2 && forall x | x in before :: exists k | 2 <= k < m :: Candidate(base, k) == x
    ensures Candidate(base, m) !in before
  {
    hide Candidate;
    if Candidate(base, m) in before {
      var k :| 2 <= k < m && Candidate(base, k) == Candidate(base, m);
      CandidatesDiffer(base, k, m);
    }
  }

  function Numbered(base: string, m: nat): (s: set<string>)
    ensures forall x :: x in s <==> exists k | 2 <= k <= m :: Candidate(base, k) == x
    ensures |s| == if m < 2 then 0 else m - 1
  {
    if m < 2 then {}
    else
      NextIsNew(base, m, Numbered(base, m - 1));
      Numbered(base, m - 1) + {Candidate(base, m)}
  }

  lemma {:induction false} SubsetSize<T>(s: set<T>, t: set<T>)
    requires s <= t
    ensures |s| <= |t|
    decreases s
  {
    if s != {} {
      var x :| x in s;
      SubsetSize(s - {x}, t - {x});
    }
  }

  /** Pigeonhole: taken numbered candidates are as many clubs. */
  lemma TakenCandidates(base: string, clubs: map<string, nat>, m: nat)
    requires forall k | 2 <= k <= m :: Candidate(base, k) in clubs
    ensures m <= |clubs| + 1
  {
    assert Numbered(base, m) <= clubs.Keys;
    SubsetSize(Numbered(base, m), clubs.Keys);
  }

  // ---------------------------------------------------------------- the search

  lemma FirstCandidate(base: string)
    ensures Candidate(base, 1) == base
  {
  }

  lemma NextCandidate(base: string, k: nat)
    requires k >= 2
    ensures Candidate(base, k) == Prefix(base, MAX_SLUG_LENGTH - |SuffixText(k)|) + SuffixText(k)
  {
  }

  predicate SlugText(slug: string) { slug != "" && forall i | 0 <= i < |slug| :: Alnum(slug[i]) || slug[i] == '-' }

  /** Every candidate is a text of letters, digits and dashes, and it has at most 100 characters if and only if it is
      the base or its number has fewer than 100 digits: from there on the cut is Python's cut from the end. */
  lemma CandidateWellFormed(name: string, k: nat)
    ensures SlugText(Candidate(Slugify(name), k))
    ensures |Candidate(Slugify(name), k)| <= MAX_SLUG_LENGTH <==> k <= 1 || |Decimal(k)| < MAX_SLUG_LENGTH
  {
    SlugifyWellFormed(name);
    hide Slugify, Decimal;
  }

  lemma SlugFound(name: string, k: nat, most: nat)
    requires k <= most < Power10(MAX_SLUG_LENGTH - 1)
    ensures SlugText(Candidate(Slugify(name), k)) && |Candidate(Slugify(name), k)| <= MAX_SLUG_LENGTH
  {
    hide Power10, Candidate, Slugify;
    CandidateWellFormed(name, k);
    DecimalLength(k, MAX_SLUG_LENGTH - 1);
  }

  /** `_unique_slug`: `clubs` maps every stored slug to its club, `club` is the one being renamed, if any.
      The search starts from the first slug of the name and stops within |clubs| + 2 lookups, at the first candidate no
      other club uses; with fewer than 10 to the power 99 clubs it is a slug of 1 to 100 letters, digits and dashes. */
  method UniqueSlug(name: string, clubs: map<string, nat>, club: Option<nat>) returns (slug: string, ghost lookups: nat)
    ensures 1 <= lookups <= |clubs| + 2
    ensures slug == Candidate(FirstSlug(name), lookups) && (slug in clubs ==> club == Some(clubs[slug]))
    ensures forall k | 1 <= k < lookups ::
              var passed := Candidate(FirstSlug(name), k); passed in clubs && club != Some(clubs[passed])
    ensures lookups == 1 ==> slug == FirstSlug(name)
    ensures |clubs| + 2 < Power10(99) ==>
              && 1 <= |slug| <= 100
              && forall i | 0 <= i < |slug| :: 'a' <= slug[i] <= 'z' || '0' <= slug[i] <= '9' || slug[i] == '-'
  {
    hide Candidate, Slugify, Power10, FirstSlug;
    var base := Slugify(name);
    SlugifyIsFirstSlug(name);
    FirstCandidate(base);
    slug := base;
    assert slug == Candidate(base, 1) by { FirstCandidate(base); }
    var suffix := 2;
    lookups := 1;
    while true
      invariant suffix == lookups + 1 >= 2
      invariant slug == Candidate(base, lookups)
      invariant forall k | 1 <= k < lookups ::
                  Candidate(base, k) in clubs && club != Some(clubs[Candidate(base, k)])
      invariant lookups <= |clubs| + 2
      decreases |clubs| + 2 - lookups
    {
      TakenCandidates(base, clubs, lookups - 1);
      if slug !in clubs || Some(clubs[slug]) == club {
        if |clubs| + 2 < Power10(MAX_SLUG_LENGTH - 1) { SlugFound(name, lookups, |clubs| + 2); }
        return;
      }
      TakenCandidates(base, clubs, lookups);
      var suffixText := SuffixText(suffix);
      slug := Prefix(base, MAX_SLUG_LENGTH - |suffixText|) + suffixText;
      assert slug == Candidate(base, suffix) by { NextCandidate(base, suffix); }
      suffix := suffix + 1;
      lookups := lookups + 1;
    }
  }
}
