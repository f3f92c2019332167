/** The worker's title heuristics (cmd/worker/main.go:282-326): relevance, canonical title,
    episode number and language, each a pure function of a playlist or video title. The two
    regular expressions are modelled as left-to-right scanners that follow RE2's
    leftmost-first alternation, greedy `\s*`/`\d{1,3}` and lazy `.*?` semantics. */
module Heuristics {
  import opened Wrappers
  import opened Text

  const IrrelevantKeywords: seq<string> := ["trailer", "pv", "ost", "theme song", "clip", "teaser"]
  const RelevantKeywords: seq<string> := ["episode", "full", "season", "s1", "s2", "s3", "s4"]
  const IndonesianKeywords: seq<string> := ["sub indo", "indonesia", "[id]"]

  // ================================================================ relevance

  /** A playlist is skipped exactly when its lower-cased title contains a blocked keyword;
      the allow-list is consulted afterwards but every path through it accepts. */
  function IsRelevantPlaylist(title: string): (r: bool)
    ensures r <==> !exists k :: 0 <= k < |IrrelevantKeywords| && IsSubstring(IrrelevantKeywords[k], ToLower(title))
  {
    var lowerTitle := ToLower(title);
    if ContainsAny(lowerTitle, IrrelevantKeywords) then false
    else if ContainsAny(lowerTitle, RelevantKeywords) then true
    else true
  }

  // ================================================================ language

  function ExtractLanguage(title: string): (r: string)
    ensures r == "id" || r == "en"
    ensures r == "id" <==> exists k :: 0 <= k < |IndonesianKeywords| && IsSubstring(IndonesianKeywords[k], ToLower(title))
  {
    if ContainsAny(ToLower(title), IndonesianKeywords) then "id" else "en"
  }

  // ================================================================ shared scanning helpers

  /** The lower-case literal `m` occurs case-insensitively at position p. */
  predicate MarkerAt(s: string, p: nat, m: string) {
    p + |m| <= |s| && ToLower(s[p..p + |m|]) == m
  }

  /** RE2's `\s`: tab, newline, form feed, carriage return and space. */
  predicate IsRegexSpace(c: char) {
    c == ' ' || c == '\t' || c == '\n' || c == '\U{000C}' || c == '\r'
  }

  ghost predicate AllRegexSpace(s: string) {
    forall i :: 0 <= i < |s| ==> IsRegexSpace(s[i])
  }

  /** Greedy `\s*` from i: the index just past the run of white space. */
  function SkipSpaces(s: string, i: nat): (j: nat)
    requires i <= |s|
    ensures i <= j <= |s| && AllRegexSpace(s[i..j])
    ensures j == |s| || !IsRegexSpace(s[j])
    decreases |s| - i
  {
    if i < |s| && IsRegexSpace(s[i]) then SkipSpaces(s, i + 1) else i
  }

  /** Greedy `\d{0,n}` from i: the index just past at most n digits. */
  function TakeDigits(s: string, i: nat, n: nat): (j: nat)
    requires i <= |s|
    ensures i <= j <= |s| && j - i <= n && AllDigits(s[i..j])
    ensures j - i == n || j == |s| || !IsDigit(s[j])
    decreases n
  {
    if n > 0 && i < |s| && IsDigit(s[i]) then TakeDigits(s, i + 1, n - 1) else i
  }

  // ================================================================ episode number

  const EpisodeMarkers: seq<string> := ["episode", "ep", "#"]

  /** Where a match of `(?i)(?:episode|ep|#)\s*(\d{1,3})` starts and where its digit group lies. */
  datatype DigitGroup = DigitGroup(matchStart: nat, digitsStart: nat, digitsEnd: nat)

  /** The alternative `m\s*(\d{1,3})` tried at p: the span of its digit group, if it matches. */
  function MarkerGroup(s: string, p: nat, m: string): (r: Option<DigitGroup>)
    requires p <= |s|
    ensures r.Some? ==> r.value.matchStart == p && p + |m| <= r.value.digitsStart < r.value.digitsEnd <= |s|
    ensures r.Some? ==> r.value.digitsEnd - r.value.digitsStart <= 3 && AllDigits(s[r.value.digitsStart..r.value.digitsEnd])
  {
    if MarkerAt(s, p, m) then
      var q := SkipSpaces(s, p + |m|);
      var e := TakeDigits(s, q, 3);
      if q < e then Some(DigitGroup(p, q, e)) else None
    else None
  }

  /** The pattern tried at p, alternatives in source order (leftmost-first). */
  function GroupAt(s: string, p: nat): (r: Option<DigitGroup>)
    requires p <= |s|
    ensures r.Some? ==> r.value.matchStart == p && p < r.value.digitsStart < r.value.digitsEnd <= |s|
    ensures r.Some? ==> r.value.digitsEnd - r.value.digitsStart <= 3 && AllDigits(s[r.value.digitsStart..r.value.digitsEnd])
  {
    var long := MarkerGroup(s, p, EpisodeMarkers[0]);
    if long.Some? then long
    else
      var short := MarkerGroup(s, p, EpisodeMarkers[1]);
      if short.Some? then short else MarkerGroup(s, p, EpisodeMarkers[2])
  }

  /** FindStringSubmatch: the leftmost position from p on where the pattern matches. */
  function FindGroup(s: string, p: nat): (r: Option<DigitGroup>)
    requires p <= |s|
    ensures r.Some? ==> p <= r.value.matchStart < r.value.digitsStart < r.value.digitsEnd <= |s|
    ensures r.Some? ==> r.value.digitsEnd - r.value.digitsStart <= 3 && AllDigits(s[r.value.digitsStart..r.value.digitsEnd])
    decreases |s| - p
  {
    if p == |s| then None
    else if GroupAt(s, p).Some? then GroupAt(s, p)
    else FindGroup(s, p + 1)
  }

  /** The episode number of a video title: the value of the captured 1-3 digits (strconv.Atoi
      always succeeds on them), or None when the pattern does not match. */
  function ExtractEpisodeNumber(videoTitle: string): (r: Option<nat>)
    ensures r.Some? ==> r.value <= 999
  {
    match FindGroup(videoTitle, 0)
    case None => None
    case Some(g) =>
      DigitsValueBound(videoTitle[g.digitsStart..g.digitsEnd]);
      Some(DigitsValue(videoTitle[g.digitsStart..g.digitsEnd]))
  }

  // ---------------------------------------------------------------- its declarative meaning

  /** The alternative `m` followed by white space covers s[p..q]. */
  ghost predicate MarkerSpan(s: string, p: int, q: int, m: string) {
    0 <= p && p + |m| <= q <= |s| && MarkerAt(s, p, m) && AllRegexSpace(s[p + |m|..q])
  }

  /** The regular expression matches s[p..e] with its capture group on s[q..e]. */
  ghost predicate EpisodeSpan(s: string, p: int, q: int, e: int) {
    0 <= p <= q < e <= |s| && e - q <= 3 && AllDigits(s[q..e])
    && exists k :: 0 <= k < |EpisodeMarkers| && MarkerSpan(s, p, q, EpisodeMarkers[k])
  }

  /** The match RE2 reports: it starts leftmost, and among the matches starting there it is
      the one whose greedy digit group is longest. */
  ghost predicate LeftmostGreedy(s: string, p: int, q: int, e: int) {
    EpisodeSpan(s, p, q, e)
    && forall p', q', e' :: EpisodeSpan(s, p', q', e') ==> p < p' || (p == p' && q == q' && e' <= e)
  }

  /** Any digit group that follows marker `m` at p is the one MarkerGroup finds, or a prefix of it. */
  lemma MarkerSpanForced(s: string, p: nat, q: int, e: int, m: string)
    requires MarkerSpan(s, p, q, m) && q < e <= |s| && e - q <= 3 && AllDigits(s[q..e])
    ensures q == SkipSpaces(s, p + |m|) && e <= TakeDigits(s, q, 3)
  {
    var j := SkipSpaces(s, p + |m|);
    var t := TakeDigits(s, q, 3);
    forall x | p + |m| <= x < j ensures IsRegexSpace(s[x]) {
      assert s[p + |m|..j][x - (p + |m|)] == s[x];
    }
    forall x | p + |m| <= x < q ensures IsRegexSpace(s[x]) {
      assert s[p + |m|..q][x - (p + |m|)] == s[x];
    }
    forall x | q <= x < e ensures IsDigit(s[x]) {
      assert s[q..e][x - q] == s[x];
    }
  }

  lemma MarkerGroupSpec(s: string, p: nat, m: string)
    requires p <= |s|
    ensures MarkerGroup(s, p, m).None? ==>
      forall q, e :: !(MarkerSpan(s, p, q, m) && q < e <= |s| && e - q <= 3 && AllDigits(s[q..e]))
    ensures MarkerGroup(s, p, m).Some? ==>
      var g := MarkerGroup(s, p, m).value;
      MarkerSpan(s, p, g.digitsStart, m)
      && forall q, e :: MarkerSpan(s, p, q, m) && q < e <= |s| && e - q <= 3 && AllDigits(s[q..e])
                        ==> q == g.digitsStart && e <= g.digitsEnd
  {
    forall q, e | MarkerSpan(s, p, q, m) && q < e <= |s| && e - q <= 3 && AllDigits(s[q..e])
      ensures MarkerGroup(s, p, m).Some?
      ensures q == MarkerGroup(s, p, m).value.digitsStart && e <= MarkerGroup(s, p, m).value.digitsEnd
    {
      MarkerSpanForced(s, p, q, e, m);
    }
  }

  /** After "episode", "ep" is followed by 'i', and "#" cannot start where 'e' does: once a
      marker is found at p, the later alternatives of the pattern cannot match there. */
  lemma LaterMarkersFail(s: string, p: nat)
    requires p <= |s|
    ensures MarkerAt(s, p, EpisodeMarkers[0]) ==> MarkerGroup(s, p, EpisodeMarkers[1]).None?
    ensures MarkerAt(s, p, EpisodeMarkers[0]) || MarkerAt(s, p, EpisodeMarkers[1]) ==>
              MarkerGroup(s, p, EpisodeMarkers[2]).None?
  {
    if MarkerAt(s, p, EpisodeMarkers[0]) {
      assert ToLower(s[p..p + 7])[2] == 'i';
      assert s[p..p + 7][2] == s[p + 2];
      assert SkipSpaces(s, p + 2) == p + 2;
    }
    if MarkerAt(s, p, EpisodeMarkers[0]) || MarkerAt(s, p, EpisodeMarkers[1]) {
      assert s[p..p + 1][0] == s[p];
      assert s[p..p + 2][0] == s[p];
      assert Lower(s[p]) == 'e';
      assert ToLower(s[p..p + 1])[0] == Lower(s[p]);
    }
  }

  /** A match of the alternative `EpisodeMarkers[k]` at p is covered by what GroupAt reports. */
  lemma GroupAtCovers(s: string, p: nat, q: int, e: int, k: nat)
    requires p <= |s| && k < |EpisodeMarkers|
    requires MarkerSpan(s, p, q, EpisodeMarkers[k]) && q < e <= |s| && e - q <= 3 && AllDigits(s[q..e])
    ensures GroupAt(s, p).Some? && q == GroupAt(s, p).value.digitsStart && e <= GroupAt(s, p).value.digitsEnd
  {
    MarkerGroupSpec(s, p, EpisodeMarkers[k]);
    LaterMarkersFail(s, p);
  }

  /** What GroupAt reports is a match of one of the alternatives. */
  lemma GroupAtSound(s: string, p: nat)
    requires p <= |s| && GroupAt(s, p).Some?
    ensures EpisodeSpan(s, p, GroupAt(s, p).value.digitsStart, GroupAt(s, p).value.digitsEnd)
  {
    var k := if MarkerGroup(s, p, EpisodeMarkers[0]).Some? then 0
             else if MarkerGroup(s, p, EpisodeMarkers[1]).Some? then 1 else 2;
    MarkerGroupSpec(s, p, EpisodeMarkers[k]);
    assert MarkerSpan(s, p, GroupAt(s, p).value.digitsStart, EpisodeMarkers[k]);
  }

  lemma GroupAtSpec(s: string, p: nat)
    requires p <= |s|
    ensures GroupAt(s, p).None? ==> forall q, e :: !EpisodeSpan(s, p, q, e)
    ensures GroupAt(s, p).Some? ==>
      var g := GroupAt(s, p).value;
      EpisodeSpan(s, p, g.digitsStart, g.digitsEnd)
      && forall q, e :: EpisodeSpan(s, p, q, e) ==> q == g.digitsStart && e <= g.digitsEnd
  {
    var g := GroupAt(s, p);
    forall q, e | EpisodeSpan(s, p, q, e)
      ensures g.Some? && q == g.value.digitsStart && e <= g.value.digitsEnd
    {
      var k :| 0 <= k < |EpisodeMarkers| && MarkerSpan(s, p, q, EpisodeMarkers[k]);
      GroupAtCovers(s, p, q, e, k);
    }
    if g.Some? {
      GroupAtSound(s, p);
    }
  }

  lemma {:induction false} FindGroupSpec(s: string, p0: nat)
    requires p0 <= |s|
    ensures FindGroup(s, p0).None? ==> forall p, q, e :: p0 <= p ==> !EpisodeSpan(s, p, q, e)
    ensures FindGroup(s, p0).Some? ==>
      var g := FindGroup(s, p0).value;
      EpisodeSpan(s, g.matchStart, g.digitsStart, g.digitsEnd)
      && forall p, q, e :: p0 <= p && EpisodeSpan(s, p, q, e) ==>
           g.matchStart < p || (g.matchStart == p && q == g.digitsStart && e <= g.digitsEnd)
    decreases |s| - p0
  {
    if p0 < |s| {
      GroupAtSpec(s, p0);
      if GroupAt(s, p0).None? {
        FindGroupSpec(s, p0 + 1);
        assert FindGroup(s, p0) == FindGroup(s, p0 + 1);
        forall p, q, e | p0 <= p && EpisodeSpan(s, p, q, e) ensures p0 + 1 <= p {
          if p == p0 {
            assert false;
          }
        }
      } else {
        assert FindGroup(s, p0) == GroupAt(s, p0);
      }
    }
  }

  /** The number is the value of the leftmost match's greedy digit group, and there is no
      number exactly when the pattern matches nowhere in the title. */
  lemma ExtractEpisodeNumberSpec(title: string)
    ensures ExtractEpisodeNumber(title).None? <==> forall p, q, e :: !EpisodeSpan(title, p, q, e)
    ensures ExtractEpisodeNumber(title).Some? ==>
      exists p, q, e :: LeftmostGreedy(title, p, q, e) && ExtractEpisodeNumber(title).value == DigitsValue(title[q..e])
  {
    FindGroupSpec(title, 0);
    var g := FindGroup(title, 0);
    if g.Some? {
      assert LeftmostGreedy(title, g.value.matchStart, g.value.digitsStart, g.value.digitsEnd);
    }
  }

  // ================================================================ canonical anime title

  /** `.*?` followed by `close` matches s[i..j + 1]: s[j] is `close` and no newline (which
      `.` does not match) comes before it. */
  ghost predicate LazyCloseAt(s: string, i: int, j: int, close: char) {
    0 <= i <= j < |s| && s[j] == close && forall m :: i <= m < j ==> s[m] != '\n'
  }

  /** The lazy `.*?` followed by `close`, from i: the shortest match, that is the first
      `close` with no newline before it; None when `.*?close` matches nowhere from i. */
  function CloseAt(s: string, i: nat, close: char): (r: Option<nat>)
    requires i <= |s|
    ensures r.Some? ==> i <= r.value < |s| && s[r.value] == close
    ensures r.Some? ==> LazyCloseAt(s, i, r.value, close) && forall j :: LazyCloseAt(s, i, j, close) ==> r.value <= j
    ensures r.None? ==> forall j :: !LazyCloseAt(s, i, j, close)
    decreases |s| - i
  {
    if i == |s| then None
    else if s[i] == close then Some(i)
    else if s[i] == '\n' then None
    else
      var r := CloseAt(s, i + 1, close);
      assert forall j :: LazyCloseAt(s, i, j, close) ==> LazyCloseAt(s, i + 1, j, close);
      r
  }

  /** The lower-case literal `lit` occurs case-insensitively at p and a digit follows it. */
  predicate LiteralDigitAt(s: string, p: nat, lit: string) {
    MarkerAt(s, p, lit) && p + |lit| < |s| && IsDigit(s[p + |lit|])
  }

  /** Length of the match of
        (?i)\[.*?\]|\(.*?\)|season \d|s\d|cour \d|part \d|full episode|sub indo
      at position p, alternatives tried in order; None when nothing matches there. */
  function DecorationAt(s: string, p: nat): (r: Option<nat>)
    requires p <= |s|
    ensures r.Some? ==> 2 <= r.value && p + r.value <= |s|
  {
    if p < |s| && s[p] == '[' && CloseAt(s, p + 1, ']').Some? then Some(CloseAt(s, p + 1, ']').value + 1 - p)
    else if p < |s| && s[p] == '(' && CloseAt(s, p + 1, ')').Some? then Some(CloseAt(s, p + 1, ')').value + 1 - p)
    else if LiteralDigitAt(s, p, "season ") then Some(8)
    else if LiteralDigitAt(s, p, "s") then Some(2)
    else if LiteralDigitAt(s, p, "cour ") then Some(6)
    else if LiteralDigitAt(s, p, "part ") then Some(6)
    else if MarkerAt(s, p, "full episode") then Some(12)
    else if MarkerAt(s, p, "sub indo") then Some(8)
    else None
  }

  /** The k-th alternative of
        (?i)\[.*?\]|\(.*?\)|season \d|s\d|cour \d|part \d|full episode|sub indo
      matches s[p..p + n]. */
  ghost predicate AltMatch(s: string, p: nat, k: nat, n: nat) {
    p + n <= |s|
    && if k == 0 then n >= 2 && s[p] == '[' && LazyCloseAt(s, p + 1, p + n - 1, ']')
       else if k == 1 then n >= 2 && s[p] == '(' && LazyCloseAt(s, p + 1, p + n - 1, ')')
       else if k == 2 then n == 8 && LiteralDigitAt(s, p, "season ")
       else if k == 3 then n == 2 && LiteralDigitAt(s, p, "s")
       else if k == 4 then n == 6 && LiteralDigitAt(s, p, "cour ")
       else if k == 5 then n == 6 && LiteralDigitAt(s, p, "part ")
       else if k == 6 then n == 12 && MarkerAt(s, p, "full episode")
       else k == 7 && n == 8 && MarkerAt(s, p, "sub indo")
  }

  /** No alternative matches at any position of [lo, hi). */
  ghost predicate NoMatchIn(s: string, lo: nat, hi: nat) {
    forall j: nat, k: nat, n: nat :: lo <= j < hi ==> !AltMatch(s, j, k, n)
  }

  /** The match RE2's leftmost-first semantics picks among those starting at p: the first
      alternative that matches there, and for the lazy bracket alternatives the shortest. */
  ghost predicate PreferredMatch(s: string, p: nat, n: nat) {
    exists k: nat :: AltMatch(s, p, k, n)
      && (forall k': nat, n': nat :: k' < k ==> !AltMatch(s, p, k', n'))
      && (forall n': nat :: AltMatch(s, p, k, n') ==> n <= n')
  }

  /** DecorationAt is the regular expression's match at p: None exactly when no alternative
      matches there, otherwise the length of the preferred match. */
  lemma DecorationAtSpec(s: string, p: nat)
    requires p <= |s|
    ensures DecorationAt(s, p).None? <==> NoMatchIn(s, p, p + 1)
    ensures DecorationAt(s, p).Some? ==> PreferredMatch(s, p, DecorationAt(s, p).value)
  {
    BracketCase(s, p);
    if p < |s| && s[p] == '[' && CloseAt(s, p + 1, ']').Some? {
      return;
    }
    ParenCase(s, p);
    if p < |s| && s[p] == '(' && CloseAt(s, p + 1, ')').Some? {
      return;
    }
    LiteralCases(s, p);
  }

  /** `\[.*?\]`: it matches at p exactly when a ']' closes the '[' on its line, and the
      shortest such match is the one CloseAt finds. */
  lemma BracketCase(s: string, p: nat)
    requires p <= |s|
    ensures p < |s| && s[p] == '[' && CloseAt(s, p + 1, ']').Some? ==>
              var n := CloseAt(s, p + 1, ']').value + 1 - p;
              AltMatch(s, p, 0, n) && forall n': nat :: AltMatch(s, p, 0, n') ==> n <= n'
    ensures !(p < |s| && s[p] == '[' && CloseAt(s, p + 1, ']').Some?) ==> forall n: nat :: !AltMatch(s, p, 0, n)
  {
    if p < |s| && s[p] == '[' {
      var c := CloseAt(s, p + 1, ']');
      if c.Some? {
        assert AltMatch(s, p, 0, c.value + 1 - p);
        assert forall n': nat :: AltMatch(s, p, 0, n') ==> LazyCloseAt(s, p + 1, p + n' - 1, ']');
      }
    }
  }

  /** `\(.*?\)`, the same way. */
  lemma ParenCase(s: string, p: nat)
    requires p <= |s|
    ensures p < |s| && s[p] == '(' && CloseAt(s, p + 1, ')').Some? ==>
              var n := CloseAt(s, p + 1, ')').value + 1 - p;
              AltMatch(s, p, 1, n) && forall n': nat :: AltMatch(s, p, 1, n') ==> n <= n'
    ensures !(p < |s| && s[p] == '(' && CloseAt(s, p + 1, ')').Some?) ==> forall n: nat :: !AltMatch(s, p, 1, n)
  {
    if p < |s| && s[p] == '(' {
      var c := CloseAt(s, p + 1, ')');
      if c.Some? {
        assert AltMatch(s, p, 1, c.value + 1 - p);
        assert forall n': nat :: AltMatch(s, p, 1, n') ==> LazyCloseAt(s, p + 1, p + n' - 1, ')');
      }
    }
  }

  /** The fixed-length alternatives, once neither bracket alternative matches. */
  lemma LiteralCases(s: string, p: nat)
    requires p <= |s|
    requires forall n: nat :: !AltMatch(s, p, 0, n) && !AltMatch(s, p, 1, n)
    requires !(p < |s| && s[p] == '[' && CloseAt(s, p + 1, ']').Some?)
    requires !(p < |s| && s[p] == '(' && CloseAt(s, p + 1, ')').Some?)
    ensures DecorationAt(s, p).None? <==> NoMatchIn(s, p, p + 1)
    ensures DecorationAt(s, p).Some? ==> PreferredMatch(s, p, DecorationAt(s, p).value)
  {
    if DecorationAt(s, p).Some? {
      LiteralMatch(s, p);
      var k: nat :| AltMatch(s, p, k, DecorationAt(s, p).value);
    } else {
      LiteralNoMatch(s, p);
    }
  }

  /** A fixed-length alternative matches: the first one that does is the preferred match. */
  lemma LiteralMatch(s: string, p: nat)
    requires p <= |s|
    requires forall n: nat :: !AltMatch(s, p, 0, n) && !AltMatch(s, p, 1, n)
    requires !(p < |s| && s[p] == '[' && CloseAt(s, p + 1, ']').Some?)
    requires !(p < |s| && s[p] == '(' && CloseAt(s, p + 1, ')').Some?)
    requires DecorationAt(s, p).Some?
    ensures PreferredMatch(s, p, DecorationAt(s, p).value)
  {
    if LiteralDigitAt(s, p, "season ") {
      FixedPreferred(s, p, 2, 8);
    } else if LiteralDigitAt(s, p, "s") {
      FixedPreferred(s, p, 3, 2);
    } else if LiteralDigitAt(s, p, "cour ") {
      FixedPreferred(s, p, 4, 6);
    } else if LiteralDigitAt(s, p, "part ") {
      FixedPreferred(s, p, 5, 6);
    } else if MarkerAt(s, p, "full episode") {
      FixedPreferred(s, p, 6, 12);
    } else {
      FixedPreferred(s, p, 7, 8);
    }
  }

  /** A fixed-length alternative that matches, with none before it matching, is preferred. */
  lemma FixedPreferred(s: string, p: nat, k: nat, n: nat)
    requires 2 <= k && AltMatch(s, p, k, n)
    requires forall k': nat, n': nat :: k' < k ==> !AltMatch(s, p, k', n')
    ensures PreferredMatch(s, p, n)
  {
    assert forall n': nat :: AltMatch(s, p, k, n') ==> n <= n';
  }

  /** No fixed-length alternative matches either: nothing matches at p. */
  lemma LiteralNoMatch(s: string, p: nat)
    requires p <= |s|
    requires forall n: nat :: !AltMatch(s, p, 0, n) && !AltMatch(s, p, 1, n)
    requires !(p < |s| && s[p] == '[' && CloseAt(s, p + 1, ']').Some?)
    requires !(p < |s| && s[p] == '(' && CloseAt(s, p + 1, ')').Some?)
    requires DecorationAt(s, p).None?
    ensures NoMatchIn(s, p, p + 1)
  {
    NoFixedMatch(s, p);
  }

  /** When none of the literal tests holds at p, no fixed-length alternative matches there. */
  lemma NoFixedMatch(s: string, p: nat)
    requires !LiteralDigitAt(s, p, "season ") && !LiteralDigitAt(s, p, "s")
    requires !LiteralDigitAt(s, p, "cour ") && !LiteralDigitAt(s, p, "part ")
    requires !MarkerAt(s, p, "full episode") && !MarkerAt(s, p, "sub indo")
    ensures forall k: nat, n: nat :: 2 <= k ==> !AltMatch(s, p, k, n)
  {
  }

  /** The preferred match at a position is unique. */
  lemma PreferredMatchUnique(s: string, p: nat, n1: nat, n2: nat)
    requires PreferredMatch(s, p, n1) && PreferredMatch(s, p, n2)
    ensures n1 == n2
  {
    var k1: nat :| AltMatch(s, p, k1, n1) && (forall k': nat, n': nat :: k' < k1 ==> !AltMatch(s, p, k', n'))
                   && (forall n': nat :: AltMatch(s, p, k1, n') ==> n1 <= n');
    var k2: nat :| AltMatch(s, p, k2, n2) && (forall k': nat, n': nat :: k' < k2 ==> !AltMatch(s, p, k', n'))
                   && (forall n': nat :: AltMatch(s, p, k2, n') ==> n2 <= n');
    assert k1 == k2;
  }

  /** A match removed by ReplaceAllString: where it starts and how long it is. */
  datatype Cut = Cut(start: nat, len: nat)

  /** `cuts` are the matches ReplaceAllString removes from s[from..]: each is the preferred
      match at the first position, at or after the end of the previous one, where the
      expression matches, and the expression matches nowhere after the last one. */
  ghost predicate LeftmostCuts(s: string, from: nat, cuts: seq<Cut>)
    decreases |cuts|
  {
    from <= |s|
    && if cuts == [] then NoMatchIn(s, from, |s| + 1)
       else
         var c := cuts[0];
         from <= c.start && c.start + c.len <= |s| && PreferredMatch(s, c.start, c.len)
         && NoMatchIn(s, from, c.start) && LeftmostCuts(s, c.start + c.len, cuts[1..])
  }

  /** The text of s[from..] that lies outside the cuts, in order. */
  ghost function Between(s: string, from: nat, cuts: seq<Cut>): string
    requires LeftmostCuts(s, from, cuts)
    decreases |cuts|
  {
    if cuts == [] then s[from..] else s[from..cuts[0].start] + Between(s, cuts[0].start + cuts[0].len, cuts[1..])
  }

  /** The removed matches are determined by the string: ReplaceAllString has one answer. */
  lemma {:induction false} LeftmostCutsUnique(s: string, from: nat, a: seq<Cut>, b: seq<Cut>)
    requires LeftmostCuts(s, from, a) && LeftmostCuts(s, from, b)
    ensures a == b
    decreases |a|
  {
    if (a != [] && b == []) || (a == [] && b != []) {
      assert false;
    } else if a != [] {
      var ka: nat :| AltMatch(s, a[0].start, ka, a[0].len);
      var kb: nat :| AltMatch(s, b[0].start, kb, b[0].len);
      assert a[0].start == b[0].start;
      PreferredMatchUnique(s, a[0].start, a[0].len, b[0].len);
      LeftmostCutsUnique(s, a[0].start + a[0].len, a[1..], b[1..]);
      assert a == [a[0]] + a[1..] && b == [b[0]] + b[1..];
    }
  }

  /** No decoration starts anywhere in s[p..]. */
  ghost predicate UndecoratedFrom(s: string, p: nat) {
    forall i :: p <= i <= |s| ==> DecorationAt(s, i).None?
  }

  /** ReplaceAllString(s[p..], ""): matches are found leftmost first, removed, and the search
      resumes at the end of each match, so removed matches never overlap. */
  function StripDecorations(s: string, p: nat): (r: string)
    requires p <= |s|
    ensures |r| <= |s| - p
    ensures UndecoratedFrom(s, p) ==> r == s[p..]
    decreases |s| - p
  {
    if p == |s| then []
    else match DecorationAt(s, p)
      case Some(n) => StripDecorations(s, p + n)
      case None =>
        assert s[p..] == [s[p]] + s[p + 1..];
        [s[p]] + StripDecorations(s, p + 1)
  }

  /** The matches ReplaceAllString removes from s[p..]: StripDecorations(s, p) is the text
      between them. */
  ghost function RemovedMatches(s: string, p: nat): (cuts: seq<Cut>)
    requires p <= |s|
    ensures LeftmostCuts(s, p, cuts)
    ensures StripDecorations(s, p) == Between(s, p, cuts)
    decreases |s| - p
  {
    if p == |s| then
      NothingAtEnd(s);
      []
    else if DecorationAt(s, p).Some? then
      var rest := RemovedMatches(s, p + DecorationAt(s, p).value);
      CutFirst(s, p, rest);
      [Cut(p, DecorationAt(s, p).value)] + rest
    else
      var rest := RemovedMatches(s, p + 1);
      KeepFirst(s, p, rest);
      rest
  }

  /** Nothing matches past the end of the text. */
  lemma NothingAtEnd(s: string)
    ensures LeftmostCuts(s, |s|, [])
    ensures StripDecorations(s, |s|) == Between(s, |s|, [])
  {
    assert forall j: nat, k: nat, n: nat :: |s| <= j < |s| + 1 ==> !AltMatch(s, j, k, n);
  }

  /** The match at p is the first cut, and the search resumes after it. */
  lemma CutFirst(s: string, p: nat, rest: seq<Cut>)
    requires p < |s| && DecorationAt(s, p).Some?
    requires LeftmostCuts(s, p + DecorationAt(s, p).value, rest)
    requires StripDecorations(s, p + DecorationAt(s, p).value) == Between(s, p + DecorationAt(s, p).value, rest)
    ensures LeftmostCuts(s, p, [Cut(p, DecorationAt(s, p).value)] + rest)
    ensures StripDecorations(s, p) == Between(s, p, [Cut(p, DecorationAt(s, p).value)] + rest)
  {
    PreferredAtDecoration(s, p);
    CutAtStart(s, p, rest);
    CutStep(s, p);
    SameText(StripDecorations(s, p), StripDecorations(s, p + DecorationAt(s, p).value),
             Between(s, p + DecorationAt(s, p).value, rest), Between(s, p, [Cut(p, DecorationAt(s, p).value)] + rest));
  }

  /** Where a decoration starts, it is the preferred match there. */
  lemma PreferredAtDecoration(s: string, p: nat)
    requires p <= |s| && DecorationAt(s, p).Some?
    ensures PreferredMatch(s, p, DecorationAt(s, p).value)
  {
    DecorationAtSpec(s, p);
  }

  /** Equal texts chained: a = b = c and d = c give a = d. */
  lemma SameText(a: string, b: string, c: string, d: string)
    requires a == b
    requires b == c
    requires d == c
    ensures a == d
  {
  }

  /** No match at p: s[p] is kept in front of what the rest strips to. */
  lemma KeepFirst(s: string, p: nat, rest: seq<Cut>)
    requires p < |s| && DecorationAt(s, p).None?
    requires LeftmostCuts(s, p + 1, rest) && StripDecorations(s, p + 1) == Between(s, p + 1, rest)
    ensures LeftmostCuts(s, p, rest)
    ensures StripDecorations(s, p) == Between(s, p, rest)
  {
    DecorationAtSpec(s, p);
    KeptAtStart(s, p, rest);
  }

  /** The preferred match at p is removed first, and the search resumes after it. */
  lemma CutAtStart(s: string, p: nat, rest: seq<Cut>)
    requires p < |s| && DecorationAt(s, p).Some?
    requires PreferredMatch(s, p, DecorationAt(s, p).value) && LeftmostCuts(s, p + DecorationAt(s, p).value, rest)
    ensures LeftmostCuts(s, p, [Cut(p, DecorationAt(s, p).value)] + rest)
    ensures Between(s, p, [Cut(p, DecorationAt(s, p).value)] + rest) == Between(s, p + DecorationAt(s, p).value, rest)
  {
    CutAtStartCuts(s, p, rest);
    CutAtStartText(s, p, rest);
  }

  lemma CutAtStartCuts(s: string, p: nat, rest: seq<Cut>)
    requires p < |s| && DecorationAt(s, p).Some?
    requires PreferredMatch(s, p, DecorationAt(s, p).value) && LeftmostCuts(s, p + DecorationAt(s, p).value, rest)
    ensures LeftmostCuts(s, p, [Cut(p, DecorationAt(s, p).value)] + rest)
  {
    ConsCutLeftmost(s, p, Cut(p, DecorationAt(s, p).value), rest);
  }

  lemma CutAtStartText(s: string, p: nat, rest: seq<Cut>)
    requires p < |s| && DecorationAt(s, p).Some?
    requires LeftmostCuts(s, p, [Cut(p, DecorationAt(s, p).value)] + rest)
    requires LeftmostCuts(s, p + DecorationAt(s, p).value, rest)
    ensures Between(s, p, [Cut(p, DecorationAt(s, p).value)] + rest) == Between(s, p + DecorationAt(s, p).value, rest)
  {
    ConsCutBetween(s, p, Cut(p, DecorationAt(s, p).value), rest);
    assert s[p..p] == [];
  }

  /** A cut c, preferred where it starts with nothing matching before it, in front of the
      cuts after its end. */
  lemma ConsCut(s: string, from: nat, c: Cut, rest: seq<Cut>)
    requires from <= c.start && c.start + c.len <= |s| && PreferredMatch(s, c.start, c.len)
    requires NoMatchIn(s, from, c.start) && LeftmostCuts(s, c.start + c.len, rest)
    ensures LeftmostCuts(s, from, [c] + rest)
    ensures Between(s, from, [c] + rest) == s[from..c.start] + Between(s, c.start + c.len, rest)
  {
    ConsCutLeftmost(s, from, c, rest);
    ConsCutBetween(s, from, c, rest);
  }

  lemma ConsCutLeftmost(s: string, from: nat, c: Cut, rest: seq<Cut>)
    requires from <= c.start && c.start + c.len <= |s| && PreferredMatch(s, c.start, c.len)
    requires NoMatchIn(s, from, c.start) && LeftmostCuts(s, c.start + c.len, rest)
    ensures LeftmostCuts(s, from, [c] + rest)
  {
    assert ([c] + rest)[0] == c && ([c] + rest)[1..] == rest;
  }

  lemma ConsCutBetween(s: string, from: nat, c: Cut, rest: seq<Cut>)
    requires LeftmostCuts(s, from, [c] + rest) && LeftmostCuts(s, c.start + c.len, rest)
    ensures Between(s, from, [c] + rest) == s[from..c.start] + Between(s, c.start + c.len, rest)
  {
    var cuts := [c] + rest;
    assert cuts[0] == c && cuts[1..] == rest;
    BetweenHead(s, from, cuts);
  }

  /** Between, one cut unfolded. */
  lemma BetweenHead(s: string, from: nat, cuts: seq<Cut>)
    requires cuts != [] && LeftmostCuts(s, from, cuts)
    ensures Between(s, from, cuts) == s[from..cuts[0].start] + Between(s, cuts[0].start + cuts[0].len, cuts[1..])
  {
  }

  /** A character at which nothing matches is kept, and the search goes on from the next one. */
  lemma KeptAtStart(s: string, p: nat, rest: seq<Cut>)
    requires p < |s| && NoMatchIn(s, p, p + 1) && LeftmostCuts(s, p + 1, rest)
    ensures LeftmostCuts(s, p, rest)
    ensures Between(s, p, rest) == [s[p]] + Between(s, p + 1, rest)
  {
    KeptAtStartCuts(s, p, rest);
    if rest == [] {
      assert s[p..] == [s[p]] + s[p + 1..];
    } else {
      var c := rest[0];
      assert s[p..c.start] == [s[p]] + s[p + 1..c.start];
      ConsRegroup(Between(s, p, rest), Between(s, p + 1, rest), s[p], s[p..c.start], s[p + 1..c.start],
                  Between(s, c.start + c.len, rest[1..]));
    }
  }

  lemma KeptAtStartCuts(s: string, p: nat, rest: seq<Cut>)
    requires p < |s| && NoMatchIn(s, p, p + 1) && LeftmostCuts(s, p + 1, rest)
    ensures LeftmostCuts(s, p, rest)
  {
    if rest == [] {
      NoMatchJoin(s, p, p + 1, |s| + 1);
    } else {
      NoMatchJoin(s, p, p + 1, rest[0].start);
    }
  }

  /** Regrouping `(x + v) + w` as `x + (v + w)`. */
  lemma ConsRegroup(a: string, b: string, x: char, u: string, v: string, w: string)
    requires a == u + w && b == v + w && u == [x] + v
    ensures a == [x] + b
  {
  }

  lemma NoMatchJoin(s: string, lo: nat, mid: nat, hi: nat)
    requires lo <= mid <= hi && NoMatchIn(s, lo, mid) && NoMatchIn(s, mid, hi)
    ensures NoMatchIn(s, lo, hi)
  {
  }

  /** The catalogue title of a playlist: decorations removed, then white space trimmed. */
  function ExtractAnimeTitle(playlistTitle: string): (r: string)
    ensures |r| <= |playlistTitle|
    ensures r != [] ==> !IsSpace(r[0]) && !IsSpace(r[|r| - 1])
    ensures UndecoratedFrom(playlistTitle, 0) ==> r == TrimSpace(playlistTitle)
  {
    TrimSpace(StripDecorations(playlistTitle, 0))
  }

  /** The catalogue title is the text outside the leftmost-first decoration matches, trimmed. */
  lemma ExtractAnimeTitleSpec(playlistTitle: string) returns (cuts: seq<Cut>)
    ensures LeftmostCuts(playlistTitle, 0, cuts)
    ensures ExtractAnimeTitle(playlistTitle) == TrimSpace(Between(playlistTitle, 0, cuts))
  {
    cuts := RemovedMatches(playlistTitle, 0);
  }

  // ---------------------------------------------------------------- worked titles

  /** A decoration can start at p only at a bracket, a parenthesis, or a letter whose
      successor continues one of the literal alternatives. */
  predicate MayStartDecoration(s: string, p: nat)
    requires p < |s|
  {
    s[p] == '[' || s[p] == '('
    || (p + 1 < |s|
        && var c, d := Lower(s[p]), Lower(s[p + 1]);
           (c == 's' && (IsDigit(d) || d == 'e' || d == 'u')) || (c == 'c' && d == 'o')
           || (c == 'p' && d == 'a') || (c == 'f' && d == 'u'))
  }

  /** The first characters of a literal alternative, when it is found at p. */
  lemma MarkerStart(s: string, p: nat, m: string)
    requires |m| >= 2
    ensures MarkerAt(s, p, m) ==> Lower(s[p]) == m[0] && Lower(s[p + 1]) == m[1]
  {
    if MarkerAt(s, p, m) {
      var w := s[p..p + |m|];
      assert ToLower(w)[0] == Lower(w[0]) && ToLower(w)[1] == Lower(w[1]);
    }
  }

  /** `s\d` found at p starts with an 's' or 'S'. */
  lemma ShortSeasonStart(s: string, p: nat)
    ensures LiteralDigitAt(s, p, "s") ==> Lower(s[p]) == 's' && IsDigit(s[p + 1])
  {
    if LiteralDigitAt(s, p, "s") {
      var w := s[p..p + 1];
      assert ToLower(w)[0] == Lower(w[0]);
    }
  }

  /** No alternative matches where no decoration may start. */
  lemma NoDecorationStart(s: string, p: nat)
    requires p < |s| && !MayStartDecoration(s, p)
    ensures DecorationAt(s, p).None?
  {
    NoLiteralStart(s, p);
  }

  lemma NoLiteralStart(s: string, p: nat)
    requires p < |s| && !MayStartDecoration(s, p)
    ensures s[p] != '[' && s[p] != '('
    ensures !LiteralDigitAt(s, p, "season ") && !LiteralDigitAt(s, p, "s")
    ensures !LiteralDigitAt(s, p, "cour ") && !LiteralDigitAt(s, p, "part ")
    ensures !MarkerAt(s, p, "full episode") && !MarkerAt(s, p, "sub indo")
  {
    MarkerStart(s, p, "season ");
    MarkerStart(s, p, "cour ");
    MarkerStart(s, p, "part ");
    MarkerStart(s, p, "full episode");
    MarkerStart(s, p, "sub indo");
    ShortSeasonStart(s, p);
  }

  /** A character at which no decoration may start is kept. */
  lemma KeptPlain(s: string, p: nat)
    requires p < |s| && !MayStartDecoration(s, p)
    ensures StripDecorations(s, p) == [s[p]] + StripDecorations(s, p + 1)
  {
    NoDecorationStart(s, p);
  }

  /** s[p..q] holds no character at which a decoration may start. */
  ghost predicate PlainRun(s: string, p: nat, q: nat)
    requires q <= |s|
  {
    forall j :: p <= j < q ==> !MayStartDecoration(s, j)
  }

  /** A plain run is kept as it is. */
  lemma {:induction false} StripPlainRun(s: string, p: nat, q: nat)
    requires p <= q <= |s| && PlainRun(s, p, q)
    ensures StripDecorations(s, p) == s[p..q] + StripDecorations(s, q)
    decreases q - p
  {
    if p < q {
      StripPlainRun(s, p + 1, q);
      KeptBeforeRun(s, p, q);
    } else {
      assert s[p..q] == [];
    }
  }

  /** One plain character in front of a run already known to be kept. */
  lemma KeptBeforeRun(s: string, p: nat, q: nat)
    requires p < q <= |s| && !MayStartDecoration(s, p)
    requires StripDecorations(s, p + 1) == s[p + 1..q] + StripDecorations(s, q)
    ensures StripDecorations(s, p) == s[p..q] + StripDecorations(s, q)
  {
    KeptPlain(s, p);
    SliceCons(s, p, q);
    ConsAppend(StripDecorations(s, p), StripDecorations(s, p + 1), StripDecorations(s, q), s[p], s[p + 1..q], s[p..q]);
  }

  lemma SliceCons(s: string, p: nat, q: nat)
    requires p < q <= |s|
    ensures s[p..q] == [s[p]] + s[p + 1..q]
  {
  }

  /** Regrouping `[x] + (run + rest)` as `([x] + run) + rest`. */
  lemma ConsAppend(a: string, b: string, c: string, x: char, run: string, whole: string)
    requires a == [x] + b && b == run + c && whole == [x] + run
    ensures a == whole + c
  {
  }

  /** A literal alternative is found at p when each character lower-cases to the literal's. */
  lemma MarkerAtChars(s: string, p: nat, m: string)
    requires p + |m| <= |s| && forall i :: 0 <= i < |m| ==> Lower(s[p + i]) == m[i]
    ensures MarkerAt(s, p, m)
  {
    var w := s[p..p + |m|];
    assert forall i :: 0 <= i < |m| ==> ToLower(w)[i] == m[i];
  }

  /** Cutting the match found at a skips to its end. */
  lemma CutStep(s: string, a: nat)
    requires a < |s| && DecorationAt(s, a).Some?
    ensures StripDecorations(s, a) == StripDecorations(s, a + DecorationAt(s, a).value)
  {
  }

  /** A match that reaches the end of the title leaves nothing after it. */
  lemma LastCut(s: string, a: nat)
    requires a < |s| && DecorationAt(s, a).Some? && a + DecorationAt(s, a).value == |s|
    ensures StripDecorations(s, a) == []
  {
    CutStep(s, a);
  }

  /** A plain run, then a match: the run is kept and the match removed. */
  lemma PlainThenCut(s: string, p: nat, a: nat)
    requires p <= a < |s| && PlainRun(s, p, a) && DecorationAt(s, a).Some?
    ensures StripDecorations(s, p) == s[p..a] + StripDecorations(s, a + DecorationAt(s, a).value)
  {
    StripPlainRun(s, p, a);
    CutStep(s, a);
  }

  /** A plain run followed by a match that reaches the end leaves just the run. */
  lemma PlainThenLastCut(s: string, p: nat, a: nat)
    requires p <= a < |s| && PlainRun(s, p, a) && DecorationAt(s, a).Some? && a + DecorationAt(s, a).value == |s|
    ensures StripDecorations(s, p) == s[p..a]
  {
    StripPlainRun(s, p, a);
    LastCut(s, a);
  }

  /** A plain title stays plain when a space follows it. */
  lemma PlainBeforeSpace(t: string, rest: string)
    requires PlainRun(t, 0, |t|) && rest != [] && rest[0] == ' '
    ensures PlainRun(t + rest, 0, |t| + 1)
  {
    var s := t + rest;
    forall j | 0 <= j < |t| + 1
      ensures !MayStartDecoration(s, j)
    {
      if j + 1 < |t| {
        assert s[j] == t[j] && s[j + 1] == t[j + 1];
        assert !MayStartDecoration(t, j);
      } else if j + 1 == |t| {
        assert s[j] == t[j] && s[j + 1] == ' ';
        assert !MayStartDecoration(t, j);
      } else {
        assert s[j] == ' ';
      }
    }
  }

  /** "Season " and a digit at u is the eight-character `season \d` match. */
  lemma SeasonAt(s: string, u: nat)
    requires u + 8 <= |s| && s[u..u + 7] == "Season " && IsDigit(s[u + 7])
    ensures DecorationAt(s, u).Some? && DecorationAt(s, u).value == 8
  {
    SeasonMarker(s, u);
  }

  lemma SeasonMarker(s: string, u: nat)
    requires u + 8 <= |s| && s[u..u + 7] == "Season "
    ensures s[u] == 'S' && MarkerAt(s, u, "season ")
  {
    assert forall i :: 0 <= i < 7 ==> s[u + i] == "Season "[i];
    assert forall i :: 0 <= i < 7 ==> Lower("Season "[i]) == "season "[i];
    MarkerAtChars(s, u, "season ");
  }

  /** A bracket tag holding no ']' and no line break. */
  ghost predicate PlainTag(tag: string) {
    forall i :: 0 <= i < |tag| ==> tag[i] != ']' && tag[i] != '\n'
  }

  /** "[" + tag + "]" at u is one `\[.*?\]` match spanning the whole tag. */
  lemma BracketAt(s: string, u: nat, tag: string)
    requires u + |tag| + 2 <= |s| && s[u] == '[' && s[u + 1..u + 1 + |tag|] == tag && s[u + 1 + |tag|] == ']'
    requires PlainTag(tag)
    ensures DecorationAt(s, u).Some? && DecorationAt(s, u).value == |tag| + 2
  {
    var e := u + 1 + |tag|;
    assert forall m :: u + 1 <= m < e ==> s[m] == tag[m - u - 1];
    assert LazyCloseAt(s, u + 1, e, ']');
    var c := CloseAt(s, u + 1, ']');
    assert c.Some? && c.value <= e;
    assert s[c.value] == ']';
    assert c.value == e;
  }

  lemma SeasonSuffixFacts(t: string, d: char)
    requires PlainRun(t, 0, |t|) && IsDigit(d)
    ensures var s := t + " Season " + [d];
            PlainRun(s, 0, |t| + 1) && DecorationAt(s, |t| + 1).Some?
            && |t| + 1 + DecorationAt(s, |t| + 1).value == |s| && s[..|t| + 1] == t + " "
  {
    var s := t + " Season " + [d];
    var n := |t|;
    assert s == t + (" Season " + [d]);
    PlainBeforeSpace(t, " Season " + [d]);
    assert s[n + 1..n + 8] == "Season ";
    SeasonAt(s, n + 1);
  }

  /** A plain title followed by " Season " and a digit is catalogued under the title. */
  lemma SeasonSuffixTitle(t: string, d: char)
    requires t != [] && !IsSpace(t[0]) && !IsSpace(t[|t| - 1]) && PlainRun(t, 0, |t|) && IsDigit(d)
    ensures ExtractAnimeTitle(t + " Season " + [d]) == t
  {
    SeasonSuffixFacts(t, d);
    PlainThenLastCut(t + " Season " + [d], 0, |t| + 1);
    TrimTrailing(t, " ");
  }

  lemma TagFacts(t: string, tag: string, rest: string)
    requires PlainRun(t, 0, |t|) && PlainTag(tag)
    ensures var s := t + (" [" + tag + "]" + rest);
            PlainRun(s, 0, |t| + 1) && DecorationAt(s, |t| + 1).Some?
            && |t| + 1 + DecorationAt(s, |t| + 1).value == |t| + |tag| + 3 && s[..|t| + 1] == t + " "
  {
    var r := " [" + tag + "]" + rest;
    var s := t + r;
    var n := |t|;
    assert r[0] == ' ' && r[1] == '[' && r[2..2 + |tag|] == tag && r[2 + |tag|] == ']';
    PlainBeforeSpace(t, r);
    assert s[n + 1] == '[' && s[n + 2..n + 2 + |tag|] == tag && s[n + 2 + |tag|] == ']';
    BracketAt(s, n + 1, tag);
  }

  /** A plain title followed by a bracketed tag is catalogued under the title. */
  lemma TagSuffixTitle(t: string, tag: string)
    requires t != [] && !IsSpace(t[0]) && !IsSpace(t[|t| - 1]) && PlainRun(t, 0, |t|) && PlainTag(tag)
    ensures ExtractAnimeTitle(t + " [" + tag + "]") == t
  {
    TagFacts(t, tag, []);
    assert t + (" [" + tag + "]" + []) == t + " [" + tag + "]";
    PlainThenLastCut(t + " [" + tag + "]", 0, |t| + 1);
    TrimTrailing(t, " ");
  }

  /** " Season " and a digit closing the title leaves one space. */
  lemma SpaceSeasonAtEnd(s: string, v: nat)
    requires v + 9 == |s| && s[v..v + 8] == " Season " && IsDigit(s[v + 8])
    ensures StripDecorations(s, v) == " "
  {
    assert s[v] == ' ';
    assert PlainRun(s, v, v + 1);
    assert s[v + 1..v + 8] == "Season ";
    SeasonAt(s, v + 1);
    PlainThenLastCut(s, v, v + 1);
  }

  lemma SeasonTailFacts(t: string, tag: string, d: char, v: nat)
    requires IsDigit(d) && v == |t| + |tag| + 3
    ensures var s := t + (" [" + tag + "]" + (" Season " + [d]));
            v + 9 == |s| && s[v..v + 8] == " Season " && IsDigit(s[v + 8])
  {
    var s := t + (" [" + tag + "]" + (" Season " + [d]));
    assert s[v..] == " Season " + [d];
  }

  /** A plain run, one match, a space and a season marker closing the title: the run and
      the space are kept. */
  lemma PlainCutSpaceSeason(s: string, a: nat)
    requires a < |s| && PlainRun(s, 0, a) && DecorationAt(s, a).Some?
    requires var w := a + DecorationAt(s, a).value;
             w + 9 == |s| && s[w..w + 8] == " Season " && IsDigit(s[w + 8])
    ensures StripDecorations(s, 0) == s[..a] + " "
  {
    var w := a + DecorationAt(s, a).value;
    PlainThenCut(s, 0, a);
    SpaceSeasonAtEnd(s, w);
    JoinKept(StripDecorations(s, 0), s[0..a], StripDecorations(s, w), s[..a]);
  }

  lemma JoinKept(x: string, kept: string, rest: string, prefix: string)
    requires x == kept + rest && rest == " " && kept == prefix
    ensures x == prefix + " "
  {
  }

  lemma TagSeasonStrip(t: string, tag: string, d: char)
    requires PlainRun(t, 0, |t|) && PlainTag(tag) && IsDigit(d)
    ensures StripDecorations(t + " [" + tag + "] Season " + [d], 0) == t + "  "
  {
    var s := t + (" [" + tag + "]" + (" Season " + [d]));
    TagFacts(t, tag, " Season " + [d]);
    SeasonTailFacts(t, tag, d, |t| + 1 + DecorationAt(s, |t| + 1).value);
    PlainCutSpaceSeason(s, |t| + 1);
    TagSeasonRegroup(t, tag, d);
    SpaceAfter(s[..|t| + 1], t);
  }

  lemma TagSeasonRegroup(t: string, tag: string, d: char)
    ensures t + (" [" + tag + "]" + (" Season " + [d])) == t + " [" + tag + "] Season " + [d]
  {
  }

  lemma SpaceAfter(x: string, t: string)
    requires x == t + " "
    ensures x + " " == t + "  "
  {
  }

  /** A plain title, a bracketed tag and " Season " with a digit: the catalogue title is the
      title; both decorations are cut and the spaces left around them trimmed. */
  lemma TagSeasonTitle(t: string, tag: string, d: char)
    requires t != [] && !IsSpace(t[0]) && !IsSpace(t[|t| - 1]) && PlainRun(t, 0, |t|) && PlainTag(tag) && IsDigit(d)
    ensures ExtractAnimeTitle(t + " [" + tag + "] Season " + [d]) == t
  {
    TagSeasonStrip(t, tag, d);
    TrimTrailing(t, "  ");
  }

  lemma PlainNames()
    ensures PlainRun("Attack on Titan", 0, 15) && PlainRun("Demon Slayer", 0, 12) && PlainTag("Sub Indo")
  {
    AttackOnTitanPlain();
    DemonSlayerPlain();
  }

  lemma AttackOnTitanPlain()
    ensures PlainRun("Attack on Titan", 0, 15)
  {
  }

  lemma DemonSlayerPlain()
    ensures PlainRun("Demon Slayer", 0, 12)
  {
  }

  /** The worked titles, assembled from their parts. */
  lemma AttackOnTitanParts()
    ensures ExtractAnimeTitle("Attack on Titan" + " [" + "Sub Indo" + "] Season " + ['2']) == "Attack on Titan"
  {
    PlainNames();
    TagSeasonTitle("Attack on Titan", "Sub Indo", '2');
  }

  lemma DemonSlayerParts()
    ensures ExtractAnimeTitle("Demon Slayer" + " Season " + ['2']) == "Demon Slayer"
    ensures ExtractAnimeTitle("Demon Slayer" + " [" + "Sub Indo" + "]") == "Demon Slayer"
  {
    PlainNames();
    SeasonSuffixTitle("Demon Slayer", '2');
    TagSuffixTitle("Demon Slayer", "Sub Indo");
  }

  /** The worked titles, spelled as their parts. */
  lemma WorkedTitlesSpelled()
    ensures "Attack on Titan [Sub Indo] Season 2" == "Attack on Titan" + " [" + "Sub Indo" + "] Season " + ['2']
    ensures "Demon Slayer Season 2" == "Demon Slayer" + " Season " + ['2']
    ensures "Demon Slayer [Sub Indo]" == "Demon Slayer" + " [" + "Sub Indo" + "]"
  {
  }

  /** "Attack on Titan [Sub Indo] Season 2" is catalogued as "Attack on Titan". */
  lemma AttackOnTitanTitle()
    ensures ExtractAnimeTitle("Attack on Titan [Sub Indo] Season 2") == "Attack on Titan"
  {
    WorkedTitlesSpelled();
    AttackOnTitanParts();
  }

  /** "Demon Slayer Season 2" and "Demon Slayer [Sub Indo]" are both catalogued as
      "Demon Slayer", so the two playlists land on one anime. */
  lemma DemonSlayerTitles()
    ensures ExtractAnimeTitle("Demon Slayer Season 2") == "Demon Slayer"
    ensures ExtractAnimeTitle("Demon Slayer [Sub Indo]") == "Demon Slayer"
  {
    WorkedTitlesSpelled();
    DemonSlayerParts();
  }
}
