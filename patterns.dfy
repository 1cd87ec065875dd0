/**
 * The two regular expressions the stream generator runs over each output
 * line to learn the album or playlist name (app/main.py line 102):
 *
 *   Found \d+ songs in (.+?) \(        and        Downloading playlist "(.+?)"
 *
 * Both have the shape  Lead [\d+ Mid] (.+?) Close . They are modelled by a
 * hand-written matcher that follows the backtracking order of Python's
 * `re.search`: the leftmost start wins; at that start the greedy `\d+` takes
 * as many digits as it can; then the lazy `(.+?)` takes the fewest characters
 * (at least one, none of them a newline) after which Close follows. The
 * predicate `Selected` says the same thing declaratively, and `Search` is
 * proved to return exactly the selected match.
 */
module Patterns {
  import opened Wrappers
  import opened Text

  /** Lead, then (when `digits`) one or more decimal digits and Mid, then the lazy group, then Close. */
  datatype Pattern = Pattern(lead: string, digits: bool, mid: string, close: string)

  /** `Found \d+ songs in (.+?) \(` */
  const FoundSongs := Pattern("Found ", true, " songs in ", " (")

  /** `Downloading playlist "(.+?)"` */
  const DownloadingPlaylist := Pattern("Downloading playlist \"", false, "", "\"")

  predicate Digits(s: string, a: int, b: int) {
    0 <= a <= b <= |s| && forall k :: a <= k < b ==> IsDigit(s[k])
  }

  predicate NoNewline(s: string, a: int, b: int) {
    0 <= a <= b <= |s| && forall k :: a <= k < b ==> s[k] != '\n'
  }

  /** `s[p..e]` can be the lazy group: non-empty, no newline, and Close follows it. */
  predicate IsCapture(s: string, close: string, p: int, e: int) {
    p < e && NoNewline(s, p, e) && OccursAt(s, close, e)
  }

  /** What comes between the start `i` of a match and the start `p` of its group. */
  predicate PrefixOk(pat: Pattern, s: string, i: int, p: int) {
    OccursAt(s, pat.lead, i) &&
    var q := i + |pat.lead|;
    if pat.digits then
      q < p - |pat.mid| && Digits(s, q, p - |pat.mid|) && OccursAt(s, pat.mid, p - |pat.mid|)
    else
      p == q + |pat.mid| && OccursAt(s, pat.mid, q)
  }

  /** The pattern matches `s` starting at `i`, with its group spanning `s[p..e]`. */
  predicate IsMatch(pat: Pattern, s: string, i: int, p: int, e: int) {
    PrefixOk(pat, s, i, p) && IsCapture(s, pat.close, p, e)
  }

  /**
   * The match `re.search` reports: no match starts further left, at its
   * start no match has a longer digit run (a later group), and its group is
   * the shortest one.
   */
  ghost predicate Selected(pat: Pattern, s: string, i: int, p: int, e: int) {
    && IsMatch(pat, s, i, p, e)
    && (forall i', p', e' :: i' < i ==> !IsMatch(pat, s, i', p', e'))
    && (forall p', e' :: p < p' ==> !IsMatch(pat, s, i, p', e'))
    && (forall e' :: e' < e ==> !IsMatch(pat, s, i, p, e'))
  }

  /** The end of the run of digits that starts at `q` (greedy `\d+`). */
  function DigitRunEnd(s: string, q: nat): (j: nat)
    requires q <= |s|
    ensures q <= j <= |s| && Digits(s, q, j)
    ensures j < |s| ==> !IsDigit(s[j])
    decreases |s| - q
  {
    if q == |s| || !IsDigit(s[q]) then q
    else DigitRunEnd(s, q + 1)
  }

  lemma NoNewlinePast(s: string, p: int, e: int, e': int)
    requires 0 <= p < e <= |s| && s[e - 1] == '\n' && e <= e'
    ensures !NoNewline(s, p, e')
  {
  }

  /**
   * The lazy group that starts at `p`, trying the end `e` first and then
   * longer ones, giving up at a newline or at the end of the string.
   */
  function LazyEnd(s: string, close: string, p: nat, e: nat): (r: Option<nat>)
    requires 0 < e
    ensures r.Some? ==> e <= r.value <= |s|
    decreases |s| + 1 - e
  {
    if e > |s| then None
    else if s[e - 1] == '\n' then None
    else if OccursAt(s, close, e) then Some(e)
    else LazyEnd(s, close, p, e + 1)
  }

  /** Tried from the end `e` on, the lazy group stops at the shortest capture, or there is none. */
  lemma {:induction false} LazyEndCorrect(s: string, close: string, p: nat, e: nat)
    requires p < e <= |s| + 1 && NoNewline(s, p, e - 1)
    ensures var r := LazyEnd(s, close, p, e);
      && (r.Some? ==> e <= r.value && IsCapture(s, close, p, r.value))
      && (r.Some? ==> forall e' :: e <= e' < r.value ==> !IsCapture(s, close, p, e'))
      && (r.None? ==> forall e' :: e <= e' ==> !IsCapture(s, close, p, e'))
    decreases |s| + 1 - e
  {
    if e > |s| {
    } else if s[e - 1] == '\n' {
      forall e' | e <= e' ensures !IsCapture(s, close, p, e') { NoNewlinePast(s, p, e, e'); }
    } else if OccursAt(s, close, e) {
    } else {
      assert NoNewline(s, p, e);
      LazyEndCorrect(s, close, p, e + 1);
    }
  }

  /** No lazy group starting at `p` can be completed. */
  ghost predicate NoCapture(s: string, close: string, p: int) {
    forall e' :: !IsCapture(s, close, p, e')
  }

  /** Mid at `j`, then the lazy group: the group's bounds when that succeeds. */
  function TryMid(pat: Pattern, s: string, j: nat): (r: Option<(nat, nat)>)
    ensures r.Some? ==> r.value.0 < r.value.1 <= |s|
  {
    var p := j + |pat.mid|;
    if !OccursAt(s, pat.mid, j) || p >= |s| then None
    else
      match LazyEnd(s, pat.close, p, p + 1)
      case Some(e) => Some((p, e))
      case None => None
  }

  /** What Mid and the lazy group at `j` find: the shortest capture after Mid, or none at all. */
  ghost predicate TriedMid(pat: Pattern, s: string, j: nat, r: Option<(nat, nat)>) {
    && (r.Some? ==> OccursAt(s, pat.mid, j) && r.value.0 == j + |pat.mid|)
    && (r.Some? ==> IsCapture(s, pat.close, r.value.0, r.value.1))
    && (r.Some? ==> forall e' :: e' < r.value.1 ==> !IsCapture(s, pat.close, r.value.0, e'))
    && (r.None? ==> !OccursAt(s, pat.mid, j) || NoCapture(s, pat.close, j + |pat.mid|))
  }

  lemma TryMidCorrect(pat: Pattern, s: string, j: nat)
    ensures TriedMid(pat, s, j, TryMid(pat, s, j))
  {
    var p := j + |pat.mid|;
    if OccursAt(s, pat.mid, j) && p < |s| {
      assert NoNewline(s, p, p);
      LazyEndCorrect(s, pat.close, p, p + 1);
    }
  }

  /** With no digit before the group start, the digit pattern cannot match. */
  lemma NoDigitsNoMatch(pat: Pattern, s: string, i: nat, j: nat)
    requires pat.digits && j <= i + |pat.lead|
    ensures forall p', e' :: p' <= j + |pat.mid| ==> !IsMatch(pat, s, i, p', e')
  {
    assert forall p' :: p' <= j + |pat.mid| ==> !PrefixOk(pat, s, i, p');
  }

  /** When Mid or the group fails after the digit run ending at `j`, no match has its group start there. */
  lemma MidFailsNoMatch(pat: Pattern, s: string, i: nat, j: nat, p: nat)
    requires TryMid(pat, s, j).None? && p == j + |pat.mid|
    ensures forall e' :: !IsMatch(pat, s, i, p, e')
  {
    TryMidCorrect(pat, s, j);
    if OccursAt(s, pat.mid, j) { assert NoCapture(s, pat.close, p); }
  }

  /** The greedy digit run with backtracking: digit-run ends `j` down to the first one tried. */
  function TryDigits(pat: Pattern, s: string, i: nat, j: nat): (r: Option<(nat, nat)>)
    ensures r.Some? ==> r.value.0 < r.value.1 <= |s|
    decreases j
  {
    if j <= i + |pat.lead| then None
    else
      var m := TryMid(pat, s, j);
      if m.Some? then m else TryDigits(pat, s, i, j - 1)
  }

  /**
   * What backtracking over the digit-run ends up to `j` finds: a match with
   * the latest group start, then the shortest group; or the knowledge that no
   * match has its group start at or before `j` plus Mid.
   */
  ghost predicate TriedDigits(pat: Pattern, s: string, i: nat, j: nat, r: Option<(nat, nat)>) {
    && (r.Some? ==> IsMatch(pat, s, i, r.value.0, r.value.1) && r.value.0 - |pat.mid| <= j)
    && (r.Some? ==> forall p', e' :: r.value.0 < p' <= j + |pat.mid| ==> !IsMatch(pat, s, i, p', e'))
    && (r.Some? ==> forall e' :: e' < r.value.1 ==> !IsMatch(pat, s, i, r.value.0, e'))
    && (r.None? ==> forall p', e' :: p' <= j + |pat.mid| ==> !IsMatch(pat, s, i, p', e'))
  }

  /** The first digit-run end tried at which Mid and the group succeed gives the selected match. */
  lemma TryMidSucceeds(pat: Pattern, s: string, i: nat, j: nat)
    requires pat.digits && OccursAt(s, pat.lead, i)
    requires i + |pat.lead| < j && Digits(s, i + |pat.lead|, j) && TryMid(pat, s, j).Some?
    ensures TriedDigits(pat, s, i, j, TryMid(pat, s, j))
  {
    TryMidCorrect(pat, s, j);
    var c := TryMid(pat, s, j).value;
    assert PrefixOk(pat, s, i, c.0);
  }

  /** When Mid or the group fails at `j`, what was found for `j - 1` holds for `j` as well. */
  lemma TryMidFails(pat: Pattern, s: string, i: nat, j: nat, r: Option<(nat, nat)>)
    requires pat.digits && i + |pat.lead| < j && TryMid(pat, s, j).None?
    requires TriedDigits(pat, s, i, j - 1, r)
    ensures TriedDigits(pat, s, i, j, r)
  {
    MidFailsNoMatch(pat, s, i, j, j + |pat.mid|);
  }

  lemma {:induction false} TryDigitsCorrect(pat: Pattern, s: string, i: nat, j: nat)
    requires pat.digits && OccursAt(s, pat.lead, i)
    requires i + |pat.lead| <= j && Digits(s, i + |pat.lead|, j)
    ensures TriedDigits(pat, s, i, j, TryDigits(pat, s, i, j))
    decreases j
  {
    if j <= i + |pat.lead| {
      NoDigitsNoMatch(pat, s, i, j);
    } else if TryMid(pat, s, j).Some? {
      TryMidSucceeds(pat, s, i, j);
    } else {
      assert Digits(s, i + |pat.lead|, j - 1);
      TryDigitsCorrect(pat, s, i, j - 1);
      TryMidFails(pat, s, i, j, TryDigits(pat, s, i, j - 1));
    }
  }

  /** The match that starts at `i`, if any, as the bounds of its group. */
  function MatchFrom(pat: Pattern, s: string, i: nat): (r: Option<(nat, nat)>)
    ensures r.Some? ==> r.value.0 < r.value.1 <= |s|
  {
    if !OccursAt(s, pat.lead, i) then None
    else
      var q := i + |pat.lead|;
      if pat.digits then TryDigits(pat, s, i, DigitRunEnd(s, q))
      else TryMid(pat, s, q)
  }

  /** The match found at start `i`: the latest group start, then the shortest group; or no match at `i`. */
  ghost predicate MatchedFrom(pat: Pattern, s: string, i: nat, r: Option<(nat, nat)>) {
    && (r.Some? ==> IsMatch(pat, s, i, r.value.0, r.value.1))
    && (r.Some? ==> forall p', e' :: r.value.0 < p' ==> !IsMatch(pat, s, i, p', e'))
    && (r.Some? ==> forall e' :: e' < r.value.1 ==> !IsMatch(pat, s, i, r.value.0, e'))
    && (r.None? ==> forall p', e' :: !IsMatch(pat, s, i, p', e'))
  }

  lemma MatchFromCorrect(pat: Pattern, s: string, i: nat)
    ensures MatchedFrom(pat, s, i, MatchFrom(pat, s, i))
  {
    if OccursAt(s, pat.lead, i) {
      var q := i + |pat.lead|;
      if pat.digits {
        var jmax := DigitRunEnd(s, q);
        TryDigitsCorrect(pat, s, i, jmax);
        forall p', e' | jmax + |pat.mid| < p' ensures !IsMatch(pat, s, i, p', e') {
          if jmax < |s| { assert !IsDigit(s[jmax]); }
        }
      } else {
        TryMidCorrect(pat, s, q);
      }
    }
  }

  /** `re.search` from start position `i` on: the match's start and its group's bounds. */
  function SearchFrom(pat: Pattern, s: string, i: nat): (r: Option<(nat, nat, nat)>)
    requires i <= |s|
    ensures r.Some? ==> r.value.1 < r.value.2 <= |s|
    decreases |s| - i
  {
    match MatchFrom(pat, s, i)
    case Some(c) => Some((i, c.0, c.1))
    case None =>
      if i == |s| then None else SearchFrom(pat, s, i + 1)
  }

  /** The leftmost match from `i` on, with the group `MatchFrom` picks at its start; or no match from `i` on. */
  ghost predicate SearchedFrom(pat: Pattern, s: string, i: nat, r: Option<(nat, nat, nat)>) {
    && (r.Some? ==> i <= r.value.0 && IsMatch(pat, s, r.value.0, r.value.1, r.value.2))
    && (r.Some? ==> forall i', p', e' :: i <= i' < r.value.0 ==> !IsMatch(pat, s, i', p', e'))
    && (r.Some? ==> forall p', e' :: r.value.1 < p' ==> !IsMatch(pat, s, r.value.0, p', e'))
    && (r.Some? ==> forall e' :: e' < r.value.2 ==> !IsMatch(pat, s, r.value.0, r.value.1, e'))
    && (r.None? ==> forall i', p', e' :: i <= i' ==> !IsMatch(pat, s, i', p', e'))
  }

  lemma {:induction false} SearchFromCorrect(pat: Pattern, s: string, i: nat)
    requires i <= |s|
    ensures SearchedFrom(pat, s, i, SearchFrom(pat, s, i))
    decreases |s| - i
  {
    MatchFromCorrect(pat, s, i);
    match MatchFrom(pat, s, i)
    case Some(c) =>
      assert SearchFrom(pat, s, i) == Some((i, c.0, c.1));
    case None =>
      if i == |s| {
        forall i', p', e' | i <= i' ensures !IsMatch(pat, s, i', p', e') {
          if i < i' { assert !OccursAt(s, pat.lead, i'); }
        }
      } else {
        SearchFromCorrect(pat, s, i + 1);
        SearchedFromStep(pat, s, i, SearchFrom(pat, s, i + 1));
      }
  }

  /** A search from `i + 1` on, with no match starting at `i`, is a search from `i` on. */
  lemma SearchedFromStep(pat: Pattern, s: string, i: nat, r: Option<(nat, nat, nat)>)
    requires MatchedFrom(pat, s, i, None) && SearchedFrom(pat, s, i + 1, r)
    ensures SearchedFrom(pat, s, i, r)
  {
  }

  /**
   * `re.search(pattern, s)` followed by `match.group(1)`: the group of the
   * selected match, or None when the pattern matches nowhere in `s`.
   */
  function Search(pat: Pattern, s: string): Option<string> {
    match SearchFrom(pat, s, 0)
    case None => None
    case Some(m) => Some(s[m.1..m.2])
  }

  /** `Search` reports no group exactly when nothing matches, and otherwise the group of the selected match. */
  lemma SearchCorrect(pat: Pattern, s: string)
    ensures Search(pat, s).None? <==> forall i, p, e :: !IsMatch(pat, s, i, p, e)
    ensures Search(pat, s).Some? ==> exists i, p, e :: Selected(pat, s, i, p, e) && Search(pat, s).value == s[p..e]
  {
    SearchFromCorrect(pat, s, 0);
    match SearchFrom(pat, s, 0)
    case None =>
    case Some(m) =>
      assert Selected(pat, s, m.0, m.1, m.2);
  }

  /**
   * `re.search(FOUND, line) or re.search(PLAYLIST, line)`, then group 1:
   * the "Found N songs in" pattern is tried first and wins whenever it matches.
   */
  function AlbumCapture(line: string): Option<string> {
    match Search(FoundSongs, line)
    case Some(c) => Some(c)
    case None => Search(DownloadingPlaylist, line)
  }

  /**
   * The "Found N songs in" pattern wins whenever it matches; otherwise the
   * capture is the "Downloading playlist" pattern's, and there is no capture
   * exactly when neither pattern matches anywhere in the line.
   */
  lemma AlbumCapturePrecedence(line: string)
    ensures Search(FoundSongs, line).Some? ==> AlbumCapture(line) == Search(FoundSongs, line)
    ensures Search(FoundSongs, line).None? ==> AlbumCapture(line) == Search(DownloadingPlaylist, line)
    ensures AlbumCapture(line).None? <==>
      (forall i, p, e :: !IsMatch(FoundSongs, line, i, p, e)) && (forall i, p, e :: !IsMatch(DownloadingPlaylist, line, i, p, e))
  {
    SearchCorrect(FoundSongs, line);
    SearchCorrect(DownloadingPlaylist, line);
  }

  const SpotdlSummary := "Found 3 songs in Mix (x)"

  lemma SummaryMatches()
    ensures IsMatch(FoundSongs, SpotdlSummary, 0, 17, 20)
  {
    var s := SpotdlSummary;
    assert s[0..6] == "Found " && s[7..17] == " songs in " && s[20..22] == " (";
    assert Digits(s, 6, 7);
  }

  lemma SummarySelected(i: int, p: int, e: int)
    requires Selected(FoundSongs, SpotdlSummary, i, p, e)
    ensures i == 0 && p == 17 && e == 20
  {
    var s := SpotdlSummary;
    SummaryMatches();
    assert i == 0;
    assert p == 17 by {
      assert !IsDigit(s[7]);
    }
    assert e == 20 by {
      forall e' | 17 < e' < 20 ensures !OccursAt(s, " (", e') {
        assert s[e'..e' + 2][0] == s[e'] != ' ';
      }
    }
  }

  /**
   * The summary line of spotdl: the match starts at 0, the digit run is the
   * single "3", and the lazy group stops at the first " (", so group 1 is "Mix".
   */
  lemma FoundSongsExample()
    ensures AlbumCapture(SpotdlSummary) == Some("Mix")
  {
    SummaryMatches();
    SearchCorrect(FoundSongs, SpotdlSummary);
    var r := Search(FoundSongs, SpotdlSummary);
    var i, p, e :| Selected(FoundSongs, SpotdlSummary, i, p, e) && r.value == SpotdlSummary[p..e];
    SummarySelected(i, p, e);
    assert SpotdlSummary[17..20] == "Mix";
  }
}
