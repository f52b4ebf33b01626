/**
 * `getYoutubeEmbedUrl` (src/components/RockDetailClient.tsx): turns a rock's
 * raw video link into the embeddable form. The source uses the JavaScript
 * regular expression
 *
 *   (?:youtu\.be\/|youtube\.com(?:\/embed\/|\/v\/|\/watch\?v=|\/watch\?.+&v=))([^&?]+)
 *
 * which is modelled here as an explicit scanner with JavaScript's matching
 * rules: the leftmost start position wins, alternatives are tried in the
 * order written, `.+` is greedy (so the LAST suitable `&v=` on the line is
 * used) and does not cross a line terminator, and the captured identifier is
 * the longest run of characters other than `&` and `?`.
 *
 * `RegexMatchAt` is an independent, declarative reading of the same pattern,
 * and `PreferredMatchAt` picks, among the matches at one start position, the
 * one JavaScript's backtracking tries first. The lemmas at the end prove that
 * the scanner returns exactly the capture of that match at the leftmost
 * start, and returns nothing exactly when there is no match.
 */
module EmbedUrl {
  import opened Wrappers

  const EmbedPrefix: string := "https://www.youtube.com/embed/"

  const ShortLink: string := "youtu.be/"
  const Host: string := "youtube.com"
  const EmbedPath: string := "/embed/"
  const LegacyPath: string := "/v/"
  const WatchV: string := "/watch?v="
  const Watch: string := "/watch?"
  const AmpV: string := "&v="

  /** Characters the identifier run `[^&?]` may contain. */
  predicate InId(c: char) {
    c != '&' && c != '?'
  }

  /** Characters `.` does not match in a JavaScript regular expression. */
  predicate IsLineTerminator(c: char) {
    c == '\n' || c == '\r' || c == '\U{2028}' || c == '\U{2029}'
  }

  /** A video identifier as the pattern captures it: non-empty, no `&` or `?`. */
  predicate ValidId(id: string) {
    |id| >= 1 && forall k :: 0 <= k < |id| ==> InId(id[k])
  }

  predicate StartsWith(s: string, i: nat, lit: string) {
    i + |lit| <= |s| && s[i..i + |lit|] == lit
  }

  /** End of the longest run of identifier characters starting at `k`. */
  function RunEnd(s: string, k: nat): (e: nat)
    requires k <= |s|
    ensures k <= e <= |s|
    ensures forall m :: k <= m < e ==> InId(s[m])
    ensures e == |s| || !InId(s[e])
    decreases |s| - k
  {
    if k == |s| || !InId(s[k]) then k else RunEnd(s, k + 1)
  }

  /** The group `([^&?]+)` read at `k`: the maximal run, if it is non-empty. */
  function CaptureAt(s: string, k: nat): (r: Option<string>)
    ensures r.Some? ==> ValidId(r.value)
  {
    if k > |s| then None
    else
      var e := RunEnd(s, k);
      if e > k then Some(s[k..e]) else None
  }

  /** First position at or after `q` holding a line terminator, or `|s|`. */
  function LineEnd(s: string, q: nat): (e: nat)
    requires q <= |s|
    ensures q <= e <= |s|
    ensures forall m :: q <= m < e ==> !IsLineTerminator(s[m])
    ensures e == |s| || IsLineTerminator(s[e])
    decreases |s| - q
  {
    if q == |s| || IsLineTerminator(s[q]) then q else LineEnd(s, q + 1)
  }

  /**
   * `.+&v=([^&?]+)` after `/watch?`, with the `&` of `&v=` tried at `p - 1`,
   * `p - 2`, ... down to `q + 1` (the greedy `.+` takes at least one
   * character and gives them back one at a time).
   */
  function LastAmpV(s: string, q: nat, p: nat): (r: Option<string>)
    requires q <= p <= |s|
    ensures r.Some? ==> ValidId(r.value)
    decreases p
  {
    if p <= q + 1 then None
    else if StartsWith(s, p - 1, AmpV) && CaptureAt(s, p + 2).Some? then CaptureAt(s, p + 2)
    else LastAmpV(s, q, p - 1)
  }

  /** The four alternatives after `youtube.com`, in the order written. */
  function HostMatch(s: string, j: nat): (r: Option<string>)
    ensures r.Some? ==> ValidId(r.value)
  {
    if StartsWith(s, j, EmbedPath) && CaptureAt(s, j + 7).Some? then CaptureAt(s, j + 7)
    else if StartsWith(s, j, LegacyPath) && CaptureAt(s, j + 3).Some? then CaptureAt(s, j + 3)
    else if StartsWith(s, j, WatchV) && CaptureAt(s, j + 9).Some? then CaptureAt(s, j + 9)
    else if StartsWith(s, j, Watch) then LastAmpV(s, j + 7, LineEnd(s, j + 7))
    else None
  }

  /** The pattern tried at start position `i`; the captured identifier if it matches. */
  function MatchAt(s: string, i: nat): (r: Option<string>)
    ensures r.Some? ==> ValidId(r.value)
  {
    if StartsWith(s, i, ShortLink) && CaptureAt(s, i + 9).Some? then CaptureAt(s, i + 9)
    else if StartsWith(s, i, Host) then HostMatch(s, i + 11)
    else None
  }

  /** `String.prototype.match`: the first start position, from `i` on, at which the pattern matches. */
  function FindFrom(s: string, i: nat): (r: Option<string>)
    requires i <= |s|
    ensures r.Some? ==> ValidId(r.value)
    decreases |s| - i
  {
    if i == |s| then None
    else if MatchAt(s, i).Some? then MatchAt(s, i)
    else FindFrom(s, i + 1)
  }

  /** `getYoutubeEmbedUrl(url)`: "" for an empty link or a link with no match. */
  function EmbedUrlOf(url: string): (r: string)
    ensures url == "" ==> r == ""
    ensures r == "" || (|r| > |EmbedPrefix| && r[..|EmbedPrefix|] == EmbedPrefix
                        && ValidId(r[|EmbedPrefix|..]))
  {
    if url == "" then ""
    else match FindFrom(url, 0)
      case Some(id) =>
        assert (EmbedPrefix + id)[|EmbedPrefix|..] == id;
        EmbedPrefix + id
      case None => ""
  }

  // ---------------------------------------------------------------------
  // A declarative reading of the pattern

  /** The non-capturing group of the pattern spans exactly `s[i..k]`. */
  ghost predicate MarkerSpans(s: string, i: nat, k: nat) {
    i <= k <= |s| &&
    (|| s[i..k] == ShortLink
     || s[i..k] == Host + EmbedPath
     || s[i..k] == Host + LegacyPath
     || s[i..k] == Host + WatchV
     || (&& i + 22 <= k
         && s[i..i + 18] == Host + Watch
         && s[k - 3..k] == AmpV
         && forall m :: i + 18 <= m < k - 3 ==> !IsLineTerminator(s[m])))
  }

  /** `id` is what `([^&?]+)` captures at `k`: the whole run of identifier characters there. */
  ghost predicate CapturesAt(s: string, k: nat, id: string) {
    && ValidId(id)
    && k + |id| <= |s|
    && s[k..k + |id|] == id
    && (k + |id| == |s| || !InId(s[k + |id|]))
  }

  /** The pattern matches at start position `i`, capturing `id`. */
  ghost predicate RegexMatchAt(s: string, i: nat, id: string) {
    exists k :: MarkerSpans(s, i, k) && CapturesAt(s, k, id)
  }

  ghost predicate MatchesAt(s: string, i: nat) {
    exists id :: RegexMatchAt(s, i, id)
  }

  /** Some run of identifier characters follows position `k`. */
  ghost predicate HasCapture(s: string, k: nat) {
    exists id :: CapturesAt(s, k, id)
  }

  /**
   * Which alternative the marker span `s[i..k]` belongs to, numbered in the
   * order the pattern writes them; the `/watch?.+&v=` form is the last.
   */
  ghost function Alternative(s: string, i: nat, k: nat): nat
    requires MarkerSpans(s, i, k)
  {
    if s[i..k] == ShortLink then 0
    else if s[i..k] == Host + EmbedPath then 1
    else if s[i..k] == Host + LegacyPath then 2
    else if s[i..k] == Host + WatchV then 3
    else 4
  }

  /**
   * Backtracking order at one start position: an alternative written earlier
   * is tried first, and within `/watch?.+&v=` the greedy `.+` tries the
   * longest marker first.
   */
  ghost predicate TriedNoLater(s: string, i: nat, k: nat, k2: nat)
    requires MarkerSpans(s, i, k) && MarkerSpans(s, i, k2)
  {
    Alternative(s, i, k) < Alternative(s, i, k2)
    || (Alternative(s, i, k) == Alternative(s, i, k2) && k2 <= k)
  }

  /**
   * The match JavaScript reports at start position `i`: a marker followed by
   * a capture, and no other marker with a capture is tried before it.
   */
  ghost predicate PreferredMatchAt(s: string, i: nat, id: string) {
    exists k :: && MarkerSpans(s, i, k) && CapturesAt(s, k, id)
                && forall k2 :: MarkerSpans(s, i, k2) && HasCapture(s, k2) ==> TriedNoLater(s, i, k, k2)
  }

  /** The match `String.prototype.match` reports: no match starts further left, and at its start it is the one tried first. */
  ghost predicate IsLeftmostMatch(s: string, i: nat, id: string) {
    PreferredMatchAt(s, i, id) && forall j :: 0 <= j < i ==> !MatchesAt(s, j)
  }

  // ---------------------------------------------------------------------
  // The scanner agrees with the declarative reading

  lemma RunEndIs(s: string, k: nat, e: nat)
    requires k <= e <= |s|
    requires forall m :: k <= m < e ==> InId(s[m])
    requires e == |s| || !InId(s[e])
    ensures RunEnd(s, k) == e
  {
  }

  /** The scanner's capture is exactly the declarative one, in both directions. */
  lemma CaptureAtExact(s: string, k: nat, id: string)
    ensures CapturesAt(s, k, id) <==> CaptureAt(s, k) == Some(id)
  {
    if CapturesAt(s, k, id) {
      RunEndIs(s, k, k + |id|);
    }
  }

  lemma LineEndBeyond(s: string, q: nat, a: nat)
    requires q <= a < |s|
    requires forall m :: q <= m <= a ==> !IsLineTerminator(s[m])
    ensures LineEnd(s, q) > a
  {
  }

  lemma {:induction false} LastAmpVWitness(s: string, q: nat, p: nat) returns (a: nat)
    requires q <= p <= |s|
    requires LastAmpV(s, q, p).Some?
    ensures q + 1 <= a < p && StartsWith(s, a, AmpV) && CaptureAt(s, a + 3) == LastAmpV(s, q, p)
    ensures forall a2 :: a < a2 < p ==> !(StartsWith(s, a2, AmpV) && CaptureAt(s, a2 + 3).Some?)
    decreases p
  {
    var last := p - 1;
    if StartsWith(s, last, AmpV) && CaptureAt(s, last + 3).Some? {
      a := last;
    } else {
      a := LastAmpVWitness(s, q, last);
    }
  }

  lemma {:induction false} LastAmpVFinds(s: string, q: nat, p: nat, a: nat)
    requires q + 1 <= a < p <= |s|
    requires StartsWith(s, a, AmpV) && CaptureAt(s, a + 3).Some?
    ensures LastAmpV(s, q, p).Some?
    decreases p
  {
    if a < p - 1 && !(StartsWith(s, p - 1, AmpV) && CaptureAt(s, p + 2).Some?) {
      LastAmpVFinds(s, q, p - 1, a);
    }
  }

  lemma SplitLiteral(s: string, i: nat, a: string, b: string)
    requires StartsWith(s, i, a) && StartsWith(s, i + |a|, b)
    ensures StartsWith(s, i, a + b)
  {
  }

  lemma JoinLiteral(s: string, i: nat, a: string, b: string)
    requires StartsWith(s, i, a + b)
    ensures StartsWith(s, i, a) && StartsWith(s, i + |a|, b)
  {
    assert s[i..i + |a|] == (a + b)[..|a|];
    assert s[i + |a|..i + |a| + |b|] == (a + b)[|a|..];
  }

  lemma ShortLinkSound(s: string, i: nat)
    requires StartsWith(s, i, ShortLink) && CaptureAt(s, i + 9).Some?
    ensures RegexMatchAt(s, i, CaptureAt(s, i + 9).value)
  {
    var k := i + 9;
    CaptureAtExact(s, k, CaptureAt(s, k).value);
    assert MarkerSpans(s, i, k);
  }

  lemma PathSound(s: string, i: nat, path: string)
    requires path == EmbedPath || path == LegacyPath || path == WatchV
    requires StartsWith(s, i, Host) && StartsWith(s, i + 11, path)
    requires CaptureAt(s, i + 11 + |path|).Some?
    ensures RegexMatchAt(s, i, CaptureAt(s, i + 11 + |path|).value)
  {
    var k := i + 11 + |path|;
    SplitLiteral(s, i, Host, path);
    CaptureAtExact(s, k, CaptureAt(s, k).value);
    assert s[i..k] == Host + path;
    assert MarkerSpans(s, i, k);
  }

  lemma AmpSound(s: string, i: nat)
    requires StartsWith(s, i, Host) && StartsWith(s, i + 11, Watch)
    requires LastAmpV(s, i + 18, LineEnd(s, i + 18)).Some?
    ensures RegexMatchAt(s, i, LastAmpV(s, i + 18, LineEnd(s, i + 18)).value)
  {
    var q := i + 18;
    SplitLiteral(s, i, Host, Watch);
    var a := LastAmpVWitness(s, q, LineEnd(s, q));
    var k := a + 3;
    assert s[k - 3..k] == AmpV;
    CaptureAtExact(s, k, CaptureAt(s, k).value);
    assert MarkerSpans(s, i, k);
  }

  /** Whatever the scanner returns at `i` is a match of the pattern at `i`. */
  lemma MatchAtSound(s: string, i: nat)
    requires MatchAt(s, i).Some?
    ensures RegexMatchAt(s, i, MatchAt(s, i).value)
  {
    var j := i + 11;
    if StartsWith(s, i, ShortLink) && CaptureAt(s, i + 9).Some? {
      ShortLinkSound(s, i);
    } else if StartsWith(s, j, EmbedPath) && CaptureAt(s, j + 7).Some? {
      PathSound(s, i, EmbedPath);
    } else if StartsWith(s, j, LegacyPath) && CaptureAt(s, j + 3).Some? {
      PathSound(s, i, LegacyPath);
    } else if StartsWith(s, j, WatchV) && CaptureAt(s, j + 9).Some? {
      PathSound(s, i, WatchV);
    } else {
      AmpSound(s, i);
    }
  }

  /**
   * A `/watch?.+&v=` marker ending at `k` with a capture after it lies within
   * the line the scanner searches, so the search for the last `&v=` succeeds.
   */
  lemma AmpSpanFound(s: string, i: nat, k: nat)
    requires i + 22 <= k <= |s| && s[i..i + 18] == Host + Watch && s[k - 3..k] == AmpV
    requires forall m :: i + 18 <= m < k - 3 ==> !IsLineTerminator(s[m])
    requires CaptureAt(s, k).Some?
    ensures StartsWith(s, i, Host) && StartsWith(s, i + 11, Watch)
    ensures i + 19 <= k - 3 < LineEnd(s, i + 18) && StartsWith(s, k - 3, AmpV)
    ensures LastAmpV(s, i + 18, LineEnd(s, i + 18)).Some?
  {
    JoinLiteral(s, i, Host, Watch);
    var q := i + 18;
    var a := k - 3;
    assert StartsWith(s, a, AmpV);
    assert s[a] == '&';
    LineEndBeyond(s, q, a);
    LastAmpVFinds(s, q, LineEnd(s, q), a);
  }

  /**
   * What a marker span with a capture after it tells the scanner: the
   * literal it starts with at `i`, and where its capture begins.
   */
  lemma SpanFacts(s: string, i: nat, k: nat)
    requires MarkerSpans(s, i, k) && HasCapture(s, k)
    ensures CaptureAt(s, k).Some?
    ensures Alternative(s, i, k) == 0 ==> StartsWith(s, i, ShortLink) && k == i + 9
    ensures Alternative(s, i, k) == 1 ==>
      StartsWith(s, i, Host) && StartsWith(s, i + 11, EmbedPath) && k == i + 18
    ensures Alternative(s, i, k) == 2 ==>
      StartsWith(s, i, Host) && StartsWith(s, i + 11, LegacyPath) && k == i + 14
    ensures Alternative(s, i, k) == 3 ==>
      StartsWith(s, i, Host) && StartsWith(s, i + 11, WatchV) && k == i + 20
    ensures Alternative(s, i, k) == 4 ==>
      && StartsWith(s, i, Host) && StartsWith(s, i + 11, Watch)
      && i + 19 <= k - 3 < LineEnd(s, i + 18) && StartsWith(s, k - 3, AmpV)
  {
    var id :| CapturesAt(s, k, id);
    CaptureAtExact(s, k, id);
    if s[i..k] == ShortLink {
      assert StartsWith(s, i, ShortLink);
    } else if s[i..k] == Host + EmbedPath {
      JoinLiteral(s, i, Host, EmbedPath);
    } else if s[i..k] == Host + LegacyPath {
      JoinLiteral(s, i, Host, LegacyPath);
    } else if s[i..k] == Host + WatchV {
      JoinLiteral(s, i, Host, WatchV);
    } else {
      AmpSpanFound(s, i, k);
    }
  }

  /** Whenever the pattern matches at `i`, the scanner reports a match at `i`. */
  lemma MatchAtComplete(s: string, i: nat, id: string)
    requires RegexMatchAt(s, i, id)
    ensures MatchAt(s, i).Some?
  {
    var k: nat :| MarkerSpans(s, i, k) && CapturesAt(s, k, id);
    assert HasCapture(s, k);
    SpanFacts(s, i, k);
    if Alternative(s, i, k) == 4 {
      AmpSpanFound(s, i, k);
    }
  }

  /** The first of the four fixed alternatives the scanner completes at `i`; 4 when it completes none. */
  ghost function ScanRank(s: string, i: nat): nat {
    if StartsWith(s, i, ShortLink) && CaptureAt(s, i + 9).Some? then 0
    else if StartsWith(s, i, Host) && StartsWith(s, i + 11, EmbedPath) && CaptureAt(s, i + 18).Some? then 1
    else if StartsWith(s, i, Host) && StartsWith(s, i + 11, LegacyPath) && CaptureAt(s, i + 14).Some? then 2
    else if StartsWith(s, i, Host) && StartsWith(s, i + 11, WatchV) && CaptureAt(s, i + 20).Some? then 3
    else 4
  }

  /** No marker with a capture belongs to an alternative before the scanner's. */
  lemma RankBelow(s: string, i: nat, k: nat)
    requires MarkerSpans(s, i, k) && HasCapture(s, k)
    ensures ScanRank(s, i) <= Alternative(s, i, k)
  {
    SpanFacts(s, i, k);
  }

  /** `youtube.com` then one of the three fixed paths spans `s[i..k]`, as alternative `n`. */
  lemma PathSpan(s: string, i: nat, path: string, n: nat)
    requires (path, n) in {(EmbedPath, 1), (LegacyPath, 2), (WatchV, 3)}
    requires StartsWith(s, i, Host) && StartsWith(s, i + 11, path)
    ensures MarkerSpans(s, i, i + 11 + |path|) && Alternative(s, i, i + 11 + |path|) == n
  {
    SplitLiteral(s, i, Host, path);
    assert s[i..i + 11 + |path|] == Host + path;
  }

  /** The `/watch?.+&v=` marker ending at `k` is the last alternative. */
  lemma AmpSpan(s: string, i: nat, k: nat)
    requires StartsWith(s, i, Host) && StartsWith(s, i + 11, Watch)
    requires i + 22 <= k <= |s| && StartsWith(s, k - 3, AmpV)
    requires forall m :: i + 18 <= m < k - 3 ==> !IsLineTerminator(s[m])
    ensures MarkerSpans(s, i, k) && Alternative(s, i, k) == 4
  {
    SplitLiteral(s, i, Host, Watch);
  }

  /** The marker span of the scanner's match at `i` when one of the four fixed alternatives completes. */
  lemma FixedScannerSpan(s: string, i: nat) returns (k: nat)
    requires ScanRank(s, i) < 4
    ensures MatchAt(s, i).Some?
    ensures MarkerSpans(s, i, k) && CapturesAt(s, k, MatchAt(s, i).value)
    ensures Alternative(s, i, k) == ScanRank(s, i)
  {
    var j := i + 11;
    if StartsWith(s, i, ShortLink) && CaptureAt(s, i + 9).Some? {
      k := i + 9;
      assert MarkerSpans(s, i, k);
    } else if StartsWith(s, j, EmbedPath) && CaptureAt(s, j + 7).Some? {
      k := j + 7;
      PathSpan(s, i, EmbedPath, 1);
    } else if StartsWith(s, j, LegacyPath) && CaptureAt(s, j + 3).Some? {
      k := j + 3;
      PathSpan(s, i, LegacyPath, 2);
    } else {
      k := j + 9;
      PathSpan(s, i, WatchV, 3);
    }
    CaptureAtExact(s, k, MatchAt(s, i).value);
  }

  /** The marker span of the scanner's match at `i` through `/watch?.+&v=`: no later `&v=` on the line completes. */
  lemma AmpScannerSpan(s: string, i: nat) returns (k: nat)
    requires ScanRank(s, i) == 4 && MatchAt(s, i).Some?
    ensures MarkerSpans(s, i, k) && CapturesAt(s, k, MatchAt(s, i).value)
    ensures Alternative(s, i, k) == 4
    ensures forall a2 :: k - 3 < a2 < LineEnd(s, i + 18) ==>
      !(StartsWith(s, a2, AmpV) && CaptureAt(s, a2 + 3).Some?)
  {
    var a := LastAmpVWitness(s, i + 18, LineEnd(s, i + 18));
    k := a + 3;
    AmpSpan(s, i, k);
    CaptureAtExact(s, k, MatchAt(s, i).value);
  }

  /** The marker span of the scanner's match at `i`, and, for `/watch?.+&v=`, that no later `&v=` completes. */
  lemma ScannerSpan(s: string, i: nat) returns (k: nat)
    requires MatchAt(s, i).Some?
    ensures MarkerSpans(s, i, k) && CapturesAt(s, k, MatchAt(s, i).value)
    ensures Alternative(s, i, k) == ScanRank(s, i)
    ensures ScanRank(s, i) == 4 ==> forall a2 :: k - 3 < a2 < LineEnd(s, i + 18) ==>
      !(StartsWith(s, a2, AmpV) && CaptureAt(s, a2 + 3).Some?)
  {
    if ScanRank(s, i) < 4 {
      k := FixedScannerSpan(s, i);
    } else {
      k := AmpScannerSpan(s, i);
    }
  }

  /** The scanner's match at `i` is the one JavaScript's backtracking tries first. */
  lemma MatchAtPreferred(s: string, i: nat)
    requires MatchAt(s, i).Some?
    ensures PreferredMatchAt(s, i, MatchAt(s, i).value)
  {
    var k := ScannerSpan(s, i);
    assert HasCapture(s, k);
    SpanFacts(s, i, k);
    forall k2 | MarkerSpans(s, i, k2) && HasCapture(s, k2)
      ensures TriedNoLater(s, i, k, k2)
    {
      SpanFacts(s, i, k2);
      RankBelow(s, i, k2);
    }
  }

  /** At most one match is tried first at a start position. */
  lemma PreferredUnique(s: string, i: nat, id1: string, id2: string)
    requires PreferredMatchAt(s, i, id1) && PreferredMatchAt(s, i, id2)
    ensures id1 == id2
  {
    var k1 :| && MarkerSpans(s, i, k1) && CapturesAt(s, k1, id1)
              && forall k2 :: MarkerSpans(s, i, k2) && HasCapture(s, k2) ==> TriedNoLater(s, i, k1, k2);
    var k2 :| && MarkerSpans(s, i, k2) && CapturesAt(s, k2, id2)
              && forall k3 :: MarkerSpans(s, i, k3) && HasCapture(s, k3) ==> TriedNoLater(s, i, k2, k3);
    assert HasCapture(s, k1) && HasCapture(s, k2);
    assert k1 == k2;
    CaptureAtExact(s, k1, id1);
    CaptureAtExact(s, k1, id2);
  }

  /**
   * The scanner at one start position is exactly the backtracking reading:
   * it returns `id` iff `id` is the capture of the match tried first there.
   */
  lemma MatchAtIffPreferred(s: string, i: nat, id: string)
    ensures MatchAt(s, i) == Some(id) <==> PreferredMatchAt(s, i, id)
  {
    if MatchAt(s, i) == Some(id) {
      MatchAtPreferred(s, i);
    }
    if PreferredMatchAt(s, i, id) {
      assert RegexMatchAt(s, i, id);
      MatchAtComplete(s, i, id);
      MatchAtPreferred(s, i);
      PreferredUnique(s, i, id, MatchAt(s, i).value);
    }
  }

  lemma NoMatchAt(s: string, i: nat)
    requires MatchAt(s, i).None?
    ensures !MatchesAt(s, i)
  {
    if MatchesAt(s, i) {
      var id :| RegexMatchAt(s, i, id);
      MatchAtComplete(s, i, id);
    }
  }

  lemma {:induction false} FindFromLeftmost(s: string, i: nat)
    requires i <= |s|
    requires forall j :: 0 <= j < i ==> !MatchesAt(s, j)
    ensures FindFrom(s, i).Some? ==> exists p :: IsLeftmostMatch(s, p, FindFrom(s, i).value)
    ensures FindFrom(s, i).None? ==> forall j :: 0 <= j < |s| ==> !MatchesAt(s, j)
    decreases |s| - i
  {
    if i < |s| {
      if MatchAt(s, i).Some? {
        MatchAtPreferred(s, i);
        assert IsLeftmostMatch(s, i, FindFrom(s, i).value);
      } else {
        NoMatchAt(s, i);
        FindFromLeftmost(s, i + 1);
      }
    }
  }

  lemma {:induction false} FindFromReaches(s: string, i: nat, p: nat)
    requires i <= p < |s| && MatchAt(s, p).Some?
    requires forall j :: i <= j < p ==> !MatchesAt(s, j)
    ensures FindFrom(s, i) == MatchAt(s, p)
    decreases p - i
  {
    if i < p {
      if MatchAt(s, i).Some? {
        MatchAtSound(s, i);
        assert MatchesAt(s, i);
      }
      FindFromReaches(s, i + 1, p);
    }
  }

  /** The match JavaScript reports is the one whose capture the scanner returns. */
  lemma LeftmostMatchReported(url: string, p: nat, id: string)
    requires IsLeftmostMatch(url, p, id)
    ensures EmbedUrlOf(url) == EmbedPrefix + id
  {
    var k: nat :| MarkerSpans(url, p, k) && CapturesAt(url, k, id);
    MatchAtIffPreferred(url, p, id);
    FindFromReaches(url, 0, p);
  }

  /**
   * `getYoutubeEmbedUrl` follows the pattern: it yields "" exactly when no
   * match exists, and otherwise the embed URL of the match JavaScript
   * reports, the leftmost one and at its start the one tried first.
   */
  lemma EmbedUrlFollowsPattern(url: string)
    ensures EmbedUrlOf(url) == "" <==> forall j :: 0 <= j < |url| ==> !MatchesAt(url, j)
    ensures EmbedUrlOf(url) != "" ==>
      exists p, id :: IsLeftmostMatch(url, p, id) && EmbedUrlOf(url) == EmbedPrefix + id
    ensures forall p, id :: IsLeftmostMatch(url, p, id) ==> EmbedUrlOf(url) == EmbedPrefix + id
  {
    FindFromLeftmost(url, 0);
    if url != "" && FindFrom(url, 0).Some? {
      var id := FindFrom(url, 0).value;
      var p: nat :| IsLeftmostMatch(url, p, id);
      var k: nat :| MarkerSpans(url, p, k) && CapturesAt(url, k, id);
      assert RegexMatchAt(url, p, id);
      assert p < |url| && MatchesAt(url, p);
    }
    forall p: nat, id | IsLeftmostMatch(url, p, id)
      ensures EmbedUrlOf(url) == EmbedPrefix + id
    {
      LeftmostMatchReported(url, p, id);
    }
  }

  // ---------------------------------------------------------------------
  // Accepted link shapes

  /** No match can start at a character other than `y`. */
  lemma NoMatchWithoutY(s: string, i: nat)
    requires i < |s| && s[i] != 'y'
    ensures MatchAt(s, i).None?
  {
  }

  lemma {:induction false} SkipLead(s: string, i: nat, n: nat)
    requires i <= n <= |s|
    requires forall m :: i <= m < n ==> s[m] != 'y'
    ensures FindFrom(s, i) == FindFrom(s, n)
    decreases n - i
  {
    if i < n {
      NoMatchWithoutY(s, i);
      SkipLead(s, i + 1, n);
    }
  }

  lemma ShortLinkAt(s: string, n: nat, id: string)
    requires StartsWith(s, n, ShortLink) && CapturesAt(s, n + 9, id)
    ensures MatchAt(s, n) == Some(id)
  {
    CaptureAtExact(s, n + 9, id);
  }

  lemma PathAt(s: string, n: nat, path: string, id: string)
    requires path == EmbedPath || path == LegacyPath || path == WatchV
    requires StartsWith(s, n, Host + path) && CapturesAt(s, n + 11 + |path|, id)
    ensures MatchAt(s, n) == Some(id)
  {
    JoinLiteral(s, n, Host, path);
    CaptureAtExact(s, n + 11 + |path|, id);
    assert s[n + 5] == s[n..n + 11][5];
    assert s[n + 12] == s[n + 11..n + 11 + |path|][1];
  }

  /** `lead + marker + id + tail` starts the marker right after `lead` and captures `id` after it. */
  lemma ShapeLayout(lead: string, marker: string, id: string, tail: string)
    requires ValidId(id) && (tail == "" || !InId(tail[0]))
    ensures StartsWith(lead + marker + id + tail, |lead|, marker)
    ensures CapturesAt(lead + marker + id + tail, |lead| + |marker|, id)
    ensures forall m :: 0 <= m < |lead| ==> (lead + marker + id + tail)[m] == lead[m]
  {
  }

  /** One accepted shape: `lead`, a marker, the identifier, then an optional `&`/`?` tail. */
  lemma OneShape(lead: string, marker: string, id: string, tail: string)
    requires forall m :: 0 <= m < |lead| ==> lead[m] != 'y'
    requires marker == ShortLink || marker == Host + EmbedPath
          || marker == Host + LegacyPath || marker == Host + WatchV
    requires ValidId(id) && (tail == "" || !InId(tail[0]))
    ensures EmbedUrlOf(lead + marker + id + tail) == EmbedPrefix + id
  {
    var s := lead + marker + id + tail;
    var n := |lead|;
    ShapeLayout(lead, marker, id, tail);
    SkipLead(s, 0, n);
    if marker == ShortLink {
      ShortLinkAt(s, n, id);
    } else if marker == Host + EmbedPath {
      PathAt(s, n, EmbedPath, id);
    } else if marker == Host + LegacyPath {
      PathAt(s, n, LegacyPath, id);
    } else {
      PathAt(s, n, WatchV, id);
    }
  }

  /**
   * The short link, watch, embed and legacy forms of one video all give the
   * same embed URL, and a `&...` or `?...` tail after the identifier is dropped.
   */
  lemma SameVideoFromEveryShape(lead: string, id: string, tail: string)
    requires forall m :: 0 <= m < |lead| ==> lead[m] != 'y'
    requires ValidId(id) && (tail == "" || !InId(tail[0]))
    ensures EmbedUrlOf(lead + ShortLink + id + tail) == EmbedPrefix + id
    ensures EmbedUrlOf(lead + (Host + WatchV) + id + tail) == EmbedPrefix + id
    ensures EmbedUrlOf(lead + (Host + EmbedPath) + id + tail) == EmbedPrefix + id
    ensures EmbedUrlOf(lead + (Host + LegacyPath) + id + tail) == EmbedPrefix + id
  {
    OneShape(lead, ShortLink, id, tail);
    OneShape(lead, Host + WatchV, id, tail);
    OneShape(lead, Host + EmbedPath, id, tail);
    OneShape(lead, Host + LegacyPath, id, tail);
  }

  /** Feeding an embed URL back in returns it unchanged. */
  lemma EmbedUrlIdempotent(url: string)
    ensures EmbedUrlOf(EmbedUrlOf(url)) == EmbedUrlOf(url)
  {
    var r := EmbedUrlOf(url);
    if r != "" {
      var id := r[|EmbedPrefix|..];
      var lead := "https://www.";
      assert r == lead + (Host + EmbedPath) + id + "";
      OneShape(lead, Host + EmbedPath, id, "");
    }
  }

  /** A link without the letter `y` (a non-YouTube link) yields "". */
  lemma NoVideoWithoutY(url: string)
    requires forall m :: 0 <= m < |url| ==> url[m] != 'y'
    ensures EmbedUrlOf(url) == ""
  {
    SkipLead(url, 0, |url|);
  }
}
