/** The YouTube video-id extractor of the project editor. The editor searches
    the URL for a recognised prefix followed by eleven id characters and takes
    those eleven characters. A prefix is either the short host "youtu.be/", or
    the long host "youtube.com/" followed by one of three paths, tried in this
    order: a first path segment and then any run ending in '/'; one of "v/",
    "embed/", "e/"; any run ending in "?v=" or "&v=". The model states which
    prefixes the pattern recognises (`Via`), and implements the search the way
    an ECMAScript backtracking matcher runs it: the leftmost start wins, the
    alternatives are tried in order, and the open-ended runs are greedy. */
module YouTube {
  import Text
  import opened Optional

  const IdLength: nat := 11
  const LongHost: string := "youtube.com/"
  const ShortHost: string := "youtu.be/"

  /** `[^"&?/\s]`: a character a video id may contain. */
  predicate IdChar(c: char) {
    c != '"' && c != '&' && c != '?' && c != '/' && !Text.IsSpace(c)
  }

  /** Eleven id characters start at `k`. */
  predicate IdAt(u: string, k: int) {
    0 <= k && k + IdLength <= |u| && forall i :: k <= i < k + IdLength ==> IdChar(u[i])
  }

  /** `w` occurs in `u` at position `j`. */
  predicate At(u: string, j: int, w: string) {
    0 <= j && j + |w| <= |u| && u[j..j + |w|] == w
  }

  /** No line terminator between `a` and `b`: the span `.` may cover. */
  predicate NoBreak(u: string, a: int, b: int) {
    0 <= a <= b <= |u| && forall i :: a <= i < b ==> !Text.IsLineTerminator(u[i])
  }

  /** The first '/' at or after `h`, or `|u|` when there is none. */
  function FirstSlash(u: string, h: nat): (m: nat)
    requires h <= |u|
    ensures h <= m <= |u|
    ensures m < |u| ==> u[m] == '/'
    ensures forall i :: h <= i < m ==> u[i] != '/'
    decreases |u| - h
  {
    if h == |u| || u[h] == '/' then h else FirstSlash(u, h + 1)
  }

  /** `[^/]+\/.+\/` after the host ending at `h`: the run up to the first '/'
      (non-empty), then at least one character other than a line terminator,
      then a '/' just before `k`. */
  predicate SegmentPath(u: string, h: nat, k: int) {
    h <= |u| &&
    var m := FirstSlash(u, h);
    h < m < |u| && m + 2 < k <= |u| && u[k - 1] == '/' && NoBreak(u, m + 1, k - 1)
  }

  /** `(?:v|e(?:mbed)?)\/` after the host ending at `h`. */
  predicate NamedPath(u: string, h: nat, k: int) {
    (At(u, h, "v/") && k == h + 2) || (At(u, h, "embed/") && k == h + 6) || (At(u, h, "e/") && k == h + 2)
  }

  /** `.*[?&]v=` after the host ending at `h`. */
  predicate QueryPath(u: string, h: nat, k: int) {
    h + 3 <= k <= |u| && NoBreak(u, h, k - 3) && (u[k - 3] == '?' || u[k - 3] == '&') && u[k - 2] == 'v' && u[k - 1] == '='
  }

  /** The part of the pattern before the capture group matches `u[j..k]`. */
  predicate Via(u: string, j: int, k: int) {
    || (At(u, j, ShortHost) && k == j + |ShortHost|)
    || (At(u, j, LongHost) && (SegmentPath(u, j + |LongHost|, k) || NamedPath(u, j + |LongHost|, k) || QueryPath(u, j + |LongHost|, k)))
  }

  /** A recognised URL prefix ends at `k`. */
  ghost predicate Recognised(u: string, k: int) {
    exists j :: 0 <= j <= k && Via(u, j, k)
  }

  predicate SegmentEnd(u: string, h: nat, k: int) {
    SegmentPath(u, h, k) && IdAt(u, k)
  }

  predicate QueryEnd(u: string, h: nat, k: int) {
    QueryPath(u, h, k) && IdAt(u, k)
  }

  /** The greedy search of one alternative: the largest end not above `k`. */
  function LastSegmentEnd(u: string, h: nat, k: int): (r: Option<nat>)
    requires h <= |u|
    ensures r.Some? ==> r.value <= k && SegmentEnd(u, h, r.value)
    ensures forall k' :: k' <= k && (r.None? || r.value < k') ==> !SegmentEnd(u, h, k')
    decreases k - h
  {
    if k <= h then None
    else if SegmentEnd(u, h, k) then Some(k)
    else LastSegmentEnd(u, h, k - 1)
  }

  function LastQueryEnd(u: string, h: nat, k: int): (r: Option<nat>)
    requires h <= |u|
    ensures r.Some? ==> r.value <= k && QueryEnd(u, h, r.value)
    ensures forall k' :: k' <= k && (r.None? || r.value < k') ==> !QueryEnd(u, h, k')
    decreases k - h
  {
    if k <= h then None
    else if QueryEnd(u, h, k) then Some(k)
    else LastQueryEnd(u, h, k - 1)
  }

  /** Where the id starts when the pattern is matched from the host ending at
      `h`: the first alternative that succeeds, each taking its longest match. */
  function PathAt(u: string, h: nat): (r: Option<nat>)
    requires h <= |u|
    ensures r.Some? ==> IdAt(u, r.value) && (SegmentPath(u, h, r.value) || NamedPath(u, h, r.value) || QueryPath(u, h, r.value))
    ensures r.None? ==> forall k :: IdAt(u, k) ==> !SegmentPath(u, h, k) && !NamedPath(u, h, k) && !QueryPath(u, h, k)
    ensures (exists k :: SegmentEnd(u, h, k)) ==> r.Some? && SegmentEnd(u, h, r.value) && forall k :: SegmentEnd(u, h, k) ==> k <= r.value
  {
    var a := LastSegmentEnd(u, h, |u|);
    if a.Some? then a
    else if At(u, h, "v/") && IdAt(u, h + 2) then Some(h + 2)
    else if At(u, h, "embed/") && IdAt(u, h + 6) then Some(h + 6)
    else if At(u, h, "e/") && IdAt(u, h + 2) then Some(h + 2)
    else
      var q := LastQueryEnd(u, h, |u|);
      assert forall k :: IdAt(u, k) ==> !SegmentPath(u, h, k) && !NamedPath(u, h, k) by {
        forall k | IdAt(u, k) ensures !SegmentPath(u, h, k) && !NamedPath(u, h, k) {
          assert k <= |u| ==> !SegmentEnd(u, h, k);
        }
      }
      assert q.None? ==> forall k :: IdAt(u, k) ==> !QueryPath(u, h, k) by {
        if q.None? {
          forall k | IdAt(u, k) ensures !QueryPath(u, h, k) {
            assert k <= |u| ==> !QueryEnd(u, h, k);
          }
        }
      }
      q
  }

  /** Where the id starts when the pattern is matched from position `j`. */
  function MatchAt(u: string, j: nat): (r: Option<nat>)
    requires j <= |u|
    ensures r.Some? ==> Via(u, j, r.value) && IdAt(u, r.value)
    ensures r.None? ==> forall k :: !(Via(u, j, k) && IdAt(u, k))
  {
    if At(u, j, LongHost) then
      assert !At(u, j, ShortHost) by {
        assert u[j + 5] == LongHost[5];
      }
      PathAt(u, j + |LongHost|)
    else if At(u, j, ShortHost) && IdAt(u, j + |ShortHost|) then Some(j + |ShortHost|)
    else None
  }

  /** A match: where it starts and where its capture group starts. */
  datatype Match = Match(start: nat, idStart: nat)

  /** The leftmost match starting at `j` or later. */
  function FindFrom(u: string, j: nat): (r: Option<Match>)
    ensures r.Some? ==> j <= r.value.start && Via(u, r.value.start, r.value.idStart) && IdAt(u, r.value.idStart)
    ensures forall j', k :: j <= j' && (r.None? || j' < r.value.start) ==> !(Via(u, j', k) && IdAt(u, k))
    decreases |u| + 1 - j
  {
    if j > |u| then None
    else
      match MatchAt(u, j)
      case Some(k) => Some(Match(j, k))
      case None => FindFrom(u, j + 1)
  }

  /** `url.match(pattern)?.[1]`: the eleven characters after a recognised
      prefix, from the leftmost match; nothing when no recognised prefix is
      followed by eleven id characters. */
  function VideoId(url: string): (r: Option<string>)
    ensures r.Some? ==> |r.value| == IdLength && forall i :: 0 <= i < |r.value| ==> IdChar(r.value[i])
    ensures r.Some? ==> exists k :: Recognised(url, k) && IdAt(url, k) && r.value == url[k..k + IdLength]
    ensures r.None? <==> forall k :: !(Recognised(url, k) && IdAt(url, k))
  {
    match FindFrom(url, 0)
    case Some(m) =>
      assert Recognised(url, m.idStart);
      Some(url[m.idStart..m.idStart + IdLength])
    case None => None
  }
}
