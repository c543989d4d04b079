/**
 * The pure helpers of the main menu (ProjectASL/src/main.js): the YouTube link
 * parser behind the music-URL box, the rectangle hit test of the music HUD, and
 * the guard that decides whether a button click runs its callback.
 *
 * The WHATWG URL parser is not modelled: its outcome on the trimmed input is a
 * parameter, `Some(parts)` when `new URL(...)` succeeds and `None` when it throws.
 */
module Menu {
  import opened Wrappers
  import opened JsText

  // ---------------------------------------------------------------------------
  // YouTube video id
  // ---------------------------------------------------------------------------

  /** What the code reads from a parsed URL: host name, path name and the decoded query pairs in order. */
  datatype UrlParts = UrlParts(hostname: string, pathname: string, query: seq<(string, string)>)

  /** `hostname.replace(/^www\./, '')`: one leading "www." is removed, nothing else. */
  function StripWww(host: string): string
  {
    if StartsWith(host, "www.") then host[4..] else host
  }

  /** `pathname.split('/').filter(Boolean)` */
  function PathSegments(path: string): (r: seq<string>)
    ensures forall i :: 0 <= i < |r| ==> r[i] != "" && '/' !in r[i]
    ensures forall x :: x in r <==> x in Split(path, '/') && x != ""
  {
    var pieces := Split(path, '/');
    var r := NonEmpty(pieces);
    assert forall i :: 0 <= i < |r| ==> r[i] in pieces;
    r
  }

  /** The segments keep the order of the path: there are none exactly when every piece is empty, and the first is the first non-empty piece. */
  lemma PathSegmentsFirst(path: string)
    ensures PathSegments(path) == [] <==> forall i :: 0 <= i < |Split(path, '/')| ==> Split(path, '/')[i] == ""
    ensures PathSegments(path) != [] ==>
              exists i :: 0 <= i < |Split(path, '/')| && PathSegments(path)[0] == Split(path, '/')[i]
                          && forall j :: 0 <= j < i ==> Split(path, '/')[j] == ""
  {
    NonEmptyFirst(Split(path, '/'));
  }

  /** `searchParams.get(key)`: the value of the first pair whose name is `key`, `None` when there is none. */
  function QueryGet(query: seq<(string, string)>, key: string): (r: Option<string>)
    ensures r.None? <==> forall i :: 0 <= i < |query| ==> query[i].0 != key
    ensures r.Some? ==> exists i :: 0 <= i < |query| && query[i] == (key, r.value)
                                    && forall j :: 0 <= j < i ==> query[j].0 != key
  {
    if query == [] then None
    else if query[0].0 == key then Some(query[0].1)
    else
      var r := QueryGet(query[1..], key);
      if r.Some? then
        var i :| 0 <= i < |query[1..]| && query[1..][i] == (key, r.value)
                 && forall j :: 0 <= j < i ==> query[1..][j].0 != key;
        assert query[i + 1] == (key, r.value);
        assert forall j :: 0 <= j < i + 1 ==> query[j].0 != key by {
          forall j | 0 <= j < i + 1 ensures query[j].0 != key {
            if j > 0 { assert query[j] == query[1..][j - 1]; }
          }
        }
        r
      else
        assert forall i :: 1 <= i < |query| ==> query[i] == query[1..][i - 1];
        r
  }

  /** The characters of the regular-expression class `[A-Za-z0-9_\-]`. */
  predicate IsIdChar(c: char)
  {
    ('A' <= c <= 'Z') || ('a' <= c <= 'z') || ('0' <= c <= '9') || c == '_' || c == '-'
  }

  /** The longest run of id characters that starts at position `j`: what the greedy `[A-Za-z0-9_\-]{6,}` consumes. */
  function IdRun(s: string, j: int): (r: string)
    requires 0 <= j <= |s|
    ensures j + |r| <= |s| && r == s[j..j + |r|]
    ensures forall k :: 0 <= k < |r| ==> IsIdChar(r[k])
    ensures j + |r| == |s| || !IsIdChar(s[j + |r|])
    decreases |s| - j
  {
    if j < |s| && IsIdChar(s[j]) then [s[j]] + IdRun(s, j + 1) else []
  }

  /**
   * The length of the marker `v=`, `/embed/`, `youtu.be/` or `/shorts/` that starts at
   * position `i`, or 0 when none does. Their first two characters differ, so at most
   * one of them starts at any position.
   */
  function MarkerLength(s: string, i: int): (n: nat)
    requires 0 <= i <= |s|
    ensures n == 0 || i + n <= |s|
  {
    var rest := s[i..];
    if StartsWith(rest, "v=") then 2
    else if StartsWith(rest, "/embed/") then 7
    else if StartsWith(rest, "youtu.be/") then 9
    else if StartsWith(rest, "/shorts/") then 8
    else 0
  }

  /** The fallback pattern matches at position `i`: a marker followed by at least six id characters. */
  predicate MatchesAt(s: string, i: int)
    requires 0 <= i <= |s|
  {
    MarkerLength(s, i) > 0 && |IdRun(s, i + MarkerLength(s, i))| >= 6
  }

  /** The id captured when the pattern matches at position `i`. */
  function CaptureAt(s: string, i: int): string
    requires 0 <= i <= |s| && MatchesAt(s, i)
  {
    IdRun(s, i + MarkerLength(s, i))
  }

  /** The position of the leftmost match at or after position `i`, or -1 when there is none. */
  function FirstMatchFrom(s: string, i: int): (k: int)
    requires 0 <= i <= |s|
    ensures k == -1 || i <= k <= |s|
    ensures k == -1 <==> forall j :: i <= j <= |s| ==> !MatchesAt(s, j)
    ensures k != -1 ==> MatchesAt(s, k) && forall j :: i <= j < k ==> !MatchesAt(s, j)
    decreases |s| - i
  {
    if MatchesAt(s, i) then i
    else if i == |s| then -1
    else FirstMatchFrom(s, i + 1)
  }

  /**
   * The fallback regular-expression match on the raw input, as its capture group: the id
   * after the leftmost match, `None` when the pattern matches nowhere.
   */
  function ScanForVideoId(s: string): Option<string>
  {
    var k := FirstMatchFrom(s, 0);
    if k == -1 then None else Some(CaptureAt(s, k))
  }

  /** `parseYouTubeVideoId(url)`; `parsed` is the outcome of `new URL(url.trim())`. */
  function ParseYouTubeVideoId(url: string, parsed: Option<UrlParts>): Option<string>
  {
    match parsed
    case None => ScanForVideoId(url)
    case Some(u) =>
      var host := StripWww(u.hostname);
      if host == "youtu.be" then
        var parts := PathSegments(u.pathname);
        if parts == [] then None else Some(parts[0])
      else if host == "youtube.com" || host == "m.youtube.com" then
        var v := QueryGet(u.query, "v");
        if v.Some? then v
        else
          var parts := PathSegments(u.pathname);
          if |parts| > 0 && (parts[0] == "embed" || parts[0] == "shorts") then
            if |parts| > 1 then Some(parts[1]) else None
          else None
      else None
  }

  /** A leading "www." on the host never changes the outcome, when the rest is not itself "www."-prefixed. */
  lemma WwwIgnored(url: string, host: string, path: string, query: seq<(string, string)>)
    requires !StartsWith(host, "www.")
    ensures ParseYouTubeVideoId(url, Some(UrlParts("www." + host, path, query)))
         == ParseYouTubeVideoId(url, Some(UrlParts(host, path, query)))
  {
    var h := "www." + host;
    assert h[..4] == "www.";
    assert h[4..] == host;
  }

  /** Any host other than youtu.be, youtube.com and m.youtube.com (after dropping "www.") yields null. */
  lemma OtherHostsYieldNull(url: string, u: UrlParts)
    requires StripWww(u.hostname) !in {"youtu.be", "youtube.com", "m.youtube.com"}
    ensures ParseYouTubeVideoId(url, Some(u)) == None
  {
  }

  /** On youtu.be the id is the first non-empty path segment, and null when the path has none. */
  lemma ShortHostTakesFirstSegment(url: string, u: UrlParts)
    requires StripWww(u.hostname) == "youtu.be"
    ensures var r := ParseYouTubeVideoId(url, Some(u));
            && (r.None? <==> forall i :: 0 <= i < |Split(u.pathname, '/')| ==> Split(u.pathname, '/')[i] == "")
            && (r.Some? ==> r.value != "" && '/' !in r.value
                            && exists i :: 0 <= i < |Split(u.pathname, '/')| && r.value == Split(u.pathname, '/')[i]
                                           && forall j :: 0 <= j < i ==> Split(u.pathname, '/')[j] == "")
  {
    var parts := PathSegments(u.pathname);
    PathSegmentsFirst(u.pathname);
    if parts != [] {
      assert ParseYouTubeVideoId(url, Some(u)) == Some(parts[0]);
      var w :| 0 <= w < |Split(u.pathname, '/')| && parts[0] == Split(u.pathname, '/')[w]
               && forall j :: 0 <= j < w ==> Split(u.pathname, '/')[j] == "";
      assert Split(u.pathname, '/')[w] != "";
    } else {
      assert ParseYouTubeVideoId(url, Some(u)) == None;
    }
  }

  /** On youtube.com and m.youtube.com a `v` query parameter wins over the path, even when its value is empty. */
  lemma QueryParameterWins(url: string, u: UrlParts, i: int)
    requires StripWww(u.hostname) in {"youtube.com", "m.youtube.com"}
    requires 0 <= i < |u.query| && u.query[i].0 == "v"
    requires forall j :: 0 <= j < i ==> u.query[j].0 != "v"
    ensures ParseYouTubeVideoId(url, Some(u)) == Some(u.query[i].1)
  {
    var v := QueryGet(u.query, "v");
    assert v.Some?;
    var k :| 0 <= k < |u.query| && u.query[k] == ("v", v.value)
             && forall j :: 0 <= j < k ==> u.query[j].0 != "v";
    assert k == i;
  }

  /** Without `v`, only an "embed" or "shorts" first segment gives an id: the second segment, or null. */
  lemma EmbedAndShortsPaths(url: string, u: UrlParts)
    requires StripWww(u.hostname) in {"youtube.com", "m.youtube.com"}
    requires forall j :: 0 <= j < |u.query| ==> u.query[j].0 != "v"
    ensures var parts := PathSegments(u.pathname);
            ParseYouTubeVideoId(url, Some(u))
              == if |parts| >= 2 && parts[0] in {"embed", "shorts"} then Some(parts[1]) else None
  {
  }

  /**
   * `id` is what the pattern captures at its leftmost match `k`: no match starts earlier, and
   * `id` is the whole run of (at least six) id characters right after the marker.
   */
  predicate IsLeftmostCapture(url: string, k: int, id: string)
  {
    && 0 <= k <= |url| && MatchesAt(url, k) && (forall j :: 0 <= j < k ==> !MatchesAt(url, j))
    && |id| >= 6 && (forall c :: c in id ==> IsIdChar(c))
    && OccursAt(url, id, k + MarkerLength(url, k))
    && var e := k + MarkerLength(url, k) + |id|;
       e == |url| || !IsIdChar(url[e])
  }

  /**
   * When the URL does not parse, the result is the capture of the leftmost match, and null
   * when no marker is followed by six id characters.
   */
  lemma FallbackScan(url: string)
    ensures var r := ParseYouTubeVideoId(url, None);
            && (r.None? <==> forall k :: 0 <= k <= |url| ==> !MatchesAt(url, k))
            && (r.Some? ==> exists k :: IsLeftmostCapture(url, k, r.value))
  {
    var k := FirstMatchFrom(url, 0);
    if k != -1 {
      var id := CaptureAt(url, k);
      assert ParseYouTubeVideoId(url, None) == Some(id);
      assert IsLeftmostCapture(url, k, id) by {
        CaptureFacts(url, k);
      }
    } else {
      assert ParseYouTubeVideoId(url, None) == None;
    }
  }

  /** The capture at a match: at least six id characters right after the marker, and not followed by another. */
  lemma CaptureFacts(url: string, k: int)
    requires 0 <= k <= |url| && MatchesAt(url, k)
    ensures var id := CaptureAt(url, k);
            var e := k + MarkerLength(url, k) + |id|;
            && |id| >= 6 && (forall c :: c in id ==> IsIdChar(c))
            && MarkerLength(url, k) > 0 && OccursAt(url, id, k + MarkerLength(url, k))
            && (e == |url| || !IsIdChar(url[e]))
  {
    var id := CaptureAt(url, k);
    var j := k + MarkerLength(url, k);
    assert id == IdRun(url, j);
    assert url[j..j + |id|] == id;
    forall c | c in id
      ensures IsIdChar(c)
    {
      var i :| 0 <= i < |id| && id[i] == c;
    }
  }

  // ---------------------------------------------------------------------------
  // Hit testing
  // ---------------------------------------------------------------------------

  datatype Rect = Rect(x: real, y: real, w: real, h: real)

  /** `pointInRect(px, py, r)`: strict inequalities on all four sides. */
  predicate PointInRect(px: real, py: real, r: Rect)
  {
    px > r.x && px < r.x + r.w && py > r.y && py < r.y + r.h
  }

  /** Points on the edges of the rectangle are outside it. */
  lemma EdgesAreOutside(r: Rect, t: real)
    ensures !PointInRect(r.x, t, r) && !PointInRect(r.x + r.w, t, r)
    ensures !PointInRect(t, r.y, r) && !PointInRect(t, r.y + r.h, r)
  {
  }

  /** Some point is inside exactly when the width and the height are both positive. */
  lemma HitAreaNonEmpty(r: Rect)
    ensures (exists px: real, py: real :: PointInRect(px, py, r)) <==> r.w > 0.0 && r.h > 0.0
  {
    if r.w > 0.0 && r.h > 0.0 {
      assert PointInRect(r.x + r.w / 2.0, r.y + r.h / 2.0, r);
    }
  }

  // ---------------------------------------------------------------------------
  // Buttons
  // ---------------------------------------------------------------------------

  datatype Button = Button(x: real, y: real, w: real, h: real, caption: string, visible: bool, disabled: bool)

  /** `Button.isHovered()`: visible and the mouse strictly inside. */
  predicate IsHovered(b: Button, mouseX: real, mouseY: real)
  {
    b.visible && mouseX > b.x && mouseX < b.x + b.w && mouseY > b.y && mouseY < b.y + b.h
  }

  /** `Button.click()` runs the callback exactly when this holds. */
  predicate RunsCallback(b: Button, mouseX: real, mouseY: real)
  {
    b.visible && !b.disabled && IsHovered(b, mouseX, mouseY)
  }

  /** Only a click strictly inside a visible, enabled button runs it: never one on a hidden or disabled button, on an edge of the box, or on a box with no area. */
  lemma ClickOnlyInside(b: Button, mouseX: real, mouseY: real, t: real)
    ensures !b.visible || b.disabled ==> !RunsCallback(b, mouseX, mouseY)
    ensures !RunsCallback(b, b.x, t) && !RunsCallback(b, b.x + b.w, t)
    ensures !RunsCallback(b, t, b.y) && !RunsCallback(b, t, b.y + b.h)
    ensures b.w <= 0.0 || b.h <= 0.0 ==> !RunsCallback(b, mouseX, mouseY)
    ensures b.visible && !b.disabled && PointInRect(mouseX, mouseY, Rect(b.x, b.y, b.w, b.h)) ==> RunsCallback(b, mouseX, mouseY)
  {
  }

  const CanvasWidth: real := 800.0
  const CanvasHeight: real := 600.0

  /** The buttons `showGameOptions()` creates, on the 800 x 600 canvas. */
  function GameOptionsButtons(offlineMode: bool): (r: seq<Button>)
    ensures |r| == 3 && r[1].caption == "Multiplayer" && r[1].disabled == offlineMode
    ensures forall i :: 0 <= i < |r| && i != 1 ==> !r[i].disabled && r[i].visible
  {
    [ Button(CanvasWidth / 2.0 - 220.0, CanvasHeight / 2.0 - 100.0, 200.0, 80.0, "Singleplayer", true, false),
      Button(CanvasWidth / 2.0 + 20.0, CanvasHeight / 2.0 - 100.0, 200.0, 80.0, "Multiplayer", true, offlineMode),
      Button(CanvasWidth / 2.0 - 100.0, CanvasHeight / 2.0, 200.0, 80.0, "Back", true, false) ]
  }

  /** The Multiplayer callback itself only navigates when online. */
  predicate MultiplayerCallbackNavigates(offlineMode: bool)
  {
    !offlineMode
  }

  /** Offline, no click on the Multiplayer button runs its callback; online, a click inside its box does and navigates. */
  lemma MultiplayerNeedsNetwork(offlineMode: bool, mouseX: real, mouseY: real)
    ensures var b := GameOptionsButtons(offlineMode)[1];
            && (offlineMode ==> !RunsCallback(b, mouseX, mouseY))
            && ((!offlineMode && PointInRect(mouseX, mouseY, Rect(b.x, b.y, b.w, b.h)))
                ==> (RunsCallback(b, mouseX, mouseY) && MultiplayerCallbackNavigates(offlineMode)))
  {
  }
}
