/** The game card (src/app/gamecard.tsx): the card's data, its video URL
    handling (first URL, YouTube embed URL), store-link labels, the fades of
    the preview strip, the lightbox index and the playback settings read
    from storage. */
module GameCard {
  import opened Wrappers
  import opened Text
  import opened Storage
  import Seqs
  import GameLoad

  /** What a card shows. `genre` is already joined into one string. */
  datatype CardData = CardData(
    id: string,
    title: string,
    mainImage: string,
    previews: seq<string>,
    description: string,
    developer: string,
    publisher: string,
    ageRating: string,
    genre: string,
    links: map<string, string>,
    videoUrl: Option<string>)

  /** `images[0] || ""`: the main image, "" when there is none. */
  function MainImage(images: seq<string>): (r: string)
    ensures images == [] ==> r == ""
    ensures images != [] ==> r == images[0]
  {
    if images == [] then "" else images[0]
  }

  /** `images.slice(1, 5)`: up to four preview images after the main one. */
  function Previews(images: seq<string>): (r: seq<string>)
    ensures |r| <= 4
    ensures |r| == (if |images| <= 1 then 0 else if |images| >= 5 then 4 else |images| - 1)
    ensures forall k :: 0 <= k < |r| ==> r[k] == images[k + 1]
  {
    if |images| <= 1 then [] else images[1..if |images| >= 5 then 5 else |images|]
  }

  /** The card data the pages build from a game: main image, up to four
      previews, genres joined with ", ", the links, and the video URL. */
  function CardOf(g: GameLoad.Game): CardData {
    CardData(g.id, g.title, MainImage(g.images), Previews(g.images), g.description, g.developer,
             g.publisher, g.ageRating, Join(g.genre, ", "), g.links, g.videoUrl)
  }

  /** A card shows its game's first image as the main one ("" without
      images), at most the next four as previews, and the game's own id,
      links and video. */
  lemma CardOfShape(g: GameLoad.Game)
    ensures var c := CardOf(g);
      && c.id == g.id && c.links == g.links && c.videoUrl == g.videoUrl
      && (g.images == [] ==> c.mainImage == "") && (g.images != [] ==> c.mainImage == g.images[0])
      && |c.previews| <= 4 && (forall k :: 0 <= k < |c.previews| ==> c.previews[k] == g.images[k + 1])
      && (|g.images| >= 5 ==> c.previews == g.images[1..5])
      && c.title == g.title && c.genre == Join(g.genre, ", ")
  {
    var c := CardOf(g);
    if |g.images| >= 5 {
      assert c.previews == g.images[1..5];
    }
  }

  // ---------------------------------------------------------------------
  // The first video URL

  /** `coerceFirstUrl`: the card's own copy of the loader's rules; `None`
      stands for `null`. */
  function CoerceFirstUrl(raw: GameLoad.VideoField, parse: string -> GameLoad.JsonText): (r: Option<string>)
    ensures r == GameLoad.NormalizeVideoUrl(raw, parse)
    ensures r.Some? ==> r.value != ""
  {
    match raw
    case VNull => None
    case VArray(items) => if |items| > 0 && items[0] != "" then Some(items[0]) else None
    case VString(text) =>
      if text == "" then None
      else
        var s := Trim(text);
        var s1 := if StartsWith(s, "[") && parse(s).JsonArray? && parse(s).first.Some?
                  then parse(s).first.value else s;
        var s2 := GameLoad.StripQuotes(s1);
        if s2 == "" then None else Some(s2)
  }

  /** The card and the loader agree on every input: a URL the loader already
      normalised is not changed in meaning by the card. */

  // ---------------------------------------------------------------------
  // YouTube embed URLs

  /** What `new URL(url)` yields that the conversion uses: the host name, the
      path and the `v` query parameter (`None` when absent). */
  datatype UrlParts = UrlParts(hostname: string, pathname: string, v: Option<string>)

  /** The player parameters shared by every embed URL; `encode` stands for
      `encodeURIComponent`. */
  function CommonParams(muted: bool, origin: string, encode: string -> string): (r: string)
    ensures StartsWith(r, "autoplay=1&mute=" + (if muted then "1" else "0") + "&")
  {
    var api := "enablejsapi=1" + (if origin != "" then "&origin=" + encode(origin) else "");
    var r := "autoplay=1&mute=" + (if muted then "1" else "0") + "&playsinline=1"
      + "&controls=0" + "&rel=0" + "&modestbranding=1" + "&iv_load_policy=3"
      + "&fs=0&disablekb=1" + "&" + api;
    assert r[..18] == "autoplay=1&mute=" + (if muted then "1" else "0") + "&";
    r
  }

  /** `mute=1` is set exactly when the player is muted, `mute=0` otherwise. */
  lemma MuteParam(muted: bool, origin: string, encode: string -> string)
    ensures CommonParams(muted, origin, encode)[11..17] == (if muted then "mute=1" else "mute=0")
  {
    var c := CommonParams(muted, origin, encode);
    assert c[..18][11..17] == c[11..17];
  }

  /** The canonical embed URL of a video id, looping that one video. */
  function EmbedFor(id: string, common: string): string {
    "https://www.youtube.com/embed/" + id + "?" + common + "&loop=1&playlist=" + id
  }

  /** A character of the class `[A-Za-z0-9_-]`. */
  predicate IsIdChar(c: char) {
    ('A' <= c <= 'Z') || ('a' <= c <= 'z') || ('0' <= c <= '9') || c == '_' || c == '-'
  }

  /** One past the run of id characters starting at `i`. */
  function IdRunEnd(s: string, i: nat): (n: nat)
    requires i <= |s|
    ensures i <= n <= |s|
    ensures forall k :: i <= k < n ==> IsIdChar(s[k])
    ensures n < |s| ==> !IsIdChar(s[n])
    decreases |s| - i
  {
    if i < |s| && IsIdChar(s[i]) then IdRunEnd(s, i + 1) else i
  }

  /** `/\/embed\/([A-Za-z0-9_-]{6,})/` matches at `i`. */
  predicate EmbedIdAt(s: string, i: nat) {
    OccursAt(s, "/embed/", i) && IdRunEnd(s, i + 7) - (i + 7) >= 6
  }

  /** The id the regular expression captures: at the leftmost position where
      it matches, the whole run of id characters (the class is greedy). */
  function EmbedId(s: string, from: nat): (r: Option<string>)
    requires from <= |s|
    ensures r.Some? ==> |r.value| >= 6 && forall k :: 0 <= k < |r.value| ==> IsIdChar(r.value[k])
    ensures r.None? ==> forall i :: from <= i <= |s| ==> !EmbedIdAt(s, i)
    decreases |s| - from
  {
    if EmbedIdAt(s, from) then Some(s[from + 7..IdRunEnd(s, from + 7)])
    else if from == |s| then None
    else EmbedId(s, from + 1)
  }

  /** The id found is the whole run of id characters after the leftmost
      `/embed/` (from `from` on) that is followed by at least six of them. */
  lemma {:induction false} EmbedIdLeftmost(s: string, from: nat)
    requires from <= |s|
    ensures var r := EmbedId(s, from);
      r.Some? ==>
        exists i: nat ::
          && from <= i <= |s| && EmbedIdAt(s, i)
          && (forall j :: from <= j < i ==> !EmbedIdAt(s, j))
          && r.value == s[i + 7..IdRunEnd(s, i + 7)]
    decreases |s| - from
  {
    if !EmbedIdAt(s, from) && from < |s| {
      EmbedIdLeftmost(s, from + 1);
      var r := EmbedId(s, from + 1);
      if r.Some? {
        var i: nat :| from + 1 <= i <= |s| && EmbedIdAt(s, i)
          && (forall j :: from + 1 <= j < i ==> !EmbedIdAt(s, j))
          && r.value == s[i + 7..IdRunEnd(s, i + 7)];
        assert forall j :: from <= j < i ==> !EmbedIdAt(s, j);
      }
    }
  }

  /** `/youtube\.com\/embed\//i.test(url)`: ASCII letters in either case. */
  predicate LooksEmbedded(url: string) {
    Contains(LowerAscii(url), "youtube.com/embed/")
  }

  /** `hostname.replace(/^www\./, "").toLowerCase()`. */
  function HostKey(hostname: string): string {
    LowerAscii(if StartsWith(hostname, "www.") then hostname[4..] else hostname)
  }

  /** `s.split(sep)`: the pieces between separators, always at least one. */
  function Split(s: string, sep: char): (r: seq<string>)
    ensures |r| >= 1
    ensures forall k, j :: 0 <= k < |r| && 0 <= j < |r[k]| ==> r[k][j] != sep
  {
    if s == [] then [""]
    else if s[0] == sep then [""] + Split(s[1..], sep)
    else
      var rest := Split(s[1..], sep);
      [[s[0]] + rest[0]] + rest[1..]
  }

  /** Splitting and joining with the same separator gives the text back. */
  lemma {:induction false} SplitJoin(s: string, sep: char)
    ensures Join(Split(s, sep), [sep]) == s
  {
    if s != [] {
      SplitJoin(s[1..], sep);
      var rest := Split(s[1..], sep);
      if s[0] == sep {
        assert Split(s, sep) == [""] + rest;
        assert ([""] + rest)[1..] == rest;
        assert s == [sep] + s[1..];
      } else {
        var r := [[s[0]] + rest[0]] + rest[1..];
        assert Split(s, sep) == r;
        if |rest| == 1 {
          assert s == [s[0]] + rest[0];
        } else {
          assert r[1..] == rest[1..];
          assert Join(rest, [sep]) == rest[0] + [sep] + Join(rest[1..], [sep]);
          assert s == [s[0]] + s[1..];
        }
      }
    }
  }

  /** `pathname.split("/").filter(Boolean)`: the non-empty path segments. */
  function Segments(path: string): seq<string> {
    Seqs.Filter(Split(path, '/'), p => p != "")
  }

  /** `s.replace("/", "")`: the first slash, wherever it is, removed. */
  function RemoveFirstSlash(s: string): (r: string)
    ensures '/' in s ==> |r| == |s| - 1
    ensures '/' !in s ==> r == s
  {
    if s == [] then []
    else if s[0] == '/' then s[1..]
    else [s[0]] + RemoveFirstSlash(s[1..])
  }

  /** The slash `RemoveFirstSlash` drops is the first one, and every other
      character stays in place. */
  lemma {:induction false} RemoveFirstSlashAt(s: string)
    requires '/' in s
    ensures var i := Seqs.FirstIndex(s, '/'); RemoveFirstSlash(s) == s[..i] + s[i + 1..]
  {
    if s[0] == '/' {
      assert s[..0] + s[1..] == s[1..];
    } else {
      var t := s[1..];
      SlashInTail(s);
      RemoveFirstSlashAt(t);
      var i := Seqs.FirstIndex(t, '/');
      assert Seqs.FirstIndex(s, '/') == i + 1;
      assert RemoveFirstSlash(s) == [s[0]] + RemoveFirstSlash(t);
      SpliceCons(s, i);
    }
  }

  lemma SlashInTail(s: string)
    requires '/' in s && s[0] != '/'
    ensures '/' in s[1..]
  {
    var f := Seqs.FirstIndex(s, '/');
    assert s[1..][f - 1] == '/';
  }

  /** Removing the character at position `i` of the tail of `s` and putting
      the head back removes the character at `i + 1` of `s`. */
  lemma SpliceCons(s: string, i: nat)
    requires i + 1 < |s|
    ensures [s[0]] + (s[1..][..i] + s[1..][i + 1..]) == s[..i + 1] + s[i + 2..]
  {
    assert s[..i + 1] == [s[0]] + s[1..][..i];
    assert s[i + 2..] == s[1..][i + 1..];
  }


  predicate IsWatchHost(host: string) {
    host == "youtube.com" || host == "m.youtube.com" || host == "youtube-nocookie.com"
  }

  /** `toYouTubeEmbed(url, muted)`. `parsed` is what `new URL(url)` yields
      (`None` when it throws), `origin` the window's origin ("" without a
      window). The result is `None` (null) for a missing or empty URL, a URL
      that does not parse, a host other than YouTube's, or a YouTube URL
      without a video id. Every URL it returns carries the common player
      parameters. */
  function ToYouTubeEmbed(url: Option<string>, muted: bool, origin: string, encode: string -> string,
                          parsed: Option<UrlParts>): (r: Option<string>)
    ensures url == None || url == Some("") ==> r == None
    ensures r.Some? && !LooksEmbedded(url.value) ==> (parsed.Some? && (IsWatchHost(HostKey(parsed.value.hostname))
      || HostKey(parsed.value.hostname) == "youtu.be"))
    ensures r.Some? && !LooksEmbedded(url.value) ==>
      exists id :: id != "" && r.value == EmbedFor(id, CommonParams(muted, origin, encode))
  {
    if url == None || url == Some("") then None
    else
      var u := url.value;
      var common := CommonParams(muted, origin, encode);
      if LooksEmbedded(u) then
        var vid := EmbedId(u, 0);
        var sep := if Contains(u, "?") then "&" else "?";
        var loop := if vid.Some? then "&loop=1&playlist=" + vid.value else "";
        Some(u + sep + common + loop)
      else if parsed.None? then None
      else
        var host := HostKey(parsed.value.hostname);
        var parts := Segments(parsed.value.pathname);
        if IsWatchHost(host) && parsed.value.v.Some? && parsed.value.v.value != "" then
          Some(EmbedFor(parsed.value.v.value, common))
        else if IsWatchHost(host) && |parts| >= 2 && parts[0] == "shorts" && parts[1] != "" then
          Some(EmbedFor(parts[1], common))
        else if host == "youtu.be" && RemoveFirstSlash(parsed.value.pathname) != "" then
          Some(EmbedFor(RemoveFirstSlash(parsed.value.pathname), common))
        else None
  }

  /** A watch URL on a YouTube host with a `v` parameter embeds that video. */
  lemma WatchUrlEmbeds(url: string, muted: bool, origin: string, encode: string -> string, parts: UrlParts)
    requires url != "" && !LooksEmbedded(url)
    requires IsWatchHost(HostKey(parts.hostname)) && parts.v.Some? && parts.v.value != ""
    ensures ToYouTubeEmbed(Some(url), muted, origin, encode, Some(parts))
      == Some(EmbedFor(parts.v.value, CommonParams(muted, origin, encode)))
  {
  }

  /** A `/shorts/<id>` path on a YouTube host without `v` embeds the second
      path segment. */
  lemma ShortsUrlEmbeds(url: string, muted: bool, origin: string, encode: string -> string, parts: UrlParts)
    requires url != "" && !LooksEmbedded(url)
    requires IsWatchHost(HostKey(parts.hostname)) && (parts.v == None || parts.v == Some(""))
    requires |Segments(parts.pathname)| >= 2 && Segments(parts.pathname)[0] == "shorts"
    ensures ToYouTubeEmbed(Some(url), muted, origin, encode, Some(parts))
      == Some(EmbedFor(Segments(parts.pathname)[1], CommonParams(muted, origin, encode)))
  {
    var segs := Segments(parts.pathname);
    assert segs[1] in segs;
  }

  /** A `youtu.be` link embeds its path without the first slash. */
  lemma ShortLinkEmbeds(url: string, muted: bool, origin: string, encode: string -> string, parts: UrlParts)
    requires url != "" && !LooksEmbedded(url)
    requires HostKey(parts.hostname) == "youtu.be" && RemoveFirstSlash(parts.pathname) != ""
    ensures ToYouTubeEmbed(Some(url), muted, origin, encode, Some(parts))
      == Some(EmbedFor(RemoveFirstSlash(parts.pathname), CommonParams(muted, origin, encode)))
  {
  }

  /** A URL that is already an embed URL keeps its text and gets the
      parameters after `&` when it has a query, after `?` otherwise, plus the
      loop parameters when it names a video. */
  lemma EmbedUrlExtended(url: string, muted: bool, origin: string, encode: string -> string, parsed: Option<UrlParts>)
    requires url != "" && LooksEmbedded(url)
    ensures var r := ToYouTubeEmbed(Some(url), muted, origin, encode, parsed);
      && r.Some?
      && StartsWith(r.value, url + (if Contains(url, "?") then "&" else "?") + CommonParams(muted, origin, encode))
      && (EmbedId(url, 0).None? ==> r.value == url + (if Contains(url, "?") then "&" else "?") + CommonParams(muted, origin, encode))
      && (EmbedId(url, 0).Some? ==>
            r.value == url + (if Contains(url, "?") then "&" else "?") + CommonParams(muted, origin, encode)
                       + "&loop=1&playlist=" + EmbedId(url, 0).value)
  {
    var p := url + (if Contains(url, "?") then "&" else "?") + CommonParams(muted, origin, encode);
    var loop := if EmbedId(url, 0).Some? then "&loop=1&playlist=" + EmbedId(url, 0).value else "";
    var r := ToYouTubeEmbed(Some(url), muted, origin, encode, parsed).value;
    assert r == p + loop;
    assert r[..|p|] == p;
    if EmbedId(url, 0).Some? {
      Seqs.AppendAssoc(p, "&loop=1&playlist=", EmbedId(url, 0).value);
    }
  }

  /** Any other host gives no embed URL, and neither does a URL that does
      not parse. */
  lemma OtherHostsRejected(url: string, muted: bool, origin: string, encode: string -> string, parsed: Option<UrlParts>)
    requires url != "" && !LooksEmbedded(url)
    requires parsed.None? || (!IsWatchHost(HostKey(parsed.value.hostname)) && HostKey(parsed.value.hostname) != "youtu.be")
    ensures ToYouTubeEmbed(Some(url), muted, origin, encode, parsed) == None
  {
  }

  /** The video replaces the poster after a delay only when there is an embed
      URL, autoplay is on and the card is not known to be behind the front. */
  function VideoScheduled(embedSrc: Option<string>, autoplay: bool, isFront: Option<bool>): (r: bool)
    ensures r ==> embedSrc.Some? && embedSrc.value != "" && autoplay
    ensures isFront == Some(false) ==> !r
    ensures embedSrc.Some? && embedSrc.value != "" && autoplay && isFront != Some(false) ==> r
  {
    embedSrc.Some? && embedSrc.value != "" && autoplay && isFront != Some(false)
  }

  // ---------------------------------------------------------------------
  // Store-link labels

  /** The patterns of `formatLinkLabel`, all case-insensitive in ASCII
      letters: a word, `epic(?:\s*games)?`, `itch(?:\.io)?` and
      `(meta[\s-]*quest|oculus)`. */
  datatype Pattern = Word(w: string) | Epic | Itch | MetaQuest

  /** `s` has `w` at `i`, ASCII letters compared without case (`w` is lower
      case). */
  predicate WordAt(s: string, w: string, i: nat) {
    i + |w| <= |s| && LowerAscii(s[i..i + |w|]) == w
  }

  predicate IsSpaceOrDash(c: char) {
    IsJsSpace(c) || c == '-'
  }

  function SpaceOrDashRunEnd(s: string, i: nat): (n: nat)
    requires i <= |s|
    ensures i <= n <= |s|
    decreases |s| - i
  {
    if i < |s| && IsSpaceOrDash(s[i]) then SpaceOrDashRunEnd(s, i + 1) else i
  }

  /** The length of the match of `p` at position `i`, if it matches there.
      The optional parts are greedy; backtracking into a run of separators
      cannot help, since the word after it starts with a letter. */
  function MatchLen(s: string, i: nat, p: Pattern): (n: Option<nat>)
    requires i <= |s|
    ensures n.Some? ==> 0 < n.value && i + n.value <= |s|
  {
    match p
    case Word(w) => if w != "" && WordAt(s, w, i) then Some(|w|) else None
    case Epic => EpicLen(s, i)
    case Itch => ItchLen(s, i)
    case MetaQuest => MetaQuestLen(s, i)
  }

  /** `epic(?:\s*games)?` at `i`. */
  function EpicLen(s: string, i: nat): (n: Option<nat>)
    requires i <= |s|
    ensures n.Some? ==> 0 < n.value && i + n.value <= |s|
  {
    if !WordAt(s, "epic", i) then None
    else
      var j := SkipSpace(s, i + 4);
      if WordAt(s, "games", j) then Some(j + 5 - i) else Some(4)
  }

  /** `itch(?:\.io)?` at `i`. */
  function ItchLen(s: string, i: nat): (n: Option<nat>)
    requires i <= |s|
    ensures n.Some? ==> 0 < n.value && i + n.value <= |s|
  {
    if !WordAt(s, "itch", i) then None
    else if WordAt(s, ".io", i + 4) then Some(7) else Some(4)
  }

  /** `(meta[\s-]*quest|oculus)` at `i`. */
  function MetaQuestLen(s: string, i: nat): (n: Option<nat>)
    requires i <= |s|
    ensures n.Some? ==> 0 < n.value && i + n.value <= |s|
  {
    if WordAt(s, "meta", i) && WordAt(s, "quest", SpaceOrDashRunEnd(s, i + 4)) then
      Some(SpaceOrDashRunEnd(s, i + 4) + 5 - i)
    else if WordAt(s, "oculus", i) then Some(6)
    else None
  }

  /** The leftmost match at or after `from`: its position and length. */
  function FirstMatch(s: string, p: Pattern, from: nat): (r: Option<(nat, nat)>)
    requires from <= |s|
    ensures r.Some? ==> from <= r.value.0 <= |s| && MatchLen(s, r.value.0, p) == Some(r.value.1)
    ensures r.Some? ==> forall i :: from <= i < r.value.0 ==> MatchLen(s, i, p).None?
    ensures r.None? ==> forall i :: from <= i <= |s| ==> MatchLen(s, i, p).None?
    decreases |s| - from
  {
    var m := MatchLen(s, from, p);
    if m.Some? then Some((from, m.value))
    else if from == |s| then None
    else FirstMatch(s, p, from + 1)
  }

  /** `s.replace(p, repl)` for a non-global pattern: the leftmost match is
      replaced, and nothing when there is none. */
  function ReplaceFirst(s: string, p: Pattern, repl: string): (r: string)
    ensures FirstMatch(s, p, 0).None? ==> r == s
    ensures FirstMatch(s, p, 0).Some? ==> (var m := FirstMatch(s, p, 0).value;
      r == s[..m.0] + repl + s[m.0 + m.1..])
  {
    match FirstMatch(s, p, 0)
    case None => s
    case Some((i, n)) => s[..i] + repl + s[i + n..]
  }

  /** `formatLinkLabel(key)`: the store names of a link key in their brand
      spelling; a key that names no store is shown as it is. */
  function FormatLinkLabel(key: string): (r: string)
    ensures NoStoreName(key) ==> r == key
  {
    var s1 := ReplaceFirst(key, Word("nintendo"), "Nintendo");
    var s2 := ReplaceFirst(s1, Word("playstation"), "PlayStation");
    var s3 := ReplaceFirst(s2, Word("xbox"), "Xbox");
    var s4 := ReplaceFirst(s3, Word("steam"), "Steam");
    var s5 := ReplaceFirst(s4, Epic, "Epic Games");
    var s6 := ReplaceFirst(s5, Itch, "itch.io");
    var s7 := ReplaceFirst(s6, Word("gog"), "GOG");
    assert NoStoreName(key) ==> s7 == key by {
      if NoStoreName(key) {
        NoPatternUnchanged(key, Word("nintendo"), "Nintendo");
        NoPatternUnchanged(key, Word("playstation"), "PlayStation");
        NoPatternUnchanged(key, Word("xbox"), "Xbox");
        NoPatternUnchanged(key, Word("steam"), "Steam");
        NoPatternUnchanged(key, Epic, "Epic Games");
        NoPatternUnchanged(key, Itch, "itch.io");
        NoPatternUnchanged(key, Word("gog"), "GOG");
      }
    }
    assert NoStoreName(key) ==> ReplaceFirst(key, MetaQuest, "Meta Quest") == key by {
      if NoStoreName(key) {
        NoPatternUnchanged(key, MetaQuest, "Meta Quest");
      }
    }
    ReplaceFirst(s7, MetaQuest, "Meta Quest")
  }

  /** A key that is exactly one match of a pattern becomes its replacement. */
  lemma WholeKeyReplaced(key: string, p: Pattern, repl: string)
    requires MatchLen(key, 0, p) == Some(|key|)
    ensures ReplaceFirst(key, p, repl) == repl
  {
  }

  /** A label with none of the patterns is left as it is. */
  lemma NoPatternUnchanged(s: string, p: Pattern, repl: string)
    requires NoMatch(s, p)
    ensures ReplaceFirst(s, p, repl) == s
  {
  }

  /** No pattern of `formatLinkLabel` matches anywhere in `s`. */
  predicate NoStoreName(s: string) {
    && NoMatch(s, Word("nintendo")) && NoMatch(s, Word("playstation"))
    && NoMatch(s, Word("xbox")) && NoMatch(s, Word("steam"))
    && NoMatch(s, Epic) && NoMatch(s, Itch)
    && NoMatch(s, Word("gog")) && NoMatch(s, MetaQuest)
  }

  /** `p` matches nowhere in `s`. */
  predicate NoMatch(s: string, p: Pattern) {
    forall i :: 0 <= i <= |s| ==> MatchLen(s, i, p).None?
  }

  // ---------------------------------------------------------------------
  // The preview strip

  /** `updateFades`: a left fade when scrolled away from the start, a right
      fade when more than one pixel of content lies beyond the right edge. */
  function ShowLeft(scrollLeft: real): (r: bool)
    ensures r <==> scrollLeft > 0.0
  {
    scrollLeft > 0.0
  }

  function ShowRight(scrollLeft: real, clientWidth: real, scrollWidth: real): (r: bool)
    ensures r <==> scrollWidth - (scrollLeft + clientWidth) > 1.0
  {
    scrollLeft + clientWidth < scrollWidth - 1.0
  }

  const MaskBoth := "linear-gradient(to right, transparent 0, black 32px, black calc(100% - 32px), transparent 100%)"
  const MaskRight := "linear-gradient(to right, black 0, black calc(100% - 32px), transparent 100%)"
  const MaskLeft := "linear-gradient(to right, transparent 0, black 32px, black 100%)"

  /** The strip's mask: none, or a gradient image (repeat and size are fixed). */
  datatype Mask = NoMask | Masked(image: string)

  /** `maskStyle`: no mask without fades, otherwise the gradient fading the
      sides that have more content. */
  function MaskStyle(showLeft: bool, showRight: bool): (m: Mask)
    ensures m == NoMask <==> !showLeft && !showRight
    ensures m == Masked(MaskBoth) <==> showLeft && showRight
    ensures m == Masked(MaskRight) <==> !showLeft && showRight
    ensures m == Masked(MaskLeft) <==> showLeft && !showRight
  {
    if !showLeft && !showRight then NoMask
    else if showLeft && showRight then Masked(MaskBoth)
    else if showRight then Masked(MaskRight)
    else Masked(MaskLeft)
  }

  /** Content that fits has no mask at the start position; scrolled to the
      very end of overflowing content, only the left side fades. */
  lemma FadesAtTheEnds(clientWidth: real, scrollWidth: real)
    ensures scrollWidth <= clientWidth + 1.0 ==> MaskStyle(ShowLeft(0.0), ShowRight(0.0, clientWidth, scrollWidth)) == NoMask
    ensures scrollWidth > clientWidth ==>
      MaskStyle(ShowLeft(scrollWidth - clientWidth), ShowRight(scrollWidth - clientWidth, clientWidth, scrollWidth)) == Masked(MaskLeft)
  {
  }

  // ---------------------------------------------------------------------
  // The lightbox

  /** JavaScript's `%`: the remainder takes the sign of the dividend. */
  function JsRem(a: int, b: int): (r: int)
    requires b != 0
    ensures a >= 0 && b > 0 ==> r == a % b
  {
    if a >= 0 then a % (if b < 0 then -b else b)
    else -((-a) % (if b < 0 then -b else b))
  }

  function Max1(n: nat): nat {
    if n < 1 then 1 else n
  }

  /** The arrow keys: next and previous modulo `max(1, n)`. */
  function KeyNext(i: int, n: nat): (r: int)
    ensures 0 <= i < Max1(n) ==> r == (if i + 1 == Max1(n) then 0 else i + 1)
  {
    JsRem(i + 1, Max1(n))
  }

  function KeyPrev(i: int, n: nat): (r: int)
    ensures 0 <= i < Max1(n) ==> r == (if i == 0 then Max1(n) - 1 else i - 1)
  {
    JsRem(i - 1 + Max1(n), Max1(n))
  }

  /** From any index in range the keys stay in range, and each undoes the
      other. With no previews the index stays 0. */
  lemma KeyIndexInRange(i: int, n: nat)
    requires 0 <= i < Max1(n)
    ensures 0 <= KeyNext(i, n) < Max1(n) && 0 <= KeyPrev(i, n) < Max1(n)
    ensures KeyPrev(KeyNext(i, n), n) == i && KeyNext(KeyPrev(i, n), n) == i
    ensures n == 0 ==> KeyNext(i, n) == 0 && KeyPrev(i, n) == 0
  {
    var m := Max1(n);
    StepMod(i, m);
    assert KeyNext(i, n) == (if i + 1 < m then i + 1 else 0);
    assert KeyPrev(i, n) == (if i == 0 then m - 1 else i - 1);
    StepMod(KeyNext(i, n), m);
    StepMod(KeyPrev(i, n), m);
  }

  lemma StepMod(i: int, m: int)
    requires 0 <= i < m
    ensures (i + 1) % m == (if i + 1 < m then i + 1 else 0)
    ensures (i - 1 + m) % m == (if i == 0 then m - 1 else i - 1)
  {
    if i + 1 == m {
      assert (i + 1) % m == 0;
    }
    if i > 0 {
      assert i - 1 + m == (i - 1) + 1 * m;
    }
  }

  /** The on-screen arrows use `% n` without the guard: with no previews the
      index becomes NaN (`None`); otherwise they agree with the keys. */
  function ArrowNext(i: int, n: nat): (r: Option<int>)
    ensures n == 0 <==> r == None
    ensures n > 0 ==> r == Some(KeyNext(i, n))
  {
    if n == 0 then None else Some(JsRem(i + 1, n))
  }

  function ArrowPrev(i: int, n: nat): (r: Option<int>)
    ensures n == 0 <==> r == None
    ensures n > 0 ==> r == Some(KeyPrev(i, n))
  {
    if n == 0 then None else Some(JsRem(i - 1 + n, n))
  }

  // ---------------------------------------------------------------------
  // Playback settings

  /** The muted setting: on only when the stored text parses to `true`;
      off when absent or unreadable. */
  function ReadMuted(v: Option<Stored>): (r: bool)
    ensures v == None ==> !r
    ensures r <==> v == Some(Flag(true))
  {
    match v
    case Some(Flag(b)) => b
    case _ => false
  }

  /** The autoplay setting: on when absent or unparsable, otherwise on only
      when the stored text parses to `true` (so `null`, `0` or `[]` turn it
      off). */
  function ReadAutoplay(v: Option<Stored>): (r: bool)
    ensures v == None ==> r
    ensures v == Some(Null) ==> !r
    ensures v.Some? && v.value.Text? ==> r
    ensures v.Some? && !v.value.Text? ==> (r <==> v == Some(Flag(true)))
  {
    match v
    case None => true
    case Some(Flag(b)) => b
    case Some(Text(_)) => true
    case Some(_) => false
  }

  /** A `storage` event re-reads a setting only for its own key. */
  function OnSettingEvent(key: string, settingKey: string, current: bool, read: bool): (r: bool)
    ensures key == settingKey ==> r == read
    ensures key != settingKey ==> r == current
  {
    if key == settingKey then read else current
  }

  /** The playback state of one mounted card: the two settings, the video
      that replaces the poster, and whether its 2-second timer is pending.
      `videoUrl` is the card's coerced first URL; `parsed` what the URL
      parser makes of it, and `origin` and `encode` the page origin and
      `encodeURIComponent`. */
  class Playback {
    const storage: LocalStorage
    const videoUrl: Option<string>
    const origin: string
    const encode: string -> string
    const parsed: Option<UrlParts>
    var isFront: Option<bool>
    var muted: bool
    var autoplay: bool
    var showVideo: bool
    var timerPending: bool

    /** `embedSrc`, recomputed whenever `muted` changes. */
    function EmbedSrc(): Option<string>
      reads this
    {
      ToYouTubeEmbed(videoUrl, muted, origin, encode, parsed)
    }

    /** The video shows, or is about to, only while it is scheduled. */
    predicate Valid()
      reads this
    {
      showVideo || timerPending ==> VideoScheduled(EmbedSrc(), autoplay, isFront)
    }

    /** The video effect: when it is not scheduled the video is hidden and
        no timer runs; otherwise a fresh timer is set and the video stays as
        it is. */
    method RunVideoEffect()
      modifies this
      ensures Valid()
      ensures timerPending == VideoScheduled(EmbedSrc(), autoplay, isFront)
      ensures showVideo == (old(showVideo) && timerPending)
      ensures muted == old(muted) && autoplay == old(autoplay) && isFront == old(isFront)
    {
      if VideoScheduled(EmbedSrc(), autoplay, isFront) {
        timerPending := true;
      } else {
        showVideo := false;
        timerPending := false;
      }
    }

    /** Mounting, once the effects have settled: both settings read from
        storage, the poster shown, and the timer set exactly when the video
        is scheduled. */
    constructor (storage: LocalStorage, videoUrl: Option<string>, origin: string,
                 encode: string -> string, parsed: Option<UrlParts>, isFront: Option<bool>)
      ensures this.storage == storage && this.videoUrl == videoUrl && this.isFront == isFront
      ensures this.origin == origin && this.encode == encode && this.parsed == parsed
      ensures muted == ReadMuted(storage.GetItem(MutedKey))
      ensures autoplay == ReadAutoplay(storage.GetItem(AutoplayKey))
      ensures !showVideo && timerPending == VideoScheduled(EmbedSrc(), autoplay, isFront)
      ensures Valid()
    {
      this.storage := storage;
      this.videoUrl := videoUrl;
      this.origin := origin;
      this.encode := encode;
      this.parsed := parsed;
      this.isFront := isFront;
      muted := ReadMuted(storage.GetItem(MutedKey));
      autoplay := ReadAutoplay(storage.GetItem(AutoplayKey));
      showVideo := false;
      timerPending := false;
      new;
      RunVideoEffect();
    }

    /** A `storage` event: each setting is re-read only on its own key, and
        the video effect runs again when the embed URL or autoplay changed.
        An event never brings the video up by itself. */
    method OnStorageEvent(key: string)
      requires Valid()
      modifies this
      ensures key == MutedKey ==> muted == ReadMuted(storage.GetItem(MutedKey)) && autoplay == old(autoplay)
      ensures key == AutoplayKey ==> autoplay == ReadAutoplay(storage.GetItem(AutoplayKey)) && muted == old(muted)
      ensures key != MutedKey && key != AutoplayKey ==>
        muted == old(muted) && autoplay == old(autoplay) && showVideo == old(showVideo) && timerPending == old(timerPending)
      ensures showVideo ==> old(showVideo)
      ensures isFront == old(isFront)
      ensures Valid()
    {
      var before := EmbedSrc();
      var wasAutoplay := autoplay;
      muted := OnSettingEvent(key, MutedKey, muted, ReadMuted(storage.GetItem(MutedKey)));
      autoplay := OnSettingEvent(key, AutoplayKey, autoplay, ReadAutoplay(storage.GetItem(AutoplayKey)));
      if EmbedSrc() != before || autoplay != wasAutoplay {
        RunVideoEffect();
      }
    }

    /** The card moves to or from the front. */
    method SetFront(front: Option<bool>)
      requires Valid()
      modifies this
      ensures isFront == front && muted == old(muted) && autoplay == old(autoplay)
      ensures front == Some(false) ==> !showVideo && !timerPending
      ensures showVideo ==> old(showVideo)
      ensures Valid()
    {
      var was := isFront;
      isFront := front;
      if front != was {
        RunVideoEffect();
      }
    }

    /** The timer fires: the video replaces the poster, which happens only
        while the video is scheduled. */
    method TimerElapsed()
      requires Valid() && timerPending
      modifies this
      ensures showVideo && !timerPending
      ensures VideoScheduled(EmbedSrc(), autoplay, isFront)
      ensures muted == old(muted) && autoplay == old(autoplay) && isFront == old(isFront)
      ensures Valid()
    {
      showVideo := true;
      timerPending := false;
    }
  }
}
