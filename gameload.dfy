/** The catalog loader (src/app/gameload.tsx): database rows mapped to games,
    and a per-session catalog cache that gates fetching. The database query
    itself is not part of this model; its outcome is an input. */
module GameLoad {
  import opened Wrappers
  import opened Text
  import Seqs

  /** A game as the UI layer sees it. `images` holds each image URL as the
      URL parser normalised it. */
  datatype Game = Game(
    id: string,
    title: string,
    developer: string,
    genre: seq<string>,
    description: string,
    ageRating: string,
    publisher: string,
    images: seq<string>,
    links: map<string, string>,
    videoUrl: Option<string>)

  /** The `videourl` column: null, a text array, or a string (which may hold
      a JSON-encoded array). */
  datatype VideoField = VNull | VArray(items: seq<string>) | VString(text: string)

  /** What `JSON.parse` makes of a text: it throws, it yields something other
      than an array, or it yields an array whose first element, converted
      with `String`, is `first` when that element is truthy. */
  datatype JsonText = Invalid | NotArray | JsonArray(first: Option<string>)

  /** A row of the `games` table; nullable columns are options. */
  datatype GameRow = GameRow(
    id: string,
    name: string,
    images: Option<seq<Option<string>>>,
    description: Option<string>,
    publisher: Option<string>,
    developer: Option<string>,
    ageRating: Option<string>,
    genre: Option<string>,
    links: Option<map<string, string>>,
    videoUrl: VideoField)

  /** `s.replace(/^"(.*)"$/, "$1")`: one pair of surrounding double quotes is
      removed when the text between them has no line terminator (the regular
      expression's dot does not match one). */
  function StripQuotes(s: string): (r: string)
    ensures |r| == |s| || |r| == |s| - 2
    ensures |r| == |s| - 2 ==> s == "\"" + r + "\""
    ensures |r| == |s| ==> r == s
    ensures |r| == |s| - 2 <==>
      |s| >= 2 && s[0] == '"' && s[|s| - 1] == '"' && forall k :: 1 <= k < |s| - 1 ==> !IsLineTerminator(s[k])
  {
    if |s| >= 2 && s[0] == '"' && s[|s| - 1] == '"'
       && forall k :: 1 <= k < |s| - 1 ==> !IsLineTerminator(s[k])
    then s[1..|s| - 1]
    else s
  }

  /** Quoting a one-line text and stripping the quotes gives the text back. */
  lemma StripQuotesRoundTrip(t: string)
    requires forall k :: 0 <= k < |t| ==> !IsLineTerminator(t[k])
    ensures StripQuotes("\"" + t + "\"") == t
  {
    var s := "\"" + t + "\"";
    forall k | 1 <= k < |s| - 1 ensures !IsLineTerminator(s[k]) {
      assert s[k] == t[k - 1];
    }
    assert s[1..|s| - 1] == t;
  }

  /** The string branch of `normalizeVideoUrl`: trim; take the first element
      if the text starts with `[` and parses as an array with a truthy first
      element; strip one pair of surrounding quotes. */
  function NormalizeText(raw: string, parse: string -> JsonText): string {
    var s := Trim(raw);
    var s1 := if StartsWith(s, "[") && parse(s).JsonArray? && parse(s).first.Some?
              then parse(s).first.value else s;
    StripQuotes(s1)
  }

  /** `normalizeVideoUrl`: `None` (undefined) for null or "", the first element
      of an array (`None` when it is "" or missing), and for other text its
      normalised form, `None` when that is empty. The result is never "". */
  function NormalizeVideoUrl(raw: VideoField, parse: string -> JsonText): (r: Option<string>)
    ensures r.Some? ==> r.value != ""
    ensures raw == VNull || raw == VString("") ==> r == None
    ensures raw.VArray? ==> r == (if |raw.items| > 0 && raw.items[0] != "" then Some(raw.items[0]) else None)
    ensures raw.VString? && raw.text != "" ==> r == (if NormalizeText(raw.text, parse) == "" then None else Some(NormalizeText(raw.text, parse)))
  {
    match raw
    case VNull => None
    case VArray(items) => if |items| > 0 && items[0] != "" then Some(items[0]) else None
    case VString(text) =>
      if text == "" then None
      else
        var s := NormalizeText(text, parse);
        if s == "" then None else Some(s)
  }

  /** A plain link with no brackets or quotes around it comes out trimmed. */
  lemma NormalizePlainLink(text: string, parse: string -> JsonText)
    requires Trim(text) != "" && Trim(text)[0] != '[' && Trim(text)[0] != '"'
    ensures NormalizeVideoUrl(VString(text), parse) == Some(Trim(text))
  {
    assert !StartsWith(Trim(text), "[");
  }

  /** A JSON-encoded array of one quoted-free link yields that link. */
  lemma NormalizeJsonArray(text: string, parse: string -> JsonText, link: string)
    requires StartsWith(Trim(text), "[") && parse(Trim(text)) == JsonArray(Some(link))
    requires link != "" && link[0] != '"'
    ensures NormalizeVideoUrl(VString(text), parse) == Some(link)
  {
    assert text != "";
  }

  /** The image column: each entry trimmed (null counts as ""), empty ones
      dropped, then those the URL parser accepts, as it normalises them. */
  function ImageUrls(raw: seq<Option<string>>, parseUrl: string -> Option<string>): (r: seq<string>)
    ensures |r| <= |raw|
  {
    if raw == [] then [] else ImageOf(raw[0], parseUrl) + ImageUrls(raw[1..], parseUrl)
  }

  /** What one entry of the image column contributes: its trimmed URL when
      it is kept, nothing otherwise. */
  function ImageOf(e: Option<string>, parseUrl: string -> Option<string>): (r: seq<string>)
    ensures |r| <= 1
  {
    var t := if e.Some? then Trim(e.value) else "";
    if t != "" && parseUrl(t).Some? then [parseUrl(t).value] else []
  }

  /** An entry is kept exactly when it is non-empty after trimming and parses. */
  predicate KeepsImage(e: Option<string>, parseUrl: string -> Option<string>) {
    e.Some? && Trim(e.value) != "" && parseUrl(Trim(e.value)).Some?
  }

  /** The images keep the order of their entries: the list for a
      concatenation is the concatenation of the lists, and a single entry
      contributes its URL exactly when it is kept. */
  lemma {:induction false} ImageUrlsOrder(a: seq<Option<string>>, b: seq<Option<string>>, parseUrl: string -> Option<string>)
    ensures ImageUrls(a + b, parseUrl) == ImageUrls(a, parseUrl) + ImageUrls(b, parseUrl)
  {
    if a != [] {
      assert (a + b)[1..] == a[1..] + b;
      ImageUrlsOrder(a[1..], b, parseUrl);
      Seqs.AppendAssoc(ImageOf(a[0], parseUrl), ImageUrls(a[1..], parseUrl), ImageUrls(b, parseUrl));
    } else {
      assert a + b == b;
    }
  }

  lemma ImageUrlsSingle(e: Option<string>, parseUrl: string -> Option<string>)
    ensures ImageUrls([e], parseUrl) ==
      (if KeepsImage(e, parseUrl) then [parseUrl(Trim(e.value)).value] else [])
  {
    assert [e][1..] == [];
  }

  /** `mapRowToGame`: the genre column becomes a one-element list when it is
      non-empty and `[]` otherwise (it is not trimmed here); missing text
      columns become "", missing links `{}`. */
  function MapRowToGame(row: GameRow, parseUrl: string -> Option<string>, parse: string -> JsonText): (g: Game)
    ensures g.id == row.id && g.title == row.name
    ensures g.genre == (if row.genre.Some? && row.genre.value != "" then [row.genre.value] else [])
    ensures g.links == (if row.links.Some? then row.links.value else map[])
    ensures g.developer == (if row.developer.Some? then row.developer.value else "")
    ensures g.description == (if row.description.Some? then row.description.value else "")
    ensures g.ageRating == (if row.ageRating.Some? then row.ageRating.value else "")
    ensures g.publisher == (if row.publisher.Some? then row.publisher.value else "")
    ensures g.images == ImageUrls(if row.images.Some? then row.images.value else [], parseUrl)
    ensures |g.images| <= (if row.images.Some? then |row.images.value| else 0)
    ensures g.videoUrl == NormalizeVideoUrl(row.videoUrl, parse)
  {
    Game(
      row.id,
      row.name,
      row.developer.GetOr(""),
      if row.genre.Some? && row.genre.value != "" then [row.genre.value] else [],
      row.description.GetOr(""),
      row.ageRating.GetOr(""),
      row.publisher.GetOr(""),
      ImageUrls(row.images.GetOr([]), parseUrl),
      row.links.GetOr(map[]),
      NormalizeVideoUrl(row.videoUrl, parse))
  }

  /** The module-level `CATALOG_CACHE`, shared by every mounted hook. */
  class CatalogCache {
    var games: Option<seq<Game>>

    constructor ()
      ensures games == None
    {
      games := None;
    }
  }

  /** The state of one `useGameStore` hook. */
  class GameStore {
    const cache: CatalogCache
    var catalog: seq<Game>
    var loading: bool
    var error: Option<string>
    /** A fetch has been started and has not completed. */
    var fetching: bool

    /** Mounting: the catalog comes from the cache when it is filled; a fetch
        starts exactly when the cache is empty. */
    constructor (cache: CatalogCache)
      ensures this.cache == cache
      ensures catalog == cache.games.GetOr([])
      ensures fetching == cache.games.None? && loading == cache.games.None?
      ensures error == None
    {
      this.cache := cache;
      catalog := cache.games.GetOr([]);
      loading := cache.games.None?;
      error := None;
      fetching := cache.games.None?;
    }

    /** `reload` (and the first part of `load`): start a fetch. */
    method Reload()
      modifies this
      ensures loading && fetching && error == None && catalog == old(catalog)
    {
      loading := true;
      error := None;
      fetching := true;
    }

    /** The end of `load`: a successful fetch maps the rows and fills both the
        cache and the catalog; a failed one records its message ("Unknown
        error" when it has none). Either way loading stops. */
    method LoadCompleted(rows: Result<seq<GameRow>, Option<string>>,
                         parseUrl: string -> Option<string>, parse: string -> JsonText)
      requires fetching
      modifies this, cache
      ensures !loading && !fetching
      ensures rows.Ok? ==> (|catalog| == |rows.value|
        && (forall k :: 0 <= k < |catalog| ==> catalog[k] == MapRowToGame(rows.value[k], parseUrl, parse))
        && cache.games == Some(catalog) && error == old(error))
      ensures rows.Err? ==> (catalog == old(catalog) && cache.games == old(cache.games)
        && error == Some(rows.error.GetOr("Unknown error")))
    {
      match rows {
        case Ok(rs) =>
          var games := seq(|rs|, k requires 0 <= k < |rs| => MapRowToGame(rs[k], parseUrl, parse));
          cache.games := Some(games);
          catalog := games;
        case Err(msg) =>
          error := Some(msg.GetOr("Unknown error"));
      }
      loading := false;
      fetching := false;
    }
  }

  /** Two mounts in one session: the first fetches, and once its load
      succeeds a later mount starts with the loaded catalog and fetches
      nothing. */
  method MountTwice(rows: seq<GameRow>, parseUrl: string -> Option<string>, parse: string -> JsonText)
    returns (firstFetched: bool, secondFetched: bool, secondCatalog: seq<Game>)
    ensures firstFetched && !secondFetched
    ensures |secondCatalog| == |rows|
    ensures forall k :: 0 <= k < |rows| ==> secondCatalog[k] == MapRowToGame(rows[k], parseUrl, parse)
  {
    var cache := new CatalogCache();
    var first := new GameStore(cache);
    firstFetched := first.fetching;
    first.LoadCompleted(Ok(rows), parseUrl, parse);
    var second := new GameStore(cache);
    secondFetched := second.fetching;
    secondCatalog := second.catalog;
  }
}
