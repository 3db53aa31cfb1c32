/** The home page (src/app/page.tsx): the "For you" deck fed by the catalog
    filtered by the genre preferences, and the persisted choice between the
    deck and the explore view. */
module HomePage {
  import opened Wrappers
  import opened Text
  import opened Storage
  import Seqs
  import GameLoad
  import GameCard
  import Genres

  /** The genre preferences: `new Set(JSON.parse(raw))` for a stored value
      (an array's elements, nothing for `null`, a JSON string's
      characters); every genre of the catalog when nothing is stored, the
      value is empty, or reading throws (unparsable text, or a boolean,
      number or object the `Set` constructor rejects). */
  function ReadPrefs(v: Option<Stored>, allGenres: seq<string>): (r: set<string>)
    ensures v.Some? && v.value.Strings? ==> r == v.value.items
    ensures v == Some(Null) ==> r == {}
    ensures v.Some? && SetOf(v.value).Some? ==> r == SetOf(v.value).value
    ensures v.None? || SetOf(v.value).None? ==> forall x :: x in r <==> x in allGenres
  {
    if v.Some? && SetOf(v.value).Some? then SetOf(v.value).value else set x | x in allGenres
  }

  /** A game is shown when one of its trimmed genres is selected. */
  predicate Shown(g: GameLoad.Game, selected: set<string>) {
    exists gen :: gen in g.genre && Trim(gen) in selected
  }

  /** `filteredCatalog`: nothing when no genre is selected, otherwise the
      games with a selected genre, in catalog order. */
  function FilteredCatalog(catalog: seq<GameLoad.Game>, selected: set<string>): (r: seq<GameLoad.Game>)
    ensures selected == {} ==> r == []
    ensures selected != {} ==> forall g :: g in r <==> g in catalog && Shown(g, selected)
    ensures |r| <= |catalog|
  {
    if selected == {} then [] else Seqs.Filter(catalog, g => Shown(g, selected))
  }

  /** The filter keeps the catalog's order: the games shown from a
      concatenation are those shown from each part, in turn. */
  lemma FilteredCatalogOrder(a: seq<GameLoad.Game>, b: seq<GameLoad.Game>, selected: set<string>)
    ensures FilteredCatalog(a + b, selected) == FilteredCatalog(a, selected) + FilteredCatalog(b, selected)
  {
    if selected != {} {
      Seqs.FilterConcat(a, b, g => Shown(g, selected));
    }
  }

  /** With the default preferences (every genre of the catalog: nothing
      stored, or a value the `Set` constructor cannot read), the deck offers
      exactly the games that have at least one non-blank genre. */
  lemma DefaultPrefsShowGenredGames(catalog: seq<GameLoad.Game>, v: Option<Stored>)
    requires v.None? || SetOf(v.value).None?
    ensures var sel := ReadPrefs(v, Seqs.Distinct(Genres.AllNames(catalog)));
      forall g :: g in FilteredCatalog(catalog, sel) <==>
        g in catalog && exists gen :: gen in g.genre && Trim(gen) != ""
  {
    var all := Seqs.Distinct(Genres.AllNames(catalog));
    var sel := ReadPrefs(v, all);
    assert forall x :: x in sel <==> x in all;
    Genres.GenreListSpec(catalog);
    forall g | g in catalog
      ensures Shown(g, sel) <==> exists gen :: gen in g.genre && Trim(gen) != ""
    {
      if exists gen :: gen in g.genre && Trim(gen) != "" {
        var gen :| gen in g.genre && Trim(gen) != "";
        assert Genres.HasGenre(g, Trim(gen));
        assert Trim(gen) in all;
      }
    }
  }

  /** `deckItems`: one card per shown game, in order. */
  function DeckItems(filtered: seq<GameLoad.Game>): (r: seq<GameCard.CardData>)
    ensures |r| == |filtered|
    ensures forall k :: 0 <= k < |r| ==> r[k] == GameCard.CardOf(filtered[k])
  {
    seq(|filtered|, k requires 0 <= k < |filtered| => GameCard.CardOf(filtered[k]))
  }

  /** The two views of the home page. */
  datatype Mode = ForYou | Explore

  function ModeText(m: Mode): string {
    match m
    case ForYou => "forYou"
    case Explore => "explore"
  }

  /** The persisted mode on mount: explore only for the stored text
      "explore"; otherwise the initial "For you" stays. */
  function StoredMode(v: Option<Stored>): (m: Mode)
    ensures m == Explore <==> v == Some(Text("explore"))
  {
    if v == Some(Text("explore")) then Explore else ForYou
  }

  /** The `explore:switch` event: explore only for the detail "explore". */
  function SwitchMode(detail: Option<string>): (m: Mode)
    ensures m == Explore <==> detail == Some("explore")
  {
    if detail == Some("explore") then Explore else ForYou
  }

  /** A persisted mode is read back as itself. */
  lemma ModeRoundTrip(m: Mode)
    ensures StoredMode(Some(Text(ModeText(m)))) == m
  {
  }

  /** The page's own state. */
  class Page {
    var mode: Mode
    var selected: set<string>
    const storage: LocalStorage

    /** Mounting: the mode is read from storage and persisted back; the
        preferences are read against the catalog's genres. */
    constructor (storage: LocalStorage, allGenres: seq<string>)
      modifies storage
      ensures this.storage == storage
      ensures mode == StoredMode(old(storage.GetItem(ModeKey)))
      ensures selected == ReadPrefs(old(storage.GetItem(GenrePrefsKey)), allGenres)
      ensures storage.items == old(storage.items)[ModeKey := Text(ModeText(mode))]
    {
      this.storage := storage;
      mode := StoredMode(storage.GetItem(ModeKey));
      selected := ReadPrefs(storage.GetItem(GenrePrefsKey), allGenres);
      new;
      storage.SetItem(ModeKey, Text(ModeText(mode)));
    }

    /** The switcher's event sets the mode, which is persisted. */
    method OnSwitch(detail: Option<string>)
      modifies this, storage
      ensures mode == SwitchMode(detail) && selected == old(selected)
      ensures storage.items == old(storage.items)[ModeKey := Text(ModeText(mode))]
    {
      mode := SwitchMode(detail);
      storage.SetItem(ModeKey, Text(ModeText(mode)));
    }

    /** Any `storage` event re-reads the preferences (the listener does not
        look at the key). */
    method OnStorageEvent(allGenres: seq<string>)
      modifies this
      ensures selected == ReadPrefs(storage.GetItem(GenrePrefsKey), allGenres) && mode == old(mode)
    {
      selected := ReadPrefs(storage.GetItem(GenrePrefsKey), allGenres);
    }
  }
}
