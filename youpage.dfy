/** The settings page (src/app/you/page.tsx): the genre preferences the deck
    filters by, the two playback switches, and the reset of the seen set.
    Every change of a setting is written back to storage. */
module YouPage {
  import opened Wrappers
  import opened Text
  import opened Storage
  import Seqs
  import GameLoad
  import GameCard
  import Genres
  import CardDeck

  /** `allGenres`: the trimmed, non-empty genres of the catalog, each once,
      in name order. */
  method AllGenres(catalog: seq<GameLoad.Game>) returns (r: seq<string>)
    ensures Seqs.StrictlySorted(r)
    ensures forall x :: x in r <==> x != "" && exists g :: g in catalog && Genres.HasGenre(g, x)
    ensures forall k :: 0 <= k < |r| ==> IsTrimmed(r[k])
  {
    var s := Genres.CollectGenres(catalog);
    Genres.GenreListSpec(catalog);
    Seqs.SortDistinct(s);
    r := Seqs.Sort(s);
    forall k | 0 <= k < |r| ensures IsTrimmed(r[k]) {
      assert r[k] in s;
    }
  }

  /** The selection on mount: `new Set(JSON.parse(raw))` for a stored
      value (an array's elements, nothing for `null`, a JSON string's
      characters); empty when nothing (or "") is stored, and empty when
      reading throws (unparsable text, or a boolean, number or object the
      `Set` constructor rejects). */
  function InitialSelection(v: Option<Stored>): (r: set<string>)
    ensures Falsy(v) ==> r == {}
    ensures v.Some? && v.value.Strings? ==> r == v.value.items
    ensures v.Some? && SetOf(v.value).Some? ==> r == SetOf(v.value).value
    ensures v.Some? && SetOf(v.value).None? ==> r == {}
    ensures v == Some(Null) ==> r == {}
  {
    if v.Some? && SetOf(v.value).Some? then SetOf(v.value).value else {}
  }

  /** `toggle(g)`: a new set with `g`'s membership flipped and nothing
      else changed. */
  function Toggle(sel: set<string>, g: string): (r: set<string>)
    ensures g in r <==> g !in sel
    ensures forall x :: x != g ==> (x in r <==> x in sel)
  {
    if g in sel then sel - {g} else sel + {g}
  }

  /** Toggling the same genre twice restores the selection. */
  lemma ToggleTwice(sel: set<string>, g: string)
    ensures Toggle(Toggle(sel, g), g) == sel
  {
  }

  /** `new Set(allGenres)`: the selection of every genre. */
  function AllOf(allGenres: seq<string>): (r: set<string>)
    ensures forall x :: x in r <==> x in allGenres
    ensures |r| <= |allGenres|
  {
    AllOfCard(allGenres);
    set x | x in allGenres
  }

  lemma {:induction false} AllOfCard(s: seq<string>)
    ensures |set x | x in s| <= |s|
  {
    if s != [] {
      AllOfCard(s[1..]);
      assert (set x | x in s) == (set x | x in s[1..]) + {s[0]};
    }
  }

  /** The first-visit bootstrap: once the catalog has genres, every genre
      is selected (and persisted) when storage holds nothing usable, and
      also whenever the current selection is empty. `None` leaves the
      selection alone. */
  function BootstrapSelection(allGenres: seq<string>, raw: Option<Stored>, selected: set<string>): (r: Option<set<string>>)
    ensures r.Some? <==> |allGenres| > 0 && (Falsy(raw) || selected == {})
    ensures r.Some? ==> forall x :: x in r.value <==> x in allGenres
  {
    if |allGenres| == 0 then None
    else if Falsy(raw) || (selected == {} && raw != None) then Some(AllOf(allGenres))
    else None
  }

  /** The settings of the page. */
  class Settings {
    var selected: set<string>
    var autoplay: bool
    var muted: bool
    const storage: LocalStorage

    /** Mounting reads the three settings, then the persist effects write
        each of them back. */
    constructor (storage: LocalStorage)
      modifies storage
      ensures this.storage == storage
      ensures selected == InitialSelection(old(storage.GetItem(GenrePrefsKey)))
      ensures autoplay == GameCard.ReadAutoplay(old(storage.GetItem(AutoplayKey)))
      ensures muted == GameCard.ReadMuted(old(storage.GetItem(MutedKey)))
      ensures storage.items == old(storage.items)[GenrePrefsKey := Strings(selected)]
        [AutoplayKey := Flag(autoplay)][MutedKey := Flag(muted)]
    {
      this.storage := storage;
      selected := InitialSelection(storage.GetItem(GenrePrefsKey));
      autoplay := GameCard.ReadAutoplay(storage.GetItem(AutoplayKey));
      muted := GameCard.ReadMuted(storage.GetItem(MutedKey));
      new;
      storage.SetItem(GenrePrefsKey, Strings(selected));
      storage.SetItem(AutoplayKey, Flag(autoplay));
      storage.SetItem(MutedKey, Flag(muted));
    }

    /** Run when the catalog's genres change. */
    method Bootstrap(allGenres: seq<string>)
      modifies this, storage
      ensures var b := BootstrapSelection(allGenres, old(storage.GetItem(GenrePrefsKey)), old(selected));
        && (b.Some? ==> selected == b.value && storage.items == old(storage.items)[GenrePrefsKey := Strings(selected)])
        && (b.None? ==> selected == old(selected) && storage.items == old(storage.items))
      ensures autoplay == old(autoplay) && muted == old(muted)
    {
      var b := BootstrapSelection(allGenres, storage.GetItem(GenrePrefsKey), selected);
      if b.Some? {
        selected := b.value;
        storage.SetItem(GenrePrefsKey, Strings(selected));
      }
    }

    method ToggleGenre(g: string)
      modifies this, storage
      ensures selected == Toggle(old(selected), g)
      ensures storage.items == old(storage.items)[GenrePrefsKey := Strings(selected)]
      ensures autoplay == old(autoplay) && muted == old(muted)
    {
      selected := Toggle(selected, g);
      storage.SetItem(GenrePrefsKey, Strings(selected));
    }

    method SelectAll(allGenres: seq<string>)
      modifies this, storage
      ensures selected == AllOf(allGenres)
      ensures storage.items == old(storage.items)[GenrePrefsKey := Strings(selected)]
      ensures autoplay == old(autoplay) && muted == old(muted)
    {
      selected := AllOf(allGenres);
      storage.SetItem(GenrePrefsKey, Strings(selected));
    }

    method ClearAll()
      modifies this, storage
      ensures selected == {}
      ensures storage.items == old(storage.items)[GenrePrefsKey := Strings({})]
      ensures autoplay == old(autoplay) && muted == old(muted)
    {
      selected := {};
      storage.SetItem(GenrePrefsKey, Strings(selected));
    }

    /** The playback switches: each switch flips its own setting, which is
        then persisted; any other name changes nothing. */
    method OnPlaybackToggle(switchName: string)
      modifies this, storage
      ensures switchName == "Autoplay Videos" ==>
        (autoplay == !old(autoplay) && muted == old(muted) && storage.items == old(storage.items)[AutoplayKey := Flag(autoplay)])
      ensures switchName == "Mute Videos" ==>
        (muted == !old(muted) && autoplay == old(autoplay) && storage.items == old(storage.items)[MutedKey := Flag(muted)])
      ensures switchName != "Autoplay Videos" && switchName != "Mute Videos" ==>
        (autoplay == old(autoplay) && muted == old(muted) && storage.items == old(storage.items))
      ensures selected == old(selected)
    {
      if switchName == "Autoplay Videos" {
        autoplay := !autoplay;
        storage.SetItem(AutoplayKey, Flag(autoplay));
      }
      if switchName == "Mute Videos" {
        muted := !muted;
        storage.SetItem(MutedKey, Flag(muted));
      }
    }

    /** Another tab changed the preferences: a stored value that the `Set`
        constructor accepts (an array, `null`, a JSON string) replaces the
        selection, and the persist effect writes the selection back as an
        array; anything else (a removal, "", unparsable text, a boolean, a
        number or an object) is ignored. */
    method OnStorageEvent(key: string)
      modifies this, storage
      ensures var v := old(storage.GetItem(GenrePrefsKey));
        var applies := key == GenrePrefsKey && v.Some? && SetOf(v.value).Some?;
        && (applies ==> selected == SetOf(v.value).value
                        && storage.items == old(storage.items)[GenrePrefsKey := Strings(selected)])
        && (!applies ==> selected == old(selected) && storage.items == old(storage.items))
      ensures autoplay == old(autoplay) && muted == old(muted)
    {
      if key == GenrePrefsKey {
        var v := storage.GetItem(GenrePrefsKey);
        if v.Some? && SetOf(v.value).Some? {
          selected := SetOf(v.value).value;
          storage.SetItem(GenrePrefsKey, Strings(selected));
        }
      }
    }

    /** `resetSeen`: the seen key is removed and then set to the empty
        array, so that other tabs hear of it. */
    method ResetSeen()
      modifies storage
      ensures storage.items == old(storage.items)[SeenKey := Strings({})]
    {
      storage.RemoveItem(SeenKey);
      storage.SetItem(SeenKey, Strings({}));
    }
  }

  /** After a reset, the next deck built from storage skips no item. */
  lemma ResetSeenShowsAll<P(!new)>(items: seq<CardDeck.Item<P>>)
    ensures CardDeck.FilterUnseen(items, CardDeck.ReadSeen(Some(Strings({})))) == items
  {
    Seqs.FilterAll(items, it => CardDeck.Keep({}, it));
  }

  /** A visit: mounting, then the bootstrap once the catalog's genres are
      known. A stored non-empty selection is kept; otherwise (nothing
      stored, unreadable, or an empty selection) every genre of the catalog
      ends up selected. Either way storage holds the selection. */
  method Visit(storage: LocalStorage, catalog: seq<GameLoad.Game>) returns (page: Settings)
    modifies storage
    ensures fresh(page) && page.storage == storage
    ensures var init := InitialSelection(old(storage.GetItem(GenrePrefsKey)));
      var kept := init != {};
      && (kept ==> page.selected == init)
      && (!kept ==> forall x :: x in page.selected <==> x in Genres.AllNames(catalog))
    ensures GenrePrefsKey in storage.items && storage.items[GenrePrefsKey] == Strings(page.selected)
  {
    page := new Settings(storage);
    var all := AllGenres(catalog);
    forall x ensures x in all <==> x in Genres.AllNames(catalog) {
      Genres.AllNamesMembership(catalog, x);
    }
    page.Bootstrap(all);
  }
}
