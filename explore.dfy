/** The explore view (src/app/explore.tsx): the catalog grouped into one row
    per genre name, rows in name order, games in catalog order within a
    row. */
module Explore {
  import opened Text
  import Seqs
  import GameLoad
  import GameCard
  import Genres

  /** The entries game `g` adds to the row of `name`: one per genre of `g`
      that trims to `name`. */
  function RowOfGame(gs: seq<string>, g: GameLoad.Game, name: string): (r: seq<GameLoad.Game>)
    ensures forall x :: x in r ==> x == g
  {
    if gs == [] then []
    else RowOfGame(gs[..|gs| - 1], g, name) + (if Trim(gs[|gs| - 1]) == name then [g] else [])
  }

  /** The row of `name`: for each game in catalog order, its entries. */
  function Row(catalog: seq<GameLoad.Game>, name: string): seq<GameLoad.Game> {
    if catalog == [] then []
    else
      var g := catalog[|catalog| - 1];
      Row(catalog[..|catalog| - 1], name) + RowOfGame(g.genre, g, name)
  }

  lemma {:induction false} RowOfGameMembership(gs: seq<string>, g: GameLoad.Game, name: string)
    ensures g in RowOfGame(gs, g, name) <==> exists gen :: gen in gs && Trim(gen) == name
  {
    if gs != [] {
      var init, last := gs[..|gs| - 1], gs[|gs| - 1];
      RowOfGameMembership(init, g, name);
      RowOfGameMembershipSnoc(gs, init, last, g, name);
    }
  }

  lemma RowOfGameMembershipSnoc(gs: seq<string>, init: seq<string>, last: string, g: GameLoad.Game, name: string)
    requires gs == init + [last]
    requires g in RowOfGame(init, g, name) <==> exists gen :: gen in init && Trim(gen) == name
    ensures g in RowOfGame(gs, g, name) <==> exists gen :: gen in gs && Trim(gen) == name
  {
    assert gs[..|gs| - 1] == init;
    assert RowOfGame(gs, g, name) == RowOfGame(init, g, name) + (if Trim(last) == name then [g] else []);
    if exists gen :: gen in gs && Trim(gen) == name {
      var gen :| gen in gs && Trim(gen) == name;
      if gen != last {
        assert gen in init;
      }
    }
    if exists gen :: gen in init && Trim(gen) == name {
      var gen :| gen in init && Trim(gen) == name;
      assert gen in gs;
    }
  }

  /** A game is in a row exactly when one of its genres trims to the row's
      name. */
  lemma {:induction false} RowMembership(catalog: seq<GameLoad.Game>, name: string, g: GameLoad.Game)
    ensures g in Row(catalog, name) <==> g in catalog && Genres.HasGenre(g, name)
  {
    if catalog != [] {
      var init, last := catalog[..|catalog| - 1], catalog[|catalog| - 1];
      RowMembership(init, name, g);
      RowOfGameMembership(last.genre, last, name);
      assert catalog == init + [last];
      if g in RowOfGame(last.genre, last, name) {
        assert g == last;
      }
      if g in catalog && Genres.HasGenre(g, name) && g != last {
        assert g in init;
      }
    }
  }

  /** Rows keep catalog order: the row of a concatenated catalog is the row
      of its first part followed by the row of the second. */
  lemma {:induction false} RowOrder(a: seq<GameLoad.Game>, b: seq<GameLoad.Game>, name: string)
    ensures Row(a + b, name) == Row(a, name) + Row(b, name)
    decreases |b|
  {
    if b == [] {
      assert a + b == a;
    } else {
      var init, last := b[..|b| - 1], b[|b| - 1];
      RowOrder(a, init, name);
      RowOrderSnoc(a, b, init, last, name);
    }
  }

  lemma RowOrderSnoc(a: seq<GameLoad.Game>, b: seq<GameLoad.Game>, init: seq<GameLoad.Game>, last: GameLoad.Game, name: string)
    requires b == init + [last]
    requires Row(a + init, name) == Row(a, name) + Row(init, name)
    ensures Row(a + b, name) == Row(a, name) + Row(b, name)
  {
    RowOrderStep(a, init, last, name);
  }

  lemma RowOrderStep(a: seq<GameLoad.Game>, init: seq<GameLoad.Game>, last: GameLoad.Game, name: string)
    requires Row(a + init, name) == Row(a, name) + Row(init, name)
    ensures Row(a + (init + [last]), name) == Row(a, name) + Row(init + [last], name)
  {
    var tail := RowOfGame(last.genre, last, name);
    Seqs.AppendAssoc(a, init, [last]);
    RowSnoc(a + init, last, name);
    RowSnoc(init, last, name);
    Seqs.AppendAssoc(Row(a, name), Row(init, name), tail);
  }

  lemma RowSnoc(c: seq<GameLoad.Game>, last: GameLoad.Game, name: string)
    ensures Row(c + [last], name) == Row(c, name) + RowOfGame(last.genre, last, name)
  {
    assert (c + [last])[..|c|] == c;
  }

  /** The map after game `g`'s genres `gs` have been added to `m0` one by
      one: each trimmed, non-empty genre appends `g` to its array, creating
      the array on first use. */
  function Group(m0: map<string, seq<GameLoad.Game>>, gs: seq<string>, g: GameLoad.Game): map<string, seq<GameLoad.Game>> {
    if gs == [] then m0
    else
      Add(Group(m0, gs[..|gs| - 1], g), Trim(gs[|gs| - 1]), g)
  }

  /** One genre name's step: a blank name is skipped; otherwise `g` is
      appended to the name's array, which is created on first use. */
  function Add(m: map<string, seq<GameLoad.Game>>, name: string, g: GameLoad.Game): (r: map<string, seq<GameLoad.Game>>)
    ensures name == "" ==> r == m
    ensures name != "" ==> r.Keys == m.Keys + {name} && r[name] == (if name in m then m[name] else []) + [g]
    ensures forall x :: x in m && x != name ==> x in r && r[x] == m[x]
  {
    if name == "" then m else m[name := (if name in m then m[name] else []) + [g]]
  }

  /** What adding one game does to the map: the keys gain the game's names,
      and every array gains the game's entries for its name. */
  lemma {:induction false} GroupFacts(m0: map<string, seq<GameLoad.Game>>, gs: seq<string>, g: GameLoad.Game)
    requires "" !in m0
    ensures forall x :: x in Group(m0, gs, g) <==> x in m0 || x in Genres.Names(gs)
    ensures forall x :: x in Group(m0, gs, g) ==> Group(m0, gs, g)[x] == (if x in m0 then m0[x] else []) + RowOfGame(gs, g, x)
    ensures forall x :: x !in Group(m0, gs, g) && x != "" ==> RowOfGame(gs, g, x) == []
  {
    if gs != [] {
      var init := gs[..|gs| - 1];
      var name := Trim(gs[|gs| - 1]);
      GroupFacts(m0, init, g);
      var m := Group(m0, init, g);
      assert Genres.Names(gs) == Genres.Names(init) + (if name != "" then [name] else []);
      assert "" !in Genres.Names(init);
      forall x
        ensures x in Group(m0, gs, g) <==> x in m0 || x in Genres.Names(gs)
        ensures x in Group(m0, gs, g) ==> Group(m0, gs, g)[x] == (if x in m0 then m0[x] else []) + RowOfGame(gs, g, x)
        ensures x !in Group(m0, gs, g) && x != "" ==> RowOfGame(gs, g, x) == []
      {
        assert RowOfGame(gs, g, x) == RowOfGame(init, g, x) + (if name == x then [g] else []);
        AddFactsAt(m0, m, Genres.Names(init), RowOfGame(init, g, x), name, g, x);
      }
    }
  }

  /** One name's step of `GroupFacts`: what `Add` does to the facts about
      the array of `x`. */
  lemma AddFactsAt(m0: map<string, seq<GameLoad.Game>>, m: map<string, seq<GameLoad.Game>>,
                   names: seq<string>, row: seq<GameLoad.Game>, name: string, g: GameLoad.Game, x: string)
    requires "" !in m0 && "" !in names
    requires x in m <==> x in m0 || x in names
    requires x in m ==> m[x] == (if x in m0 then m0[x] else []) + row
    requires x !in m && x != "" ==> row == []
    ensures var r := Add(m, name, g);
      var names' := names + (if name != "" then [name] else []);
      var row' := row + (if name == x then [g] else []);
      && (x in r <==> x in m0 || x in names')
      && (x in r ==> r[x] == (if x in m0 then m0[x] else []) + row')
      && (x !in r && x != "" ==> row' == [])
  {
  }

  lemma GroupStep(m0: map<string, seq<GameLoad.Game>>, gs: seq<string>, j: nat, g: GameLoad.Game)
    requires j < |gs|
    ensures Group(m0, gs[..j + 1], g) == Add(Group(m0, gs[..j], g), Trim(gs[j]), g)
  {
    assert gs[..j + 1][..j] == gs[..j];
  }

  /** The inner loop of `grouped` for one game. */
  method AddGame(m0: map<string, seq<GameLoad.Game>>, keys0: seq<string>, ghost names0: seq<string>, g: GameLoad.Game)
    returns (m: map<string, seq<GameLoad.Game>>, keys: seq<string>)
    requires keys0 == Seqs.Distinct(names0)
    ensures m == Group(m0, g.genre, g)
    ensures keys == Seqs.Distinct(names0 + Genres.Names(g.genre))
  {
    var gs := g.genre;
    m, keys := m0, keys0;
    ghost var names := names0;
    var j := 0;
    while j < |gs|
      invariant 0 <= j <= |gs|
      invariant names == names0 + Genres.Names(gs[..j]) && keys == Seqs.Distinct(names)
      invariant m == Group(m0, gs[..j], g)
    {
      var name := Trim(gs[j]);
      Genres.NamesStep(gs, j);
      GroupStep(m0, gs, j, g);
      if name != "" {
        var arr := if name in m then m[name] else [];
        m := m[name := arr + [g]];
        Genres.DistinctSnoc(names, name);
        Seqs.AppendAssoc(names0, Genres.Names(gs[..j]), [name]);
        names := names + [name];
        keys := Seqs.Add(keys, name);
      }
      j := j + 1;
    }
    assert gs[..j] == gs;
  }

  /** `grouped`: the genre-to-games map filled game by game, then its
      entries sorted by name. Names are the trimmed, non-empty genres; the
      map's key order is its insertion order. */
  method Grouped(catalog: seq<GameLoad.Game>) returns (rows: seq<(string, seq<GameLoad.Game>)>)
    ensures |rows| == |Seqs.Distinct(Genres.AllNames(catalog))|
    ensures forall k :: 0 <= k < |rows| ==> rows[k].1 == Row(catalog, rows[k].0)
    ensures forall x :: (exists k :: 0 <= k < |rows| && rows[k].0 == x) <==> x in Genres.AllNames(catalog)
    ensures forall i, j :: 0 <= i < j < |rows| ==> Seqs.Below(rows[i].0, rows[j].0)
  {
    var m: map<string, seq<GameLoad.Game>> := map[];
    var keys: seq<string> := [];
    var i := 0;
    while i < |catalog|
      invariant 0 <= i <= |catalog|
      invariant keys == Seqs.Distinct(Genres.AllNames(catalog[..i]))
      invariant forall x :: x in m <==> x in keys
      invariant forall x :: x in m ==> x != ""
      invariant forall x :: x in m ==> m[x] == Row(catalog[..i], x)
      invariant forall x :: x !in m && x != "" ==> Row(catalog[..i], x) == []
    {
      ghost var m0 := m;
      m, keys := AddGame(m, keys, Genres.AllNames(catalog[..i]), catalog[i]);
      GroupFacts(m0, catalog[i].genre, catalog[i]);
      Genres.AllNamesStep(catalog, i);
      RowStep(catalog, i);
      i := i + 1;
    }
    assert catalog[..i] == catalog;
    rows := SortedEntries(m, keys);
  }

  /** The map's entries sorted by name. */
  method SortedEntries(m: map<string, seq<GameLoad.Game>>, keys: seq<string>) returns (rows: seq<(string, seq<GameLoad.Game>)>)
    requires Seqs.NoDup(keys)
    requires forall x :: x in m <==> x in keys
    ensures |rows| == |keys|
    ensures forall k :: 0 <= k < |rows| ==> rows[k].0 in m && rows[k].1 == m[rows[k].0]
    ensures forall x :: (exists k :: 0 <= k < |rows| && rows[k].0 == x) <==> x in keys
    ensures forall i, j :: 0 <= i < j < |rows| ==> Seqs.Below(rows[i].0, rows[j].0)
  {
    var sorted := Seqs.Sort(keys);
    Seqs.SortDistinct(keys);
    assert |sorted| == |multiset(sorted)| == |multiset(keys)| == |keys|;
    rows := seq(|sorted|, k requires 0 <= k < |sorted| => (sorted[k], m[sorted[k]]));
    forall x ensures (exists k :: 0 <= k < |rows| && rows[k].0 == x) <==> x in keys {
      if x in sorted {
        var k :| 0 <= k < |sorted| && sorted[k] == x;
        assert rows[k].0 == x;
      }
    }
  }

  lemma RowOfGameStep(gs: seq<string>, j: nat, g: GameLoad.Game)
    requires j < |gs|
    ensures forall x :: RowOfGame(gs[..j + 1], g, x) == RowOfGame(gs[..j], g, x) + (if Trim(gs[j]) == x then [g] else [])
  {
    assert gs[..j + 1][..j] == gs[..j];
  }

  lemma RowStep(catalog: seq<GameLoad.Game>, i: nat)
    requires i < |catalog|
    ensures forall x :: Row(catalog[..i + 1], x) == Row(catalog[..i], x) + RowOfGame(catalog[i].genre, catalog[i], x)
  {
    assert catalog[..i + 1][..i] == catalog[..i];
  }

  /** The explore card of a game: the first image as the main one ("" when
      there is none), at most the next four as previews, the genres joined
      with ", ", and the game's own links and video. */
  function ToCardData(g: GameLoad.Game): (c: GameCard.CardData)
    ensures c.id == g.id && c.title == g.title && c.links == g.links && c.videoUrl == g.videoUrl
    ensures g.images == [] ==> c.mainImage == ""
    ensures g.images != [] ==> c.mainImage == g.images[0]
    ensures |c.previews| == (if |g.images| <= 1 then 0 else if |g.images| >= 5 then 4 else |g.images| - 1)
    ensures forall k :: 0 <= k < |c.previews| ==> k + 1 < |g.images| && c.previews[k] == g.images[k + 1]
    ensures c.genre == Join(g.genre, ", ")
  {
    GameCard.CardOf(g)
  }
}
