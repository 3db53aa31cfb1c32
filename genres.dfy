/** Genre names of a list of games, as the home page (src/app/page.tsx), the
    settings page (src/app/you/page.tsx) and the liked page
    (src/app/liked/page.tsx) each collect them: every genre trimmed, empty
    ones skipped, each name once, in order of first appearance. */
module Genres {
  import opened Text
  import Seqs
  import GameLoad

  /** The trimmed, non-empty genre names of one list, in order. */
  function Names(gs: seq<string>): (r: seq<string>)
    ensures forall k :: 0 <= k < |r| ==> r[k] != "" && IsTrimmed(r[k])
  {
    if gs == [] then []
    else Names(gs[..|gs| - 1]) + (if Trim(gs[|gs| - 1]) != "" then [Trim(gs[|gs| - 1])] else [])
  }

  /** The trimmed, non-empty genre names of every game, game by game. */
  function AllNames(games: seq<GameLoad.Game>): (r: seq<string>)
    ensures forall k :: 0 <= k < |r| ==> r[k] != "" && IsTrimmed(r[k])
  {
    if games == [] then [] else AllNames(games[..|games| - 1]) + Names(games[|games| - 1].genre)
  }

  /** One of the game's genres trims to `x`. */
  predicate HasGenre(g: GameLoad.Game, x: string) {
    exists gen :: gen in g.genre && Trim(gen) == x
  }

  lemma {:induction false} NamesMembership(gs: seq<string>, x: string)
    ensures x in Names(gs) <==> x != "" && exists gen :: gen in gs && Trim(gen) == x
  {
    if gs != [] {
      var init, last := gs[..|gs| - 1], gs[|gs| - 1];
      NamesMembership(init, x);
      assert gs == init + [last];
      if x != "" && (exists gen :: gen in gs && Trim(gen) == x) {
        var gen :| gen in gs && Trim(gen) == x;
        if gen != last {
          assert gen in init;
        }
      }
    }
  }

  lemma AllNamesMembership(games: seq<GameLoad.Game>, x: string)
    ensures x in AllNames(games) <==> x != "" && exists g :: g in games && HasGenre(g, x)
  {
    AllNamesSound(games, x);
    if x != "" && (exists g :: g in games && HasGenre(g, x)) {
      var g :| g in games && HasGenre(g, x);
      AllNamesComplete(games, x, g);
    }
  }

  /** Every collected name is the trimmed genre of some game. */
  lemma {:induction false} AllNamesSound(games: seq<GameLoad.Game>, x: string)
    ensures x in AllNames(games) ==> x != "" && exists g :: g in games && HasGenre(g, x)
  {
    if games != [] && x in AllNames(games) {
      var init, last := games[..|games| - 1], games[|games| - 1];
      assert AllNames(games) == AllNames(init) + Names(last.genre);
      if x in AllNames(init) {
        AllNamesSound(init, x);
        var g :| g in init && HasGenre(g, x);
        assert g in games;
      } else {
        NamesMembership(last.genre, x);
        assert last in games && HasGenre(last, x);
      }
    }
  }

  /** Every non-empty trimmed genre of a game is collected. */
  lemma {:induction false} AllNamesComplete(games: seq<GameLoad.Game>, x: string, g: GameLoad.Game)
    requires x != "" && g in games && HasGenre(g, x)
    ensures x in AllNames(games)
  {
    var init, last := games[..|games| - 1], games[|games| - 1];
    assert AllNames(games) == AllNames(init) + Names(last.genre);
    if g == last {
      NamesMembership(last.genre, x);
    } else {
      assert games == init + [last];
      assert g in init;
      AllNamesComplete(init, x, g);
    }
  }

  /** Adding one more element to a `Set` read back in insertion order. */
  lemma DistinctSnoc(xs: seq<string>, x: string)
    ensures Seqs.Distinct(xs + [x]) == Seqs.Add(Seqs.Distinct(xs), x)
  {
    assert (xs + [x])[..|xs|] == xs;
  }

  lemma NamesStep(gs: seq<string>, j: nat)
    requires j < |gs|
    ensures Names(gs[..j + 1]) == Names(gs[..j]) + (if Trim(gs[j]) != "" then [Trim(gs[j])] else [])
  {
    assert gs[..j + 1][..j] == gs[..j];
  }

  lemma AllNamesStep(games: seq<GameLoad.Game>, i: nat)
    requires i < |games|
    ensures AllNames(games[..i + 1]) == AllNames(games[..i]) + Names(games[i].genre)
  {
    assert games[..i + 1][..i] == games[..i];
  }

  /** The collected list names every trimmed, non-empty genre of the games
      exactly once, and nothing else. */
  lemma GenreListSpec(games: seq<GameLoad.Game>)
    ensures Seqs.NoDup(Seqs.Distinct(AllNames(games)))
    ensures forall x :: x in Seqs.Distinct(AllNames(games)) <==> x != "" && exists g :: g in games && HasGenre(g, x)
    ensures forall x :: x in Seqs.Distinct(AllNames(games)) ==> IsTrimmed(x)
  {
    forall x ensures x in Seqs.Distinct(AllNames(games)) <==> x != "" && exists g :: g in games && HasGenre(g, x) {
      AllNamesMembership(games, x);
    }
  }

  /** The nested loop that fills a `Set` with the trimmed, non-empty genres
      of every game, read back in insertion order. */
  method CollectGenres(games: seq<GameLoad.Game>) returns (r: seq<string>)
    ensures r == Seqs.Distinct(AllNames(games))
  {
    r := [];
    var i := 0;
    while i < |games|
      invariant 0 <= i <= |games|
      invariant r == Seqs.Distinct(AllNames(games[..i]))
    {
      r := AddNames(r, AllNames(games[..i]), games[i].genre);
      AllNamesStep(games, i);
      i := i + 1;
    }
    assert games[..i] == games;
  }

  /** The inner loop for one game: its trimmed, non-empty genres are added
      to the `Set` in order. */
  method AddNames(r0: seq<string>, ghost names0: seq<string>, gs: seq<string>) returns (r: seq<string>)
    requires r0 == Seqs.Distinct(names0)
    ensures r == Seqs.Distinct(names0 + Names(gs))
  {
    r := r0;
    var j := 0;
    assert names0 + Names(gs[..0]) == names0;
    while j < |gs|
      invariant 0 <= j <= |gs|
      invariant r == Seqs.Distinct(names0 + Names(gs[..j]))
    {
      var t := Trim(gs[j]);
      NamesStep(gs, j);
      if t != "" {
        DistinctSnoc(names0 + Names(gs[..j]), t);
        Seqs.AppendAssoc(names0, Names(gs[..j]), [t]);
        r := Seqs.Add(r, t);
      } else {
        assert Names(gs[..j + 1]) == Names(gs[..j]);
      }
      j := j + 1;
    }
    assert gs[..j] == gs;
  }
}
