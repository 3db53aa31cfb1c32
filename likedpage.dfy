/** The liked page (src/app/liked/page.tsx): the liked games, narrowed by a
    genre chosen from the chips "All" and the genres of the liked games, and
    the detail overlay of one game. */
module LikedPage {
  import opened Wrappers
  import opened Text
  import Seqs
  import GameLoad
  import GameCard
  import Genres

  /** The chip that turns the genre filter off. */
  const AllChip := "All"

  /** `availableGenres`: the "All" chip, then the trimmed, non-empty genres
      of the liked games, each once, in name order. */
  method AvailableGenres(likedGames: seq<GameLoad.Game>) returns (r: seq<string>)
    ensures |r| >= 1 && r[0] == AllChip
    ensures Seqs.StrictlySorted(r[1..])
    ensures forall x :: x in r[1..] <==> x != "" && exists g :: g in likedGames && Genres.HasGenre(g, x)
    ensures forall k :: 1 <= k < |r| ==> IsTrimmed(r[k])
  {
    var s := Genres.CollectGenres(likedGames);
    Genres.GenreListSpec(likedGames);
    Seqs.SortDistinct(s);
    var sorted := Seqs.Sort(s);
    r := [AllChip] + sorted;
    assert r[1..] == sorted;
    forall k | 1 <= k < |r| ensures IsTrimmed(r[k]) {
      assert r[k] in sorted;
    }
  }

  /** `filteredLiked`: every liked game under the "All" chip, otherwise the
      liked games with a genre that trims to the chosen one. */
  function FilteredLiked(likedGames: seq<GameLoad.Game>, active: string): (r: seq<GameLoad.Game>)
    ensures active == AllChip ==> r == likedGames
    ensures active != AllChip ==> forall g :: g in r <==> g in likedGames && Genres.HasGenre(g, active)
    ensures |r| <= |likedGames|
  {
    if active == AllChip then likedGames else Seqs.Filter(likedGames, g => Genres.HasGenre(g, active))
  }

  /** The filter keeps the liked order. */
  lemma FilteredLikedOrder(a: seq<GameLoad.Game>, b: seq<GameLoad.Game>, active: string)
    ensures FilteredLiked(a + b, active) == FilteredLiked(a, active) + FilteredLiked(b, active)
  {
    if active != AllChip {
      Seqs.FilterConcat(a, b, g => Genres.HasGenre(g, active));
    }
  }

  /** No chip leads to an empty list: a genre chip names a genre some liked
      game has, and that game passes the filter (also when the genre happens
      to be spelled "All"). */
  lemma ChipNeverEmpty(likedGames: seq<GameLoad.Game>, x: string)
    requires exists g :: g in likedGames && Genres.HasGenre(g, x)
    ensures FilteredLiked(likedGames, x) != []
  {
    var g :| g in likedGames && Genres.HasGenre(g, x);
    if x != AllChip {
      assert g in FilteredLiked(likedGames, x);
    }
  }

  /** The liked page's card: as the deck's card, but without a video. */
  function ToCardData(g: GameLoad.Game): (c: GameCard.CardData)
    ensures c.id == g.id && c.title == g.title && c.links == g.links
    ensures g.images == [] ==> c.mainImage == ""
    ensures g.images != [] ==> c.mainImage == g.images[0]
    ensures |c.previews| == (if |g.images| <= 1 then 0 else if |g.images| >= 5 then 4 else |g.images| - 1)
    ensures forall k :: 0 <= k < |c.previews| ==> k + 1 < |g.images| && c.previews[k] == g.images[k + 1]
    ensures c.genre == Join(g.genre, ", ")
    ensures c.videoUrl == None
  {
    GameCard.CardOf(g).(videoUrl := None)
  }

  /** The page's own state: the active chip and the game in the overlay. */
  class LikedView {
    var activeGenre: string
    var selected: Option<GameLoad.Game>

    constructor ()
      ensures activeGenre == AllChip && selected == None
    {
      activeGenre := AllChip;
      selected := None;
    }

    /** Clicking a chip makes it the active genre. */
    method ChooseGenre(x: string)
      modifies this
      ensures activeGenre == x && selected == old(selected)
    {
      activeGenre := x;
    }

    /** Clicking a liked game opens it in the overlay. */
    method Open(g: GameLoad.Game)
      modifies this
      ensures selected == Some(g) && activeGenre == old(activeGenre)
    {
      selected := Some(g);
    }

    /** The Escape key closes the overlay; other keys change nothing. */
    method OnKey(key: string)
      modifies this
      ensures key == "Escape" ==> selected == None
      ensures key != "Escape" ==> selected == old(selected)
      ensures activeGenre == old(activeGenre)
    {
      if key == "Escape" {
        selected := None;
      }
    }
  }
}
