/** The browser's `localStorage` as the stores of this application use it:
    one shared key -> value map, written in place. */
module Storage {
  import opened Wrappers

  /** The keys the application writes. */
  const LikesKey := "gc_likes_v1"
  const SeenKey := "gc_seen_v1"
  const GenrePrefsKey := "gc_genre_prefs_v1"
  const ModeKey := "gc_mode_v1"
  const MutedKey := "gc_playback_muted_v1"
  const AutoplayKey := "gc_playback_autoplay_v1"

  /** A stored text value, classified by what `JSON.parse` makes of it.
      - `Strings`: a JSON array of strings. Every reader turns such an array
        into a `Set`, so only its elements are kept.
      - `Flag`: the JSON literal `true` or `false`.
      - `Null`: the JSON literal `null`.
      - `JsonString`: a JSON string literal, held as the string it denotes.
      - `Other`: any other text that parses, that is a JSON number or a JSON
        object; `raw` is the text.
      - `Text`: text on which `JSON.parse` throws. The empty string and the
        unquoted words the mode key holds are of this kind. */
  datatype Stored =
    | Strings(items: set<string>)
    | Flag(on: bool)
    | Null
    | JsonString(value: string)
    | Other(raw: string)
    | Text(raw: string)

  /** `new Set(JSON.parse(raw))` for a stored value, `None` where it throws:
      an array gives its elements, `null` the empty set, a string the set of
      its characters; a boolean, a number or an object is not iterable, and
      unparsable text makes `JSON.parse` throw. */
  function SetOf(v: Stored): (r: Option<set<string>>)
    ensures v.Strings? ==> r == Some(v.items)
    ensures v.Null? ==> r == Some({})
    ensures v.JsonString? ==> r.Some? && forall x :: x in r.value <==> |x| == 1 && x[0] in v.value
    ensures r.None? <==> v.Flag? || v.Other? || v.Text?
  {
    match v
    case Strings(items) => Some(items)
    case Null => Some({})
    case JsonString(value) =>
      var chars := set i | 0 <= i < |value| :: [value[i]];
      assert forall x :: x in chars <==> |x| == 1 && x[0] in value by {
        forall x | |x| == 1 && x[0] in value ensures x in chars {
          var i :| 0 <= i < |value| && value[i] == x[0];
          assert x == [value[i]];
        }
      }
      Some(chars)
    case _ => None
  }

  /** `!raw` for the result of `getItem`: the key is absent or holds "". */
  predicate Falsy(v: Option<Stored>) {
    v == None || v == Some(Text(""))
  }

  class LocalStorage {
    var items: map<string, Stored>

    constructor (initial: map<string, Stored>)
      ensures items == initial
    {
      items := initial;
    }

    /** `getItem(key)`: the stored value, `None` for a missing key. */
    function GetItem(key: string): (v: Option<Stored>)
      reads this
      ensures v.Some? <==> key in items
      ensures v.Some? ==> v.value == items[key]
    {
      if key in items then Some(items[key]) else None
    }

    /** `setItem(key, value)`. */
    method SetItem(key: string, v: Stored)
      modifies this
      ensures items == old(items)[key := v]
    {
      items := items[key := v];
    }

    /** `removeItem(key)`. */
    method RemoveItem(key: string)
      modifies this
      ensures items == old(items) - {key}
    {
      items := items - {key};
    }
  }
}
