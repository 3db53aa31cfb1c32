/** The swipe deck (src/app/carddeck.tsx): the pointer-gesture recogniser of
    one draggable card, the shuffle, and the stack of cards with its persisted
    "seen" set and the like/unlike side effects of a swipe. Screen
    coordinates and widths are reals; timers are modelled as queued work
    that runs later, in order. */
module CardDeck {
  import opened Wrappers
  import opened Storage
  import Seqs
  import LikeStore

  datatype Dir = Left | Right

  /** Duration of the fling animation; `onSwiped` runs after it. */
  const FlingMs := 320

  /** How long the release glyph stays before it is cleared. */
  const ReleaseGlyphMs := 380

  function Abs(x: real): real {
    if x < 0.0 then -x else x
  }

  /** `threshold()`: `min(220, 0.28 * innerWidth)`, or 200 when there is no
      window. */
  function Threshold(width: Option<real>): (t: real)
    ensures t <= 220.0
    ensures width.None? ==> t == 200.0
    ensures width.Some? && width.value >= 0.0 ==> t >= 0.0
    ensures width.Some? ==> (t == 220.0 || t == 0.28 * width.value) && t <= 0.28 * width.value
  {
    match width
    case None => 200.0
    case Some(w) => if 220.0 <= 0.28 * w then 220.0 else 0.28 * w
  }

  /** The swipe direction of a displacement: right when positive, left
      otherwise. */
  function DirOf(x: real): Dir {
    if x > 0.0 then Right else Left
  }

  /** `(Math.sign(x) || 1) * (innerWidth + 400)`: the off-screen x of a fling. */
  function FlingX(x: real, width: real): (r: real)
    ensures x < 0.0 ==> r == -(width + 400.0)
    ensures x >= 0.0 ==> r == width + 400.0
  {
    (if x < 0.0 then -1.0 else 1.0) * (width + 400.0)
  }

  /** The card's CSS transform: translation, rotation `x / 20` degrees, and
      whether it animates over `FlingMs`. */
  datatype Transform = Transform(x: real, y: real, rotation: real, animated: bool)

  function TransformAt(x: real, y: real, animated: bool): Transform {
    Transform(x, y, x / 20.0, animated)
  }

  /** The ref-held state of a `DraggableCard`. */
  datatype Drag = Drag(dragging: bool, startX: real, startY: real, posX: real, posY: real)

  /** A pointer event delivered to the card. */
  datatype Event = Down(cx: real, cy: real) | Move(cx: real, cy: real) | Up | Leave | Cancel

  /** What a handler did for its parent: nothing, `onDrag(x, y)`, a snap back
      (with `onDragEnd`), or a fling that schedules `onSwiped(dir)` (with
      `onDragEnd`). */
  datatype Outcome = Ignored | Dragged(x: real, y: real) | SnapBack | Fling(dir: Dir)

  /** The card at rest where it started. */
  const Rest := Drag(false, 0.0, 0.0, 0.0, 0.0)

  /** The release decision of pointer-up and pointer-leave: a fling when the
      horizontal displacement exceeds the threshold, otherwise a snap back to
      the origin. Either way the drag ends. */
  function Release(d: Drag, width: real): (r: (Drag, Outcome))
    ensures r.1.Fling? <==> Abs(d.posX) > Threshold(Some(width))
    ensures r.1.Fling? ==> r.1.dir == DirOf(d.posX) && r.0 == d.(dragging := false)
    ensures !r.1.Fling? ==> r.1 == SnapBack && r.0 == d.(dragging := false, posX := 0.0, posY := 0.0)
  {
    if Abs(d.posX) > Threshold(Some(width)) then
      (d.(dragging := false), Fling(DirOf(d.posX)))
    else
      (d.(dragging := false, posX := 0.0, posY := 0.0), SnapBack)
  }

  /** The handlers of an interactive card. Pointer-down always (re)starts a
      drag from the current offset; every other event is ignored unless a
      drag is active. Pointer-cancel snaps back whatever the displacement. */
  function Handle(d: Drag, e: Event, width: real): (r: (Drag, Outcome))
    ensures e.Down? ==>
      r.0 == Drag(true, e.cx - d.posX, e.cy - d.posY, d.posX, d.posY) && r.1 == Dragged(d.posX, d.posY)
    ensures !e.Down? && !d.dragging ==> r == (d, Ignored)
    ensures e.Move? && d.dragging ==>
      r.0 == d.(posX := e.cx - d.startX, posY := e.cy - d.startY) && r.1 == Dragged(r.0.posX, r.0.posY)
    ensures (e.Up? || e.Leave?) && d.dragging ==> r == Release(d, width)
    ensures e.Cancel? && d.dragging ==> r == (d.(dragging := false, posX := 0.0, posY := 0.0), SnapBack)
  {
    match e
    case Down(cx, cy) => (Drag(true, cx - d.posX, cy - d.posY, d.posX, d.posY), Dragged(d.posX, d.posY))
    case Move(cx, cy) =>
      if !d.dragging then (d, Ignored)
      else (d.(posX := cx - d.startX, posY := cy - d.startY), Dragged(cx - d.startX, cy - d.startY))
    case Up => if !d.dragging then (d, Ignored) else Release(d, width)
    case Leave => if !d.dragging then (d, Ignored) else Release(d, width)
    case Cancel =>
      if !d.dragging then (d, Ignored)
      else (d.(dragging := false, posX := 0.0, posY := 0.0), SnapBack)
  }

  /** A release is a fling exactly when `|x|` exceeds the threshold, towards
      the right exactly when `x > 0`; otherwise it snaps back to (0, 0). Both
      end the drag. */
  lemma ReleaseDecision(d: Drag, e: Event, width: real)
    requires d.dragging && (e == Up || e == Leave)
    ensures Handle(d, e, width).1.Fling? <==> Abs(d.posX) > Threshold(Some(width))
    ensures Handle(d, e, width).1.Fling? ==> Handle(d, e, width).1.dir == (if d.posX > 0.0 then Right else Left)
    ensures Handle(d, e, width).1.Fling? || Handle(d, e, width).1 == SnapBack
    ensures !Handle(d, e, width).0.dragging
    ensures Handle(d, e, width).1 == SnapBack ==> Handle(d, e, width).0.posX == 0.0 && Handle(d, e, width).0.posY == 0.0
  {
  }

  /** A displacement exactly at the threshold snaps back. */
  lemma AtThresholdSnapsBack(d: Drag, width: real)
    requires d.dragging && Abs(d.posX) == Threshold(Some(width))
    ensures Handle(d, Up, width).1 == SnapBack && Handle(d, Leave, width).1 == SnapBack
  {
  }

  /** Pointer-cancel during a drag always snaps back, even past the
      threshold. */
  lemma CancelSnapsBack(d: Drag, width: real)
    requires d.dragging
    ensures Handle(d, Cancel, width) == (Drag(false, d.startX, d.startY, 0.0, 0.0), SnapBack)
  {
  }

  /** Without an active drag, move, up, leave and cancel change nothing. */
  lemma IdleIgnores(d: Drag, e: Event, width: real)
    requires !d.dragging && !e.Down?
    ensures Handle(d, e, width) == (d, Ignored)
  {
  }

  /** A fling leaves the screen on the side of its direction (for a
      non-negative window width) and keeps the current `y`. */
  lemma FlingLeavesOnItsSide(x: real, width: real)
    requires width >= 0.0 && Abs(x) > Threshold(Some(width))
    ensures DirOf(x) == Right ==> FlingX(x, width) >= 400.0
    ensures DirOf(x) == Left ==> FlingX(x, width) <= -400.0
  {
  }

  /** The state after a sequence of pointer moves. */
  function MoveAll(d: Drag, moves: seq<(real, real)>, width: real): Drag
    decreases |moves|
  {
    if moves == [] then d
    else MoveAll(Handle(d, Move(moves[0].0, moves[0].1), width).0, moves[1..], width)
  }

  /** During a drag, moves keep the drag open and its anchor fixed, and the
      offset is that of the last move relative to the anchor. */
  lemma {:induction false} MoveAllTracksLast(d: Drag, moves: seq<(real, real)>, width: real)
    requires d.dragging
    ensures MoveAll(d, moves, width).dragging
    ensures MoveAll(d, moves, width).startX == d.startX && MoveAll(d, moves, width).startY == d.startY
    ensures moves != [] ==> MoveAll(d, moves, width).posX == moves[|moves| - 1].0 - d.startX
    ensures moves == [] ==> MoveAll(d, moves, width) == d
    decreases |moves|
  {
    if moves != [] {
      var d1 := Handle(d, Move(moves[0].0, moves[0].1), width).0;
      MoveAllTracksLast(d1, moves[1..], width);
      if |moves| > 1 {
        assert moves[1..][|moves[1..]| - 1] == moves[|moves| - 1];
      }
    }
  }

  /** A whole gesture: press at `(cx, cy)`, move through `moves`, release.
      It is a swipe exactly when the pointer ended more than the threshold
      away, horizontally, from where it was pressed (plus any offset the card
      already had). */
  lemma {:induction false} GestureDecision(d: Drag, cx: real, cy: real, moves: seq<(real, real)>, width: real)
    requires moves != []
    ensures var d1 := MoveAll(Handle(d, Down(cx, cy), width).0, moves, width);
            var x := moves[|moves| - 1].0 - cx + d.posX;
            d1.posX == x
            && (Handle(d1, Up, width).1.Fling? <==> Abs(x) > Threshold(Some(width)))
  {
    var d0 := Handle(d, Down(cx, cy), width).0;
    MoveAllTracksLast(d0, moves, width);
    var d1 := MoveAll(d0, moves, width);
    ReleaseDecision(d1, Up, width);
  }

  /** One `DraggableCard`. `interactive` is false for the card under the top
      one, which then has no pointer handlers at all. */
  class DraggableCard {
    const interactive: bool
    var dragging: bool
    var startX: real
    var startY: real
    var posX: real
    var posY: real
    var transform: Transform
    /** The page-wide `user-select: none` set during a drag. */
    var selectionDisabled: bool
    /** `onSwiped` calls scheduled by flings, oldest first. */
    var scheduled: seq<Dir>

    function State(): Drag
      reads this
    {
      Drag(dragging, startX, startY, posX, posY)
    }

    constructor (interactive: bool)
      ensures this.interactive == interactive
      ensures State() == Rest && transform == TransformAt(0.0, 0.0, false)
      ensures !selectionDisabled && scheduled == []
    {
      this.interactive := interactive;
      dragging, startX, startY, posX, posY := false, 0.0, 0.0, 0.0, 0.0;
      transform := TransformAt(0.0, 0.0, false);
      selectionDisabled := false;
      scheduled := [];
    }

    /** Delivers one pointer event; a non-interactive card ignores all of
        them. Besides the state of `Handle`: a press disables page-wide
        selection, a move drags the card without animation, a snap back
        animates it home, and a fling animates it off-screen and schedules
        `onSwiped`. */
    method OnPointer(e: Event, width: real) returns (o: Outcome)
      modifies this
      ensures !interactive ==> (o == Ignored && State() == old(State()) && transform == old(transform)
        && scheduled == old(scheduled))
      ensures interactive ==> (State(), o) == Handle(old(State()), e, width)
      ensures o.Ignored? ==> State() == old(State()) && transform == old(transform) && scheduled == old(scheduled)
      ensures interactive && e.Down? ==> transform == old(transform) && selectionDisabled && scheduled == old(scheduled)
      ensures o.Dragged? && e.Move? ==> (transform == TransformAt(o.x, o.y, false) && scheduled == old(scheduled))
      ensures o.SnapBack? ==> (transform == TransformAt(0.0, 0.0, true) && !selectionDisabled
        && scheduled == old(scheduled))
      ensures o.Fling? ==> (transform == TransformAt(FlingX(old(posX), width), old(posY), true)
        && !selectionDisabled && scheduled == old(scheduled) + [o.dir])
    {
      if !interactive {
        return Ignored;
      }
      var r := Handle(State(), e, width);
      var x, y := posX, posY;
      dragging, startX, startY, posX, posY := r.0.dragging, r.0.startX, r.0.startY, r.0.posX, r.0.posY;
      o := r.1;
      match o {
        case Ignored =>
        case Dragged(dx, dy) =>
          if e.Down? {
            selectionDisabled := true;
          } else {
            transform := TransformAt(dx, dy, false);
          }
        case SnapBack =>
          transform := TransformAt(0.0, 0.0, true);
          selectionDisabled := false;
        case Fling(dir) =>
          transform := TransformAt(FlingX(x, width), y, true);
          selectionDisabled := false;
          scheduled := scheduled + [dir];
      }
    }

    /** The fling timer fires: the oldest scheduled `onSwiped` runs. */
    method FlingElapsed() returns (dir: Dir)
      requires scheduled != []
      modifies this
      ensures dir == old(scheduled[0]) && scheduled == old(scheduled[1..])
      ensures State() == old(State()) && transform == old(transform)
    {
      dir := scheduled[0];
      scheduled := scheduled[1..];
    }
  }

  /** `shuffleArray`: a Fisher-Yates shuffle of a copy of `src`, the random
      index being any index in `[0, i]`. The result is a permutation of the
      input; the input itself is a value and is not changed. */
  method ShuffleArray<T>(src: seq<T>) returns (r: seq<T>)
    ensures |r| == |src|
    ensures multiset(r) == multiset(src)
  {
    if |src| == 0 {
      return [];
    }
    var a := new T[|src|](k requires 0 <= k < |src| => src[k]);
    assert a[..] == src;
    var i := a.Length - 1;
    while i > 0
      invariant 0 <= i < a.Length
      invariant multiset(a[..]) == multiset(src)
    {
      var j :| 0 <= j <= i;
      Swap(a, i, j);
      i := i - 1;
    }
    r := a[..];
  }

  /** `[a[i], a[j]] = [a[j], a[i]]`: exchanging two entries keeps the
      array's elements. */
  method Swap<T>(a: array<T>, i: int, j: int)
    requires 0 <= i < a.Length && 0 <= j < a.Length
    modifies a
    ensures a[..] == old(a[..])[i := old(a[j])][j := old(a[i])]
    ensures multiset(a[..]) == multiset(old(a[..]))
  {
    ghost var s := a[..];
    a[i], a[j] := a[j], a[i];
    assert a[..] == s[i := s[j]][j := s[i]];
    SwapPermutes(s, i, j);
  }

  lemma SwapPermutes<T>(s: seq<T>, i: int, j: int)
    requires 0 <= i < |s| && 0 <= j < |s|
    ensures multiset(s[i := s[j]][j := s[i]]) == multiset(s)
  {
    if i != j {
      var t := s[i := s[j]];
      assert multiset(t) == multiset(s) - multiset{s[i]} + multiset{s[j]};
      assert multiset(t[j := s[i]]) == multiset(t) - multiset{s[j]} + multiset{s[i]};
    } else {
      assert s[i := s[j]][j := s[i]] == s;
    }
  }

  /** A deck entry: its id (`String(it.id)`, `None` when the item has none)
      and what the card shows. */
  datatype Item<P> = Item(id: Option<string>, payload: P)

  /** An id that is tracked: present and non-empty (`if (id)`). */
  predicate Tracked<P>(it: Item<P>) {
    it.id.Some? && it.id.value != ""
  }

  /** The construction filter: an item stays unless it has an id that was
      already seen. */
  predicate Keep<P>(seen: set<string>, it: Item<P>) {
    !Tracked(it) || it.id.value !in seen
  }

  function FilterUnseen<P(!new)>(items: seq<Item<P>>, seen: set<string>): (r: seq<Item<P>>)
    ensures forall it :: it in r <==> it in items && Keep(seen, it)
  {
    Seqs.Filter(items, it => Keep(seen, it))
  }

  /** The kept items keep their catalog order. */
  lemma FilterUnseenOrder<P(!new)>(a: seq<Item<P>>, b: seq<Item<P>>, seen: set<string>)
    ensures FilterUnseen(a + b, seen) == FilterUnseen(a, seen) + FilterUnseen(b, seen)
  {
    Seqs.FilterConcat(a, b, it => Keep(seen, it));
  }

  /** `readSeen`: `new Set(JSON.parse(raw))` for a stored value, and the
      empty set for a missing or empty value or when that throws. A stored
      array gives its elements (an empty-string element is kept, unlike in
      the likes store), `null` nothing, and a JSON string its characters. */
  function ReadSeen(v: Option<Stored>): (r: set<string>)
    ensures Falsy(v) ==> r == {}
    ensures v.Some? && v.value.Strings? ==> r == v.value.items
    ensures v.Some? && SetOf(v.value).Some? ==> r == SetOf(v.value).value
    ensures v.Some? && SetOf(v.value).None? ==> r == {}
    ensures v == Some(Null) ==> r == {}
  {
    if v.Some? && SetOf(v.value).Some? then SetOf(v.value).value else {}
  }

  /** The like/seen work a swipe defers until after the render: the swiped
      id, the direction, and the `seen` set as the swipe saw it. */
  datatype Effect = Effect(id: string, dir: Dir, seenAtSwipe: set<string>)

  /** `liveDir`: the direction glyph shown while dragging more than 6px. */
  function LiveDir(dragging: bool, dragX: real): (r: Option<Dir>)
    ensures r.Some? <==> dragging && Abs(dragX) > 6.0
    ensures r.Some? ==> (r.value == Left <==> dragX < 0.0)
  {
    if dragging && Abs(dragX) > 6.0 then Some(if dragX < 0.0 then Left else Right) else None
  }

  /** When the threshold is at least 6px, a drag that will fling already
      shows the live glyph of the side it flies to. */
  lemma LiveDirAnnouncesFling(d: Drag, width: real)
    requires d.dragging && Threshold(Some(width)) >= 6.0
    ensures Release(d, width).1.Fling? ==> LiveDir(d.dragging, d.posX) == Some(Release(d, width).1.dir)
    ensures !Release(d, width).1.Fling? ==> Release(d, width).0.posX == 0.0
  {
  }

  /** One rendered slot: the item, its index in the stack and whether it is
      the front (interactive) card. */
  datatype Slot<P> = Slot(item: Item<P>, index: nat, isFront: bool)

  /** The rendered cards: only the last two of the stack, the last one in
      front. Only the front card takes pointer events and gestures. */
  function Visible<P>(stack: seq<Item<P>>): (r: seq<Slot<P>>)
    ensures |r| == (if |stack| < 2 then |stack| else 2)
    ensures forall k :: 0 <= k < |r| ==>
      r[k].index == |stack| - |r| + k && r[k].item == stack[r[k].index]
    ensures forall k :: 0 <= k < |r| ==> (r[k].isFront <==> r[k].index == |stack| - 1)
  {
    var start := if |stack| < 2 then 0 else |stack| - 2;
    seq(|stack| - start, k requires 0 <= k < |stack| - start =>
      Slot(stack[start + k], start + k, k == |stack| - start - 1))
  }

  /** A non-empty stack shows exactly one front card: its top. */
  lemma OneFrontCard<P>(stack: seq<Item<P>>)
    requires stack != []
    ensures var r := Visible(stack);
            r[|r| - 1].isFront && r[|r| - 1].item == stack[|stack| - 1]
            && forall k :: 0 <= k < |r| - 1 ==> !r[k].isFront
  {
  }

  /** The `Deck` component's state. */
  class Deck<P(==,!new)> {
    var stack: seq<Item<P>>
    var seen: set<string>
    /** Work deferred by swipes (`setTimeout(…, 0)`), oldest first. */
    var pending: seq<Effect>
    var releaseDir: Option<Dir>
    var dragX: real
    var dragging: bool
    const likes: LikeStore.LikesProvider
    const storage: LocalStorage

    /** The likes provider shares this window's storage, and only tracked ids
        are ever queued. */
    ghost predicate Valid()
      reads this, likes
    {
      likes.storage == storage && likes.Valid()
      && forall k :: 0 <= k < |pending| ==> pending[k].id != ""
    }

    /** Mounting: `seen` is read from storage, and the items effect builds the
        stack from the items not yet seen according to storage, shuffled. */
    constructor (items: seq<Item<P>>, likes: LikeStore.LikesProvider, storage: LocalStorage)
      requires likes.storage == storage && likes.Valid()
      ensures Valid() && this.likes == likes && this.storage == storage
      ensures seen == ReadSeen(storage.GetItem(SeenKey))
      ensures multiset(stack) == multiset(FilterUnseen(items, ReadSeen(storage.GetItem(SeenKey))))
      ensures pending == [] && releaseDir == None && dragX == 0.0 && !dragging
    {
      this.likes := likes;
      this.storage := storage;
      seen := ReadSeen(storage.GetItem(SeenKey));
      var s := ShuffleArray(FilterUnseen(items, ReadSeen(storage.GetItem(SeenKey))));
      stack := s;
      pending := [];
      releaseDir := None;
      dragX := 0.0;
      dragging := false;
    }

    /** New `items`: the stack is rebuilt against the seen set as persisted,
        not the in-memory one, so the card on top is not dropped mid-session. */
    method ItemsChanged(items: seq<Item<P>>)
      modifies this
      ensures multiset(stack) == multiset(FilterUnseen(items, ReadSeen(storage.GetItem(SeenKey))))
      ensures seen == old(seen) && pending == old(pending) && releaseDir == old(releaseDir)
      ensures dragX == old(dragX) && dragging == old(dragging)
    {
      stack := ShuffleArray(FilterUnseen(items, ReadSeen(storage.GetItem(SeenKey))));
    }

    /** A `storage` event: on the seen key the set is re-read. */
    method OnStorageEvent(key: string)
      modifies this
      ensures seen == (if key == SeenKey then ReadSeen(storage.GetItem(SeenKey)) else old(seen))
      ensures stack == old(stack) && pending == old(pending)
      ensures releaseDir == old(releaseDir) && dragX == old(dragX) && dragging == old(dragging)
    {
      if key == SeenKey {
        seen := ReadSeen(storage.GetItem(SeenKey));
      }
    }

    /** `handleSwiped(dir)`: the top card leaves the stack (an empty stack
        stays empty); when it has an id, the like/unlike and seen update are
        deferred. Nothing else changes now. */
    method HandleSwiped(dir: Dir)
      requires Valid()
      modifies this
      ensures Valid()
      ensures stack == (if old(stack) == [] then [] else old(stack)[..|old(stack)| - 1])
      ensures pending == old(pending) +
        (if old(stack) != [] && Tracked(old(stack)[|old(stack)| - 1])
         then [Effect(old(stack)[|old(stack)| - 1].id.value, dir, old(seen))] else [])
      ensures seen == old(seen) && releaseDir == old(releaseDir)
      ensures dragX == old(dragX) && dragging == old(dragging)
    {
      if stack != [] {
        var top := stack[|stack| - 1];
        if Tracked(top) {
          pending := pending + [Effect(top.id.value, dir, seen)];
        }
        stack := stack[..|stack| - 1];
      }
    }

    /** The oldest deferred swipe effect runs: left likes the id, right
        unlikes it; then the id joins the seen set the swipe saw, which is
        written to storage. */
    method RunPending()
      requires Valid() && pending != []
      modifies this, likes, storage
      ensures Valid()
      ensures pending == old(pending[1..])
      ensures var e := old(pending[0]);
        && (e.dir == Left ==> likes.likedIds == old(likes.likedIds) + {e.id})
        && (e.dir == Right ==> likes.likedIds == old(likes.likedIds) - {e.id})
        && seen == e.seenAtSwipe + {e.id}
        && storage.items == old(storage.items)[LikesKey := Strings(likes.likedIds)][SeenKey := Strings(seen)]
      ensures stack == old(stack) && releaseDir == old(releaseDir)
      ensures dragX == old(dragX) && dragging == old(dragging)
    {
      var e := pending[0];
      pending := pending[1..];
      if e.dir == Left {
        likes.Like(e.id);
      } else {
        likes.Unlike(e.id);
      }
      seen := e.seenAtSwipe + {e.id};
      storage.SetItem(SeenKey, Strings(seen));
    }

    /** The window's key handler: an arrow key on a non-empty stack shows the
        release glyph and swipes the top card (left arrow: left); it is then
        handled (default prevented). Other keys, or an empty stack, do
        nothing. */
    method KeyDown(key: string) returns (handled: bool)
      requires Valid()
      modifies this
      ensures Valid()
      ensures handled <==> (key == "ArrowLeft" || key == "ArrowRight") && old(stack) != []
      ensures handled ==> (var dir := if key == "ArrowLeft" then Left else Right;
        releaseDir == Some(dir)
        && stack == old(stack)[..|old(stack)| - 1]
        && pending == old(pending) +
          (if Tracked(old(stack)[|old(stack)| - 1])
           then [Effect(old(stack)[|old(stack)| - 1].id.value, dir, old(seen))] else []))
      ensures !handled ==> stack == old(stack) && pending == old(pending) && releaseDir == old(releaseDir)
      ensures seen == old(seen) && dragX == old(dragX) && dragging == old(dragging)
    {
      handled := false;
      if key == "ArrowLeft" || key == "ArrowRight" {
        if stack == [] {
          return;
        }
        var dir := if key == "ArrowLeft" then Left else Right;
        releaseDir := Some(dir);
        HandleSwiped(dir);
        handled := true;
      }
    }

    /** The front card's `onDrag`. */
    method OnDrag(x: real)
      modifies this
      ensures dragging && dragX == x
      ensures stack == old(stack) && seen == old(seen) && pending == old(pending) && releaseDir == old(releaseDir)
    {
      dragging := true;
      dragX := x;
    }

    /** The front card's `onDragEnd`: a drag of more than 25px shows the
        release glyph of its side; the live drag is reset. */
    method OnDragEnd()
      modifies this
      ensures !dragging && dragX == 0.0
      ensures releaseDir == (if Abs(old(dragX)) > 25.0 then Some(if old(dragX) < 0.0 then Left else Right) else old(releaseDir))
      ensures old(dragging) && Abs(old(dragX)) > 25.0 ==> releaseDir == LiveDir(old(dragging), old(dragX))
      ensures stack == old(stack) && seen == old(seen) && pending == old(pending)
    {
      var abs := Abs(dragX);
      dragging := false;
      if abs > 25.0 {
        releaseDir := Some(if dragX < 0.0 then Left else Right);
      }
      dragX := 0.0;
    }

    /** A release-glyph timer fires. */
    method ReleaseGlyphElapsed()
      modifies this
      ensures releaseDir == None
      ensures stack == old(stack) && seen == old(seen) && pending == old(pending)
      ensures dragX == old(dragX) && dragging == old(dragging)
    {
      releaseDir := None;
    }
  }

  /** A swipe of the top card followed by its deferred effect: the card is
      gone, and when it had an id that id is now seen, persisted as seen,
      and liked exactly when the swipe went left. */
  method SwipeAndSettle<P(==,!new)>(deck: Deck<P>, dir: Dir) returns (swiped: Option<Item<P>>)
    requires deck.Valid() && deck.pending == []
    modifies deck, deck.likes, deck.storage
    ensures deck.Valid()
    ensures old(deck.stack) == [] ==> swiped == None && deck.stack == []
    ensures old(deck.stack) != [] ==> (swiped == Some(old(deck.stack)[|old(deck.stack)| - 1])
      && deck.stack == old(deck.stack)[..|old(deck.stack)| - 1])
    ensures swiped.Some? && Tracked(swiped.value) ==> (var id := swiped.value.id.value;
      && id in deck.seen
      && deck.storage.GetItem(SeenKey) == Some(Strings(deck.seen))
      && (id in deck.likes.likedIds <==> dir == Left))
    ensures deck.pending == []
  {
    swiped := if deck.stack == [] then None else Some(deck.stack[|deck.stack| - 1]);
    deck.HandleSwiped(dir);
    if deck.pending != [] {
      deck.RunPending();
    }
  }
}
