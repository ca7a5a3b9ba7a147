/**
 * The view state of the client's world map (osrs.WorldMap): scrolling toward
 * a target tile, the zoom table, element flashing, the enabled-element sets,
 * the nearest-icon search and the icon enter/stay/leave events of a cycle.
 *
 * What the map reads from classes outside this model (the cache loader, the
 * map manager, the element table, the current map area) is passed in as
 * parameters; the script events it runs are appended to a trace.
 */
module Osrs {
  import opened Wrappers

  // ---------------------------------------------------------------------------
  // Scrolling toward the target

  function Abs(d: int): nat
  {
    if d < 0 then -d else d
  }

  function Min(a: int, b: int): int
  {
    if a < b then a else b
  }

  /** Java's `/` on ints: the quotient is truncated toward zero. */
  function Quot(a: int, b: int): int
    requires b > 0
  {
    if a >= 0 then a / b else -((-a) / b)
  }

  /**
   * One axis of scrollToTarget: the offset `d` to the target is divided by
   * min(8, |d|).  The view moves at least one tile toward the target and never
   * past it; within 8 tiles it moves exactly one.
   */
  function Approach(d: int): (step: int)
    ensures d == 0 ==> step == 0
    ensures d > 0 ==> 1 <= step <= d
    ensures d < 0 ==> d <= step <= -1
    ensures 0 < Abs(d) <= 8 ==> step == (if d > 0 then 1 else -1)
    ensures Abs(d) > 8 ==> Abs(step) * 8 <= Abs(d) < (Abs(step) + 1) * 8
  {
    if d == 0 then 0 else Quot(d, Min(8, Abs(d)))
  }

  /** The part of the map state scrollToTarget reads and writes. */
  datatype View = View(centerX: int, centerY: int, targetX: int, targetY: int)

  predicate Targeted(v: View)
  {
    v.targetX != -1 && v.targetY != -1
  }

  function ScrollStep(v: View): (r: View)
    ensures !Targeted(v) ==> r == v
    ensures Targeted(v) ==>
      r.centerX - v.centerX == Approach(v.targetX - v.centerX) && r.centerY - v.centerY == Approach(v.targetY - v.centerY)
    ensures Targeted(v) ==> (r.targetX == -1 && r.targetY == -1 <==> r.centerX == v.targetX && r.centerY == v.targetY)
    ensures Targeted(v) && !(r.centerX == v.targetX && r.centerY == v.targetY) ==>
      r.targetX == v.targetX && r.targetY == v.targetY
  {
    if !Targeted(v) then v
    else
      var x := v.centerX + Approach(v.targetX - v.centerX);
      var y := v.centerY + Approach(v.targetY - v.centerY);
      if x == v.targetX && v.targetY == y then View(x, y, -1, -1)
      else View(x, y, v.targetX, v.targetY)
  }

  function Scroll(v: View, n: nat): View
    decreases n
  {
    if n == 0 then v else Scroll(ScrollStep(v), n - 1)
  }

  /** Manhattan distance from the view centre to the target. */
  function Distance(v: View): nat
  {
    Abs(v.targetX - v.centerX) + Abs(v.targetY - v.centerY)
  }

  /**
   * Scrolling arrives: from a view with a target at distance d, after any
   * n >= max(1, d) cycles the target has been reached and cleared.
   */
  lemma {:induction false} ScrollArrives(v: View, n: nat)
    requires Targeted(v) && n >= 1 && n >= Distance(v)
    ensures !Targeted(Scroll(v, n))
    ensures Scroll(v, n).centerX == v.targetX && Scroll(v, n).centerY == v.targetY
    decreases n
  {
    var w := ScrollStep(v);
    if Targeted(w) {
      assert w.targetX == v.targetX && w.targetY == v.targetY;
      assert 1 <= Distance(w) < Distance(v);
      ScrollArrives(w, n - 1);
    } else {
      ScrollStaysWithoutTarget(w, n - 1);
    }
  }

  lemma {:induction false} ScrollStaysWithoutTarget(v: View, n: nat)
    requires !Targeted(v)
    ensures Scroll(v, n) == v
    decreases n
  {
    if n > 0 {
      ScrollStaysWithoutTarget(ScrollStep(v), n - 1);
    }
  }

  // ---------------------------------------------------------------------------
  // Zoom

  /** getZoomLevel: the percentage of a zoom factor; anything not in the table reads 200. */
  function ZoomLevel(zoom: real): int
  {
    if zoom == 1.0 then 25
    else if zoom == 1.5 then 37
    else if zoom == 2.0 then 50
    else if zoom == 3.0 then 75
    else if zoom == 4.0 then 100
    else 200
  }

  /**
   * getZoomFromPercentage: the zoom factor of a percentage; an unknown
   * percentage gives 8.  Reading the level back gives the percentage for the
   * five table entries and 200 otherwise.
   */
  function ZoomFromPercentage(percentage: int): (zoom: real)
    ensures ZoomLevel(zoom) == if percentage in {25, 37, 50, 75, 100} then percentage else 200
    ensures zoom in {1.0, 1.5, 2.0, 3.0, 4.0, 8.0}
  {
    if percentage == 25 then 1.0
    else if percentage == 37 then 1.5
    else if percentage == 50 then 2.0
    else if percentage == 75 then 3.0
    else if percentage == 100 then 4.0
    else 8.0
  }

  /** The two tables are inverse on the zoom factors the map uses. */
  lemma ZoomTableInverse(zoom: real)
    requires zoom in {1.0, 1.5, 2.0, 3.0, 4.0, 8.0}
    ensures ZoomFromPercentage(ZoomLevel(zoom)) == zoom
  {
  }

  // ---------------------------------------------------------------------------
  // Flashing

  /** flashingElements (None for null), flashCount and flashCycle. */
  datatype Flash = Flash(elements: Option<set<int>>, count: int, cycle: int)

  /** The flash block of draw. */
  function FlashStep(f: Flash, maxFlashCount: int, cyclesPerFlash: int, perpetual: bool): (r: Flash)
    requires cyclesPerFlash >= 1
    ensures f.elements == None ==> r == f
  {
    if f.elements == None then f
    else
      var cycle := f.cycle + 1;
      var f1 := if cycle % cyclesPerFlash == 0 then Flash(f.elements, f.count + 1, 0) else Flash(f.elements, f.count, cycle);
      if f1.count >= maxFlashCount && !perpetual then Flash(None, f1.count, f1.cycle) else f1
  }

  function Flashes(f: Flash, maxFlashCount: int, cyclesPerFlash: int, perpetual: bool, n: nat): Flash
    requires cyclesPerFlash >= 1
    decreases n
  {
    if n == 0 then f else Flashes(FlashStep(f, maxFlashCount, cyclesPerFlash, perpetual), maxFlashCount, cyclesPerFlash, perpetual, n - 1)
  }

  /** Draws left before a non-perpetual flash that is on count `count`, cycle `cycle` stops. */
  function FlashDrawsLeft(f: Flash, maxFlashCount: int, cyclesPerFlash: int): int
  {
    (maxFlashCount - f.count) * cyclesPerFlash - f.cycle
  }

  /**
   * A non-perpetual flash started by flashElement (count 0, cycle 0) stops
   * after exactly maxFlashCount * cyclesPerFlash draws; more generally, one in
   * the middle of a flash stops after exactly FlashDrawsLeft draws.
   */
  lemma {:induction false} FlashStopsOnTime(f: Flash, maxFlashCount: int, cyclesPerFlash: int, n: nat)
    requires cyclesPerFlash >= 1 && f.elements.Some?
    requires 0 <= f.cycle < cyclesPerFlash && f.count < maxFlashCount
    ensures Flashes(f, maxFlashCount, cyclesPerFlash, false, n).elements.Some? <==> n < FlashDrawsLeft(f, maxFlashCount, cyclesPerFlash)
    decreases n
  {
    var rounds := maxFlashCount - f.count;
    MulAtLeast(rounds, cyclesPerFlash);
    if n > 0 {
      var g := FlashStep(f, maxFlashCount, cyclesPerFlash, false);
      FlashStepCounts(f, maxFlashCount, cyclesPerFlash);
      if g.elements.Some? {
        FlashStopsOnTime(g, maxFlashCount, cyclesPerFlash, n - 1);
      } else {
        FlashStaysOff(g, maxFlashCount, cyclesPerFlash, n - 1);
      }
    }
  }

  /** One draw of a running non-perpetual flash takes exactly one draw off what is left. */
  lemma FlashStepCounts(f: Flash, maxFlashCount: int, cyclesPerFlash: int)
    requires cyclesPerFlash >= 1 && f.elements.Some?
    requires 0 <= f.cycle < cyclesPerFlash && f.count < maxFlashCount
    ensures var g := FlashStep(f, maxFlashCount, cyclesPerFlash, false);
      && FlashDrawsLeft(g, maxFlashCount, cyclesPerFlash) == FlashDrawsLeft(f, maxFlashCount, cyclesPerFlash) - 1
      && (g.elements.Some? <==> FlashDrawsLeft(g, maxFlashCount, cyclesPerFlash) > 0)
      && (g.elements.Some? ==> 0 <= g.cycle < cyclesPerFlash && g.count < maxFlashCount)
  {
    var rounds := maxFlashCount - f.count;
    if f.cycle + 1 == cyclesPerFlash {
      assert (f.cycle + 1) % cyclesPerFlash == 0;
      MulPred(rounds, cyclesPerFlash);
      MulAtLeast(rounds - 1, cyclesPerFlash);
    } else {
      assert (f.cycle + 1) % cyclesPerFlash == f.cycle + 1;
      MulAtLeast(rounds, cyclesPerFlash);
    }
  }

  lemma MulPred(a: int, c: int)
    ensures (a - 1) * c == a * c - c
  {
  }

  lemma MulAtLeast(a: int, c: int)
    requires c >= 1
    ensures a >= 1 ==> a * c >= c
    ensures a <= 0 ==> a * c <= 0
  {
  }

  lemma {:induction false} FlashStaysOff(f: Flash, maxFlashCount: int, cyclesPerFlash: int, n: nat)
    requires cyclesPerFlash >= 1 && f.elements == None
    ensures Flashes(f, maxFlashCount, cyclesPerFlash, false, n) == f
    decreases n
  {
    if n > 0 {
      FlashStaysOff(f, maxFlashCount, cyclesPerFlash, n - 1);
    }
  }

  /** A perpetual flash never stops. */
  lemma {:induction false} PerpetualFlashNeverStops(f: Flash, maxFlashCount: int, cyclesPerFlash: int, n: nat)
    requires cyclesPerFlash >= 1 && f.elements.Some?
    ensures Flashes(f, maxFlashCount, cyclesPerFlash, true, n).elements == f.elements
    decreases n
  {
    if n > 0 {
      PerpetualFlashNeverStops(FlashStep(f, maxFlashCount, cyclesPerFlash, true), maxFlashCount, cyclesPerFlash, n - 1);
    }
  }

  // ---------------------------------------------------------------------------
  // Elements, categories and icons

  /** An entry of the world-map element table. */
  datatype Element = Element(objectId: int, category: int)

  /** The object ids of the table's elements in `category`. */
  ghost function CategoryIds(table: seq<Option<Element>>, category: int): set<int>
  {
    set i | 0 <= i < |table| && table[i].Some? && table[i].value.category == category :: table[i].value.objectId
  }

  /** The loop over the element table in flashCategory and setCategoryDisabled. */
  method CollectCategory(table: seq<Option<Element>>, category: int) returns (ids: set<int>)
    ensures ids == CategoryIds(table, category)
    ensures forall id :: id in ids <==> exists i :: 0 <= i < |table| && table[i] == Some(Element(id, category))
  {
    ids := {};
    var i := 0;
    while i < |table|
      invariant 0 <= i <= |table|
      invariant ids == CategoryIds(table[..i], category)
    {
      assert forall j :: 0 <= j < i ==> table[..i + 1][j] == table[..i][j];
      if table[i].Some? && table[i].value.category == category {
        ids := ids + {table[i].value.objectId};
      }
      assert table[..i + 1][i] == table[i];
      i := i + 1;
    }
    assert table[..i] == table;
    forall id | id in ids ensures exists i :: 0 <= i < |table| && table[i] == Some(Element(id, category)) {
      var i :| 0 <= i < |table| && table[i].Some? && table[i].value.category == category && table[i].value.objectId == id;
      assert table[i] == Some(Element(id, category));
    }
  }

  datatype Coord = Coord(plane: int, x: int, y: int)

  /** A map icon; `id` stands for the icon object's identity. */
  datatype Icon = Icon(id: nat, element: int, coord1: Coord, coord2: Coord)

  function SquaredDistance(icon: Icon, c: Coord): nat
  {
    var dx := icon.coord2.x - c.x;
    var dy := icon.coord2.y - c.y;
    dx * dx + dy * dy
  }

  /** A script event run by the map: its type, icon and the mouse position. */
  datatype MapEvent = MapEvent(eventType: int, icon: Icon, mouseX: int, mouseY: int)

  const IconEntered := 15
  const IconLeft := 16
  const IconStayed := 17

  /** The events of the first loop of the icon diff: stayed if the icon was shown before, entered otherwise. */
  function EnterOrStay(visible: seq<Icon>, shown: set<Icon>, mouseX: int, mouseY: int): (r: seq<MapEvent>)
    ensures |r| == |visible|
    ensures forall i :: 0 <= i < |visible| ==>
      r[i] == MapEvent(if visible[i] in shown then IconStayed else IconEntered, visible[i], mouseX, mouseY)
  {
    if visible == [] then []
    else
      var last := visible[|visible| - 1];
      var event := MapEvent(if last in shown then IconStayed else IconEntered, last, mouseX, mouseY);
      EnterOrStay(visible[..|visible| - 1], shown, mouseX, mouseY) + [event]
  }

  function LeaveEvents(left: seq<Icon>, mouseX: int, mouseY: int): (r: seq<MapEvent>)
    ensures |r| == |left|
    ensures forall i :: 0 <= i < |left| ==> r[i] == MapEvent(IconLeft, left[i], mouseX, mouseY)
  {
    if left == [] then [] else LeaveEvents(left[..|left| - 1], mouseX, mouseY) + [MapEvent(IconLeft, left[|left| - 1], mouseX, mouseY)]
  }

  ghost predicate Distinct<T>(s: seq<T>)
  {
    forall i, j :: 0 <= i < j < |s| ==> s[i] != s[j]
  }

  /** `left` lists, once each, the icons shown before that are not visible now. */
  ghost predicate LeftIcons(left: seq<Icon>, before: set<Icon>, visible: seq<Icon>)
  {
    Distinct(left) && forall icon :: icon in left <==> icon in before && icon !in visible
  }

  /**
   * The icon diff of onCycle, from events `events0` and shown icons `shown0`
   * to `events1` and `shown1`: an event per visible icon in list order
   * (stayed or entered), then a left event per icon no longer visible (in the
   * order `left`, which lists each of them once); the visible icons are then
   * the shown ones.
   */
  ghost predicate IconDiff(events0: seq<MapEvent>, shown0: set<Icon>, visible: seq<Icon>, mouseX: int, mouseY: int,
                           events1: seq<MapEvent>, shown1: set<Icon>, left: seq<Icon>)
  {
    && events1 == events0 + EnterOrStay(visible, shown0, mouseX, mouseY) + LeaveEvents(left, mouseX, mouseY)
    && LeftIcons(left, shown0, visible)
    && shown1 == set icon | icon in visible
  }

  /** The icons iconNext passes over: the first index at or after `from` whose element is not -1, or the end. */
  function NextShown(icons: seq<Icon>, from: nat): (k: nat)
    requires from <= |icons|
    ensures from <= k <= |icons|
    ensures forall j :: from <= j < k ==> icons[j].element == -1
    ensures k < |icons| ==> icons[k].element != -1
    decreases |icons| - from
  {
    if from == |icons| then from
    else if icons[from].element != -1 then from
    else NextShown(icons, from + 1)
  }

  function Flatten(lists: seq<seq<Icon>>): (r: seq<Icon>)
  {
    if lists == [] then [] else Flatten(lists[..|lists| - 1]) + lists[|lists| - 1]
  }

  /** `k` is the first index of least squared distance to `c`. */
  predicate FirstNearest(icons: seq<Icon>, c: Coord, k: int)
  {
    && 0 <= k < |icons|
    && (forall j :: 0 <= j < |icons| ==> SquaredDistance(icons[k], c) <= SquaredDistance(icons[j], c))
    && (forall j :: 0 <= j < k ==> SquaredDistance(icons[j], c) > SquaredDistance(icons[k], c))
  }

  /**
   * method6405: the target position of the icon of `element` nearest to `c`.
   * It is None when the cache or the map is not loaded, `c` is outside the
   * current area, or the element has no icons; otherwise it is the first icon
   * of least squared distance (an icon at distance 0 is returned at once,
   * and a later icon at equal distance does not replace an earlier one).
   */
  method NearestIcon(cacheLoaded: bool, mapLoaded: bool, inArea: bool, icons: map<int, seq<Icon>>, element: int, c: Coord)
    returns (r: Option<Coord>)
    ensures r.Some? <==> cacheLoaded && mapLoaded && inArea && element in icons && icons[element] != []
    ensures r.Some? ==> exists k :: FirstNearest(icons[element], c, k) && r.value == icons[element][k].coord2
  {
    if !cacheLoaded || !mapLoaded || !inArea {
      return None;
    }
    if element !in icons || icons[element] == [] {
      return None;
    }
    var list := icons[element];
    var best := 0;
    var bestDistance := SquaredDistance(list[0], c);
    if bestDistance == 0 {
      return Some(list[0].coord2);
    }
    var i := 1;
    while i < |list|
      invariant 1 <= i <= |list| && 0 <= best < i
      invariant bestDistance == SquaredDistance(list[best], c)
      invariant forall j :: 0 <= j < i ==> bestDistance <= SquaredDistance(list[j], c)
      invariant forall j :: 0 <= j < best ==> SquaredDistance(list[j], c) > bestDistance
      invariant bestDistance > 0
    {
      var distance := SquaredDistance(list[i], c);
      if distance == 0 {
        return Some(list[i].coord2);
      }
      if distance < bestDistance {
        best := i;
        bestDistance := distance;
      }
      i := i + 1;
    }
    return Some(list[best].coord2);
  }

  // ---------------------------------------------------------------------------
  // The map object

  class WorldMap {
    var centerTileX: int
    var centerTileY: int
    var worldMapTargetX: int
    var worldMapTargetY: int
    /** The tile-cache bounds setWorldMapPosition invalidates. */
    var field4139: int
    var field4160: int
    var field4141: int
    var field4109: int

    var zoom: real
    var zoomTarget: real

    var maxFlashCount: int
    var cyclesPerFlash: int
    var perpetualFlash: bool
    var flashingElements: Option<set<int>>
    var flashCount: int
    var flashCycle: int

    var enabledElements: set<int>
    var enabledCategories: set<int>
    var enabledElementIds: set<int>
    /** The union of enabledElements and enabledElementIds. */
    var field4163: set<int>
    var elementsDisabled: bool

    /** The icons shown in the last cycle. */
    var field4156: set<Icon>
    /** The icon list of iconStart and the iterator over it (None for null). */
    var field4146: seq<Icon>
    var iconIterator: Option<nat>

    /** Script events run, oldest first. */
    var events: seq<MapEvent>

    ghost predicate Valid()
      reads this`maxFlashCount, this`cyclesPerFlash, this`flashingElements, this`flashCycle
      reads this`field4163, this`enabledElements, this`enabledElementIds, this`iconIterator, this`field4146
    {
      && maxFlashCount >= 1 && cyclesPerFlash >= 1
      && (flashingElements.Some? ==> flashCycle >= 0)
      && field4163 == enabledElements + enabledElementIds
      && (iconIterator.Some? ==> iconIterator.value <= |field4146|)
    }

    function GetView(): View
      reads this
    {
      View(centerTileX, centerTileY, worldMapTargetX, worldMapTargetY)
    }

    function GetFlash(): Flash
      reads this
    {
      Flash(flashingElements, flashCount, flashCycle)
    }

    constructor ()
      ensures Valid()
      ensures worldMapTargetX == -1 && worldMapTargetY == -1
      ensures maxFlashCount == 3 && cyclesPerFlash == 50 && !perpetualFlash
      ensures flashingElements == None && flashCount == -1 && flashCycle == -1
      ensures field4139 == -1 && field4160 == -1 && field4141 == -1 && field4109 == -1
      ensures enabledElements == {} && enabledCategories == {} && enabledElementIds == {} && field4163 == {}
      ensures !elementsDisabled && field4156 == {} && iconIterator == None && events == []
    {
      centerTileX := 0;
      centerTileY := 0;
      worldMapTargetX := -1;
      worldMapTargetY := -1;
      field4139 := -1;
      field4160 := -1;
      field4141 := -1;
      field4109 := -1;
      zoom := 0.0;
      zoomTarget := 0.0;
      maxFlashCount := 3;
      cyclesPerFlash := 50;
      perpetualFlash := false;
      flashingElements := None;
      flashCount := -1;
      flashCycle := -1;
      enabledElements := {};
      enabledCategories := {};
      enabledElementIds := {};
      field4163 := {};
      elementsDisabled := false;
      field4156 := {};
      field4146 := [];
      iconIterator := None;
      events := [];
    }

    // --- position -------------------------------------------------------------

    function HasTarget(): bool
      reads this
    {
      Targeted(GetView())
    }

    /** setWorldMapPosition with the cache-invalidation flag set. */
    method SetWorldMapPosition(x: int, y: int)
      modifies this`centerTileX, this`centerTileY, this`field4139, this`field4160, this`field4141, this`field4109
      ensures centerTileX == x && centerTileY == y
      ensures field4139 == -1 && field4160 == -1 && field4141 == -1 && field4109 == -1
    {
      centerTileX := x;
      centerTileY := y;
      field4109 := -1;
      field4141 := -1;
      field4160 := -1;
      field4139 := -1;
    }

    method ScrollToTarget()
      modifies this`centerTileX, this`centerTileY, this`worldMapTargetX, this`worldMapTargetY,
        this`field4139, this`field4160, this`field4141, this`field4109
      ensures GetView() == ScrollStep(old(GetView()))
      ensures old(HasTarget()) ==> field4139 == -1 && field4160 == -1 && field4141 == -1 && field4109 == -1
      ensures !old(HasTarget()) ==> unchanged(this`field4139, this`field4160, this`field4141, this`field4109)
    {
      if HasTarget() {
        var dx := Approach(worldMapTargetX - centerTileX);
        var dy := Approach(worldMapTargetY - centerTileY);
        SetWorldMapPosition(dx + centerTileX, dy + centerTileY);
        if centerTileX == worldMapTargetX && worldMapTargetY == centerTileY {
          worldMapTargetX := -1;
          worldMapTargetY := -1;
        }
      }
    }

    /**
     * setWorldMapPositionTarget: `area` is the current map area's low region
     * corner (None for no area); `inArea` whether it contains (x, y).
     */
    method SetWorldMapPositionTarget(x: int, y: int, area: Option<(int, int)>, inArea: bool)
      modifies this`worldMapTargetX, this`worldMapTargetY
      ensures area.Some? && inArea ==> worldMapTargetX == x - area.value.0 * 64 && worldMapTargetY == y - area.value.1 * 64
      ensures !(area.Some? && inArea) ==> worldMapTargetX == old(worldMapTargetX) && worldMapTargetY == old(worldMapTargetY)
    {
      if area.Some? && inArea {
        worldMapTargetX := x - area.value.0 * 64;
        worldMapTargetY := y - area.value.1 * 64;
      }
    }

    // --- zoom -----------------------------------------------------------------

    method SetZoomPercentage(percentage: int)
      modifies this`zoomTarget
      ensures zoomTarget == ZoomFromPercentage(percentage)
      ensures GetZoomLevel() == if percentage in {25, 37, 50, 75, 100} then percentage else 200
    {
      zoomTarget := ZoomFromPercentage(percentage);
    }

    function GetZoomLevel(): int
      reads this
    {
      ZoomLevel(zoomTarget)
    }

    // --- flashing -------------------------------------------------------------

    method SetMaxFlashCount(count: int)
      requires Valid()
      modifies this`maxFlashCount
      ensures Valid()
      ensures maxFlashCount == if count >= 1 then count else old(maxFlashCount)
    {
      if count >= 1 {
        maxFlashCount := count;
      }
    }

    method ResetMaxFlashCount()
      requires Valid()
      modifies this`maxFlashCount
      ensures Valid() && maxFlashCount == 3
    {
      maxFlashCount := 3;
    }

    method SetCyclesPerFlash(cycles: int)
      requires Valid()
      modifies this`cyclesPerFlash
      ensures Valid()
      ensures cyclesPerFlash == if cycles >= 1 then cycles else old(cyclesPerFlash)
    {
      if cycles >= 1 {
        cyclesPerFlash := cycles;
      }
    }

    method ResetCyclesPerFlash()
      requires Valid()
      modifies this`cyclesPerFlash
      ensures Valid() && cyclesPerFlash == 50
    {
      cyclesPerFlash := 50;
    }

    method SetPerpetualFlash(perpetual: bool)
      modifies this`perpetualFlash
      ensures perpetualFlash == perpetual
    {
      perpetualFlash := perpetual;
    }

    method FlashElement(element: int)
      requires Valid()
      modifies this`flashingElements, this`flashCount, this`flashCycle
      ensures Valid()
      ensures GetFlash() == Flash(Some({element}), 0, 0)
    {
      flashingElements := Some({element});
      flashCount := 0;
      flashCycle := 0;
    }

    /** flashCategory: flash every element of the table in `category`. */
    method FlashCategory(category: int, table: seq<Option<Element>>)
      requires Valid()
      modifies this`flashingElements, this`flashCount, this`flashCycle
      ensures Valid()
      ensures GetFlash() == Flash(Some(CategoryIds(table, category)), 0, 0)
    {
      flashCount := 0;
      flashCycle := 0;
      var ids := CollectCategory(table, category);
      flashingElements := Some(ids);
    }

    method StopCurrentFlashes()
      requires Valid()
      modifies this`flashingElements
      ensures Valid() && flashingElements == None
    {
      flashingElements := None;
    }

    /** The flash block of draw, run once the map is loaded. */
    method AdvanceFlash()
      requires Valid()
      modifies this`flashingElements, this`flashCount, this`flashCycle
      ensures Valid()
      ensures GetFlash() == FlashStep(old(GetFlash()), maxFlashCount, cyclesPerFlash, perpetualFlash)
    {
      if flashingElements != None {
        flashCycle := flashCycle + 1;
        if flashCycle % cyclesPerFlash == 0 {
          flashCycle := 0;
          flashCount := flashCount + 1;
        }
        if flashCount >= maxFlashCount && !perpetualFlash {
          flashingElements := None;
        }
      }
    }

    // --- elements -------------------------------------------------------------

    method SetElementsDisabled(disabled: bool)
      modifies this`elementsDisabled
      ensures GetElementsDisabled() == disabled
    {
      elementsDisabled := !disabled;
    }

    function GetElementsDisabled(): bool
      reads this
    {
      !elementsDisabled
    }

    function IsElementDisabled(element: int): bool
      reads this
    {
      element !in enabledElements
    }

    function IsCategoryDisabled(category: int): bool
      reads this
    {
      category !in enabledCategories
    }

    /** method6403: recompute the union. */
    method UpdateUnion()
      modifies this`field4163
      ensures field4163 == enabledElements + enabledElementIds
    {
      field4163 := {};
      field4163 := field4163 + enabledElements;
      field4163 := field4163 + enabledElementIds;
    }

    method DisableElement(element: int, disabled: bool)
      requires Valid()
      modifies this`enabledElements, this`field4163
      ensures Valid()
      ensures enabledElements == if !disabled then old(enabledElements) + {element} else old(enabledElements) - {element}
      ensures IsElementDisabled(element) == disabled
    {
      if !disabled {
        enabledElements := enabledElements + {element};
      } else {
        enabledElements := enabledElements - {element};
      }
      UpdateUnion();
    }

    method SetCategoryDisabled(category: int, disabled: bool, table: seq<Option<Element>>)
      requires Valid()
      modifies this`enabledCategories, this`enabledElementIds, this`field4163
      ensures Valid()
      ensures enabledCategories == if !disabled then old(enabledCategories) + {category} else old(enabledCategories) - {category}
      ensures IsCategoryDisabled(category) == disabled
      ensures enabledElementIds == if !disabled then old(enabledElementIds) + CategoryIds(table, category)
                                   else old(enabledElementIds) - CategoryIds(table, category)
    {
      if !disabled {
        enabledCategories := enabledCategories + {category};
      } else {
        enabledCategories := enabledCategories - {category};
      }
      var ids := CollectCategory(table, category);
      if !disabled {
        enabledElementIds := enabledElementIds + ids;
      } else {
        enabledElementIds := enabledElementIds - ids;
      }
      UpdateUnion();
    }

    // --- icons ----------------------------------------------------------------

    /**
     * onCycle.  When the cache is loaded: smoothZoom (its result is given as
     * `smoothedZoom`), scrollToTarget, and, when icons are shown, the icon
     * diff against `visible`, the icons the map manager lists for the view.
     */
    method OnCycle(cacheLoaded: bool, mouseX: int, mouseY: int, showIcons: bool, smoothedZoom: real, visible: seq<Icon>)
      returns (ghost left: seq<Icon>)
      modifies this`zoom, this`centerTileX, this`centerTileY, this`worldMapTargetX, this`worldMapTargetY,
        this`field4139, this`field4160, this`field4141, this`field4109, this`events, this`field4156
      ensures !cacheLoaded ==> GetView() == old(GetView()) && events == old(events) && field4156 == old(field4156)
      ensures !cacheLoaded ==>
        zoom == old(zoom) && unchanged(this`field4139, this`field4160, this`field4141, this`field4109)
      ensures cacheLoaded ==> zoom == smoothedZoom && GetView() == ScrollStep(old(GetView()))
      ensures cacheLoaded && old(HasTarget()) ==> field4139 == -1 && field4160 == -1 && field4141 == -1 && field4109 == -1
      ensures cacheLoaded && !old(HasTarget()) ==> unchanged(this`field4139, this`field4160, this`field4141, this`field4109)
      ensures cacheLoaded && showIcons ==> IconDiff(old(events), old(field4156), visible, mouseX, mouseY, events, field4156, left)
      ensures cacheLoaded && !showIcons ==> events == old(events) && field4156 == old(field4156)
    {
      left := [];
      if cacheLoaded {
        zoom := smoothedZoom;
        ghost var shown := field4156;
        ghost var before := events;
        ScrollToTarget();
        assert field4156 == shown && events == before;
        if showIcons {
          ghost var view := GetView();
          ghost var bounds := (field4139, field4160, field4141, field4109);
          left := DiffIcons(mouseX, mouseY, visible);
          assert GetView() == view && (field4139, field4160, field4141, field4109) == bounds;
        }
      }
    }

    /** The icon diff of onCycle. */
    method DiffIcons(mouseX: int, mouseY: int, visible: seq<Icon>) returns (ghost left: seq<Icon>)
      modifies this`events, this`field4156
      ensures IconDiff(old(events), old(field4156), visible, mouseX, mouseY, events, field4156, left)
    {
      var shown: set<Icon> := {};
      var i := 0;
      while i < |visible|
        invariant 0 <= i <= |visible|
        invariant shown == set icon | icon in visible[..i]
        invariant events == old(events) + EnterOrStay(visible[..i], field4156, mouseX, mouseY)
        invariant field4156 == old(field4156)
      {
        var icon := visible[i];
        shown := shown + {icon};
        assert visible[..i + 1][..i] == visible[..i] && visible[..i + 1][i] == icon;
        events := events + [MapEvent(if icon in field4156 then IconStayed else IconEntered, icon, mouseX, mouseY)];
        i := i + 1;
      }
      assert visible[..i] == visible;

      // the previous set is walked in its own (unspecified) order
      var rest := field4156;
      left := [];
      ghost var base := events;
      while rest != {}
        invariant rest <= old(field4156)
        invariant forall icon :: icon in left <==> icon in old(field4156) - rest && icon !in shown
        invariant Distinct(left) && forall icon :: icon in left ==> icon !in rest
        invariant events == base + LeaveEvents(left, mouseX, mouseY)
        decreases |rest|
      {
        var icon :| icon in rest;
        if icon !in shown {
          assert (left + [icon])[..|left|] == left;
          left := left + [icon];
          events := events + [MapEvent(IconLeft, icon, mouseX, mouseY)];
        }
        rest := rest - {icon};
      }
      field4156 := shown;
    }

    /**
     * iconStart: when the cache and the map are loaded, list the icons of all
     * elements (`lists`, in the map's own order) and return the first one
     * iconNext gives.
     */
    method IconStart(cacheLoaded: bool, mapLoaded: bool, lists: seq<seq<Icon>>) returns (r: Option<Icon>)
      requires Valid()
      modifies this`field4146, this`iconIterator
      ensures Valid()
      ensures !(cacheLoaded && mapLoaded) ==> r == None && unchanged(this`field4146, this`iconIterator)
      ensures cacheLoaded && mapLoaded ==>
        var k := NextShown(Flatten(lists), 0);
        && field4146 == Flatten(lists)
        && r == (if k < |field4146| then Some(field4146[k]) else None)
        && iconIterator == Some(if k < |field4146| then k + 1 else k)
    {
      if !cacheLoaded || !mapLoaded {
        return None;
      }
      var all: seq<Icon> := [];
      var i := 0;
      while i < |lists|
        invariant 0 <= i <= |lists|
        invariant all == Flatten(lists[..i])
      {
        assert lists[..i + 1][..i] == lists[..i];
        all := all + lists[i];
        i := i + 1;
      }
      assert lists[..i] == lists;
      field4146 := all;
      iconIterator := Some(0);
      r := IconNext();
    }

    /** iconNext: the next listed icon whose element is not -1. */
    method IconNext() returns (r: Option<Icon>)
      requires Valid()
      modifies this`iconIterator
      ensures Valid()
      ensures old(iconIterator) == None ==> r == None && iconIterator == None
      ensures old(iconIterator).Some? ==>
        var k := NextShown(field4146, old(iconIterator).value);
        && r == (if k < |field4146| then Some(field4146[k]) else None)
        && iconIterator == Some(if k < |field4146| then k + 1 else k)
      ensures r.Some? ==> r.value.element != -1
    {
      if iconIterator == None {
        return None;
      }
      var position := iconIterator.value;
      while true
        invariant iconIterator.value <= position <= |field4146|
        invariant NextShown(field4146, iconIterator.value) == NextShown(field4146, position)
        invariant old(iconIterator) == iconIterator
        decreases |field4146| - position
      {
        if position == |field4146| {
          iconIterator := Some(position);
          return None;
        }
        var icon := field4146[position];
        position := position + 1;
        if icon.element != -1 {
          iconIterator := Some(position);
          return Some(icon);
        }
      }
    }
  }
}
