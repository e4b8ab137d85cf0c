/**
 * src/client/UIManager.ts: the timetable (rendered from the academic
 * schedule, with the current class highlighted), the card album and the
 * 20-slot inventory grid of the HTML overlay.
 *
 * The DOM is modelled by the fields of `UIManager`: each element the
 * source looks up by id is an `Option` (`None` when the page lacks it),
 * and a container holds the sequence of children the source appends.
 */
module UiManager {
  import opened Wrappers
  import opened Strings
  import GameConfig
  import ItemRegistry

  // ------------------------------------------------------------- timetable

  /** One `<tr>` of `#schedule-body`: its `data-start`/`data-end` attributes, its three cells and its `active-class`. */
  datatype Row = Row(start: Option<string>, end: Option<string>, time: string, name: string,
                     location: string, active: bool)

  /** `n.toString().padStart(2, '0') + ":00"`. */
  function HourText(n: int): string {
    PadStart(IntToString(n), 2, '0') + ":00"
  }

  /** The row `renderTimetable` builds for one schedule entry. */
  function TimetableRow(slot: GameConfig.Slot): Row {
    Row(Some(NatToString(slot.start)), Some(NatToString(slot.end)), HourText(slot.start),
        slot.name, slot.location, false)
  }

  /** The rows of the schedule, in order. */
  function TimetableRows(schedule: seq<GameConfig.Slot>): (r: seq<Row>)
    ensures |r| == |schedule|
  {
    if |schedule| == 0 then [] else TimetableRows(schedule[..|schedule| - 1]) + [TimetableRow(schedule[|schedule| - 1])]
  }

  /** Row `k` of the timetable is the rendering of schedule entry `k`. */
  lemma {:induction false} TimetableRowsSpec(schedule: seq<GameConfig.Slot>, k: int)
    requires 0 <= k < |schedule|
    ensures TimetableRows(schedule)[k] == TimetableRow(schedule[k])
  {
    if k < |schedule| - 1 {
      TimetableRowsSpec(schedule[..|schedule| - 1], k);
    }
  }

  /** `row.getAttribute(name) || "-1"`: a missing or empty attribute reads as `"-1"`. */
  function AttrOr(a: Option<string>): string {
    if a.None? || a.value == "" then "-1" else a.value
  }

  /** `a < b` on numbers that may be NaN (`None`): any comparison with NaN is false. */
  predicate NumLess(a: Option<int>, b: Option<int>) {
    a.Some? && b.Some? && a.value < b.value
  }

  /** `a >= b` on numbers that may be NaN. */
  predicate NumAtLeast(a: Option<int>, b: Option<int>) {
    a.Some? && b.Some? && a.value >= b.value
  }

  /** The `isActive` test of `updateTimetable` for start and end hours read from a row. */
  predicate IsActive(start: Option<int>, end: Option<int>, hour: int) {
    if NumLess(start, end) then NumAtLeast(Some(hour), start) && NumLess(Some(hour), end)
    else NumAtLeast(Some(hour), start) || NumLess(Some(hour), end)
  }

  /** Whether `row` is highlighted at `hour`, after parsing its attributes. */
  predicate RowActive(row: Row, hour: int) {
    IsActive(ParseInt(AttrOr(row.start)), ParseInt(AttrOr(row.end)), hour)
  }

  /** On well-formed hours the test is the interval `[start, end)`, wrapping past midnight when `end <= start`. */
  lemma ActiveRule(start: int, end: int, hour: int)
    ensures IsActive(Some(start), Some(end), hour) <==>
      if start < end then start <= hour < end else hour >= start || hour < end
  {
  }

  /** Hours of the day an interval `[start, end)` on the 24-hour circle covers; `start == end` is the whole day. */
  function CycleLength(start: int, end: int): (n: int)
    requires 0 <= start < 24 && 0 <= end < 24
    ensures 1 <= n <= 24
    ensures start == end ==> n == 24
  {
    if start < end then end - start else end - start + 24
  }

  /**
   * The test agrees with the clock-face reading: within a day, a row is active
   * exactly when the hour lies fewer than `CycleLength` hours after its start.
   */
  lemma ActiveIsOnCycle(start: int, end: int, hour: int)
    requires 0 <= start < 24 && 0 <= end < 24 && 0 <= hour < 24
    ensures IsActive(Some(start), Some(end), hour) <==> (hour - start) % 24 < CycleLength(start, end)
  {
    if hour >= start {
      assert (hour - start) % 24 == hour - start;
    } else {
      assert (hour - start) % 24 == hour - start + 24;
    }
  }

  /** A rendered row reads back its own slot's hours, so its highlight follows `IsActive` on them. */
  lemma RenderedRowActive(slot: GameConfig.Slot, hour: int)
    ensures RowActive(TimetableRow(slot), hour) == IsActive(Some(slot.start), Some(slot.end), hour)
  {
    ParseIntOfNat(slot.start);
    ParseIntOfNat(slot.end);
  }

  /** The schedule opens with Charms, 08–10, and closes with the Curfew, 22–08. */
  lemma ScheduleEnds(schedule: seq<GameConfig.Slot>)
    requires schedule == GameConfig.AcademicSchedule
    ensures |schedule| == 6
    ensures schedule[0].start == 8 && schedule[0].end == 10 && schedule[0].name == "Charms Class"
    ensures schedule[5].start == 22 && schedule[5].end == 8 && schedule[5].name == "Curfew"
  {
  }

  /** Rendered rows for slots of those hours: Charms is highlighted at 09:00 and not at 23:00, the Curfew at 23:00. */
  lemma ScheduleExamples(charms: GameConfig.Slot, curfew: GameConfig.Slot)
    requires charms.start == 8 && charms.end == 10 && curfew.start == 22 && curfew.end == 8
    ensures RowActive(TimetableRow(charms), 9) && !RowActive(TimetableRow(charms), 23)
    ensures RowActive(TimetableRow(curfew), 23)
  {
    assert RowActive(TimetableRow(charms), 9) by {
      RenderedRowActive(charms, 9);
    }
    assert !RowActive(TimetableRow(charms), 23) by {
      RenderedRowActive(charms, 23);
    }
    assert RowActive(TimetableRow(curfew), 23) by {
      RenderedRowActive(curfew, 23);
    }
  }

  /** The rows after `updateTimetable(hour)`. */
  function Highlighted(rows: seq<Row>, hour: int): (r: seq<Row>)
    ensures |r| == |rows|
  {
    if |rows| == 0 then [] else Highlighted(rows[..|rows| - 1], hour) + [rows[|rows| - 1].(active := RowActive(rows[|rows| - 1], hour))]
  }

  /** Highlighting keeps every row as it was except its `active-class`, which is set iff the row is active. */
  lemma {:induction false} HighlightedSpec(rows: seq<Row>, hour: int, k: int)
    requires 0 <= k < |rows|
    ensures Highlighted(rows, hour)[k] == rows[k].(active := RowActive(rows[k], hour))
  {
    if k < |rows| - 1 {
      HighlightedSpec(rows[..|rows| - 1], hour, k);
    }
  }

  /** Highlighting twice at the same hour is highlighting once. */
  lemma HighlightedIdempotent(rows: seq<Row>, hour: int)
    ensures Highlighted(Highlighted(rows, hour), hour) == Highlighted(rows, hour)
  {
    var once := Highlighted(rows, hour);
    forall k | 0 <= k < |rows| ensures Highlighted(once, hour)[k] == once[k] {
      HighlightedSpec(rows, hour, k);
      HighlightedSpec(once, hour, k);
    }
  }

  /** The `forEach` of `renderTimetable`: one row per schedule entry, appended in order. */
  method RenderRows(schedule: seq<GameConfig.Slot>) returns (rows: seq<Row>)
    ensures rows == TimetableRows(schedule)
  {
    rows := [];
    for k := 0 to |schedule|
      invariant rows == TimetableRows(schedule[..k])
    {
      assert schedule[..k + 1][..k] == schedule[..k];
      rows := rows + [TimetableRow(schedule[k])];
    }
    assert schedule[..|schedule|] == schedule;
  }

  /** The `forEach` of `updateTimetable`: each row loses `active-class`, and regains it iff it is active at `gameHour`. */
  method HighlightRows(rows: seq<Row>, gameHour: int) returns (updated: seq<Row>)
    ensures updated == Highlighted(rows, gameHour)
  {
    updated := [];
    for k := 0 to |rows|
      invariant updated == Highlighted(rows[..k], gameHour)
    {
      assert rows[..k + 1][..k] == rows[..k];
      var row := rows[k].(active := false);
      var start := ParseInt(AttrOr(row.start));
      var end := ParseInt(AttrOr(row.end));
      var isActive := false;
      if NumLess(start, end) {
        isActive := NumAtLeast(Some(gameHour), start) && NumLess(Some(gameHour), end);
      } else {
        isActive := NumAtLeast(Some(gameHour), start) || NumLess(Some(gameHour), end);
      }
      if isActive {
        row := row.(active := true);
      }
      updated := updated + [row];
    }
    assert rows[..|rows|] == rows;
  }

  // ----------------------------------------------------------------- album

  /** One `.card-slot` of the album: owned or locked, its `data-name`, its art id and its frame class. */
  datatype CardSlot = CardSlot(owned: bool, name: string, id: string, frame: string)

  /** `ownedCardIds.includes(parseInt(cardData.ID.split('_')[1]))`; a NaN number is owned by nobody. */
  predicate Owns(owned: seq<int>, card: ItemRegistry.ItemDef) {
    var n := ItemRegistry.CardNumber(card.id);
    n.Some? && n.value in owned
  }

  /** The slot `renderAlbum` makes for one card. */
  function AlbumSlot(owned: seq<int>, card: ItemRegistry.ItemDef): CardSlot {
    var isOwned := Owns(owned, card);
    CardSlot(isOwned, if isOwned then card.name else "???", card.id, "frame-" + Lower(card.rarity))
  }

  /** The album's slots, one per card, in the card list's order. */
  function AlbumSlots(owned: seq<int>, cards: seq<ItemRegistry.ItemDef>): (r: seq<CardSlot>)
    ensures |r| == |cards|
  {
    if |cards| == 0 then [] else AlbumSlots(owned, cards[..|cards| - 1]) + [AlbumSlot(owned, cards[|cards| - 1])]
  }

  /** The loop of `renderAlbum` over the card list. */
  method AlbumGrid(owned: seq<int>, allCards: seq<ItemRegistry.ItemDef>) returns (slots: seq<CardSlot>)
    ensures slots == AlbumSlots(owned, allCards)
  {
    slots := [];
    for k := 0 to |allCards|
      invariant slots == AlbumSlots(owned, allCards[..k])
    {
      assert allCards[..k + 1][..k] == allCards[..k];
      var cardData := allCards[k];
      var numericId := ItemRegistry.CardNumber(cardData.id);
      var isOwned := numericId.Some? && numericId.value in owned;
      var rarityClass := "frame-" + Lower(cardData.rarity);
      slots := slots + [CardSlot(isOwned, if isOwned then cardData.name else "???", cardData.id, rarityClass)];
    }
    assert allCards[..|allCards|] == allCards;
  }

  /** Slot `k` is owned iff its card's number is in the owned list, and a locked slot is named `???`. */
  lemma {:induction false} AlbumSlotsSpec(owned: seq<int>, cards: seq<ItemRegistry.ItemDef>, k: int)
    requires 0 <= k < |cards|
    ensures AlbumSlots(owned, cards)[k].owned <==>
      ItemRegistry.CardNumber(cards[k].id).Some? && ItemRegistry.CardNumber(cards[k].id).value in owned
    ensures AlbumSlots(owned, cards)[k].name == if AlbumSlots(owned, cards)[k].owned then cards[k].name else "???"
    ensures AlbumSlots(owned, cards)[k].id == cards[k].id
  {
    if k < |cards| - 1 {
      AlbumSlotsSpec(owned, cards[..|cards| - 1], k);
    }
  }

  /** With cards numbered 1, 2, 3, … in album order, slot `k` is owned iff `k + 1` is in the list. */
  lemma AlbumByNumber(owned: seq<int>, cards: seq<ItemRegistry.ItemDef>, k: int)
    requires forall j :: 0 <= j < |cards| ==> ItemRegistry.CardNumber(cards[j].id) == Some(j + 1)
    requires 0 <= k < |cards|
    ensures AlbumSlots(owned, cards)[k].owned <==> k + 1 in owned
  {
    AlbumSlotsSpec(owned, cards, k);
  }

  /** `${ownedCardIds.length}/${allCards.length}`. */
  function CounterText(owned: seq<int>, cards: seq<ItemRegistry.ItemDef>): string {
    NatToString(|owned|) + "/" + NatToString(|cards|)
  }

  /** The counter starts with the owned count and ends with the card count, split at the only `/`. */
  lemma CounterSpec(owned: seq<int>, cards: seq<ItemRegistry.ItemDef>)
    ensures Split(CounterText(owned, cards), '/') == [NatToString(|owned|), NatToString(|cards|)]
    ensures ParseInt(NatToString(|owned|)) == Some(|owned|) && ParseInt(NatToString(|cards|)) == Some(|cards|)
  {
    var a, b := NatToString(|owned|), NatToString(|cards|);
    assert '/' !in a by {
      forall k | 0 <= k < |a| ensures a[k] != '/' { }
    }
    assert '/' !in b by {
      forall k | 0 <= k < |b| ensures b[k] != '/' { }
    }
    assert CounterText(owned, cards) == a + ['/'] + b;
    SplitFirst(a, '/', b);
    SplitNone(b, '/');
    ParseIntOfNat(|owned|);
    ParseIntOfNat(|cards|);
  }

  // ------------------------------------------------------------- inventory

  /** `CAPACITY`: the number of inventory slots shown. */
  const Capacity: nat := 20

  /** An entry of the player's `inventory`. */
  datatype InventoryItem = InventoryItem(itemId: string, qty: int)

  /** One `.inv-slot`: empty, or filled with the item's rarity, colour, quantity badge and id. */
  datatype InvSlot = EmptySlot | Filled(rarity: string, color: string, badge: Option<int>, itemId: string)

  /** The placeholder colour for an item type. */
  function TypeColor(itemType: string): string {
    if itemType == "Potion" then "#f55" else if itemType == "Card" then "#fa0" else "#aaa"
  }

  /** The slot for position `i` of the grid. */
  function InventorySlot(inventory: seq<InventoryItem>, registry: map<string, ItemRegistry.ItemDef>, i: nat): InvSlot {
    if i < |inventory| && inventory[i].itemId in registry then
      var def := registry[inventory[i].itemId];
      Filled(Lower(def.rarity), TypeColor(def.itemType),
             if inventory[i].qty > 1 then Some(inventory[i].qty) else None, inventory[i].itemId)
    else EmptySlot
  }

  /** The first `n` slots of the grid. */
  function InventorySlots(inventory: seq<InventoryItem>, registry: map<string, ItemRegistry.ItemDef>, n: nat): (r: seq<InvSlot>)
    ensures |r| == n
  {
    if n == 0 then [] else InventorySlots(inventory, registry, n - 1) + [InventorySlot(inventory, registry, n - 1)]
  }

  /**
   * The grid has exactly `Capacity` slots; slot `i` is filled iff `i` is a
   * position of the inventory holding a known item, and then with that
   * item, its rarity in lower case, and a badge exactly when `qty > 1`.
   */
  lemma {:induction false} InventorySlotsSpec(inventory: seq<InventoryItem>, registry: map<string, ItemRegistry.ItemDef>, n: nat, i: int)
    requires 0 <= i < n
    ensures var s := InventorySlots(inventory, registry, n)[i];
      && (s.Filled? <==> i < |inventory| && inventory[i].itemId in registry)
      && (s.Filled? ==> s.itemId == inventory[i].itemId && s.rarity == Lower(registry[s.itemId].rarity))
      && (s.Filled? ==> (s.badge.Some? <==> inventory[i].qty > 1))
      && (s.Filled? && s.badge.Some? ==> s.badge.value == inventory[i].qty)
  {
    if i < n - 1 {
      InventorySlotsSpec(inventory, registry, n - 1, i);
    }
  }

  /** Items past the first `n` never show in the first `n` slots: the grid ignores entries beyond `Capacity`. */
  lemma {:induction false} InventoryPrefix(inventory: seq<InventoryItem>, registry: map<string, ItemRegistry.ItemDef>, n: nat)
    requires n <= |inventory|
    ensures InventorySlots(inventory, registry, n) == InventorySlots(inventory[..n], registry, n)
    decreases n
  {
    if n > 0 {
      InventoryPrefix(inventory, registry, n - 1);
      InventoryPrefix(inventory[..n], registry, n - 1);
      assert inventory[..n][..n - 1] == inventory[..n - 1];
    }
  }

  /** The overlay's DOM, as far as the timetable, the album and the inventory use it. */
  class UIManager {
    /** `#timetable-modal`: `Some(hidden)`, or `None` when absent. */
    var timetableModal: Option<bool>
    /** `#clock-display`'s text. */
    var clockDisplay: Option<string>
    /** `#schedule-body`'s rows. */
    var scheduleBody: Option<seq<Row>>
    /** `#album-grid`'s slots. */
    var albumGrid: Option<seq<CardSlot>>
    /** `#collection-count`'s text. */
    var collectionCount: Option<string>
    /** `#inventory-grid`'s slots. */
    var inventoryGrid: Option<seq<InvSlot>>

    constructor(timetableModal: Option<bool>, clockDisplay: Option<string>, scheduleBody: Option<seq<Row>>,
                albumGrid: Option<seq<CardSlot>>, collectionCount: Option<string>, inventoryGrid: Option<seq<InvSlot>>)
      ensures this.timetableModal == timetableModal && this.clockDisplay == clockDisplay
      ensures this.scheduleBody == scheduleBody && this.albumGrid == albumGrid
      ensures this.collectionCount == collectionCount && this.inventoryGrid == inventoryGrid
    {
      this.timetableModal := timetableModal;
      this.clockDisplay := clockDisplay;
      this.scheduleBody := scheduleBody;
      this.albumGrid := albumGrid;
      this.collectionCount := collectionCount;
      this.inventoryGrid := inventoryGrid;
    }

    /**
     * `renderTimetable`: one row per entry of `schedule` (the configured
     * `ACADEMIC_SCHEDULE`), replacing the body's rows; nothing without a body.
     */
    method RenderTimetable(schedule: seq<GameConfig.Slot>)
      modifies this
      ensures scheduleBody == if old(scheduleBody).None? then None else Some(TimetableRows(schedule))
      ensures timetableModal == old(timetableModal) && clockDisplay == old(clockDisplay)
      ensures albumGrid == old(albumGrid) && collectionCount == old(collectionCount) && inventoryGrid == old(inventoryGrid)
    {
      if scheduleBody.None? {
        return;
      }
      var rows := RenderRows(schedule);
      scheduleBody := Some(rows);
    }

    /**
     * `updateTimetable(gameHour)`: with the modal absent or hidden nothing
     * changes; otherwise the clock shows the hour and every row is
     * highlighted iff it is active at that hour.
     */
    method UpdateTimetable(gameHour: int)
      modifies this
      ensures old(timetableModal).None? || old(timetableModal).value ==>
        clockDisplay == old(clockDisplay) && scheduleBody == old(scheduleBody)
      ensures old(timetableModal).Some? && !old(timetableModal).value ==>
        && clockDisplay == (if old(clockDisplay).None? then None else Some(HourText(gameHour)))
        && scheduleBody == (if old(scheduleBody).None? then None else Some(Highlighted(old(scheduleBody).value, gameHour)))
      ensures timetableModal == old(timetableModal)
      ensures albumGrid == old(albumGrid) && collectionCount == old(collectionCount) && inventoryGrid == old(inventoryGrid)
    {
      if timetableModal.None? || timetableModal.value {
        return;
      }
      ShowHour(gameHour);
      if scheduleBody.None? {
        return;
      }
      var updated := HighlightRows(scheduleBody.value, gameHour);
      scheduleBody := Some(updated);
    }

    /** The clock part of `updateTimetable`: a present clock shows the hour. */
    method ShowHour(gameHour: int)
      modifies this
      ensures clockDisplay == (if old(clockDisplay).None? then None else Some(HourText(gameHour)))
      ensures timetableModal == old(timetableModal) && scheduleBody == old(scheduleBody)
      ensures albumGrid == old(albumGrid) && collectionCount == old(collectionCount) && inventoryGrid == old(inventoryGrid)
    {
      if clockDisplay.Some? {
        clockDisplay := Some(HourText(gameHour));
      }
    }

    /**
     * `renderAlbum(ownedCardIds)`: without a grid nothing changes; otherwise
     * the grid holds one slot per card of the registry's card list and the
     * counter, when present, reads owned/total.
     */
    method RenderAlbum(owned: seq<int>, registryValues: seq<ItemRegistry.ItemDef>)
      modifies this
      ensures old(albumGrid).None? ==> albumGrid == None && collectionCount == old(collectionCount)
      ensures old(albumGrid).Some? ==>
        && albumGrid == Some(AlbumSlots(owned, ItemRegistry.GetAllCards(registryValues)))
        && collectionCount == (if old(collectionCount).None? then None
                               else Some(CounterText(owned, ItemRegistry.GetAllCards(registryValues))))
      ensures timetableModal == old(timetableModal) && clockDisplay == old(clockDisplay)
      ensures scheduleBody == old(scheduleBody) && inventoryGrid == old(inventoryGrid)
    {
      if albumGrid.None? {
        return;
      }
      var allCards := ItemRegistry.GetAllCards(registryValues);
      var slots := AlbumGrid(owned, allCards);
      albumGrid := Some(slots);
      if collectionCount.Some? {
        collectionCount := Some(NatToString(|owned|) + "/" + NatToString(|allCards|));
      }
    }

    /**
     * `renderInventory()`: without a grid nothing changes; the grid is
     * cleared, and, when there is a local player (`inventory` is `Some`),
     * refilled with `Capacity` slots.
     */
    method RenderInventory(inventory: Option<seq<InventoryItem>>, registry: map<string, ItemRegistry.ItemDef>)
      modifies this
      ensures old(inventoryGrid).None? ==> inventoryGrid == None
      ensures old(inventoryGrid).Some? && inventory.None? ==> inventoryGrid == Some([])
      ensures old(inventoryGrid).Some? && inventory.Some? ==>
        inventoryGrid == Some(InventorySlots(inventory.value, registry, Capacity))
      ensures timetableModal == old(timetableModal) && clockDisplay == old(clockDisplay) && scheduleBody == old(scheduleBody)
      ensures albumGrid == old(albumGrid) && collectionCount == old(collectionCount)
    {
      if inventoryGrid.None? {
        return;
      }
      inventoryGrid := Some([]);
      if inventory.None? {
        return;
      }
      var items := inventory.value;
      var slots: seq<InvSlot> := [];
      for i := 0 to Capacity
        invariant slots == InventorySlots(items, registry, i)
      {
        var slot := EmptySlot;
        if i < |items| {
          var item := items[i];
          if item.itemId in registry {
            var itemDef := registry[item.itemId];
            var color := if itemDef.itemType == "Potion" then "#f55" else (if itemDef.itemType == "Card" then "#fa0" else "#aaa");
            slot := Filled(Lower(itemDef.rarity), color, if item.qty > 1 then Some(item.qty) else None, item.itemId);
          }
        }
        slots := slots + [slot];
      }
      inventoryGrid := Some(slots);
    }
  }
}
