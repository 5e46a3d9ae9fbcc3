/**
 * The element list of UIBuddy (ElementListPanel): one entry per registered
 * panel, shown through a small pool of recycled cells. Each cell shows the
 * panel's name and a toggle for the panel's visibility; the cell of the
 * selected panel is drawn in yellow.
 *
 * The calls the list makes into the rest of the mod (refreshing the scroll
 * pool, PanelManager.SelectPanel, MainPanel.DeselectCurrentPanel) are recorded
 * in order in `events`.
 */
module ElementList {

  /** A registered panel (IGenericPanel): an identity with a display name and a root-active flag. */
  class Panel {
    const name: string
    var isRootActive: bool

    constructor (name: string, isRootActive: bool)
      ensures this.name == name && this.isRootActive == isRootActive
    {
      this.name := name;
      this.isRootActive := isRootActive;
    }
  }

  /** One entry of the list (ElementPanelData): the panel it stands for. */
  datatype ElementPanelData = ElementPanelData(panel: Panel)

  /** A call from the list into the rest of the mod. */
  datatype Event = Refresh | Select(panel: Panel) | Deselect

  /** The colour of a cell's label: yellow for the selected panel, the theme's default otherwise. */
  datatype TextColor = Yellow | DefaultText

  /**
   * The delegate a cell holds in OnToggleValueChanged: null, or the closure
   * SetCell installs, which captures the entry the cell was bound to.
   */
  datatype ToggleHandler = NoHandler | ForEntry(data: ElementPanelData)

  /** A recycled cell of the scroll pool (CheckButtonCell). */
  class Cell {
    var currentDataIndex: int
    var enabled: bool
    var color: TextColor
    var text: string
    var toggleOn: bool
    var onToggleValueChanged: ToggleHandler

    constructor (currentDataIndex: int, enabled: bool)
      ensures this.currentDataIndex == currentDataIndex && this.enabled == enabled
      ensures color == DefaultText && text == "" && !toggleOn && onToggleValueChanged == NoHandler
    {
      this.currentDataIndex := currentDataIndex;
      this.enabled := enabled;
      color := DefaultText;
      text := "";
      toggleOn := false;
      onToggleValueChanged := NoHandler;
    }
  }

  /** List.FindIndex(d => d.Panel == p): the first position of `p` in the list, or -1. */
  function FindIndex(list: seq<ElementPanelData>, p: Panel): (r: int)
    ensures -1 <= r < |list|
    ensures r == -1 <==> forall j :: 0 <= j < |list| ==> list[j].panel != p
    ensures r != -1 ==> list[r].panel == p && forall j :: 0 <= j < r ==> list[j].panel != p
  {
    if list == [] then -1
    else if list[0].panel == p then 0
    else
      var k := FindIndex(list[1..], p);
      if k == -1 then -1 else k + 1
  }

  /**
   * Find followed by List.Remove: the list without the first entry for `p`, as a
   * recursive reference; its contract ties it to the position FindIndex gives.
   */
  function RemoveFirst(list: seq<ElementPanelData>, p: Panel): (r: seq<ElementPanelData>)
    ensures FindIndex(list, p) == -1 ==> r == list
    ensures FindIndex(list, p) != -1 ==>
      r == list[..FindIndex(list, p)] + list[FindIndex(list, p) + 1..]
  {
    if list == [] then []
    else if list[0].panel == p then list[1..]
    else
      var k := FindIndex(list[1..], p);
      if k == -1 then [list[0]] + RemoveFirst(list[1..], p)
      else
        CutAfterHead(list, k);
        [list[0]] + RemoveFirst(list[1..], p)
  }

  /** Cutting position `k` out of a list's tail and putting the head back cuts position `k + 1`. */
  lemma CutAfterHead<T>(list: seq<T>, k: int)
    requires 0 <= k < |list| - 1
    ensures [list[0]] + (list[1..][..k] + list[1..][k + 1..]) == list[..k + 1] + list[k + 2..]
  {
    assert list[..k + 1] == [list[0]] + list[1..][..k];
    assert list[k + 2..] == list[1..][k + 1..];
  }

  /** No panel is registered twice. */
  predicate DistinctPanels(list: seq<ElementPanelData>)
  {
    forall i, j :: 0 <= i < j < |list| ==> list[i].panel != list[j].panel
  }

  /** ShouldDisplay: the filter callback of the list handler. */
  function ShouldDisplay(data: ElementPanelData, filter: string): (r: bool)
    ensures r
  {
    true
  }

  /** The entries the list handler keeps for a filter: those ShouldDisplay accepts, in order. */
  function Displayed(entries: seq<ElementPanelData>, filter: string): (r: seq<ElementPanelData>)
    ensures |r| <= |entries|
  {
    if entries == [] then []
    else (if ShouldDisplay(entries[0], filter) then [entries[0]] else []) + Displayed(entries[1..], filter)
  }

  /** Whatever the filter, every registered panel is displayed, in list order. */
  lemma {:induction false} DisplayedIsWholeList(entries: seq<ElementPanelData>, filter: string)
    ensures Displayed(entries, filter) == entries
  {
    if entries != [] {
      DisplayedIsWholeList(entries[1..], filter);
      assert entries == [entries[0]] + entries[1..];
    }
  }

  /** Adding a panel makes it findable at the end, unless it was already registered earlier. */
  lemma {:induction false} FindIndexAfterAdd(list: seq<ElementPanelData>, p: Panel, q: Panel)
    ensures FindIndex(list + [ElementPanelData(p)], q)
         == if FindIndex(list, q) != -1 then FindIndex(list, q)
            else if q == p then |list|
            else -1
  {
    if list != [] {
      assert (list + [ElementPanelData(p)])[1..] == list[1..] + [ElementPanelData(p)];
      FindIndexAfterAdd(list[1..], p, q);
    }
  }

  /**
   * Removing a panel right after adding it: when it was absent the list is back
   * to what it was; otherwise its earlier entry goes and the new one stays.
   */
  lemma {:induction false} RemoveAfterAdd(list: seq<ElementPanelData>, p: Panel)
    ensures RemoveFirst(list + [ElementPanelData(p)], p)
         == if FindIndex(list, p) == -1 then list else RemoveFirst(list, p) + [ElementPanelData(p)]
  {
    if list != [] {
      var added := list + [ElementPanelData(p)];
      assert added[0] == list[0] && added[1..] == list[1..] + [ElementPanelData(p)];
      if list[0].panel == p {
        assert RemoveFirst(added, p) == list[1..] + [ElementPanelData(p)];
      } else {
        RemoveAfterAdd(list[1..], p);
        assert RemoveFirst(added, p) == [list[0]] + RemoveFirst(added[1..], p);
      }
    }
  }

  /** Removal takes away exactly one entry, the one for `p`, and keeps every other entry. */
  lemma {:induction false} RemoveFirstMultiset(list: seq<ElementPanelData>, p: Panel)
    requires FindIndex(list, p) != -1
    ensures multiset(RemoveFirst(list, p)) + multiset{ElementPanelData(p)} == multiset(list)
  {
    assert list == [list[0]] + list[1..];
    if list[0].panel == p {
      assert list[0] == ElementPanelData(p);
    } else {
      RemoveFirstMultiset(list[1..], p);
    }
  }

  /** The element list panel: the entries, the scroll pool's cells, and the calls it has made. */
  class ElementListPanel {
    var dataList: seq<ElementPanelData>
    const cellPool: array<Cell>
    var events: seq<Event>

    constructor (pool: array<Cell>)
      ensures dataList == [] && cellPool == pool && events == []
    {
      dataList := [];
      cellPool := pool;
      events := [];
    }

    /** The cells of the scroll pool. */
    ghost function Cells(): set<Cell>
      reads cellPool
    {
      set k | 0 <= k < cellPool.Length :: cellPool[k]
    }

    /** The panels a cell's installed handler can change. */
    ghost function HandlerPanel(cell: Cell): set<Panel>
      reads cell
    {
      match cell.onToggleValueChanged
      case NoHandler => {}
      case ForEntry(data) => {data.panel}
    }

    /** RefreshList: the list handler and the scroll pool reload; recorded, nothing of the list changes. */
    method RefreshList()
      modifies this`events
      ensures events == old(events) + [Refresh]
    {
      events := events + [Refresh];
    }

    /** PanelManager.SelectPanel, recorded. */
    method SelectPanel(panel: Panel)
      modifies this`events
      ensures events == old(events) + [Select(panel)]
    {
      events := events + [Select(panel)];
    }

    /** PanelManager.MainPanel.DeselectCurrentPanel, recorded. */
    method DeselectCurrentPanel()
      modifies this`events
      ensures events == old(events) + [Deselect]
    {
      events := events + [Deselect];
    }

    method AddElement(panel: Panel)
      modifies this`dataList, this`events
      ensures dataList == old(dataList) + [ElementPanelData(panel)]
      ensures events == old(events) + [Refresh]
    {
      var data := ElementPanelData(panel);
      dataList := dataList + [data];
      RefreshList();
    }

    method RemoveElement(panel: Panel)
      modifies this`dataList, this`events
      ensures dataList == RemoveFirst(old(dataList), panel)
      ensures events == if FindIndex(old(dataList), panel) == -1 then old(events) else old(events) + [Refresh]
    {
      var i := FindIndex(dataList, panel);
      if i != -1 {
        dataList := dataList[..i] + dataList[i + 1..];
        RefreshList();
      }
    }

    /**
     * Colours every cell of the pool: yellow exactly for the cells showing the
     * first entry of `panel`, the default colour for all others.
     */
    method UpdateSelectedEntry(panel: Panel?)
      modifies Cells()`color
      ensures panel == null || FindIndex(dataList, panel) == -1 ==>
        forall c :: c in Cells() ==> c.color == DefaultText
      ensures panel != null && FindIndex(dataList, panel) != -1 ==>
        forall c :: c in Cells() ==> (c.color == Yellow <==> c.currentDataIndex == FindIndex(dataList, panel))
    {
      var dataIndex := if panel == null then -1 else FindIndex(dataList, panel);
      for k := 0 to cellPool.Length
        invariant forall j :: 0 <= j < k ==>
          (cellPool[j].color == Yellow <==> cellPool[j].currentDataIndex == dataIndex && dataIndex != -1)
      {
        var cell := cellPool[k];
        if cell.currentDataIndex == dataIndex && dataIndex != -1 {
          cell.color := Yellow;
        } else {
          cell.color := DefaultText;
        }
      }
    }

    method ClearList()
      modifies this`dataList, this`events, Cells()`color
      ensures dataList == []
      ensures events == old(events) + [Deselect, Refresh]
      ensures forall c :: c in Cells() ==> c.color == DefaultText
    {
      UpdateSelectedEntry(null);
      DeselectCurrentPanel();
      dataList := [];
      RefreshList();
    }

    /** The cell handler's click callback: selects the clicked entry's panel and highlights its first entry. */
    method OnCellClicked(dataIndex: int)
      requires 0 <= dataIndex < |dataList|
      modifies this`events, Cells()`color
      ensures events == old(events) + [Select(dataList[dataIndex].panel)]
      ensures forall c :: c in Cells() ==>
        (c.color == Yellow <==> c.currentDataIndex == FindIndex(dataList, dataList[dataIndex].panel))
      ensures FindIndex(dataList, dataList[dataIndex].panel) <= dataIndex
      ensures DistinctPanels(dataList) ==>
        forall c :: c in Cells() ==> (c.color == Yellow <==> c.currentDataIndex == dataIndex)
    {
      var data := dataList[dataIndex];
      SelectPanel(data.panel);
      UpdateSelectedEntry(data.panel);
    }

    /**
     * A cell's toggle reporting a new value (OnToggleValueChanged?.Invoke),
     * running the closure SetCell installed, if any.
     */
    method ToggleValueChanged(cell: Cell, value: bool)
      modifies this`events, Cells()`color, HandlerPanel(cell)`isRootActive
      ensures cell.onToggleValueChanged.NoHandler? || !cell.enabled ==>
        events == old(events) && forall c :: c in Cells() ==> c.color == old(c.color)
      ensures cell.onToggleValueChanged.ForEntry? && !cell.enabled ==>
        cell.onToggleValueChanged.data.panel.isRootActive == old(cell.onToggleValueChanged.data.panel.isRootActive)
      ensures cell.onToggleValueChanged.ForEntry? && cell.enabled ==>
        var panel := cell.onToggleValueChanged.data.panel;
        && panel.isRootActive == value
        && events == old(events) + [if value then Select(panel) else Deselect]
        && (!value || FindIndex(dataList, panel) == -1 ==> forall c :: c in Cells() ==> c.color == DefaultText)
        && (value && FindIndex(dataList, panel) != -1 ==>
              forall c :: c in Cells() ==> (c.color == Yellow <==> c.currentDataIndex == FindIndex(dataList, panel)))
    {
      match cell.onToggleValueChanged
      case NoHandler =>
      case ForEntry(data) =>
        if !cell.enabled {
          return;
        }
        data.panel.isRootActive := value;
        if value {
          SelectPanel(data.panel);
        } else {
          DeselectCurrentPanel();
        }
        UpdateSelectedEntry(if value then data.panel else null);
    }

    /**
     * CheckButtonCell.SetInitialToggleValue: sets the toggle; a change of value
     * is reported to the handler installed at that moment.
     */
    method SetInitialToggleValue(cell: Cell, value: bool)
      modifies cell`toggleOn, this`events, Cells()`color, HandlerPanel(cell)`isRootActive
      ensures cell.toggleOn == value
      ensures old(cell.toggleOn) == value || cell.onToggleValueChanged.NoHandler? ==>
        && events == old(events)
        && (forall c :: c in Cells() ==> c.color == old(c.color))
        && (forall q :: q in HandlerPanel(cell) ==> q.isRootActive == old(q.isRootActive))
    {
      if cell.toggleOn != value {
        cell.toggleOn := value;
        ToggleValueChanged(cell, value);
      }
    }

    /**
     * Binds a recycled cell to the entry at `index`. An index out of range
     * disables the cell. Otherwise the cell shows the panel's name and its
     * root-active flag, and gets a handler for that entry; the old handler is
     * removed first, so setting the toggle cannot run it.
     */
    method SetCell(cell: Cell, index: int)
      modifies cell`enabled, cell`text, cell`toggleOn, cell`onToggleValueChanged
      modifies this`events, Cells()`color
      ensures index < 0 || index >= |dataList| ==>
        && !cell.enabled
        && cell.text == old(cell.text)
        && cell.toggleOn == old(cell.toggleOn)
        && cell.onToggleValueChanged == old(cell.onToggleValueChanged)
      ensures 0 <= index < |dataList| ==>
        && cell.enabled == old(cell.enabled)
        && cell.text == dataList[index].panel.name
        && cell.toggleOn == dataList[index].panel.isRootActive
        && cell.onToggleValueChanged == ForEntry(dataList[index])
      ensures events == old(events)
      ensures forall c :: c in Cells() ==> c.color == old(c.color)
    {
      if index < 0 || index >= |dataList| {
        cell.enabled := false;
        return;
      }
      var data := dataList[index];
      cell.text := data.panel.name;
      cell.onToggleValueChanged := NoHandler;
      SetInitialToggleValue(cell, data.panel.isRootActive);
      cell.onToggleValueChanged := ForEntry(data);
    }
  }
}
