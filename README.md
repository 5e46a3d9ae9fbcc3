# UIBuddy: the element list and the localization overrides

UIBuddy is a V Rising mod that adds configurable overlay panels to the game's
UI. This project models the two parts of it whose behaviour stands apart from
the game and from Unity, and proves properties of them in Dafny.

- **The element list** (`ElementListPanel`, module `ElementList` in
  `element_list.dfy`). The panel keeps one entry per registered UI panel in a
  list that `AddElement`, `RemoveElement` and `ClearList` change in place. A
  small pool of recycled cells shows the entries. `SetCell` binds one cell to
  one list index: it shows the panel's name and a toggle for the panel's
  visibility, and it installs the toggle's handler. `UpdateSelectedEntry`
  colours the cells so that a cell is yellow exactly when its data index is
  the first position of the selected panel in the list; all other cells,
  including those of a later duplicate entry, get the default colour.
  The model is a class with a `seq` field for the list, an `array` of `Cell`
  objects for the pool, and a `seq` of recorded calls (`Refresh`, `Select`,
  `Deselect`) for what the list asks of the scroll pool and of `PanelManager`.
  Panels are objects compared by identity, with a `name` and an
  `isRootActive` flag. The closure that `SetCell` installs is a
  `ToggleHandler` value naming the captured entry. `ToggleValueChanged` runs
  that closure when the cell's toggle reports a value.
- **The localization overrides** (`LocalizationPatch`, module `Localization`
  in `localization.dfy`). Three Harmony prefixes come before the game's
  `Localization.Get` (by asset guid, by localization key) and
  `Localization.HasKey`. The mod's override table is a pair of finite maps.
  Each prefix is a function that returns the pair (does the original run?, the
  `__result` it leaves). The `Patched…` functions give what the game's
  callers see, combining a prefix with the original method by Harmony's rule
  (`Invoke`).

Behaviour worth knowing that the proofs make explicit:

- `UpdateSelectedEntry` highlights the cell bound to the FIRST entry of the
  panel. If one panel were registered twice, clicking its second entry would
  highlight the first entry's cell. With distinct panels, the clicked cell is
  the one highlighted (`OnCellClicked`).
- `RemoveElement` of a panel that is not in the list changes nothing and makes
  no refresh call.
- The `HasKey` prefix can only turn the game's answer into `true`. A guid that
  `Get` overrides is always one that `HasKey` reports as present.

## Model

| member | source | states |
|---|---|---|
| `ElementList.FindIndex` | UIBuddy/UI/Panel/ElementListPanel.cs:183 | the result is -1 exactly when no entry holds the panel; otherwise it is a position holding the panel with no earlier such position |
| `ElementList.RemoveFirst` | UIBuddy/UI/Panel/ElementListPanel.cs:135-138 | removing a panel's entry gives the list unchanged when the panel is absent, and otherwise the list with only the entry at the panel's first position cut out, all other entries in order |
| `ElementList.RemoveFirstMultiset` | UIBuddy/UI/Panel/ElementListPanel.cs:135-138 | when the panel is present, removal takes away exactly one entry for that panel and keeps every other entry |
| `ElementList.RemoveAfterAdd` | UIBuddy/UI/Panel/ElementListPanel.cs:126-141 | removing a panel right after adding it restores the list when the panel was absent; otherwise the earlier entry goes and the new last one stays |
| `ElementList.FindIndexAfterAdd` | UIBuddy/UI/Panel/ElementListPanel.cs:126-131 | after adding a panel, a panel already present keeps its first position, the added panel is found at the end if it was absent, and every other panel stays absent |
| `ElementList.ShouldDisplay` | UIBuddy/UI/Panel/ElementListPanel.cs:150 | every entry is accepted, whatever the filter |
| `ElementList.DisplayedIsWholeList` | UIBuddy/UI/Panel/ElementListPanel.cs:150-151 | whatever the filter, the entries kept by ShouldDisplay are the whole list, in order |
| `ElementList.ElementListPanel.RefreshList` | UIBuddy/UI/Panel/ElementListPanel.cs:192-196 | a refresh is recorded and nothing of the list changes |
| `ElementList.ElementListPanel.AddElement` | UIBuddy/UI/Panel/ElementListPanel.cs:126-131 | exactly one entry for the panel is appended at the end, all earlier entries unchanged and in order, then one refresh |
| `ElementList.ElementListPanel.RemoveElement` | UIBuddy/UI/Panel/ElementListPanel.cs:133-141 | the list becomes the list with the panel's first entry removal applied; with the panel present there is one refresh, with it absent the list and the calls made are unchanged |
| `ElementList.ElementListPanel.UpdateSelectedEntry` | UIBuddy/UI/Panel/ElementListPanel.cs:181-190 | for a null or unlisted panel every cell gets the default colour; otherwise a cell is yellow exactly when its data index is the panel's first position; only colours change |
| `ElementList.ElementListPanel.ClearList` | UIBuddy/UI/Panel/ElementListPanel.cs:198-204 | the list is empty, no cell is highlighted, and a deselect then a refresh are recorded |
| `ElementList.ElementListPanel.OnCellClicked` | UIBuddy/UI/Panel/ElementListPanel.cs:143-148 | the clicked entry's panel is selected and the cells of its first entry, at or before the clicked index, are the yellow ones; with distinct panels that is the clicked index |
| `ElementList.ElementListPanel.ToggleValueChanged` | UIBuddy/UI/Panel/ElementListPanel.cs:165-178 | with no handler or a disabled cell nothing changes; otherwise the panel's root-active flag becomes the value, the panel is selected on true and deselected on false, and its first entry is highlighted only on true |
| `ElementList.ElementListPanel.SetInitialToggleValue` | UIBuddy/UI/Panel/ElementListPanel.cs:163-164 | the toggle takes the value; when the value does not change or no handler is installed, no call is made and no colour or panel flag changes |
| `ElementList.ElementListPanel.SetCell` | UIBuddy/UI/Panel/ElementListPanel.cs:153-179 | an index out of range only disables the cell; an index in range shows the entry's name and root-active flag and installs the handler for that entry; in both cases no call is made and no colour or panel changes, so the stale handler never acts |
| `Localization.GetByGuid` | UIBuddy/Patches/Localization_Hook.cs:13-22 | for an overridden guid the original is skipped and the result is the table's text; otherwise the original runs and the result is left as it was |
| `Localization.GetByKey` | UIBuddy/Patches/Localization_Hook.cs:26-35 | the same two rules, keyed by localization key |
| `Localization.HasKey` | UIBuddy/Patches/Localization_Hook.cs:39-48 | the original is skipped exactly for an overridden guid; the result becomes true for it and is never turned to false |
| `Localization.PatchedGetByGuidIsOverlay` | UIBuddy/Patches/Localization_Hook.cs:13-22 | the patched lookup by guid is the game's lookup overlaid by the override table |
| `Localization.PatchedGetByKeyIsOverlay` | UIBuddy/Patches/Localization_Hook.cs:26-35 | the patched lookup by key is the game's lookup overlaid by the override table |
| `Localization.PatchedHasKeyFromDefault` | UIBuddy/Patches/Localization_Hook.cs:39-48 | called from the default `__result` (false), the patched presence test is true exactly for overridden guids and for guids the game itself knows |
| `Localization.PatchedHasKeyIsUnion` | UIBuddy/Patches/Localization_Hook.cs:39-48 | the patched presence test is true exactly for overridden guids and for guids the game itself knows |
| `Localization.GetAndHasKeyAgree` | UIBuddy/Patches/Localization_Hook.cs:13-47 | `Get` by guid overrides exactly the guids `HasKey` overrides, and an overridden text always comes with a present key |

## Left out

- UI construction in `ElementListPanel.ConstructUI`, `CreateTitleBar` and `LateSetupCoroutine`: sizes, colours, fonts, layout and the coroutine are Unity visual setup.
- UIBuddy/UI/Panel/ElementPanel.cs: anchors, scale through reflection, coroutines and `GameObject` activation are Unity glue.
- UIBuddy/UI/ScrollView/AutoSliderScrollbar.cs: floating-point handle sizing inside Unity's scrollbar.
- UIBuddy/Plugin.cs: the BepInEx lifecycle, Harmony patching and type registration.
- UIBuddy/UI/ScrollView/ObjectPool/IPooledObject.cs and UIBuddy/UI/ScrollView/ICellPoolDataSource.cs: interfaces with no behaviour; they only shape `Cell`.
- `ScrollPool`, `ButtonListHandler`, `CheckButtonCell`, `PanelManager`, `GenericPanelBase` and `LocalizationManager` are not part of this model. Their calls are abstracted as follows.
- `RefreshList`: a recorded event. The scroll pool's re-binding of cells that it triggers is not modelled, and neither is the scroll pool setting `CurrentDataIndex`.
- `PanelManager.SelectPanel` and `DeselectCurrentPanel`: recorded events. The main panel's own selection state is not modelled.
- `SetRootActive` is modelled as writing the panel's `isRootActive` flag; `Disable` as clearing the cell's `enabled` flag.
- `SetInitialToggleValue`: the contract states only that the toggle takes the value and the quiet case, where the value does not change or no handler is installed; the case where an installed handler is notified has no postcondition. Notifying the handler on a change follows the way Unity's toggle reports value changes. That is the case that `SetCell` rules out by clearing the handler first.
- `Displayed`: the way the list handler applies `ShouldDisplay` (keep the accepted entries, in order) is assumed, because the handler's code is not part of this model.
- `Invoke`: Harmony's rule for a prefix (the original runs and its value is returned when the prefix returns true; otherwise the prefix's `__result` is returned) is assumed, because Harmony's code is not part of this model.
- `AddElement`, `RemoveElement`: panels are assumed non-null. The source's `IGenericPanel` could be null, and `Find(d => d.Panel == null)` would then match a null entry added earlier; no caller in the model passes null.
- `OnCellClicked`: an index out of range throws in the source; the model requires the index to be in range, which the list handler guarantees by calling it only for a bound cell.
- `LocalizationManager`: the lookups by guid and by key are two independent finite maps, because the manager's code is not shown. The game's own `Localization.Get` and `HasKey` are function parameters. The incoming `__result` is a parameter too, standing for the default value Harmony starts from: null for the two `Get` prefixes, false for `HasKey` (`PatchedHasKeyFromDefault` states that case).
- Logging and exception handling belong to the host and are not modelled.
