# Quick selection history, modelled in Dafny

A model of the selection-history command of `agMayaQuickSelect.py`, a small
Maya tool that keeps temporary selection sets. The user captures the current
scene selection under a nickname, reapplies it later with a replace, add or
remove modifier, and discards it when done. Two structures must stay in step:

- the selection dictionary (`mainSelDict`), which maps each nickname to the
  captured element list. The caller creates it once and hands it to every
  window it opens.
- the list widget (`selectHistoryList`), which shows the nicknames in order.

Modules:

- `Outcomes` (`outcomes.dfy`): `Option`, `Result` and the failures the command
  can raise.
- `Formatting` (`formatting.dfy`): the nickname derivation and the
  radio-to-flags mapping. These are pure functions with lemmas.
- `Registry` (`registry.dfy`): list and dictionary as values. It defines the
  agreement invariant `Synced` (same names, each listed once) and states what
  capture and discard do to it.
- `History` (`history.dfy`): the window as a class. Its `items` sequence is
  the list widget, and it shares a `SelectionStore` object (the dictionary).
  The methods `Add`, `Remove` and `Select` are the three branches of
  `selectHistoryCommand`. `ListKeys` is the loop that fills a newly opened
  window.

The host's queries are parameters of the methods: the alias text field, the
flattened scene selection, the highlighted row and the radio choice. Python
exceptions become `Err` results. Indices are 0-based, while Maya's list
widget counts from 1. A scene element is its path name (a string), because
the nickname embeds it as text.

The model follows the code. With an empty alias the nickname is
`"[first : last]"`, and the brackets are kept (line 117). A colliding nickname is modelled as written: the dictionary
entry is overwritten (line 123) and the list gets a second row (line 121).
`CaptureCollisionDuplicates`, `DiscardOfDuplicateDangles` and
`CollidingCaptureScenario` show what follows from that. After the first row
is discarded, the second row names nothing, and selecting it fails with a
missing key.

## Model

| member | source | states |
|---|---|---|
| `Formatting.Nickname` | agMayaQuickSelect.py:116-119 | With an empty alias, the nickname is exactly `"[" + first + " : " + last + "]"`. With an alias, the alias is a prefix, followed by one space and that range tag. The nickname is never empty and always ends in `]`. It is defined only for a non-empty selection. |
| `Formatting.NicknameOnlySeesEnds` | agMayaQuickSelect.py:116-119 | Two selections with the same first and last element get the same nickname. Elements in between never reach it. This is the source of collisions. |
| `Formatting.NicknameDeterminesLabel` | agMayaQuickSelect.py:116-119 | For selections with the same ends, two nicknames are equal exactly when the aliases are equal, in both directions. The alias is kept, never replaced. |
| `Formatting.SelectFlags` | agMayaQuickSelect.py:138-146 | A radio value of 1 or less gives (add=false, deselect=false). 2 gives (true, false). 3 gives (false, true). A value above 3 is an error. The two flags are never both set. |
| `Formatting.SelectFlagsDistinguishButtons` | agMayaQuickSelect.py:138-146 | Two valid radio values give the same flags exactly when they are equal or both at most 1. |
| `Registry.RemoveAt` | agMayaQuickSelect.py:128 | Removing row i keeps the rows before i and shifts the rows after it up by one. The result is one row shorter. |
| `Registry.SyncedSizes` | agMayaQuickSelect.py:83-85 | When list and dictionary agree, they hold equally many names. |
| `Registry.CaptureKeepsNames` | agMayaQuickSelect.py:121-123 | A capture, colliding or not, keeps the list's names and the dictionary's keys equal as sets. |
| `Registry.CaptureKeepsSynced` | agMayaQuickSelect.py:121-123 | A capture under a fresh nickname keeps full agreement, with each name listed once. |
| `Registry.CaptureCollisionDuplicates` | agMayaQuickSelect.py:121-123 | A capture under a stored nickname lists it twice and breaks the no-duplicates half of agreement. The dictionary does not grow. |
| `Registry.DiscardKeepsSynced` | agMayaQuickSelect.py:126-130 | When list and dictionary agree, removing a row and deleting its nickname keeps them in agreement. |
| `Registry.DiscardOfDuplicateDangles` | agMayaQuickSelect.py:126-130 | If a nickname is listed twice, discarding one copy leaves the other row naming a key that is no longer stored. List and dictionary then disagree. |
| `Registry.CaptureThenDiscardRestores` | agMayaQuickSelect.py:121-130 | Capturing under a fresh nickname and then discarding the new last row restores both the list and the dictionary. |
| `Registry.CollidingCaptureThenDiscardLoses` | agMayaQuickSelect.py:123-130 | Doing the same round trip with a colliding nickname leaves the dictionary without the nickname at all, that is, the original dictionary minus that key. The earlier capture is lost. |
| `History.SelectionStore.constructor` | agMayaQuickSelect.py:39 | The caller's dictionary starts empty. |
| `History.ListKeys` | agMayaQuickSelect.py:83-85 | Filling the list from the dictionary's keys lists every stored nickname exactly once, and nothing else. No key order is promised. |
| `History.HistoryWindow.Open` | agMayaQuickSelect.py:83-85 | Opening a window over the shared dictionary leaves the dictionary unchanged and shows a list in agreement with it. This also holds after earlier collisions. |
| `History.HistoryWindow.Add` | agMayaQuickSelect.py:113-123 | An empty selection fails and changes nothing. Otherwise exactly one row, the nickname, is appended and earlier rows stay unchanged. The dictionary maps the nickname to the selection as captured, overwriting any earlier entry. Every other key keeps its value. |
| `History.HistoryWindow.Remove` | agMayaQuickSelect.py:125-130 | With no highlight, it fails and changes nothing. Otherwise exactly the highlighted row is removed. If the nickname is stored, exactly that key is deleted. If not, the call fails with a missing key, the row is already gone and the dictionary is unchanged. |
| `History.HistoryWindow.Select` | agMayaQuickSelect.py:132-150 | With no highlight, it fails. If the highlighted nickname is not stored, it fails with a missing key, whatever the radio value, because the stored selection is looked up before the flags are passed (line 150). With a stored nickname and a radio value above 3, it fails with the unassigned flags. Otherwise it hands the host exactly the stored selection, together with the flags of the radio choice. It changes nothing. |
| `History.CollidingCaptureScenario` | agMayaQuickSelect.py:111-150 | Capturing `[a, b, c]` and then `[a, c]` without an alias, and discarding the first row, leaves one row `"[a : c]"`. Selecting that row fails with a missing key. |

## Left out

- Window construction, layout, colours, sizes and spacing (agMayaQuickSelect.py:58-82, 86-109): these are user-interface plumbing with no logic.
- The Maya queries (`cmds.textField`, `cmds.ls`, `cmds.radioButtonGrp`, `cmds.textScrollList` queries) become method parameters. `cmds.error` and the Python exceptions become `Err` results.
- The scene-selection change done by `cmds.select(..., add=, deselect=)` belongs to Maya. The model states only the elements and flags handed to it, not the resulting union or difference.
- The order of the dictionary's keys when a window is filled is unspecified (Python 2). `ListKeys` promises the same set of names, each listed once, and no particular order.
- Multi-row highlighting: the list widget allows a single highlighted row, so the highlight is one optional index and its name is that row's entry.
- Persistence, undo and concurrency are not part of the tool.
