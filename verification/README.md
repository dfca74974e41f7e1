# Settings ownership, item descriptors, default menu and panel header

This project is a Dafny model of small cores taken from two GNOME Shell
extensions. It proves properties about each.

- **Astra Monitor settings facade** (`config.js`). `Config` wraps a
  settings store. It keeps two process-wide tables:
  - the bind-map, from an owner to a record mapping widget properties to settings keys;
  - the connect-map, from an owner to its ordered list of `{id, signal}` subscriptions.

  The model is the class `Settings.Config`. Its fields are:
  - the optional store handle;
  - both tables;
  - a log of every call made into the store.

  Each operation is a method:
  - `set` and the getters;
  - `get_json`;
  - `bind`, `unbind`, `connect`, `disconnect` and `disconnectAll`;
  - `clear` and `clearAll`.

  Each method's postcondition gives the new tables and the calls appended
  to the log. For `clearAll`, which clears owners in an unspecified order,
  it returns that order as a ghost value: every owner recorded beforehand
  occurs in it once, and the log gains exactly the `clear` calls of those
  owners in that order. Hence each recorded binding is unbound exactly once
  and each recorded subscription disconnected exactly once. The per-owner record lives in
  module `Bindings` and the per-owner subscription list in module
  `Connections`.
- **`disconnect` as written.** It walks an owner's list with `for…of` and
  splices each selected entry out of that same list. The iterator does not
  step back, so the entry that slides into the freed slot is never examined.
  - `Connections.SpliceWalk` is that loop.
  - `Connections.SpliceSweep` is the recursive specification it is proved against.
  - `Connections.RemoveEvery`, specified by `Retain`/`Released`, is the
    removal of every selected entry that was evidently intended.

  The two are proved equal exactly when no two selected entries are adjacent.
- **Astra Monitor panel header** (`header.js`). `PanelHeader.Header` is a
  class with these fields:
  - the height cache;
  - the style of its inner box;
  - the child-management calls its box and its own container receive.

  `setStyle` is proved against the pure step `SetStyleStep`, which has
  lemmas for idempotence, caching and the override rule. The constructor
  subscribes to the height-override setting and `destroy` clears the owner.
  `HeaderLifecycle` proves that building and destroying a header releases
  exactly the subscription it made.
- **Fly-Pie item types.**
  - The D-Bus Signal action (`DBusSignal`) normalises its stored data, either
    a legacy bare string or the record `{id}`, into one id. It does this the
    same way in `createItem` and in the menu editor.
  - The Custom Menu type (`CustomMenu`) creates empty menus.
  - Shared item shapes are in `Items`.
- **Fly-Pie default menu** (`DefaultMenu`). The stored-menu tree literal,
  JavaScript's `splice(start, 0, item)` as a sequence insertion, and the
  finished menu built by `Get`, with its order and shape proved.

JavaScript values are `Js.Value`. An exception is `Err`/`Fail` of a
`Wrappers.Result`/`Wrappers.Outcome`.

## Model

| member | source | states |
|---|---|---|
| Settings.SetterFor | monitor@astraext.github.io/src/config.js:25-36 | `json` and `string` use the string setter, and every type not listed falls through to the raw value setter (both directions) |
| Settings.StoredForm | monitor@astraext.github.io/src/config.js:33-34 | `json` stores the serialised text; every other type stores the value unchanged |
| Settings.JsonRoundTrip | monitor@astraext.github.io/src/config.js:33-34 | a value stored as `json` reads back as itself through `get_json` whenever the parser inverts the serialiser on it |
| Settings.ReadJsonIsParseOrNull | monitor@astraext.github.io/src/config.js:56-63 | `get_json` yields either `null` or the parse of the stored text: a null, non-text or unparsable value gives `null` instead of an exception |
| Settings.Config.constructor | monitor@astraext.github.io/src/config.js:138-139 | both tables start empty, with no store attached and no calls made |
| Settings.Config.Attach | monitor@astraext.github.io/src/config.js:23-24 | the settings handle whose presence every operation but `unbind` tests is attached; it stands for the extension assigning `Config.settings` |
| Settings.Config.Detach | monitor@astraext.github.io/src/config.js:23-24 | the settings handle is gone, so every operation but `unbind` throws; it stands for the extension clearing `Config.settings` |
| Settings.Config.Set | monitor@astraext.github.io/src/config.js:22-37 | throws and changes nothing without a store or for a key outside the store's schema; otherwise stores the stored form under the key and logs one call to the chosen setter; the tables are untouched |
| Settings.Config.Get | monitor@astraext.github.io/src/config.js:38-52 | the getters throw without a store and otherwise return the store's value for the key; a key outside the schema is an error; the one method also stands for `get_int` and `get_double` at config.js lines 65-74, which have the same guard and lookup |
| Settings.Config.GetJson | monitor@astraext.github.io/src/config.js:53-64 | throws exactly when there is no store; otherwise returns the parsed value, or `null` when the value is missing, not text or does not parse |
| Settings.Config.Bind | monitor@astraext.github.io/src/config.js:75-82 | throws and changes nothing without a store or for a key outside the store's schema, since `Gio.Settings.bind` throws before the record is touched; otherwise logs the bind call and sets the owner's property to the key, creating the owner's record if needed and keeping its other properties, other owners and the connect-map |
| Settings.Config.Unbind | monitor@astraext.github.io/src/config.js:83-87 | never throws, always logs the unbind; deletes only that property and keeps the owner in the table even when its record empties; a missing owner is left as it is |
| Settings.Config.Connect | monitor@astraext.github.io/src/config.js:88-96 | throws and changes nothing without a store; otherwise returns the store-issued id and appends exactly one `{id, signal}` to the end of the owner's list, creating the list if needed |
| Settings.Config.Disconnect | monitor@astraext.github.io/src/config.js:97-111 | throws without a store and changes nothing for an owner without a list; otherwise the owner's list becomes what the splice walk keeps, and one disconnect is logged per entry it removes, in order |
| Settings.Config.DisconnectEvery | monitor@astraext.github.io/src/config.js:97-111 | the corrected `disconnect`: every selected entry is disconnected once and removed, and every other entry stays, in order |
| Settings.Config.DisconnectAll | monitor@astraext.github.io/src/config.js:112-114 | as written, `disconnectAll` removes and disconnects the entries at even positions and leaves those at odd positions in the list |
| Settings.Config.Clear | monitor@astraext.github.io/src/config.js:115-130 | throws and changes nothing without a store; otherwise the owner is gone from both tables, nothing else changes, and the log gains one unbind per recorded property followed by one disconnect per recorded subscription |
| Settings.Config.UnbindOwner | monitor@astraext.github.io/src/config.js:118-123 | the loop over the owner's record logs one unbind per property, in order, and then drops the owner from the bind-map |
| Settings.Config.DisconnectOwner | monitor@astraext.github.io/src/config.js:124-129 | the loop over the owner's list logs one disconnect per subscription, in order, and then drops the owner from the connect-map |
| Settings.Config.ClearAll | monitor@astraext.github.io/src/config.js:131-136 | with a store, both tables end empty and the log gains exactly `ReleaseAll(order, …)`: the `clear` calls of every owner recorded beforehand, each owner once, in the returned order; so each recorded property is unbound exactly once, no other property is unbound, and `disconnect(id)` is called once per recorded subscription carrying `id`; every call it logs releases a binding or subscription recorded beforehand, and earlier log entries are kept; without a store it throws only when there is something to clear, and changes nothing |
| Settings.ClearAllInvariantStep | monitor@astraext.github.io/src/config.js:131-136 | one `clear` inside `clearAll` keeps the loop invariant: the log is the earlier log plus the releases of the owners cleared so far, listed once each in clearing order |
| Settings.ClearAllLogStep | monitor@astraext.github.io/src/config.js:131-136 | the owner a `clear` inside `clearAll` releases is released as the original tables record it, and is appended to the order of cleared owners |
| Settings.ClearedOrderStep | monitor@astraext.github.io/src/config.js:131-136 | clearing an owner still in the tables appends it to the order without repeating any owner, and the order remains exactly the cleared owners |
| Settings.NotYetGone | monitor@astraext.github.io/src/config.js:131-136 | an owner still in one table has not been cleared, so it is still in every table it was originally recorded in |
| Settings.ClearAllDone | monitor@astraext.github.io/src/config.js:131-136 | when both tables are empty, the order lists every originally recorded owner once, the log is the earlier log plus their releases, and each recorded property is unbound exactly once |
| Settings.ClearAllCounts | monitor@astraext.github.io/src/config.js:131-136 | releasing each recorded owner once unbinds each recorded property exactly once and nothing else, and calls `disconnect(id)` once per recorded subscription carrying `id` |
| Settings.ReleaseAllUnbindsOnce | monitor@astraext.github.io/src/config.js:118-123 | releasing distinct owners in turn unbinds each of their recorded properties exactly once and no other property |
| Settings.ReleaseAllDisconnects | monitor@astraext.github.io/src/config.js:124-129 | releasing owners in turn calls `disconnect(id)` once per subscription of theirs carrying `id` |
| Settings.ReleaseCallsOtherOwner | monitor@astraext.github.io/src/config.js:118-123 | `clear` of one owner never unbinds a property of another |
| Settings.ReleaseCallsUnchanged | monitor@astraext.github.io/src/config.js:115-130 | an owner not yet cleared is released exactly as the original tables record it |
| Settings.ReleaseAllLast | monitor@astraext.github.io/src/config.js:131-136 | clearing one more owner appends exactly that owner's release calls |
| Settings.ClearAllStep | monitor@astraext.github.io/src/config.js:131-136 | one `clear` inside `clearAll` keeps the earlier log, keeps every new call a release of the original tables, and leaves the cleared owner fully released |
| Settings.ClearKeepsReleasedOwners | monitor@astraext.github.io/src/config.js:131-136 | each `clear` inside `clearAll` removes an owner from both tables together and logs the release of everything originally recorded for it |
| Settings.ReleaseCallsLogged | monitor@astraext.github.io/src/config.js:115-130 | a `clear` of an owner still in the tables logs an unbind for each recorded property and a disconnect for each recorded subscription |
| Settings.ReleaseCalls | monitor@astraext.github.io/src/config.js:118-129 | the number of calls `clear` makes is the owner's number of properties plus its number of subscriptions |
| Settings.ReleaseCallsExactlyOnce | monitor@astraext.github.io/src/config.js:118-129 | `clear` unbinds each recorded property exactly once and nothing else of the owner, and calls `disconnect(id)` exactly as many times as the owner's list holds an entry with that id |
| Settings.ReleaseTwiceCallsNothing | monitor@astraext.github.io/src/config.js:115-130 | a second `clear` of the same owner makes no store call |
| Settings.ReleaseCallsReleaseFrom | monitor@astraext.github.io/src/config.js:131-136 | every call a `clear` inside `clearAll` makes releases something recorded in the tables as they were before `clearAll` |
| Bindings.Lookup | monitor@astraext.github.io/src/config.js:81 | reading a property of an owner's record finds a value exactly when the property is recorded, and that binding is in the record |
| Bindings.Assign | monitor@astraext.github.io/src/config.js:81 | assigning a property makes it map to the key, keeps every other property's key, and adds one entry only when the property is new |
| Bindings.AssignKeepsUnique | monitor@astraext.github.io/src/config.js:81 | assignment never records a property twice |
| Bindings.Delete | monitor@astraext.github.io/src/config.js:86 | deleting a property makes it absent and keeps every other property's key |
| Bindings.DeleteKeepsUnique | monitor@astraext.github.io/src/config.js:86 | deletion never records a property twice |
| Bindings.UnbindCalls | monitor@astraext.github.io/src/config.js:120-121 | one unbind call per binding, in the record's order |
| Bindings.UnbindCallsOncePerProperty | monitor@astraext.github.io/src/config.js:120-121 | releasing a record unbinds each of its properties exactly once and nothing else |
| Bindings.Properties | monitor@astraext.github.io/src/config.js:120 | the properties a `for…in` over the record enumerates include every bound property |
| Connections.DisconnectCalls | monitor@astraext.github.io/src/config.js:126-127 | one disconnect call per subscription, with its id, in list order |
| Connections.Ids | monitor@astraext.github.io/src/config.js:126-127 | the ids of a subscription list, one per entry, in order |
| Connections.DisconnectCallsCountIds | monitor@astraext.github.io/src/config.js:126-127 | releasing a list calls `disconnect(id)` once for every entry that carries `id` |
| Connections.SpliceSweep | monitor@astraext.github.io/src/config.js:103-109 | the walk as written loses no entry: the kept and removed entries together are the original list, as a multiset |
| Connections.SweepFromRest | monitor@astraext.github.io/src/config.js:103-109 | the walk resumed at iterator position `next` keeps the entries before `next` and then sweeps the rest as `SpliceSweep` does |
| Connections.SpliceWalk | monitor@astraext.github.io/src/config.js:102-110 | the `for…of` loop with `indexOf` and in-place `splice` leaves exactly the list `SpliceSweep` keeps and disconnects exactly the entries it removes, in order |
| Connections.SweepRemovesOnlySelected | monitor@astraext.github.io/src/config.js:104-105 | an entry is removed only if the signal argument selects it: null or empty selects everything, otherwise only entries with that signal |
| Connections.UnselectedEntriesStay | monitor@astraext.github.io/src/config.js:104-105 | every copy of an entry with another signal stays in the list |
| Connections.Evens | monitor@astraext.github.io/src/config.js:103-109 | the entries at positions 0, 2, 4 and so on, in order |
| Connections.Odds | monitor@astraext.github.io/src/config.js:103-109 | the entries at positions 1, 3, 5 and so on, in order |
| Connections.SweepAllAlternates | monitor@astraext.github.io/src/config.js:103-109 | with no signal filter the walk removes exactly the entries at even positions and keeps those at odd positions |
| Connections.DisconnectAllLeavesSubscriptions | monitor@astraext.github.io/src/config.js:112-114 | `disconnectAll` on two or more subscriptions leaves the second one connected and recorded |
| Connections.TwoSubscriptionsOneSurvives | monitor@astraext.github.io/src/config.js:103-109 | two subscriptions and no signal: one is disconnected and the other survives |
| Connections.Retain | monitor@astraext.github.io/src/config.js:97-111 | the intended result keeps only entries the signal argument does not select, and never grows |
| Connections.RetainMembers | monitor@astraext.github.io/src/config.js:97-111 | the intended result keeps an entry exactly when it was in the list and is not selected (both directions) |
| Connections.Released | monitor@astraext.github.io/src/config.js:97-111 | the intended removals are all selected, and together with what is kept make up the list as a multiset |
| Connections.RemoveFromRest | monitor@astraext.github.io/src/config.js:103-109 | a walk that does not advance after a removal, resumed at `next`, keeps the entries before `next` and then does the intended removal on the rest |
| Connections.RemoveEvery | monitor@astraext.github.io/src/config.js:102-110 | the loop that stays on the freed slot leaves exactly `Retain` and disconnects exactly `Released`, in order |
| Connections.RetainWithoutFilterIsEmpty | monitor@astraext.github.io/src/config.js:112-114 | the intended `disconnectAll` empties the list and disconnects every entry in order |
| Connections.SweepMatchesIntentWhenSeparated | monitor@astraext.github.io/src/config.js:103-109 | when no two selected entries are adjacent, the walk as written removes exactly what was intended |
| Connections.SweepMissesWhenAdjacent | monitor@astraext.github.io/src/config.js:103-109 | two adjacent selected entries make the walk keep a list different from the intended one |
| PanelHeader.ScaleFactor | monitor@astraext.github.io/src/header.js:155-161 | the theme context's scale factor, or 1 when the context has no `get_scale_factor` |
| PanelHeader.StyledHeight | monitor@astraext.github.io/src/header.js:95-99 | an override strictly between 15 and 80 is the height; otherwise the height is the parent height less 4, capped at 32, times the scale factor |
| PanelHeader.SetStyleStep | monitor@astraext.github.io/src/header.js:84-101 | no parent or no allocation changes nothing; any change caches the parent height and override and restyles the box with `StyledHeight` |
| PanelHeader.SetStyleIdempotent | monitor@astraext.github.io/src/header.js:91-93 | a second `setStyle` with the same inputs changes nothing |
| PanelHeader.SetStyleCachesUnreducedHeight | monitor@astraext.github.io/src/header.js:89-95 | the cache holds the parent height before the 4-pixel reduction, an unset height read as 0, together with the override |
| PanelHeader.FirstCallStyles | monitor@astraext.github.io/src/header.js:43 | from the initial cache `{-1, -1}` the first call with a non-negative parent height styles the box |
| PanelHeader.OverrideChangeRestyles | monitor@astraext.github.io/src/header.js:91-99 | a changed override that applies becomes the box height whatever the parent height |
| PanelHeader.FallbackScaleIsOne | monitor@astraext.github.io/src/header.js:155-161 | without `get_scale_factor` the height is the capped parent height unscaled |
| PanelHeader.Header.constructor | monitor@astraext.github.io/src/header.js:28-43 | a header starts with the cache `{-1, -1}`, no box and no child calls |
| PanelHeader.Header.AddBox | monitor@astraext.github.io/src/header.js:46-54 | the constructor gives the header its inner box |
| PanelHeader.Header.Create | monitor@astraext.github.io/src/header.js:28-80 | building a header throws exactly when there is no store; otherwise it has its box and initial cache, and exactly one height-override subscription was appended to its list |
| PanelHeader.Header.SetStyle | monitor@astraext.github.io/src/header.js:84-101 | the imperative `setStyle` changes the cache and box style exactly as `SetStyleStep` says |
| PanelHeader.Header.Route | monitor@astraext.github.io/src/header.js:102-125 | a child call goes to the box when the box exists and to the header's own container otherwise, and never to both |
| PanelHeader.Header.InsertChildAbove | monitor@astraext.github.io/src/header.js:102-107 | `insert_child_above` goes to the box when it exists, otherwise to the superclass |
| PanelHeader.Header.InsertChildAtIndex | monitor@astraext.github.io/src/header.js:108-113 | `insert_child_at_index` goes to the box when it exists, otherwise to the superclass |
| PanelHeader.Header.InsertChildBelow | monitor@astraext.github.io/src/header.js:114-119 | `insert_child_below` goes to the box when it exists, otherwise to the superclass |
| PanelHeader.Header.RemoveChildCall | monitor@astraext.github.io/src/header.js:120-125 | `remove_child` goes to the box when it exists, otherwise to the superclass |
| PanelHeader.Header.Destroy | monitor@astraext.github.io/src/header.js:162-163 | `destroy` clears the header's owner: it is gone from both tables, and every binding and subscription it held is released; without a store it throws and changes neither the tables nor the log; the settings handle is never changed |
| PanelHeader.HeaderLifecycle | monitor@astraext.github.io/src/header.js:76 | building and then destroying a header for a fresh owner logs one connect and the matching disconnect, leaves both tables as they were, and the store has issued exactly one id |
| DBusSignal.CreateItem | flypie@schneegans.github.com/src/common/actions/DBusSignal.js:81-90 | throws exactly for `null`; a string is the id; a record whose `id` is neither missing nor null gives that id; anything else gives `''`; the item always has an `onSelect` that does nothing |
| DBusSignal.GetWidget | flypie@schneegans.github.com/src/common/actions/DBusSignal.js:62-74 | the editor field is labelled ID and fails exactly for `null` |
| DBusSignal.ReportEdit | flypie@schneegans.github.com/src/common/actions/DBusSignal.js:71-72 | the editor always reports the record form, with a usable `id` equal to the entered text |
| DBusSignal.CreatedItemsAreActions | flypie@schneegans.github.com/src/common/actions/DBusSignal.js:33 | the descriptor's class is ACTION and every item it creates is an action |
| DBusSignal.DefaultDataGivesEmptyId | flypie@schneegans.github.com/src/common/actions/DBusSignal.js:51-53 | the default data is `{id: ''}` and an item made from it has the id `''` |
| DBusSignal.WidgetAgreesWithCreateItem | flypie@schneegans.github.com/src/common/actions/DBusSignal.js:63-68 | the editor starts from the same id `createItem` uses, and fails on the same inputs |
| DBusSignal.EditRoundTrip | flypie@schneegans.github.com/src/common/actions/DBusSignal.js:71-72 | an id entered in the editor is the id of the item created from the reported data, and the editor shows it again |
| DBusSignal.EditingKeepsItem | flypie@schneegans.github.com/src/common/actions/DBusSignal.js:62-90 | saving the shown string id through the editor keeps the created item the same and turns legacy string data into the record form |
| CustomMenu.CreateItem | flypie@schneegans.github.com/src/common/menus/CustomMenu.js:47-49 | the created menu keeps `centered` and starts with no children |
| CustomMenu.CreatedItemsAreMenus | flypie@schneegans.github.com/src/common/menus/CustomMenu.js:20-50 | the descriptor's class is MENU and it has no configuration; created items are menus with no `onSelect` |
| DefaultMenu.SpliceIndex | flypie@schneegans.github.com/src/extension/DefaultMenu.js:129 | the insertion point is within the array, and a start inside the array is used as it is |
| DefaultMenu.SpliceInsert | flypie@schneegans.github.com/src/extension/DefaultMenu.js:129 | `splice(i, 0, x)` removes nothing: the result is one longer, earlier elements stay, the item is at the point, and later elements shift up by one |
| DefaultMenu.SpliceInsertAddsOne | flypie@schneegans.github.com/src/extension/DefaultMenu.js:138 | an insertion adds exactly the item to the elements, as a multiset |
| DefaultMenu.SpliceInsertTwice | flypie@schneegans.github.com/src/extension/DefaultMenu.js:129-145 | the second insertion counts in the grown array, so index `j + 1` lands before the element originally at `j` |
| DefaultMenu.Get | flypie@schneegans.github.com/src/extension/DefaultMenu.js:27-148 | the finished menu is the literal's root with its children in the documented order of eight entries |
| DefaultMenu.RootSettings | flypie@schneegans.github.com/src/extension/DefaultMenu.js:29-36 | the root is a CustomMenu with empty data, id 0, `centered` false and shortcut `<Primary>space` |
| DefaultMenu.Names | flypie@schneegans.github.com/src/extension/DefaultMenu.js:36-124 | the names of a sequence of entries, one per entry, in order |
| DefaultMenu.DefaultOrderNames | flypie@schneegans.github.com/src/extension/DefaultMenu.js:36-145 | the eight top-level names in order, with Previous Workspace directly before Running Apps |
| DefaultMenu.SoundSubmenu | flypie@schneegans.github.com/src/extension/DefaultMenu.js:37-78 | Sound is a CustomMenu of four Shortcut entries in which only Next Title (90) and Previous Title (270) have fixed angles |
| DefaultMenu.Flatten | flypie@schneegans.github.com/src/extension/DefaultMenu.js:29-127 | every entry of the listed entries appears in the depth-first listing |
| DefaultMenu.FlattenDefaultOrder | flypie@schneegans.github.com/src/extension/DefaultMenu.js:36-145 | depth first, the default menu is Sound, its four entries, then the other seven top-level entries |
| DefaultMenu.ShortcutDataForms | flypie@schneegans.github.com/src/extension/DefaultMenu.js:47-143 | shortcut data occurs both as a bare string and as the record `{shortcut: …}`, and every Shortcut entry at any depth uses one of the two |

## Left out

- The settings store itself, meaning change signals and the behaviour of
  `Gio.Settings.bind`/`unbind`, is abstract. The store is a key/value map
  and an id counter, and each call into it is an entry in the `calls` log.
  The schema is the set of keys of that map: reading, writing or binding any
  other key fails with `UnknownKey`. The schema's value types are not
  modelled, so a write with a value of the wrong type is not an error.
- `JSON.stringify` and `JSON.parse` are parameters. The model does not check
  that the parser inverts the serialiser; `JsonRoundTrip` assumes it of its
  argument.
- Settings.Config.Get: `get_value`, `get_boolean`, `get_string`, `get_int` and
  `get_double` share one method. The store's typed conversions are not
  modelled.
- Settings.Config.ClearAll: a JavaScript `Map` enumerates owners in insertion
  order. The model picks owners in any order and proves its postcondition
  for every order.
- Settings.Config.Attach and Settings.Config.Detach stand for the extension
  assigning and clearing `Config.settings` when it is enabled and disabled.
  That code is not part of this model.
- Settings.Config.Bind: `flags` is an opaque number, and the `DEFAULT`
  default argument is not modelled.
- Callbacks passed to `connect` are not modelled, since only their
  subscription is recorded. Objects are compared by identity through the
  opaque `Owner` handle.
- PanelHeader.Header.SetStyle: `Config.get_int('headers-height-override')` is
  passed in as the `override` parameter. Its failure without a store is not
  modelled here. Heights are integers, whereas Clutter heights are
  floating-point numbers.
- PanelHeader.Header.Create: the constructor's widget properties, tooltip and
  event handlers are left out. So are the `notify::allocation` handler and
  its low-priority deferral.
- PanelHeader.Header.Destroy: closing and destroying the header's menu and the
  superclass `destroy` are left out. Only the `Config.clear` call is
  modelled.
- `update`, `onOpenMenu` and the menu's maximum-height computation in
  `header.js` use the global stage and floating-point division, and are not
  modelled.
- Translations (`_()`) are left out. Names are the untranslated strings.
  Descriptor subtitles and descriptions are left out.
- DBusSignal.GetWidget: the GTK text widget itself is left out. The model
  keeps its caption, tooltip and initial id, and the record its callback
  reports (`ReportEdit`).
- DBusSignal.CreateItem: `undefined` as the data argument is not a value of
  the model. `null` stands for both, and both throw.
- The item registry and the other action and menu types are not part of
  this model.

## Findings

| source | as written | input that shows it | evidently intended | confidence | as-written member | corrected member |
|---|---|---|---|---|---|---|
| monitor@astraext.github.io/src/config.js:103-109 | `disconnect` splices the entry it has just read out of the list it is iterating with `for…of`, so the entry that moves into the freed slot is skipped | `connect(o, 'changed::a')` and `connect(o, 'changed::b')`, then `disconnectAll(o)`: only the first subscription is disconnected, and the second stays connected and recorded | every selected subscription is disconnected and removed, so `disconnectAll` empties the owner's list | not executed | Connections.TwoSubscriptionsOneSurvives | Connections.RetainWithoutFilterIsEmpty |
