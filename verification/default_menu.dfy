/**
 * The menu Fly-Pie installs when none is configured: a stored-menu tree
 * written as a literal, whose top-level children are then grown by two
 * insertions with `Array.prototype.splice`.
 */
module DefaultMenu {
  import opened Js
  import opened Wrappers

  /**
   * An entry of a stored menu: a `Leaf` record has no children property at
   * all, a `Submenu` record has one. Names are the untranslated strings.
   */
  datatype Entry =
    | Leaf(name: string, icon: string, itemType: string, data: Value, angle: int)
    | Submenu(name: string, icon: string, itemType: string, data: Value, angle: int, children: seq<Entry>)

  /** The root record of a stored menu, which carries the menu-wide settings. */
  datatype StoredMenu = StoredMenu(
    name: string, icon: string, shortcut: string, centered: bool, id: int,
    itemType: string, data: Value, children: seq<Entry>)

  /** The record form of shortcut data, `{shortcut: …}`. */
  function ShortcutRecord(shortcut: string): Value
  {
    Object(map["shortcut" := Str(shortcut)])
  }

  const Mute := Leaf("Mute", "flypie-multimedia-mute-symbolic-#853", "Shortcut", Str("AudioMute"), -1)
  const PlayPause := Leaf("Play / Pause", "flypie-multimedia-playpause-symbolic-#853", "Shortcut", Str("AudioPlay"), -1)
  const NextTitle := Leaf("Next Title", "flypie-multimedia-next-symbolic-#853", "Shortcut", Str("AudioNext"), 90)
  const PreviousTitle := Leaf("Previous Title", "flypie-multimedia-previous-symbolic-#853", "Shortcut", Str("AudioPrev"), 270)

  const Sound := Submenu("Sound", "flypie-multimedia-symbolic-#c86", "CustomMenu", EmptyObject, -1,
    [Mute, PlayPause, NextTitle, PreviousTitle])
  const Favorites := Leaf("Favorites", "flypie-menu-favorites-symbolic-#da3", "Favorites", EmptyObject, -1)
  const MaximizeWindow := Leaf("Maximize Window", "flypie-window-maximize-symbolic-#b68", "Shortcut", Str("<Alt>F10"), -1)
  const FlyPieSettings := Leaf("Fly-Pie Settings", "flypie-menu-system-symbolic-#3ab", "Command",
    Str("gnome-extensions prefs flypie@schneegans.github.com"), -1)
  const CloseWindow := Leaf("Close Window", "flypie-window-close-symbolic-#a33", "Shortcut", Str("<Alt>F4"), -1)
  const RunningApps := Leaf("Running Apps", "flypie-menu-running-apps-symbolic-#65a", "RunningApps",
    Object(map["activeWorkspaceOnly" := Bool(false), "appGrouping" := Bool(true),
               "hoverPeeking" := Bool(true), "nameRegex" := Str("")]), -1)

  const NextWorkspace := Leaf("Next Workspace", "flypie-go-right-symbolic-#6b5", "Shortcut",
    ShortcutRecord("<Control><Alt>Right"), -1)
  const PreviousWorkspace := Leaf("Previous Workspace", "flypie-go-left-symbolic-#6b5", "Shortcut",
    ShortcutRecord("<Control><Alt>Left"), -1)

  /** The tree as the literal writes it, before the insertions. */
  const Literal := StoredMenu("Example Menu", "flypie-symbolic-#46a", "<Primary>space", false, 0,
    "CustomMenu", EmptyObject, [Sound, Favorites, MaximizeWindow, FlyPieSettings, CloseWindow, RunningApps])

  /** The top-level entries of the finished default menu, in the order the menu shows them. */
  const DefaultOrder := [Sound, Favorites, NextWorkspace, MaximizeWindow, FlyPieSettings, CloseWindow, PreviousWorkspace, RunningApps]

  /**
   * Where `splice(start, …)` acts in an array of `length` elements: a
   * negative start counts from the end, and both ends are clamped.
   */
  function SpliceIndex(length: nat, start: int): (i: nat)
    ensures i <= length
    ensures 0 <= start <= length ==> i == start
  {
    if start < 0 then (if length + start < 0 then 0 else length + start)
    else if start > length then length
    else start
  }

  /**
   * `s.splice(start, 0, item)`: nothing is removed, the elements before the
   * insertion point stay where they are, the item takes that point and
   * every later element moves up by one.
   */
  function SpliceInsert<T>(s: seq<T>, start: int, item: T): (r: seq<T>)
    ensures |r| == |s| + 1
    ensures var i := SpliceIndex(|s|, start);
            && (forall k :: 0 <= k < i ==> r[k] == s[k])
            && r[i] == item
            && (forall k :: i <= k < |s| ==> r[k + 1] == s[k])
  {
    var i := SpliceIndex(|s|, start);
    s[..i] + [item] + s[i..]
  }

  /** An insertion adds the one item and loses nothing. */
  lemma SpliceInsertAddsOne<T>(s: seq<T>, start: int, item: T)
    ensures multiset(SpliceInsert(s, start, item)) == multiset(s) + multiset{item}
  {
    var i := SpliceIndex(|s|, start);
    assert s == s[..i] + s[i..];
  }

  /**
   * Two insertions in a row: the second index counts in the grown
   * sequence, so inserting at `j + 1` after inserting at `i <= j` places
   * the second item before the element that was at `j`.
   */
  lemma SpliceInsertTwice<T>(s: seq<T>, i: nat, j: nat, x: T, y: T)
    requires i <= j <= |s|
    ensures SpliceInsert(SpliceInsert(s, i, x), j + 1, y) == s[..i] + [x] + s[i..j] + [y] + s[j..]
  {
    var once := SpliceInsert(s, i, x);
    var twice := SpliceInsert(once, j + 1, y);
    var expected := s[..i] + [x] + s[i..j] + [y] + s[j..];
    assert |twice| == |expected|;
    forall k | 0 <= k < |twice|
      ensures twice[k] == expected[k]
    {
      if k < i {
        assert twice[k] == once[k] == s[k];
      } else if k == i {
        assert twice[k] == once[k] == x;
      } else if k <= j {
        assert twice[k] == once[k] == s[k - 1];
      } else if k == j + 1 {
        assert twice[k] == y;
      } else {
        assert twice[k] == once[k - 1] == s[k - 2];
      }
    }
  }

  /** `DefaultMenu.get()`: the literal with Next and Previous Workspace inserted. */
  method Get() returns (menu: StoredMenu)
    ensures menu == Literal.(children := DefaultOrder)
  {
    menu := Literal;
    var children := menu.children;
    children := SpliceInsert(children, 2, NextWorkspace);
    children := SpliceInsert(children, 6, PreviousWorkspace);
    SpliceInsertTwice(Literal.children, 2, 5, NextWorkspace, PreviousWorkspace);
    assert Literal.children[..2] == [Sound, Favorites];
    assert Literal.children[2..5] == [MaximizeWindow, FlyPieSettings, CloseWindow];
    assert Literal.children[5..] == [RunningApps];
    menu := menu.(children := children);
  }

  /** The root is a centered-off custom menu with empty data, id 0, opened by Ctrl+Space. */
  lemma RootSettings()
    ensures var menu := Literal.(children := DefaultOrder);
            && menu.itemType == "CustomMenu" && menu.data == EmptyObject
            && menu.id == 0 && !menu.centered && menu.shortcut == "<Primary>space"
  {
  }

  /** The names of a sequence of entries, in order. */
  function Names(es: seq<Entry>): (ns: seq<string>)
    ensures |ns| == |es|
    ensures forall k :: 0 <= k < |es| ==> ns[k] == es[k].name
  {
    if es == [] then [] else [es[0].name] + Names(es[1..])
  }

  /**
   * The finished menu has eight top-level entries, and Previous Workspace
   * sits directly before Running Apps.
   */
  lemma DefaultOrderNames()
    ensures Names(DefaultOrder) == ["Sound", "Favorites", "Next Workspace", "Maximize Window",
                                    "Fly-Pie Settings", "Close Window", "Previous Workspace", "Running Apps"]
    ensures DefaultOrder[6] == PreviousWorkspace && DefaultOrder[7] == RunningApps
  {
  }

  /**
   * The Sound entry is a custom menu of four shortcuts, in which only Next
   * Title and Previous Title have fixed angles, 90 and 270 degrees.
   */
  lemma SoundSubmenu()
    ensures Sound.itemType == "CustomMenu" && Sound.Submenu? && |Sound.children| == 4
    ensures forall k :: 0 <= k < 4 ==> Sound.children[k].itemType == "Shortcut"
    ensures forall k :: 0 <= k < 4 ==> (Sound.children[k].angle == -1 <==> k < 2)
    ensures Sound.children[2].angle == 90 && Sound.children[3].angle == 270
  {
  }

  /** Every entry of a sequence of entries and of their submenus, depth first. */
  function Flatten(es: seq<Entry>): (all: seq<Entry>)
    ensures forall e :: e in es ==> e in all
  {
    if es == [] then []
    else FlattenEntry(es[0]) + Flatten(es[1..])
  }

  /** An entry followed by every entry of its submenu, depth first. */
  function FlattenEntry(e: Entry): (all: seq<Entry>)
    ensures |all| > 0 && all[0] == e
    decreases e, 1
  {
    [e] + (if e.Submenu? then FlattenChildren(e, 0) else [])
  }

  /** The flattened children of `e` from the `i`-th on. */
  function FlattenChildren(e: Entry, i: nat): seq<Entry>
    requires e.Submenu?
    decreases e, 0, |e.children| - i
  {
    if i >= |e.children| then []
    else FlattenEntry(e.children[i]) + FlattenChildren(e, i + 1)
  }

  /** Flattening entries none of which has children gives them back. */
  lemma {:induction false} FlattenLeaves(es: seq<Entry>)
    requires forall k :: 0 <= k < |es| ==> es[k].Leaf?
    ensures Flatten(es) == es
  {
    if es != [] {
      FlattenLeaves(es[1..]);
    }
  }

  /** A submenu whose entries have no children flattens to those entries. */
  lemma {:induction false} FlattenChildrenLeaves(e: Entry, i: nat)
    requires e.Submenu? && i <= |e.children|
    requires forall k :: 0 <= k < |e.children| ==> e.children[k].Leaf?
    ensures FlattenChildren(e, i) == e.children[i..]
    decreases |e.children| - i
  {
    if i < |e.children| {
      FlattenChildrenLeaves(e, i + 1);
    }
  }

  /** The default menu flattened: the Sound submenu, its four entries, then the other top-level entries. */
  lemma FlattenDefaultOrder()
    ensures Flatten(DefaultOrder) == [Sound] + Sound.children + DefaultOrder[1..]
  {
    FlattenChildrenLeaves(Sound, 0);
    FlattenLeaves(DefaultOrder[1..]);
    assert Sound.children[0..] == Sound.children;
  }

  /** Shortcut data in one of the two stored forms: a bare string, or `{shortcut: …}`. */
  predicate ShortcutData(data: Value)
  {
    data.Str? || (data.Object? && data.fields.Keys == {"shortcut"} && data.fields["shortcut"].Str?)
  }

  /** Every Shortcut entry of `es` has shortcut data in one of the two forms. */
  predicate ShortcutsWellFormed(es: seq<Entry>)
  {
    forall k :: 0 <= k < |es| && es[k].itemType == "Shortcut" ==> ShortcutData(es[k].data)
  }

  lemma ShortcutsWellFormedAppend(a: seq<Entry>, b: seq<Entry>)
    requires ShortcutsWellFormed(a) && ShortcutsWellFormed(b)
    ensures ShortcutsWellFormed(a + b)
  {
    forall k | 0 <= k < |a + b| && (a + b)[k].itemType == "Shortcut"
      ensures ShortcutData((a + b)[k].data)
    {
      if k >= |a| {
        assert (a + b)[k] == b[k - |a|];
      }
    }
  }

  /**
   * Both forms of shortcut data occur in the default menu, and every
   * Shortcut entry, at any depth, uses one of them.
   */
  lemma ShortcutDataForms()
    ensures MaximizeWindow in DefaultOrder && MaximizeWindow.data.Str?
    ensures NextWorkspace in DefaultOrder && NextWorkspace.data.Object?
    ensures forall e :: e in Flatten(DefaultOrder) && e.itemType == "Shortcut" ==> ShortcutData(e.data)
  {
    assert DefaultOrder[3] == MaximizeWindow && DefaultOrder[2] == NextWorkspace;
    assert ShortcutsWellFormed([Sound] + Sound.children);
    assert ShortcutsWellFormed(DefaultOrder[1..]) by {
      assert ShortcutRecord("<Control><Alt>Right").fields.Keys == {"shortcut"};
      assert ShortcutRecord("<Control><Alt>Left").fields.Keys == {"shortcut"};
    }
    ShortcutsWellFormedAppend([Sound] + Sound.children, DefaultOrder[1..]);
    FlattenDefaultOrder();
    var all := Flatten(DefaultOrder);
    forall e | e in all && e.itemType == "Shortcut"
      ensures ShortcutData(e.data)
    {
      var k :| 0 <= k < |all| && all[k] == e;
    }
  }
}
