/** The Custom Menu type: a menu whose children are configured by the user. */
module CustomMenu {
  import opened Wrappers
  import opened Items

  /** The type descriptor returned by `getCustomMenu()`: a menu with no editor configuration. */
  const Descriptor: Items.Descriptor := Items.Descriptor(Menu, "Custom Menu", "flypie-symbolic-#46a", None)

  /**
   * `createItem(centered)`: a menu item that keeps the flag and starts
   * without children; the menu fills them in from the stored tree.
   */
  function CreateItem(centered: bool): (item: Item)
    ensures item.MenuItem? && item.centered == centered && item.children == []
  {
    MenuItem(centered, [])
  }

  /**
   * The descriptor is a menu without default data, and what it creates is
   * a menu item, which has no `onSelect` to activate.
   */
  lemma CreatedItemsAreMenus(centered: bool)
    ensures Descriptor.itemClass == Menu && Descriptor.config.None?
    ensures Conforms(Descriptor.itemClass, CreateItem(centered))
    ensures !CreateItem(centered).ActionItem?
  {
  }
}
