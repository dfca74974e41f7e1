/**
 * The Fly-Pie item format shared by every action and menu type: the two
 * item classes, what a type descriptor holds, and the items the
 * descriptors create when a menu is opened.
 */
module Items {
  import opened Js
  import opened Wrappers

  /** The two fundamental item classes: actions can be selected, menus hold children. */
  datatype ItemClass = Action | Menu

  /** The `onSelect` callbacks the modelled types install. */
  datatype Handler = DoNothing

  /**
   * A created item. An action carries its configured id and its `onSelect`;
   * a menu carries `centered` and its children, and has no `onSelect`.
   */
  datatype Item =
    | ActionItem(id: Value, onSelect: Handler)
    | MenuItem(centered: bool, children: seq<Item>)

  /** The editor configuration of a type: the data newly created items start with. */
  datatype ItemConfig = ItemConfig(defaultData: Value)

  /**
   * A type descriptor. Names are opaque strings (translation is not
   * modelled); the subtitle and description are left out.
   */
  datatype Descriptor = Descriptor(itemClass: ItemClass, name: string, icon: string, config: Option<ItemConfig>)

  /** An item belongs to a class: actions are selectable, menus are not. */
  predicate Conforms(c: ItemClass, item: Item)
  {
    match c
    case Action => item.ActionItem?
    case Menu => item.MenuItem?
  }

  /** What JavaScript throws when a property of `null` is read. */
  datatype ScriptError = TypeError
}
