/**
 * The D-Bus Signal action: a dummy action whose only configuration is an
 * id passed along with the D-Bus signals emitted on selection. Its stored
 * data is the record `{id}`, or, from older versions, a bare string.
 */
module DBusSignal {
  import opened Js
  import opened Wrappers
  import opened Items

  /** The data newly created items of this type start with: `{id: ''}`. */
  const DefaultData: Value := Object(map["id" := Str("")])

  /** The type descriptor returned by `getDBusSignalAction()`. */
  const Descriptor: Items.Descriptor :=
    Items.Descriptor(Action, "D-Bus Signal", "flypie-action-dbus-signal-symbolic-#5a6", Some(ItemConfig(DefaultData)))

  /** A record whose `id` passes the loose `!= undefined` test: present and not null. */
  predicate HasUsableId(data: Value)
  {
    data.Object? && "id" in data.fields && !data.fields["id"].Null?
  }

  /**
   * `createItem(data)`. A string is the id itself; any other value is read
   * as a record, which throws for `null`; a missing or null `id` gives ''.
   */
  function CreateItem(data: Value): (r: Result<Item, ScriptError>)
    ensures r.Err? <==> data.Null?
    ensures r.Ok? ==> r.value.ActionItem? && r.value.onSelect == DoNothing
    ensures data.Str? ==> r.value.id == data
    ensures HasUsableId(data) ==> r.value.id == data.fields["id"]
    ensures !data.Null? && !data.Str? && !HasUsableId(data) ==> r.value.id == Str("")
  {
    var id :=
      if data.Str? then Ok(data)
      else if data.Null? then Err(TypeError)
      else if data.Object? && "id" in data.fields && data.fields["id"] != Null then Ok(data.fields["id"])
      else Ok(Str(""));
    if id.Err? then Err(id.error) else Ok(ActionItem(id.value, DoNothing))
  }

  /** The text field the menu editor shows: its caption and the id it starts with. */
  datatype TextWidget = TextWidget(caption: string, tooltip: string, initial: Value)

  /** `config.getWidget(data, …)`: the editor field for the item's id. */
  function GetWidget(data: Value): (r: Result<TextWidget, ScriptError>)
    ensures r.Err? <==> data.Null?
    ensures r.Ok? ==> r.value.caption == "ID"
  {
    if data.Str? then Ok(TextWidget("ID", "This will be passed to the D-Bus signal.", data))
    else if data.Null? then Err(TypeError)
    else
      var id := if data.Object? && "id" in data.fields && data.fields["id"] != Null then data.fields["id"] else Str("");
      Ok(TextWidget("ID", "This will be passed to the D-Bus signal.", id))
  }

  /** What the editor field's callback reports for a new id: always the record form. */
  function ReportEdit(newId: string): (data: Value)
    ensures HasUsableId(data) && data.fields["id"] == Str(newId)
  {
    Object(map["id" := Str(newId)])
  }

  /** The descriptor is an action, and every item it creates is one. */
  lemma CreatedItemsAreActions(data: Value)
    ensures Descriptor.itemClass == Action
    ensures CreateItem(data).Ok? ==> Conforms(Descriptor.itemClass, CreateItem(data).value)
  {
  }

  /** An item made from the default data has the empty id. */
  lemma DefaultDataGivesEmptyId()
    ensures Descriptor.config == Some(ItemConfig(DefaultData))
    ensures CreateItem(DefaultData) == Ok(ActionItem(Str(""), DoNothing))
  {
  }

  /** The editor starts from the id `createItem` would use, and fails exactly where it fails. */
  lemma WidgetAgreesWithCreateItem(data: Value)
    ensures GetWidget(data).Ok? <==> CreateItem(data).Ok?
    ensures GetWidget(data).Ok? ==> GetWidget(data).value.initial == CreateItem(data).value.id
  {
  }

  /** An id entered in the editor is the id of the item created from what it reports. */
  lemma EditRoundTrip(newId: string)
    ensures CreateItem(ReportEdit(newId)) == Ok(ActionItem(Str(newId), DoNothing))
    ensures GetWidget(ReportEdit(newId)).value.initial == Str(newId)
  {
  }

  /**
   * Saving an item's shown id through the editor keeps the item as it was
   * and replaces legacy string data by the record form.
   */
  lemma EditingKeepsItem(data: Value, shown: string)
    requires GetWidget(data).Ok? && GetWidget(data).value.initial == Str(shown)
    ensures CreateItem(ReportEdit(shown)) == CreateItem(data)
    ensures ReportEdit(shown).Object?
  {
    WidgetAgreesWithCreateItem(data);
  }
}
