/**
 * The settings store behind the Astra Monitor settings facade, seen from
 * the outside: the values it holds, the ids it issues, and the calls the
 * facade makes into it.
 */
module SettingsStore {
  import opened Js

  /** The identity of a widget or object that owns bindings and subscriptions. */
  datatype Owner = Owner(handle: nat)

  /**
   * A store handle: the current value of every key in its schema and the
   * id the next `connect` will return.
   */
  datatype Store = Store(values: map<string, Value>, nextId: nat)

  /** The typed setter the facade picks for a `set` call. */
  datatype Setter = SetBoolean | SetString | SetInt | SetDouble | SetValue

  /** One call made into the store (or into the static `unbind` helper). */
  datatype StoreCall =
    | SetCall(setter: Setter, key: string, value: Value)
    | BindCall(key: string, owner: Owner, property: string, flags: nat)
    | UnbindCall(owner: Owner, property: string)
    | ConnectCall(signal: string, id: nat)
    | DisconnectCall(id: nat)

  /** What the facade throws. */
  datatype ConfigError =
    | SettingsNotValid        // no store is attached
    | UnknownKey(key: string) // the store has no such key in its schema
}
